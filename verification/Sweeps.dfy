/** The sweeps over whole key spaces: what one page key writes, that nothing it writes disturbs
    another key, and what any log of processed keys leaves behind. */
module Sweeps {
  import opened Common
  import opened Years
  import opened Graph
  import opened Aggregates

  // ---------------------------------------------------------------- derived edges change nothing

  /** The graphs differ at most in HAS_STYLE edges. */
  ghost predicate SameBase(g: Graph, h: Graph) {
    && g.nodes == h.nodes
    && (forall e: Edge :: e.rel != HAS_STYLE ==> At(h.edges, e) == At(g.edges, e))
  }

  lemma SameInto(g: Graph, h: Graph, n: Node, near: Relation)
    requires SameBase(g, h) && near != HAS_STYLE
    ensures Into(h, n, near) == Into(g, n, near)
  {
    forall e: Edge | e.rel == near ensures e in h.edges <==> e in g.edges { SameMember(g, h, e); }
  }

  lemma SameMember(g: Graph, h: Graph, e: Edge)
    requires SameBase(g, h) && e.rel != HAS_STYLE
    ensures e in h.edges <==> e in g.edges
  {
    assert At(h.edges, e) == At(g.edges, e);
  }

  lemma SameReached(g: Graph, h: Graph, n: Node, near: Relation, far: Relation, kind: Node -> bool)
    requires SameBase(g, h) && near != HAS_STYLE && far != HAS_STYLE
    ensures Reached(h, n, near, far, kind) == Reached(g, n, near, far, kind)
  {
    SameInto(g, h, n, near);
    SameOnward(g, h, ReleasesOf(Into(g, n, near)), far, kind);
  }

  lemma SameOnward(g: Graph, h: Graph, rs: set<Node>, far: Relation, kind: Node -> bool)
    requires SameBase(g, h) && far != HAS_STYLE
    ensures Onward(h, rs, far, kind) == Onward(g, rs, far, kind)
  {
    forall e: Edge ensures e in Onward(h, rs, far, kind) <==> e in Onward(g, rs, far, kind) {
      if e.rel == far { assert At(h.edges, e) == At(g.edges, e); }
    }
  }

  lemma {:induction false} SameCopies(a: map<Edge, EdgeCell>, b: map<Edge, EdgeCell>, es: set<Edge>)
    requires forall e :: e in es ==> e in a && e in b && a[e] == b[e]
    ensures CopiesSum(a, es) == CopiesSum(b, es)
  {
    forall e | e in es ensures CopiesSum(a, es - {e}) == CopiesSum(b, es - {e}) {
      SameCopies(a, b, es - {e});
    }
  }

  lemma {:induction false} SamePairs(a: map<Edge, EdgeCell>, b: map<Edge, EdgeCell>, ps: set<(Edge, Edge)>)
    requires forall p :: p in ps ==> p.0 in a && p.0 in b && a[p.0] == b[p.0] && p.1 in a && p.1 in b && a[p.1] == b[p.1]
    ensures PairSum(a, ps) == PairSum(b, ps)
  {
    forall p | p in ps ensures PairSum(a, ps - {p}) == PairSum(b, ps - {p}) {
      SamePairs(a, b, ps - {p});
    }
  }

  /** Outside HAS_STYLE a relationship has the same cell in both graphs. */
  lemma SameCell(g: Graph, h: Graph, e: Edge)
    requires SameBase(g, h) && e.rel != HAS_STYLE && e in g.edges
    ensures e in h.edges && h.edges[e] == g.edges[e]
  {
    assert At(h.edges, e) == At(g.edges, e);
  }

  lemma SameSum(g: Graph, h: Graph, es: set<Edge>)
    requires SameBase(g, h) && forall e :: e in es ==> e in g.edges && e.rel != HAS_STYLE
    ensures (forall e :: e in es ==> e in h.edges) && CopiesSum(h.edges, es) == CopiesSum(g.edges, es)
  {
    forall e | e in es ensures e in h.edges && h.edges[e] == g.edges[e] { SameCell(g, h, e); }
    SameCopies(h.edges, g.edges, es);
  }

  lemma SameIntoCount(g: Graph, h: Graph, n: Node, near: Relation, es: set<Edge>)
    requires SameBase(g, h) && near != HAS_STYLE && es == Into(g, n, near)
    ensures Into(h, n, near) == es && CopiesSum(h.edges, es) == CopiesSum(g.edges, es)
  {
    SameInto(g, h, n, near);
    SameSum(g, h, es);
  }

  lemma SameThrough(g: Graph, h: Graph, n: Node, near: Relation, far: Relation, t: Node)
    requires SameBase(g, h) && near != HAS_STYLE && far != HAS_STYLE
    ensures Through(h, n, near, far, t) == Through(g, n, near, far, t)
  {
    SameInto(g, h, n, near);
    SameInto(g, h, t, far);
  }

  predicate SameAt(g: Graph, h: Graph, e: Edge) {
    e in g.edges && e in h.edges && g.edges[e] == h.edges[e]
  }

  ghost predicate SameCells(g: Graph, h: Graph, ps: set<(Edge, Edge)>) {
    forall p :: p in ps ==> SameAt(g, h, p.0) && SameAt(g, h, p.1)
  }

  lemma SameThroughCells(g: Graph, h: Graph, n: Node, near: Relation, far: Relation, t: Node)
    requires SameBase(g, h) && near != HAS_STYLE && far != HAS_STYLE
    ensures SameCells(g, h, Through(g, n, near, far, t))
  {
    ThroughEdges(g, n, near, far, t);
    forall p | p in Through(g, n, near, far, t)
      ensures SameAt(g, h, p.0) && SameAt(g, h, p.1)
    {
      SameCell(g, h, p.0);
      SameCell(g, h, p.1);
    }
  }

  /** The count(r) of one group of an expansion. */
  ghost function GroupCount(g: Graph, n: Node, near: Relation, far: Relation, t: Node): nat {
    PairSum(g.edges, Through(g, n, near, far, t))
  }

  lemma GroupCountOver(g: Graph, h: Graph, n: Node, near: Relation, far: Relation, t: Node, ps: set<(Edge, Edge)>)
    requires ps == Through(g, n, near, far, t) == Through(h, n, near, far, t) && SameCells(g, h, ps)
    ensures GroupCount(h, n, near, far, t) == GroupCount(g, n, near, far, t)
  {
    SamePairs(h.edges, g.edges, ps);
  }

  lemma SameGroupCount(g: Graph, h: Graph, n: Node, near: Relation, far: Relation, t: Node)
    requires SameBase(g, h) && near != HAS_STYLE && far != HAS_STYLE
    ensures GroupCount(h, n, near, far, t) == GroupCount(g, n, near, far, t)
  {
    SameThrough(g, h, n, near, far, t);
    SameThroughCells(g, h, n, near, far, t);
    GroupCountOver(g, h, n, near, far, t, Through(g, n, near, far, t));
  }

  lemma ThroughEdges(g: Graph, n: Node, near: Relation, far: Relation, t: Node)
    ensures forall p :: p in Through(g, n, near, far, t) ==> p.0 in g.edges && p.1 in g.edges && p.0.rel == near && p.1.rel == far
  {
    PairsComeFrom(Into(g, n, near), Into(g, t, far));
  }

  lemma PairsComeFrom(near: set<Edge>, far: set<Edge>)
    ensures forall p :: p in Pairs(near, far) ==> p.0 in near && p.1 in far
  {
  }

  lemma SameStyleGroups(g: Graph, h: Graph, l: Node)
    requires SameBase(g, h)
    ensures StyleGroups(h, l) == StyleGroups(g, l)
  {
    SameReached(g, h, l, ON, IS, AStyle);
    forall s ensures GroupCount(h, l, ON, IS, s) == GroupCount(g, l, ON, IS, s) { SameGroupCount(g, h, l, ON, IS, s); }
    GroupsDecideStyles(g, h, l, StyleGroups(g, l), StyleGroups(h, l));
  }

  lemma GroupsDecideStyles(g: Graph, h: Graph, l: Node, a: map<Node, nat>, b: map<Node, nat>)
    requires a == StyleGroups(g, l) && b == StyleGroups(h, l)
    requires Reached(h, l, ON, IS, AStyle) == Reached(g, l, ON, IS, AStyle)
    requires forall s :: GroupCount(h, l, ON, IS, s) == GroupCount(g, l, ON, IS, s)
    ensures a == b
  {
    StyleGroupsAre(g, l, a);
    StyleGroupsAre(h, l, b);
    assert a.Keys == b.Keys;
  }

  lemma StyleGroupsAre(g: Graph, l: Node, a: map<Node, nat>)
    requires a == StyleGroups(g, l)
    ensures a.Keys == Reached(g, l, ON, IS, AStyle)
    ensures forall s :: s in a ==> a[s] == GroupCount(g, l, ON, IS, s)
  {
  }

  // ---------------------------------------------------------------- one label

  predicate StyleExact(g: Graph, l: Node, styles: map<Node, nat>, s: Node) {
    && (HasStyle(l, s) in g.edges <==> s in styles)
    && (HasStyle(l, s) in g.edges && s in styles ==> g.edges[HasStyle(l, s)].prop == Releases(styles[s]))
  }

  /** The HAS_STYLE edges of the label are exactly its live groups with their live counts. */
  ghost predicate StylesExact(g: Graph, l: Node, styles: map<Node, nat>) {
    forall s: Node :: s.Style? ==> StyleExact(g, l, styles, s)
  }

  ghost predicate OnlyStyles(styles: map<Node, nat>) {
    forall s :: s in styles ==> s.Style?
  }

  /** The label's derived cell: gone when stale, merged and set when current. */
  function DerivedCell(l: Node, styles: map<Node, nat>, e: Edge, c: Option<EdgeCell>): Option<EdgeCell> {
    if StaleStyle(l, styles, e) then None
    else if CurrentStyle(l, styles, e) then Some(OrNew(c).(prop := Releases(styles[e.dst]))) else c
  }

  lemma DeriveStylesCells(g: Graph, l: Node, styles: map<Node, nat>)
    ensures DeriveStyles(g, l, styles).nodes == g.nodes
    ensures forall e: Edge :: At(DeriveStyles(g, l, styles).edges, e) == DerivedCell(l, styles, e, At(g.edges, e))
  {
    PrunePointwise(g, (e: Edge) => StaleStyle(l, styles, e));
    var kept := Prune(g, (e: Edge) => StaleStyle(l, styles, e));
    forall e: Edge ensures At(DeriveStyles(g, l, styles).edges, e) == DerivedCell(l, styles, e, At(g.edges, e)) {
      CurrentIsMerged(l, styles, e);
      assert At(kept.edges, e) == if StaleStyle(l, styles, e) then None else At(g.edges, e);
    }
  }

  lemma CurrentIsMerged(l: Node, styles: map<Node, nat>, e: Edge)
    ensures e in (set s | s in styles :: HasStyle(l, s)) <==> CurrentStyle(l, styles, e)
  {
  }

  lemma StyleGroupsAreStyles(g: Graph, l: Node)
    ensures OnlyStyles(StyleGroups(g, l))
  {
  }

  /** One label of a page leaves its HAS_STYLE edges equal to the live per-style counts, the
      stale ones gone, and touches no other edge. */
  lemma LabelStylesAreExact(g: Graph, l: Node)
    ensures StylesExact(DeriveStyles(g, l, StyleGroups(g, l)), l, StyleGroups(g, l))
    ensures SameBase(g, DeriveStyles(g, l, StyleGroups(g, l)))
    ensures forall e: Edge :: e.src != l ==> At(DeriveStyles(g, l, StyleGroups(g, l)).edges, e) == At(g.edges, e)
  {
    var styles := StyleGroups(g, l);
    StyleGroupsAreStyles(g, l);
    DeriveStylesCells(g, l, styles);
    var h := DeriveStyles(g, l, styles);
    forall s: Node | s.Style? ensures StyleExact(h, l, styles, s) {
      assert At(h.edges, HasStyle(l, s)) == DerivedCell(l, styles, HasStyle(l, s), At(g.edges, HasStyle(l, s)));
    }
  }

  /** The label's style edges carry no key properties, as every MERGE of one writes them. */
  ghost predicate PlainStyles(g: Graph, l: Node) {
    forall e: Edge :: e in g.edges && e.src == l && e.rel == HAS_STYLE && e.dst.Style? ==> e == HasStyle(l, e.dst)
  }

  lemma DeriveExactIsIdentity(h: Graph, l: Node, styles: map<Node, nat>)
    requires OnlyStyles(styles) && StylesExact(h, l, styles) && PlainStyles(h, l)
    ensures DeriveStyles(h, l, styles) == h
  {
    DeriveStylesCells(h, l, styles);
    var d := DeriveStyles(h, l, styles);
    forall e: Edge ensures At(d.edges, e) == At(h.edges, e) {
      assert At(d.edges, e) == DerivedCell(l, styles, e, At(h.edges, e));
      if e == HasStyle(l, e.dst) && e.dst.Style? { assert StyleExact(h, l, styles, e.dst); }
    }
    GraphExtensional(d, h);
  }

  lemma DerivedStylesArePlain(g: Graph, l: Node, styles: map<Node, nat>)
    requires PlainStyles(g, l)
    ensures PlainStyles(DeriveStyles(g, l, styles), l)
  {
    DeriveStylesCells(g, l, styles);
    var h := DeriveStyles(g, l, styles);
    forall e: Edge | e in h.edges && e.src == l && e.rel == HAS_STYLE && e.dst.Style? ensures e == HasStyle(l, e.dst) {
      assert At(h.edges, e) == DerivedCell(l, styles, e, At(g.edges, e));
    }
  }
}
