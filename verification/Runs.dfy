/** Whole runs of writes against the simple thing they stand for: a map from each release to its
    latest record. */
module Runs {
  import opened Common
  import opened Graph
  import opened Records
  import opened Projection
  import opened Transactions
  import opened BatchEquivalence
  import opened GatedBatch

  // ---------------------------------------------------------------- other writers

  /** Artist, label and master records, as far as they write the graph. */
  datatype EntityRecord =
    | ArtistRecord(id: string, hash: string, name: Option<string>, members: seq<string>, groups: seq<string>, aliases: seq<string>)
    | LabelRecord(id: string, hash: string, name: Option<string>, parent: string, sublabels: seq<string>)
    | MasterRecord(id: string, hash: string, name: Option<string>, artists: seq<string>, genres: seq<string>, styles: seq<string>)

  function EntityNode(x: EntityRecord): Node {
    match x
    case ArtistRecord(id, _, _, _, _, _) => Artist(id)
    case LabelRecord(id, _, _, _, _) => Label(id)
    case MasterRecord(id, _, _, _, _, _) => Master(id)
  }

  /** A row that merges another node and an edge between it and the entity. */
  function Linked(x: Node, other: Node, e: Edge): seq<Row> {
    [Row({x}, None, Some(other), Touch, None, Some(e), None)]
  }

  function MemberRow(a: string): string -> seq<Row> {
    (m: string) => if m == "" then [] else Linked(Artist(a), Artist(m), Edge(Artist(m), MEMBER_OF, Artist(a), "", ""))
  }

  function GroupRow(a: string): string -> seq<Row> {
    (m: string) => if m == "" then [] else Linked(Artist(a), Artist(m), Edge(Artist(a), MEMBER_OF, Artist(m), "", ""))
  }

  function AliasRow(a: string): string -> seq<Row> {
    (m: string) => if m == "" then [] else Linked(Artist(a), Artist(m), Edge(Artist(m), ALIAS_OF, Artist(a), "", ""))
  }

  function ParentRow(l: string): string -> seq<Row> {
    (m: string) => if m == "" then [] else Linked(Label(l), Label(m), Edge(Label(l), SUBLABEL_OF, Label(m), "", ""))
  }

  function SublabelRow(l: string): string -> seq<Row> {
    (m: string) => if m == "" then [] else Linked(Label(l), Label(m), Edge(Label(m), SUBLABEL_OF, Label(l), "", ""))
  }

  function MasterArtistRow(m: string): string -> seq<Row> {
    (a: string) => if a == "" then [] else Linked(Master(m), Artist(a), Edge(Master(m), BY, Artist(a), "", ""))
  }

  function MasterGenreRow(m: string): string -> seq<Row> {
    (g: string) => if g == "" then [] else Linked(Master(m), Genre(g), Edge(Master(m), IS, Genre(g), "", ""))
  }

  function MasterStyleRow(m: string): string -> seq<Row> {
    (s: string) => if s == "" then [] else Linked(Master(m), Style(s), Edge(Master(m), IS, Style(s), "", ""))
  }

  function EntityRows(x: EntityRecord): seq<Row> {
    [Row({}, None, Some(EntityNode(x)), Record(x.name, x.hash), None, None, None)] +
    match x
    case ArtistRecord(id, _, _, members, groups, aliases) =>
      CollectAll(members, MemberRow(id)) + CollectAll(groups, GroupRow(id)) + CollectAll(aliases, AliasRow(id))
    case LabelRecord(id, _, _, parent, sublabels) =>
      CollectAll([parent], ParentRow(id)) + CollectAll(sublabels, SublabelRow(id))
    case MasterRecord(id, _, _, artists, genres, styles) =>
      CollectAll(artists, MasterArtistRow(id)) + CollectAll(genres, MasterGenreRow(id)) + CollectAll(styles, MasterStyleRow(id))
      + (if |genres| == 1 && genres[0] != "" then CollectAll(styles, PartOfRow(genres[0], true)) else [])
  }

  /** A master prunes its own BY and IS edges before merging; artists and labels never prune. */
  predicate EntityStale(x: EntityRecord, e: Edge) {
    x.MasterRecord? && e.src == Master(x.id) &&
    (|| (e.rel == BY && e.dst.Artist? && (e.dst.id == "" || e.dst.id !in x.artists))
     || (e.rel == IS && e.dst.Genre? && (e.dst.id == "" || e.dst.id !in x.genres))
     || (e.rel == IS && e.dst.Style? && (e.dst.id == "" || e.dst.id !in x.styles)))
  }

  function WriteEntity(g: Graph, x: EntityRecord): Graph {
    if At(g.nodes, EntityNode(x)).Some? && At(g.nodes, EntityNode(x)).value.hash == Some(x.hash) then g
    else Unwind(Prune(g, (e: Edge) => EntityStale(x, e)), EntityRows(x))
  }

  // ---------------------------------------------------------------- cleanup

  predicate Incident(e: Edge, n: Node) {
    e.src == n || e.dst == n
  }

  /** A node of a record label that no record filled and that only derived edges touch. */
  predicate IsStub(g: Graph, n: Node) {
    && n in g.nodes && g.nodes[n].hash.None? && (n.Artist? || n.Label? || n.Master? || n.Release?)
    && (forall e :: e in g.edges && Incident(e, n) ==> e.rel == HAS_STYLE)
  }

  /** DETACH DELETE of some nodes. */
  function Detach(g: Graph, doomed: set<Node>): Graph {
    Graph(map n | n in g.nodes && n !in doomed :: g.nodes[n],
          map e | e in g.edges && e.src !in doomed && e.dst !in doomed :: g.edges[e])
  }

  /** Stub cleanup commits in chunks, so any part of the stubs may be gone. */
  ghost function CleanStubs(g: Graph, picked: set<Node>): Graph {
    Detach(g, set n | n in picked && IsStub(g, n))
  }

  const SENTINEL := Master(NO_MASTER_ID)

  function CutSentinelEdges(g: Graph, picked: set<Edge>): Graph {
    Prune(g, (e: Edge) => e in picked && Incident(e, SENTINEL))
  }

  // ---------------------------------------------------------------- runs

  /** The graph, the latest record applied to each release, and the latest of those that
      carried a companies block. */
  datatype World = World(g: Graph, latest: map<string, ReleaseRecord>, blocks: map<string, ReleaseRecord>)

  const START := World(EMPTY_GRAPH, map[], map[])

  /** An edge no release write manages, such as another catalog's credit or a derived edge. */
  ghost predicate Unmanaged(e: Edge) {
    forall p, i :: !Owns(p, i, e)
  }

  datatype Event =
    | Single(r: ReleaseRecord)
    | Batch(ms: seq<ReleaseRecord>)
    | Entity(x: EntityRecord)
    | StubCleanup(nodes: set<Node>)
    | SentinelEdges(edges: set<Edge>)
    | SentinelNode
    | Elsewhere(e: Edge, cell: EdgeCell, present: bool)

  function Noted(latest: map<string, ReleaseRecord>, ms: seq<ReleaseRecord>, k: nat): map<string, ReleaseRecord>
    requires k <= |ms|
  {
    if k == 0 then latest else Noted(latest, ms, k - 1)[ms[k - 1].id := ms[k - 1]]
  }

  function NotedBlocks(blocks: map<string, ReleaseRecord>, ms: seq<ReleaseRecord>, k: nat): map<string, ReleaseRecord>
    requires k <= |ms|
  {
    if k == 0 then blocks
    else if ms[k - 1].companies.Some? then NotedBlocks(blocks, ms, k - 1)[ms[k - 1].id := ms[k - 1]]
    else NotedBlocks(blocks, ms, k - 1)
  }

  ghost function Step(w: World, ev: Event): World {
    match ev
    case Single(r) => World(ProcessRelease(w.g, r), Noted(w.latest, [r], 1), NotedBlocks(w.blocks, [r], 1))
    case Batch(ms) => World(ProcessBatch(w.g, ms), Noted(w.latest, ms, |ms|), NotedBlocks(w.blocks, ms, |ms|))
    case Entity(x) => w.(g := WriteEntity(w.g, x))
    case StubCleanup(nodes) => w.(g := CleanStubs(w.g, nodes))
    case SentinelEdges(edges) => w.(g := CutSentinelEdges(w.g, edges))
    case SentinelNode => w.(g := Detach(w.g, {SENTINEL}))
    case Elsewhere(e, cell, present) =>
      if !Unmanaged(e) then w
      else w.(g := w.g.(edges := if present then w.g.edges[e := cell] else w.g.edges - {e}))
  }

  /** What the service is given: named taxonomy, no master called "0", and hashes that identify
      the version of a release. */
  ghost predicate Normalised(universe: set<ReleaseRecord>) {
    && (forall r :: r in universe ==> NamedTaxonomy(r) && r.master != Some(NO_MASTER_ID))
    && (forall r, q :: r in universe && q in universe && r.id == q.id && r.hash == q.hash ==> r == q)
  }

  /** The event's records come from the universe; a batch repeats only equal records. */
  ghost predicate Fair(universe: set<ReleaseRecord>, ev: Event) {
    match ev
    case Single(r) => r in universe
    case Batch(ms) => Consistent(ms) && forall m :: m in ms ==> m in universe
    case _ => true
  }

  ghost function Run(evs: seq<Event>): World {
    if evs == [] then START else Step(Run(evs[..|evs| - 1]), evs[|evs| - 1])
  }

  // ---------------------------------------------------------------- exactness

  /** The cell an owned edge should have: what its release's latest record asserts. */
  function Expected(w: World, p: Part, i: string, e: Edge): Option<EdgeCell> {
    var known := if p.Companies? then w.blocks else w.latest;
    if i in known then EdgesAfter(RowsOf(p, known[i], true), e, None) else None
  }

  ghost predicate EdgesExact(w: World) {
    forall p, i, e :: Owns(p, i, e) ==> At(w.g.edges, e) == Expected(w, p, i, e)
  }

  /** The properties a release write leaves on its node. */
  function Described(r: ReleaseRecord): Props {
    Props(Some(r.hash), None, None, r.year, r.country, r.families)
  }

  /** A release node exists exactly for the releases written, and holds its latest record. */
  ghost predicate Stamped(w: World) {
    forall i :: if i in w.latest then w.latest[i].id == i && At(w.g.nodes, Release(i)) == Some(Described(w.latest[i]))
                else At(w.g.nodes, Release(i)).None?
  }

  ghost predicate Drawn(universe: set<ReleaseRecord>, w: World) {
    && (forall i :: i in w.latest ==> w.latest[i] in universe)
    && (forall i :: i in w.blocks ==> i in w.latest && w.blocks[i] in universe && w.blocks[i].id == i && w.blocks[i].companies.Some?)
    && (forall i :: i in w.latest && w.latest[i].companies.Some? ==> i in w.blocks && w.blocks[i] == w.latest[i])
  }

  ghost predicate Exact(universe: set<ReleaseRecord>, w: World) {
    EdgesExact(w) && Stamped(w) && Drawn(universe, w)
  }

  // ---------------------------------------------------------------- one release write

  /** The property a statement leaves on an edge its release owns does not depend on what was
      there before. */
  lemma {:induction false} OwnedProp(rows: seq<Row>, k: nat, p: Part, r: string, e: Edge)
    requires k <= |rows| && AllFit(p, r, rows) && Owns(p, r, e)
    ensures LastProp(rows, k, e).Some? <==> SetsProp(p) && exists i :: 0 <= i < k && e in Edges(rows[i])
  {
    if k > 0 {
      OwnedProp(rows, k - 1, p, r, e);
      assert rows[k - 1] in rows;
      assert RowFits(p, r, rows[k - 1]);
    }
  }

  lemma AssertedCell(p: Part, r: ReleaseRecord, e: Edge)
    requires Owns(p, r.id, e)
    ensures var c := EdgesAfter(RowsOf(p, r, true), e, None);
      && (c.Some? <==> Asserts(p, r, e))
      && (c.Some? ==> c.value.copies == 1 && (!SetsProp(p) ==> c.value.prop == NoProp))
  {
    var rows := RowsOf(p, r, true);
    RowsFit(p, r, true);
    OwnedMentionedIff(p, r, true, e);
    MergedEdge(rows, |rows|, e, None);
    EdgeFoldClosed(rows, |rows|, e, None);
    OwnedProp(rows, |rows|, p, r.id, e);
  }

  /** Rewriting a release sets each edge it owns to what the new record asserts. */
  lemma OwnedEdgeRewritten(p: Part, r: ReleaseRecord, was: ReleaseRecord, e: Edge, c: Option<EdgeCell>)
    requires Owns(p, r.id, e) && (p.Companies? ==> r.companies.Some?)
    requires c.None? || (was.id == r.id && c == EdgesAfter(RowsOf(p, was, true), e, None))
    ensures EdgeX(r, e, c) == EdgesAfter(RowsOf(p, r, true), e, None)
  {
    var rows := RowsOf(p, r, true);
    OwnedPart(p, r.id, e);
    OwnedMentionedIff(p, r, true, e);
    AssertedCell(p, r, e);
    if c.Some? { AssertedCell(p, was, e); }
    if !Stale(p, r, e) && c.Some? {
      RowsFit(p, r, true);
      OwnedProp(rows, |rows|, p, r.id, e);
      EdgeFoldClosed(rows, |rows|, e, c);
      EdgeFoldClosed(rows, |rows|, e, None);
      MergedEdge(rows, |rows|, e, c);
      MergedEdge(rows, |rows|, e, None);
    }
  }

  /** A record silent about companies leaves every company credit alone. */
  lemma SilentRecordKeepsCredits(r: ReleaseRecord, i: string, e: Edge, c: Option<EdgeCell>)
    requires Owns(Companies, i, e) && r.companies.None?
    ensures EdgeX(r, e, c) == c
  {
    OwnedPart(Companies, i, e);
  }

  /** A release write leaves the edges of every other release alone. */
  lemma OtherReleaseKept(p: Part, i: string, r: ReleaseRecord, e: Edge, c: Option<EdgeCell>)
    requires Owns(p, i, e) && i != r.id
    ensures EdgeX(r, e, c) == c
  {
    OwnedPart(p, i, e);
    if Mentions(RowsOf(p, r, true), e) { MentionedMeansOwner(p, r, true, i, e); }
    EdgeXAlone(r, e, c);
  }

  ghost function Rewritten(w: World, r: ReleaseRecord): World {
    World(WriteRelease(w.g, r), w.latest[r.id := r], if r.companies.Some? then w.blocks[r.id := r] else w.blocks)
  }

  lemma RewriteKeepsEdges(universe: set<ReleaseRecord>, w: World, r: ReleaseRecord, p: Part, i: string, e: Edge)
    requires Exact(universe, w) && NamedTaxonomy(r) && Owns(p, i, e)
    ensures EdgeX(r, e, At(w.g.edges, e)) == Expected(Rewritten(w, r), p, i, e)
  {
    var c := At(w.g.edges, e);
    assert c == Expected(w, p, i, e);
    if i != r.id {
      OtherReleaseKept(p, i, r, e, c);
    } else if p.Companies? && r.companies.None? {
      SilentRecordKeepsCredits(r, i, e, c);
    } else {
      RewrittenEdgeIsAsserted(universe, w, r, p, e);
    }
  }

  lemma RewrittenEdgeIsAsserted(universe: set<ReleaseRecord>, w: World, r: ReleaseRecord, p: Part, e: Edge)
    requires Exact(universe, w) && Owns(p, r.id, e) && (p.Companies? ==> r.companies.Some?)
    ensures EdgeX(r, e, At(w.g.edges, e)) == EdgesAfter(RowsOf(p, r, true), e, None)
  {
    assert At(w.g.edges, e) == Expected(w, p, r.id, e);
    var known := if p.Companies? then w.blocks else w.latest;
    OwnedEdgeRewritten(p, r, if r.id in known then known[r.id] else r, e, At(w.g.edges, e));
  }

  lemma RewriteKeepsExact(universe: set<ReleaseRecord>, w: World, r: ReleaseRecord)
    requires Exact(universe, w) && r in universe && NamedTaxonomy(r)
    ensures Exact(universe, Rewritten(w, r))
  {
    var w' := Rewritten(w, r);
    WriteReleaseIsX(w.g, r);
    RewriteKeepsEdgesExact(universe, w, r, w');
    RewriteKeepsStamps(w, r, w');
    RewriteKeepsDrawn(universe, w, r, w');
  }

  lemma RewriteKeepsDrawn(universe: set<ReleaseRecord>, w: World, r: ReleaseRecord, w': World)
    requires Drawn(universe, w) && r in universe
    requires w'.latest == w.latest[r.id := r] && w'.blocks == (if r.companies.Some? then w.blocks[r.id := r] else w.blocks)
    ensures Drawn(universe, w')
  {
  }

  lemma RewriteKeepsEdgesExact(universe: set<ReleaseRecord>, w: World, r: ReleaseRecord, w': World)
    requires Exact(universe, w) && NamedTaxonomy(r) && w' == Rewritten(w, r)
    requires forall e :: At(w'.g.edges, e) == EdgeX(r, e, At(w.g.edges, e))
    ensures EdgesExact(w')
  {
    forall p, i, e | Owns(p, i, e) ensures At(w'.g.edges, e) == Expected(w', p, i, e) {
      RewriteKeepsEdges(universe, w, r, p, i, e);
    }
  }

  lemma RewriteKeepsStamps(w: World, r: ReleaseRecord, w': World)
    requires Stamped(w) && w'.latest == w.latest[r.id := r]
    requires forall i :: At(w'.g.nodes, Release(i)) == NodeX(r, Release(i), At(w.g.nodes, Release(i)))
    ensures Stamped(w')
  {
    forall i ensures if i in w'.latest then w'.latest[i].id == i && At(w'.g.nodes, Release(i)) == Some(Described(w'.latest[i]))
                     else At(w'.g.nodes, Release(i)).None?
    {
      DescribeOnce(r, Release(i), At(w.g.nodes, Release(i)));
      assert At(w'.g.nodes, Release(i)) == NodeX(r, Release(i), At(w.g.nodes, Release(i)));
    }
  }

  /** The gate skips a record only when it is the latest one: skipping is rewriting. */
  lemma SkippedIsLatest(universe: set<ReleaseRecord>, w: World, r: ReleaseRecord)
    requires Exact(universe, w) && Normalised(universe) && r in universe && Current(w.g, r)
    ensures r.id in w.latest && w.latest[r.id] == r
    ensures w.latest[r.id := r] == w.latest && (r.companies.Some? ==> w.blocks[r.id := r] == w.blocks)
  {
    assert At(w.g.nodes, Release(r.id)).Some?;
    assert r.id in w.latest && w.latest[r.id] in universe;
  }

  ghost function Handled(w: World, r: ReleaseRecord): World {
    if Current(w.g, r) then w else Rewritten(w, r)
  }

  lemma SingleKeepsExact(universe: set<ReleaseRecord>, w: World, r: ReleaseRecord)
    requires Exact(universe, w) && Normalised(universe) && r in universe
    ensures Exact(universe, Handled(w, r))
    ensures Handled(w, r) == World(ProcessRelease(w.g, r), w.latest[r.id := r], if r.companies.Some? then w.blocks[r.id := r] else w.blocks)
  {
    if Current(w.g, r) { SkippedIsLatest(universe, w, r); } else { RewriteKeepsExact(universe, w, r); }
  }

  // ---------------------------------------------------------------- batches

  /** The world after handling the first k messages one by one. */
  function OneByOne(w: World, ms: seq<ReleaseRecord>, k: nat): World
    requires k <= |ms|
  {
    World(ProcessAll(w.g, ms, k), Noted(w.latest, ms, k), NotedBlocks(w.blocks, ms, k))
  }

  lemma {:induction false} OneByOneKeepsExact(universe: set<ReleaseRecord>, w: World, ms: seq<ReleaseRecord>, k: nat, after: World)
    requires Exact(universe, w) && Normalised(universe) && k <= |ms| && forall m :: m in ms ==> m in universe
    requires after == OneByOne(w, ms, k)
    ensures Exact(universe, after)
  {
    if k == 0 {
      assert after == w;
    } else {
      OneByOneKeepsExact(universe, w, ms, k - 1, OneByOne(w, ms, k - 1));
      OneMoreKeepsExact(universe, w, ms, k, OneByOne(w, ms, k - 1), after);
    }
  }

  lemma OneMoreKeepsExact(universe: set<ReleaseRecord>, w: World, ms: seq<ReleaseRecord>, k: nat, before: World, after: World)
    requires Exact(universe, before) && Normalised(universe) && 0 < k <= |ms| && ms[k - 1] in universe
    requires before == OneByOne(w, ms, k - 1) && after == OneByOne(w, ms, k)
    ensures Exact(universe, after)
  {
    OneMoreMessage(w, ms, k, before);
    MessageKeepsExact(universe, before, ms[k - 1], after);
  }

  lemma MessageKeepsExact(universe: set<ReleaseRecord>, w: World, r: ReleaseRecord, after: World)
    requires Exact(universe, w) && Normalised(universe) && r in universe && after == Step(w, Single(r))
    ensures Exact(universe, after)
  {
    SingleStepKeepsExact(universe, w, r);
  }

  lemma OneMoreMessage(w: World, ms: seq<ReleaseRecord>, k: nat, before: World)
    requires 0 < k <= |ms| && before == OneByOne(w, ms, k - 1)
    ensures OneByOne(w, ms, k) == Step(before, Single(ms[k - 1]))
  {
    SingleStepIs(before, ms[k - 1]);
  }

  /** Exactness only speaks of owned edges and release nodes. */
  lemma SameOwnedCellsKeepExact(universe: set<ReleaseRecord>, w: World, g: Graph)
    requires Exact(universe, w)
    requires forall p, i, e :: Owns(p, i, e) ==> At(g.edges, e) == At(w.g.edges, e)
    requires forall i :: At(g.nodes, Release(i)) == At(w.g.nodes, Release(i))
    ensures Exact(universe, w.(g := g))
  {
    var w' := w.(g := g);
    forall p, i, e | Owns(p, i, e) ensures At(w'.g.edges, e) == Expected(w', p, i, e) {
      assert At(w.g.edges, e) == Expected(w, p, i, e);
    }
    assert forall i :: At(w'.g.nodes, Release(i)) == At(w.g.nodes, Release(i));
  }

  lemma BatchKeepsExact(universe: set<ReleaseRecord>, w: World, ms: seq<ReleaseRecord>)
    requires Exact(universe, w) && Normalised(universe) && Consistent(ms) && forall m :: m in ms ==> m in universe
    ensures Exact(universe, Step(w, Batch(ms)))
  {
    var w1 := OneByOne(w, ms, |ms|);
    OneByOneKeepsExact(universe, w, ms, |ms|, w1);
    assert Named(ms) by {
      forall i | 0 <= i < |ms| ensures NamedTaxonomy(ms[i]) { assert ms[i] in ms; }
    }
    BatchEqualsOneByOneIff(w.g, ms);
    var g := ProcessBatch(w.g, ms);
    forall i ensures At(g.nodes, Release(i)) == At(w1.g.nodes, Release(i)) {
      assert !Renamed(Release(i));
    }
    SameOwnedCellsKeepExact(universe, w1, g);
    assert Step(w, Batch(ms)) == w1.(g := g);
  }

  // ---------------------------------------------------------------- other writers keep exactness

  /** A row of an entity write: no release node, no edge any release owns. */
  ghost predicate ForeignRow(row: Row) {
    && (forall n :: n in Nodes(row) ==> !n.Release?)
    && (forall e :: e in Edges(row) ==> e.src.Master? || e.rel == PART_OF || e.rel == MEMBER_OF || e.rel == ALIAS_OF || e.rel == SUBLABEL_OF)
  }

  ghost predicate AllForeign(rows: seq<Row>) {
    forall row :: row in rows ==> ForeignRow(row)
  }

  lemma CollectForeign(xs: seq<string>, f: string -> seq<Row>)
    requires forall x :: x in xs ==> AllForeign(f(x))
    ensures AllForeign(CollectAll(xs, f))
  {
    CollectMembers(xs, f, |xs|);
  }

  lemma ArtistRowsForeign(x: EntityRecord)
    requires x.ArtistRecord?
    ensures AllForeign(EntityRows(x))
  {
    CollectForeign(x.members, MemberRow(x.id));
    CollectForeign(x.groups, GroupRow(x.id));
    CollectForeign(x.aliases, AliasRow(x.id));
  }

  lemma LabelRowsForeign(x: EntityRecord)
    requires x.LabelRecord?
    ensures AllForeign(EntityRows(x))
  {
    CollectForeign([x.parent], ParentRow(x.id));
    CollectForeign(x.sublabels, SublabelRow(x.id));
  }

  lemma MasterRowsForeign(x: EntityRecord)
    requires x.MasterRecord?
    ensures AllForeign(EntityRows(x))
  {
    CollectForeign(x.artists, MasterArtistRow(x.id));
    CollectForeign(x.genres, MasterGenreRow(x.id));
    CollectForeign(x.styles, MasterStyleRow(x.id));
    if |x.genres| == 1 { PartOfRowsForeign(x.styles, x.genres[0]); }
  }

  lemma PartOfRowsForeign(styles: seq<string>, genre: string)
    ensures AllForeign(CollectAll(styles, PartOfRow(genre, true)))
  {
    CollectForeign(styles, PartOfRow(genre, true));
  }

  /** A row that misses its anchor does nothing; one that finds it has its pointwise effect. */
  lemma ForeignRowKeeps(g: Graph, row: Row)
    requires ForeignRow(row)
    ensures SameOwnedCells(g, ApplyRow(g, row))
  {
    if row.anchors <= g.nodes.Keys { ApplyRowPointwise(g, row); }
  }

  lemma {:induction false} ForeignRowsKeep(g: Graph, rows: seq<Row>, k: nat)
    requires k <= |rows| && AllForeign(rows)
    ensures SameOwnedCells(g, ApplyRows(g, rows, k))
  {
    if k > 0 {
      ForeignRowsKeep(g, rows, k - 1);
      assert rows[k - 1] in rows;
      ForeignRowKeeps(ApplyRows(g, rows, k - 1), rows[k - 1]);
    }
  }

  lemma EntityRowsForeign(x: EntityRecord)
    ensures AllForeign(EntityRows(x))
  {
    match x
    case ArtistRecord(_, _, _, _, _, _) => ArtistRowsForeign(x);
    case LabelRecord(_, _, _, _, _) => LabelRowsForeign(x);
    case MasterRecord(_, _, _, _, _, _) => MasterRowsForeign(x);
  }

  ghost predicate SameOwnedCells(g: Graph, g': Graph) {
    && (forall p, i, e :: Owns(p, i, e) ==> At(g'.edges, e) == At(g.edges, e))
    && (forall i :: At(g'.nodes, Release(i)) == At(g.nodes, Release(i)))
  }

  /** Artist, label and master writes leave every release's edges and node alone. */
  lemma EntityKeepsOwnedCells(g: Graph, x: EntityRecord)
    ensures SameOwnedCells(g, WriteEntity(g, x))
  {
    var pruned := Prune(g, (e: Edge) => EntityStale(x, e));
    EntityPruneKeepsOwned(g, x, pruned);
    EntityRowsForeign(x);
    ForeignRowsKeep(pruned, EntityRows(x), |EntityRows(x)|);
    OwnedCellsCarryOver(g, pruned, Unwind(pruned, EntityRows(x)));
  }

  lemma EntityPruneKeepsOwned(g: Graph, x: EntityRecord, pruned: Graph)
    requires pruned == Prune(g, (e: Edge) => EntityStale(x, e))
    ensures SameOwnedCells(g, pruned)
  {
    PrunePointwise(g, (e: Edge) => EntityStale(x, e));
    forall p, i, e | Owns(p, i, e) ensures !EntityStale(x, e) { OwnedIsNoMasters(p, i, e); }
  }

  /** A release's edge never starts at a master. */
  lemma OwnedIsNoMasters(p: Part, i: string, e: Edge)
    requires Owns(p, i, e)
    ensures !e.src.Master?
  {
  }

  lemma OwnedCellsCarryOver(a: Graph, b: Graph, c: Graph)
    requires SameOwnedCells(a, b) && SameOwnedCells(b, c)
    ensures SameOwnedCells(a, c)
  {
  }

  lemma EntityKeepsExact(universe: set<ReleaseRecord>, w: World, x: EntityRecord)
    requires Exact(universe, w)
    ensures Exact(universe, Step(w, Entity(x)))
  {
    EntityKeepsOwnedCells(w.g, x);
    SameOwnedCellsKeepExact(universe, w, WriteEntity(w.g, x));
  }

  /** A stub that still carries a managed edge is kept, so cleanup removes none. */
  lemma StubCleanupKeepsExact(universe: set<ReleaseRecord>, w: World, nodes: set<Node>)
    requires Exact(universe, w)
    ensures Exact(universe, Step(w, StubCleanup(nodes)))
  {
    CleanupKeepsEdges(w.g, nodes);
    CleanupKeepsReleases(w, nodes);
    SameOwnedCellsKeepExact(universe, w, CleanStubs(w.g, nodes));
  }

  lemma CleanupKeepsEdges(g: Graph, nodes: set<Node>)
    ensures forall p, i, e :: Owns(p, i, e) ==> At(CleanStubs(g, nodes).edges, e) == At(g.edges, e)
  {
    forall p, i, e | Owns(p, i, e) ensures At(CleanStubs(g, nodes).edges, e) == At(g.edges, e) {
      OwnedIsNotDerived(p, i, e);
      if e in g.edges { assert Incident(e, e.src) && Incident(e, e.dst); }
    }
  }

  lemma OwnedIsNotDerived(p: Part, i: string, e: Edge)
    requires Owns(p, i, e)
    ensures e.rel != HAS_STYLE
  {
  }

  /** A release some record described has a hash, so it is no stub. */
  lemma CleanupKeepsReleases(w: World, nodes: set<Node>)
    requires Stamped(w)
    ensures forall i :: At(CleanStubs(w.g, nodes).nodes, Release(i)) == At(w.g.nodes, Release(i))
  {
    forall i ensures At(CleanStubs(w.g, nodes).nodes, Release(i)) == At(w.g.nodes, Release(i)) {
      assert i in w.latest ==> At(w.g.nodes, Release(i)) == Some(Described(w.latest[i]));
      assert i !in w.latest ==> At(w.g.nodes, Release(i)).None?;
    }
  }

  /** No record asserts the sentinel master, so no managed edge touches it. */
  lemma SentinelIsUnasserted(universe: set<ReleaseRecord>, w: World, p: Part, i: string, e: Edge)
    requires Exact(universe, w) && Normalised(universe) && Owns(p, i, e) && Incident(e, SENTINEL)
    ensures At(w.g.edges, e).None?
  {
    assert p.Masters?;
    assert At(w.g.edges, e) == Expected(w, p, i, e);
    if i in w.latest { AssertedCell(p, w.latest[i], e); }
  }

  lemma SentinelCleanupKeepsExact(universe: set<ReleaseRecord>, w: World, edges: set<Edge>)
    requires Exact(universe, w) && Normalised(universe)
    ensures Exact(universe, Step(w, SentinelEdges(edges))) && Exact(universe, Step(w, SentinelNode))
  {
    forall p, i, e | Owns(p, i, e) && Incident(e, SENTINEL) ensures At(w.g.edges, e).None? {
      SentinelIsUnasserted(universe, w, p, i, e);
    }
    PrunePointwise(w.g, (e: Edge) => e in edges && Incident(e, SENTINEL));
    SameOwnedCellsKeepExact(universe, w, CutSentinelEdges(w.g, edges));
    DetachSentinel(w.g);
    SameOwnedCellsKeepExact(universe, w, Detach(w.g, {SENTINEL}));
  }

  lemma DetachSentinel(g: Graph)
    ensures forall e :: At(Detach(g, {SENTINEL}).edges, e) == if Incident(e, SENTINEL) then None else At(g.edges, e)
    ensures forall i :: At(Detach(g, {SENTINEL}).nodes, Release(i)) == At(g.nodes, Release(i))
  {
  }

  lemma ElsewhereKeepsExact(universe: set<ReleaseRecord>, w: World, e: Edge, cell: EdgeCell, present: bool)
    requires Exact(universe, w)
    ensures Exact(universe, Step(w, Elsewhere(e, cell, present)))
  {
    if Unmanaged(e) {
      SameOwnedCellsKeepExact(universe, w, Step(w, Elsewhere(e, cell, present)).g);
    }
  }

  // ---------------------------------------------------------------- every reachable graph

  lemma StepKeepsExact(universe: set<ReleaseRecord>, w: World, ev: Event)
    requires Exact(universe, w) && Normalised(universe) && Fair(universe, ev)
    ensures Exact(universe, Step(w, ev))
  {
    match ev
    case Single(r) => SingleStepKeepsExact(universe, w, r);
    case Batch(ms) => BatchKeepsExact(universe, w, ms);
    case Entity(x) => EntityKeepsExact(universe, w, x);
    case StubCleanup(nodes) => StubCleanupKeepsExact(universe, w, nodes);
    case SentinelEdges(edges) => SentinelCleanupKeepsExact(universe, w, edges);
    case SentinelNode => SentinelCleanupKeepsExact(universe, w, {});
    case Elsewhere(e, cell, present) => ElsewhereKeepsExact(universe, w, e, cell, present);
  }

  lemma SingleStepKeepsExact(universe: set<ReleaseRecord>, w: World, r: ReleaseRecord)
    requires Exact(universe, w) && Normalised(universe) && r in universe
    ensures Exact(universe, Step(w, Single(r)))
  {
    SingleKeepsExact(universe, w, r);
    SingleStepIs(w, r);
  }

  lemma SingleStepIs(w: World, r: ReleaseRecord)
    ensures Step(w, Single(r)) == World(ProcessRelease(w.g, r), w.latest[r.id := r], if r.companies.Some? then w.blocks[r.id := r] else w.blocks)
  {
    assert Noted(w.latest, [r], 1) == Noted(w.latest, [r], 0)[r.id := r];
    assert NotedBlocks(w.blocks, [r], 0) == w.blocks;
  }

  lemma {:induction false} ReachableIsExact(universe: set<ReleaseRecord>, evs: seq<Event>)
    requires Normalised(universe) && forall ev :: ev in evs ==> Fair(universe, ev)
    ensures Exact(universe, Run(evs))
  {
    if evs != [] {
      ReachableIsExact(universe, evs[..|evs| - 1]);
      StepKeepsExact(universe, Run(evs[..|evs| - 1]), evs[|evs| - 1]);
    }
  }

  // ---------------------------------------------------------------- main results

  /** In every graph a run can reach, a release's BY, ON, DERIVED_FROM, IS, CREDITED_ON and
      discogs ISSUED_ON edges are exactly those its latest record asserts, one copy each. */
  lemma GraphStatesLatestRecords(universe: set<ReleaseRecord>, evs: seq<Event>, p: Part, i: string, e: Edge)
    requires Normalised(universe) && forall ev :: ev in evs ==> Fair(universe, ev)
    requires Owns(p, i, e) && !p.Companies?
    ensures var w := Run(evs);
      && (e in w.g.edges <==> i in w.latest && Asserts(p, w.latest[i], e))
      && (e in w.g.edges ==> w.g.edges[e].copies == 1)
  {
    ReachableIsExact(universe, evs);
    var w := Run(evs);
    assert At(w.g.edges, e) == Expected(w, p, i, e);
    if i in w.latest { AssertedCell(p, w.latest[i], e); }
  }

  /** A release's discogs CREDITED_TO edges are those of the last record that carried a
      companies block: silent records change nothing, an empty block removes them all. */
  lemma CompanyCreditsFollowLastBlock(universe: set<ReleaseRecord>, evs: seq<Event>, i: string, e: Edge)
    requires Normalised(universe) && forall ev :: ev in evs ==> Fair(universe, ev)
    requires Owns(Companies, i, e)
    ensures var w := Run(evs);
      && (e in w.g.edges <==> i in w.blocks && Asserts(Companies, w.blocks[i], e))
      && (i in w.blocks && w.blocks[i].companies == Some([]) ==> e !in w.g.edges)
      && (e in w.g.edges ==> w.g.edges[e].copies == 1)
  {
    ReachableIsExact(universe, evs);
    var w := Run(evs);
    assert At(w.g.edges, e) == Expected(w, Companies, i, e);
    if i in w.blocks { AssertedCell(Companies, w.blocks[i], e); }
  }

  /** A medium or company credit that another catalog asserted. */
  predicate OtherCatalog(e: Edge) {
    (e.rel == ISSUED_ON || e.rel == CREDITED_TO) && e.src.Release? && (e.dst.Medium? || e.dst.Company?) && e.source != SOURCE
  }

  lemma NeverMentionsOtherSource(rs: seq<ReleaseRecord>, batched: bool, e: Edge)
    requires OtherCatalog(e)
    ensures !Mentions(AllRows(EdgePart(e), rs, batched), e)
  {
    var rows := AllRows(EdgePart(e), rs, batched);
    forall k | 0 <= k < |rows| ensures e !in Edges(rows[k]) {
      assert rows[k] in rows;
      var i := AllRowsFit(EdgePart(e), rs, batched, rows[k]);
    }
  }

  lemma OtherSourceOutcome(rs: seq<ReleaseRecord>, batched: bool, e: Edge, c: Option<EdgeCell>)
    requires OtherCatalog(e)
    ensures EdgeOutcome(rs, batched, e, c) == c
  {
    NeverMentionsOtherSource(rs, batched, e);
    EdgesAfterUnmentioned(AllRows(EdgePart(e), rs, batched), e, c);
  }

  /** Neither write path, whatever its records, touches another catalog's edge. */
  lemma SingleKeepsOtherSource(g: Graph, r: ReleaseRecord, e: Edge)
    requires OtherCatalog(e)
    ensures At(ProcessRelease(g, r).edges, e) == At(g.edges, e)
  {
    WriteReleaseCells(g, r);
    OtherSourceOutcome([r], false, e, At(g.edges, e));
  }

  lemma BatchKeepsOtherSource(g: Graph, ms: seq<ReleaseRecord>, e: Edge)
    requires OtherCatalog(e)
    ensures At(ProcessBatch(g, ms).edges, e) == At(g.edges, e)
  {
    WriteBatchCells(g, Todo(g, ms, |ms|));
    OtherSourceOutcome(Todo(g, ms, |ms|), true, e, At(g.edges, e));
  }

  lemma {:induction false} ForeignRowsKeepOtherSource(g: Graph, rows: seq<Row>, k: nat, e: Edge)
    requires k <= |rows| && AllForeign(rows) && OtherCatalog(e)
    ensures At(ApplyRows(g, rows, k).edges, e) == At(g.edges, e)
  {
    if k > 0 {
      ForeignRowsKeepOtherSource(g, rows, k - 1, e);
      assert rows[k - 1] in rows;
      ForeignRowKeepsOtherSource(ApplyRows(g, rows, k - 1), rows[k - 1], e);
    }
  }

  lemma ForeignRowKeepsOtherSource(g: Graph, row: Row, e: Edge)
    requires ForeignRow(row) && OtherCatalog(e)
    ensures At(ApplyRow(g, row).edges, e) == At(g.edges, e)
  {
    if row.anchors <= g.nodes.Keys { ApplyRowPointwise(g, row); }
  }

  lemma EntityKeepsOtherSource(g: Graph, x: EntityRecord, e: Edge)
    requires OtherCatalog(e)
    ensures At(WriteEntity(g, x).edges, e) == At(g.edges, e)
  {
    PrunePointwise(g, (d: Edge) => EntityStale(x, d));
    EntityRowsForeign(x);
    ForeignRowsKeepOtherSource(Prune(g, (d: Edge) => EntityStale(x, d)), EntityRows(x), |EntityRows(x)|, e);
  }

  lemma CleanupKeepsOtherSource(g: Graph, nodes: set<Node>, edges: set<Edge>, e: Edge)
    requires OtherCatalog(e)
    ensures At(CleanStubs(g, nodes).edges, e) == At(g.edges, e)
    ensures At(CutSentinelEdges(g, edges).edges, e) == At(g.edges, e)
    ensures At(Detach(g, {SENTINEL}).edges, e) == At(g.edges, e)
  {
    if e in g.edges { assert Incident(e, e.src) && Incident(e, e.dst); }
    PrunePointwise(g, (d: Edge) => d in edges && Incident(d, SENTINEL));
    DetachSentinel(g);
  }

  predicate WritesElsewhere(ev: Event, e: Edge) {
    ev.Elsewhere? && ev.e == e
  }

  lemma StepKeepsOtherSource(w: World, ev: Event, e: Edge)
    requires OtherCatalog(e) && !WritesElsewhere(ev, e)
    ensures At(Step(w, ev).g.edges, e) == At(w.g.edges, e)
  {
    match ev
    case Single(r) => SingleKeepsOtherSource(w.g, r, e);
    case Batch(ms) => BatchKeepsOtherSource(w.g, ms, e);
    case Entity(x) => EntityKeepsOtherSource(w.g, x, e);
    case StubCleanup(nodes) => CleanupKeepsOtherSource(w.g, nodes, {}, e);
    case SentinelEdges(edges) => CleanupKeepsOtherSource(w.g, {}, edges, e);
    case SentinelNode => CleanupKeepsOtherSource(w.g, {}, {}, e);
    case Elsewhere(_, _, _) =>
  }

  /** Over every run, with any records, entity writes and cleanups: another catalog's ISSUED_ON or
      CREDITED_TO edge is created, altered or deleted by nobody but its own writer. */
  lemma {:induction false} OtherSourcesUntouched(evs: seq<Event>, more: seq<Event>, e: Edge)
    requires OtherCatalog(e) && forall ev :: ev in more ==> !WritesElsewhere(ev, e)
    ensures At(Run(evs + more).g.edges, e) == At(Run(evs).g.edges, e)
  {
    if more == [] {
      assert evs + more == evs;
    } else {
      var front := more[..|more| - 1];
      assert (evs + more)[..|evs + more| - 1] == evs + front;
      OtherSourcesUntouched(evs, front, e);
      StepKeepsOtherSource(Run(evs + front), more[|more| - 1], e);
    }
  }

  /** What the hash gate skips would have changed no managed edge and no release node. */
  lemma SkippingIsRewriting(universe: set<ReleaseRecord>, evs: seq<Event>, r: ReleaseRecord)
    requires Normalised(universe) && (forall ev :: ev in evs ==> Fair(universe, ev)) && r in universe
    requires Current(Run(evs).g, r)
    ensures SameOwnedCells(Run(evs).g, WriteRelease(Run(evs).g, r))
  {
    ReachableIsExact(universe, evs);
    SkippedIsLatest(universe, Run(evs), r);
    WriteReleaseIsX(Run(evs).g, r);
    RewritingKeepsEdges(universe, Run(evs), r);
    RewritingKeepsReleases(Run(evs), r);
  }

  lemma RewritingKeepsEdges(universe: set<ReleaseRecord>, w: World, r: ReleaseRecord)
    requires Exact(universe, w) && NamedTaxonomy(r) && r.id in w.latest && w.latest[r.id] == r && (r.companies.Some? ==> w.blocks[r.id := r] == w.blocks)
    ensures forall p, i, e :: Owns(p, i, e) ==> EdgeX(r, e, At(w.g.edges, e)) == At(w.g.edges, e)
  {
    forall p, i, e | Owns(p, i, e) ensures EdgeX(r, e, At(w.g.edges, e)) == At(w.g.edges, e) {
      RewriteKeepsEdges(universe, w, r, p, i, e);
      assert w.latest[r.id := r] == w.latest;
      assert At(w.g.edges, e) == Expected(w, p, i, e);
    }
  }

  lemma RewritingKeepsReleases(w: World, r: ReleaseRecord)
    requires Stamped(w) && r.id in w.latest && w.latest[r.id] == r
    ensures forall i :: NodeX(r, Release(i), At(w.g.nodes, Release(i))) == At(w.g.nodes, Release(i))
  {
    forall i ensures NodeX(r, Release(i), At(w.g.nodes, Release(i))) == At(w.g.nodes, Release(i)) {
      DescribeOnce(r, Release(i), At(w.g.nodes, Release(i)));
    }
  }
}
