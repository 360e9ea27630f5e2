/** What an artist, label or master write and the two cleanups leave, said in the fields of the
    record and of the graph. */
module Entities {
  import opened Common
  import opened Graph
  import opened Records
  import opened Projection
  import opened Runs
  import P = RecordPairs

  // ---------------------------------------------------------------- what a record says

  predicate Plain(e: Edge) { e.role == "" && e.source == "" }

  predicate ArtistSays(x: EntityRecord, e: Edge)
    requires x.ArtistRecord?
  {
    && e.src.Artist? && e.dst.Artist? && Plain(e)
    && match e.rel
       case MEMBER_OF =>
         || (e.dst.id == x.id && e.src.id != "" && e.src.id in x.members)
         || (e.src.id == x.id && e.dst.id != "" && e.dst.id in x.groups)
       case ALIAS_OF => e.dst.id == x.id && e.src.id != "" && e.src.id in x.aliases
       case _ => false
  }

  predicate LabelSays(x: EntityRecord, e: Edge)
    requires x.LabelRecord?
  {
    && e.src.Label? && e.dst.Label? && Plain(e) && e.rel == SUBLABEL_OF
    && (|| (e.src.id == x.id && e.dst.id != "" && e.dst.id == x.parent)
        || (e.dst.id == x.id && e.src.id != "" && e.src.id in x.sublabels))
  }

  predicate MasterSays(x: EntityRecord, e: Edge)
    requires x.MasterRecord?
  {
    && Plain(e) && e.dst.id != ""
    && match e.rel
       case BY => e.src == Master(x.id) && e.dst.Artist? && e.dst.id in x.artists
       case IS => e.src == Master(x.id) && ((e.dst.Genre? && e.dst.id in x.genres) || (e.dst.Style? && e.dst.id in x.styles))
       case PART_OF => e.src.Style? && e.dst.Genre? && x.genres == [e.dst.id] && e.src.id != "" && e.src.id in x.styles
       case _ => false
  }

  predicate Says(x: EntityRecord, e: Edge) {
    match x
    case ArtistRecord(_, _, _, _, _, _) => ArtistSays(x, e)
    case LabelRecord(_, _, _, _, _) => LabelSays(x, e)
    case MasterRecord(_, _, _, _, _, _) => MasterSays(x, e)
  }

  /** A master's record speaks for all its credits, genres and styles: those it does not list go. */
  predicate Retracts(x: EntityRecord, e: Edge) {
    && x.MasterRecord? && e.src == Master(x.id)
    && (|| (e.rel == BY && e.dst.Artist? && !(e.dst.id != "" && e.dst.id in x.artists))
        || (e.rel == IS && e.dst.Genre? && !(e.dst.id != "" && e.dst.id in x.genres))
        || (e.rel == IS && e.dst.Style? && !(e.dst.id != "" && e.dst.id in x.styles)))
  }

  // ---------------------------------------------------------------- rows anchored on the entity

  ghost predicate AnchoredOn(rows: seq<Row>, own: Node) {
    forall row :: row in rows ==> row.anchors <= {own} && row.prop.None?
  }

  lemma {:induction false} OwnAnchored(g: Graph, rows: seq<Row>, k: nat, own: Node)
    requires 0 < k <= |rows| && AnchoredOn(rows, own) && rows[0].anchors == {} && rows[0].node == Some(own)
    ensures own in ApplyRows(g, rows, k).nodes
    ensures forall n :: At(ApplyRows(g, rows, k).nodes, n) == NodeFold(rows, k, n, At(g.nodes, n))
    ensures forall e :: At(ApplyRows(g, rows, k).edges, e) == EdgeFold(rows, k, e, At(g.edges, e))
  {
    assert rows[k - 1] in rows;
    if k == 1 {
      assert ApplyRows(g, rows, 0) == g;
      ApplyRowPointwise(g, rows[0]);
    } else {
      OwnAnchored(g, rows, k - 1, own);
      ApplyRowPointwise(ApplyRows(g, rows, k - 1), rows[k - 1]);
    }
  }

  /** Rows built one per named item. */
  lemma LinkedRows(xs: seq<string>, f: string -> seq<Row>, mk: string -> Edge, own: Node, e: Edge)
    requires forall m :: if m == "" then f(m) == [] else |f(m)| == 1 && Edges(f(m)[0]) == {mk(m)} && f(m)[0].anchors <= {own} && f(m)[0].prop.None?
    ensures Offers(CollectAll(xs, f), e) <==> exists m :: m in xs && m != "" && e == mk(m)
    ensures AnchoredOn(CollectAll(xs, f), own)
  {
    CollectMembers(xs, f, |xs|);
    CollectOffers(xs, f, e);
    forall i | 0 <= i < |xs| ensures Offers(f(xs[i]), e) <==> xs[i] != "" && e == mk(xs[i]) {
      if xs[i] != "" { OfferOne(f(xs[i]), e); }
    }
    if exists m :: m in xs && m != "" && e == mk(m) {
      var m :| m in xs && m != "" && e == mk(m);
      var i :| 0 <= i < |xs| && xs[i] == m;
      assert Offers(f(xs[i]), e);
    }
  }

  lemma OffersEither(a: seq<Row>, b: seq<Row>, own: Node, e: Edge)
    requires AnchoredOn(a, own) && AnchoredOn(b, own)
    ensures Offers(a + b, e) <==> Offers(a, e) || Offers(b, e)
    ensures AnchoredOn(a + b, own)
  {
    if Offers(a, e) { var row :| row in a && e in Edges(row); assert row in a + b; }
    if Offers(b, e) { var row :| row in b && e in Edges(row); assert row in a + b; }
  }

  function OwnRow(x: EntityRecord): seq<Row> {
    [Row({}, None, Some(EntityNode(x)), Record(x.name, x.hash), None, None, None)]
  }

  function MadeBy(a: Node, rel: Relation, kind: string -> Node, outward: bool): string -> Edge {
    (m: string) => if outward then Edge(a, rel, kind(m), "", "") else Edge(kind(m), rel, a, "", "")
  }

  function AnArtist(): string -> Node { (m: string) => Artist(m) }
  function ALabel(): string -> Node { (m: string) => Label(m) }
  function AGenre(): string -> Node { (m: string) => Genre(m) }
  function AStyle(): string -> Node { (m: string) => Style(m) }

  lemma GroupEdges(x: EntityRecord, e: Edge, a: seq<Row>, b: seq<Row>)
    requires x.ArtistRecord? && a == CollectAll(x.members, MemberRow(x.id)) && b == CollectAll(x.groups, GroupRow(x.id))
    ensures Offers(a, e) || Offers(b, e) <==> e.rel == MEMBER_OF && ArtistSays(x, e)
    ensures AnchoredOn(a, Artist(x.id)) && AnchoredOn(b, Artist(x.id))
  {
    LinkedRows(x.members, MemberRow(x.id), MadeBy(Artist(x.id), MEMBER_OF, AnArtist(), false), Artist(x.id), e);
    LinkedRows(x.groups, GroupRow(x.id), MadeBy(Artist(x.id), MEMBER_OF, AnArtist(), true), Artist(x.id), e);
  }

  lemma AliasEdges(x: EntityRecord, e: Edge, c: seq<Row>)
    requires x.ArtistRecord? && c == CollectAll(x.aliases, AliasRow(x.id))
    ensures Offers(c, e) <==> e.rel == ALIAS_OF && ArtistSays(x, e)
    ensures AnchoredOn(c, Artist(x.id))
  {
    LinkedRows(x.aliases, AliasRow(x.id), MadeBy(Artist(x.id), ALIAS_OF, AnArtist(), false), Artist(x.id), e);
  }

  lemma ArtistEdges(x: EntityRecord, e: Edge)
    requires x.ArtistRecord?
    ensures Offers(EntityRows(x), e) <==> ArtistSays(x, e)
    ensures AnchoredOn(EntityRows(x), Artist(x.id))
  {
    var own := Artist(x.id);
    var a, b, c := CollectAll(x.members, MemberRow(x.id)), CollectAll(x.groups, GroupRow(x.id)), CollectAll(x.aliases, AliasRow(x.id));
    GroupEdges(x, e, a, b);
    AliasEdges(x, e, c);
    OffersEither(a, b, own, e);
    OffersEither(a + b, c, own, e);
    OffersEither(OwnRow(x), a + b + c, own, e);
    assert EntityRows(x) == OwnRow(x) + (a + b + c);
  }

  lemma LabelEdges(x: EntityRecord, e: Edge)
    requires x.LabelRecord?
    ensures Offers(EntityRows(x), e) <==> LabelSays(x, e)
    ensures AnchoredOn(EntityRows(x), Label(x.id))
  {
    var own := Label(x.id);
    LinkedRows([x.parent], ParentRow(x.id), MadeBy(own, SUBLABEL_OF, ALabel(), true), own, e);
    LinkedRows(x.sublabels, SublabelRow(x.id), MadeBy(own, SUBLABEL_OF, ALabel(), false), own, e);
    var a, b := CollectAll([x.parent], ParentRow(x.id)), CollectAll(x.sublabels, SublabelRow(x.id));
    OffersEither(a, b, own, e);
    OffersEither(OwnRow(x), a + b, own, e);
    assert EntityRows(x) == OwnRow(x) + (a + b);
  }

  lemma PairEdges(x: EntityRecord, e: Edge)
    requires x.MasterRecord?
    ensures Offers(P.MasterPairs(x), e) <==> e.rel == PART_OF && MasterSays(x, e)
    ensures AnchoredOn(P.MasterPairs(x), Master(x.id))
  {
    if |x.genres| == 1 {
      LinkedRows(x.styles, PartOfRow(x.genres[0], true), MadeBy(Genre(x.genres[0]), PART_OF, AStyle(), false), Master(x.id), e);
    }
  }

  lemma CreditEdges(x: EntityRecord, e: Edge, a: seq<Row>)
    requires x.MasterRecord? && a == CollectAll(x.artists, MasterArtistRow(x.id))
    ensures Offers(a, e) <==> e.rel == BY && MasterSays(x, e)
    ensures AnchoredOn(a, Master(x.id))
  {
    LinkedRows(x.artists, MasterArtistRow(x.id), MadeBy(Master(x.id), BY, AnArtist(), true), Master(x.id), e);
  }

  lemma TaxonomyEdges(x: EntityRecord, e: Edge, b: seq<Row>, c: seq<Row>)
    requires x.MasterRecord? && b == CollectAll(x.genres, MasterGenreRow(x.id)) && c == CollectAll(x.styles, MasterStyleRow(x.id))
    ensures Offers(b, e) || Offers(c, e) <==> e.rel == IS && MasterSays(x, e)
    ensures AnchoredOn(b, Master(x.id)) && AnchoredOn(c, Master(x.id))
  {
    LinkedRows(x.genres, MasterGenreRow(x.id), MadeBy(Master(x.id), IS, AGenre(), true), Master(x.id), e);
    LinkedRows(x.styles, MasterStyleRow(x.id), MadeBy(Master(x.id), IS, AStyle(), true), Master(x.id), e);
  }

  lemma MasterEdges(x: EntityRecord, e: Edge)
    requires x.MasterRecord?
    ensures Offers(EntityRows(x), e) <==> MasterSays(x, e)
    ensures AnchoredOn(EntityRows(x), Master(x.id))
  {
    var own := Master(x.id);
    var a, b, c := CollectAll(x.artists, MasterArtistRow(x.id)), CollectAll(x.genres, MasterGenreRow(x.id)), CollectAll(x.styles, MasterStyleRow(x.id));
    CreditEdges(x, e, a);
    TaxonomyEdges(x, e, b, c);
    PairEdges(x, e);
    OffersEither(a, b, own, e);
    OffersEither(a + b, c, own, e);
    OffersEither(a + b + c, P.MasterPairs(x), own, e);
    OffersEither(OwnRow(x), a + b + c + P.MasterPairs(x), own, e);
    assert EntityRows(x) == OwnRow(x) + (a + b + c + P.MasterPairs(x));
  }

  lemma EntityEdges(x: EntityRecord, e: Edge)
    ensures Offers(EntityRows(x), e) <==> Says(x, e)
    ensures AnchoredOn(EntityRows(x), EntityNode(x))
  {
    match x
    case ArtistRecord(_, _, _, _, _, _) => ArtistEdges(x, e);
    case LabelRecord(_, _, _, _, _) => LabelEdges(x, e);
    case MasterRecord(_, _, _, _, _, _) => MasterEdges(x, e);
  }

  // ---------------------------------------------------------------- the write

  /** The graph already holds this version of the record. */
  predicate Known(g: Graph, x: EntityRecord) {
    EntityNode(x) in g.nodes && g.nodes[EntityNode(x)].hash == Some(x.hash)
  }

  lemma {:induction false} NoPropIsSet(rows: seq<Row>, k: nat, e: Edge)
    requires k <= |rows| && forall row :: row in rows ==> row.prop.None?
    ensures LastProp(rows, k, e).None?
  {
    if k > 0 {
      assert rows[k - 1] in rows;
      NoPropIsSet(rows, k - 1, e);
    }
  }

  /** A write that is not skipped leaves exactly the edges the record says and those there before
      that it does not retract, and changes none of the latter. */
  lemma EntityWriteIsItsRecord(g: Graph, x: EntityRecord, e: Edge)
    requires !Known(g, x)
    ensures e in WriteEntity(g, x).edges <==> Says(x, e) || (e in g.edges && !Retracts(x, e))
    ensures e in WriteEntity(g, x).edges ==>
      WriteEntity(g, x).edges[e] == if e in g.edges && !Retracts(x, e) then g.edges[e] else EdgeCell(1, NoProp)
  {
    var pruned, rows := Prune(g, (d: Edge) => EntityStale(x, d)), EntityRows(x);
    EntityEdges(x, e);
    OffersIsMentions(rows, e);
    OwnAnchored(pruned, rows, |rows|, EntityNode(x));
    PrunedCell(g, x, e);
    MergedEdge(rows, |rows|, e, At(pruned.edges, e));
    EdgeFoldClosed(rows, |rows|, e, At(pruned.edges, e));
    NoPropIsSet(rows, |rows|, e);
    WrittenIs(g, x);
    assert At(WriteEntity(g, x).edges, e) == EdgeFold(rows, |rows|, e, At(pruned.edges, e));
  }

  lemma WrittenIs(g: Graph, x: EntityRecord)
    requires !Known(g, x)
    ensures WriteEntity(g, x) == ApplyRows(Prune(g, (d: Edge) => EntityStale(x, d)), EntityRows(x), |EntityRows(x)|)
  {
    assert At(g.nodes, EntityNode(x)).Some? ==> At(g.nodes, EntityNode(x)).value.hash != Some(x.hash);
  }

  lemma PrunedCell(g: Graph, x: EntityRecord, e: Edge)
    ensures At(Prune(g, (d: Edge) => EntityStale(x, d)).edges, e) == if e in g.edges && !Retracts(x, e) then Some(g.edges[e]) else None
  {
    PrunePointwise(g, (d: Edge) => EntityStale(x, d));
    assert EntityStale(x, e) == Retracts(x, e);
  }

  /** The rest of an entity's rows only touch its node. */
  lemma {:induction false} RecordedFirst(rows: seq<Row>, k: nat, own: Node, name: Option<string>, hash: string, p: Option<Props>)
    requires 0 < k <= |rows| && rows[0].node == Some(own) && rows[0].update == Record(name, hash)
    requires forall i :: 0 < i < |rows| && rows[i].node.Some? ==> rows[i].update.Touch?
    ensures NodeFold(rows, k, own, p) == Some(OrBlank(p).(name := name, hash := Some(hash)))
  {
    if k == 1 { assert NodeFold(rows, 0, own, p) == p; } else { RecordedFirst(rows, k - 1, own, name, hash, p); }
  }

  ghost predicate AllTouch(rows: seq<Row>) {
    forall row :: row in rows ==> row.node.Some? ==> row.update.Touch?
  }

  lemma CollectTouch(xs: seq<string>, f: string -> seq<Row>)
    requires forall x :: x in xs ==> AllTouch(f(x))
    ensures AllTouch(CollectAll(xs, f))
  {
    CollectMembers(xs, f, |xs|);
  }

  lemma ArtistTouches(x: EntityRecord)
    requires x.ArtistRecord?
    ensures AllTouch(EntityRows(x)[1..])
  {
    CollectTouch(x.members, MemberRow(x.id));
    CollectTouch(x.groups, GroupRow(x.id));
    CollectTouch(x.aliases, AliasRow(x.id));
  }

  lemma LabelTouches(x: EntityRecord)
    requires x.LabelRecord?
    ensures AllTouch(EntityRows(x)[1..])
  {
    CollectTouch([x.parent], ParentRow(x.id));
    CollectTouch(x.sublabels, SublabelRow(x.id));
  }

  lemma MasterTouches(x: EntityRecord)
    requires x.MasterRecord?
    ensures AllTouch(EntityRows(x)[1..])
  {
    CollectTouch(x.artists, MasterArtistRow(x.id));
    CollectTouch(x.genres, MasterGenreRow(x.id));
    CollectTouch(x.styles, MasterStyleRow(x.id));
    if |x.genres| == 1 { PairsTouch(x.styles, x.genres[0]); }
  }

  lemma PairsTouch(styles: seq<string>, genre: string)
    ensures AllTouch(CollectAll(styles, PartOfRow(genre, true)))
  {
    CollectTouch(styles, PartOfRow(genre, true));
  }

  lemma EntityTouches(x: EntityRecord)
    ensures forall i :: 0 < i < |EntityRows(x)| && EntityRows(x)[i].node.Some? ==> EntityRows(x)[i].update.Touch?
  {
    match x {
      case ArtistRecord(_, _, _, _, _, _) => ArtistTouches(x);
      case LabelRecord(_, _, _, _, _) => LabelTouches(x);
      case MasterRecord(_, _, _, _, _, _) => MasterTouches(x);
    }
    var rows := EntityRows(x);
    forall i | 0 < i < |rows| && rows[i].node.Some? ensures rows[i].update.Touch? { assert rows[i] == rows[1..][i - 1]; }
  }

  /** And the entity's node takes the record's name and hash, keeping its other properties. */
  lemma EntityNodeIsItsRecord(g: Graph, x: EntityRecord)
    requires !Known(g, x)
    ensures var n := EntityNode(x);
      n in WriteEntity(g, x).nodes
      && WriteEntity(g, x).nodes[n] == (if n in g.nodes then g.nodes[n] else BLANK).(name := x.name, hash := Some(x.hash))
  {
    var pruned, rows := Prune(g, (d: Edge) => EntityStale(x, d)), EntityRows(x);
    EntityEdges(x, By("", ""));
    OwnAnchored(pruned, rows, |rows|, EntityNode(x));
    EntityTouches(x);
    RecordedFirst(rows, |rows|, EntityNode(x), x.name, x.hash, At(g.nodes, EntityNode(x)));
    WrittenIs(g, x);
    assert At(WriteEntity(g, x).nodes, EntityNode(x)).Some?;
  }

  // ---------------------------------------------------------------- cleanup

  /** A node of a record label without a record, with at most derived relationships. */
  ghost predicate Hollow(g: Graph, n: Node) {
    && n in g.nodes && g.nodes[n].hash == None && (n.Artist? || n.Label? || n.Master? || n.Release?)
    && forall e: Edge :: e in g.edges && (e.src == n || e.dst == n) ==> e.rel == HAS_STYLE
  }

  ghost predicate Goes(g: Graph, picked: set<Node>, n: Node) {
    n in picked && Hollow(g, n)
  }

  /** A chunk of the cleanup deletes exactly the hollow nodes it picked, with their relationships,
      and changes nothing else. */
  lemma CleanupIsExact(g: Graph, picked: set<Node>)
    ensures forall n :: At(CleanStubs(g, picked).nodes, n) == if Goes(g, picked, n) then None else At(g.nodes, n)
    ensures forall e :: At(CleanStubs(g, picked).edges, e) == if Goes(g, picked, e.src) || Goes(g, picked, e.dst) then None else At(g.edges, e)
  {
    forall n ensures IsStub(g, n) <==> Hollow(g, n) {
      assert forall e: Edge :: Incident(e, n) <==> e.src == n || e.dst == n;
    }
  }

  /** One cleanup of everything leaves nothing to clean: what goes with a hollow node makes no other
      node hollow. */
  lemma CleanupLeavesNoStub(g: Graph, n: Node)
    ensures !Hollow(CleanStubs(g, g.nodes.Keys), n)
  {
    var h := CleanStubs(g, g.nodes.Keys);
    CleanupIsExact(g, g.nodes.Keys);
    if n in h.nodes && h.nodes[n].hash == None && (n.Artist? || n.Label? || n.Master? || n.Release?) {
      assert At(h.nodes, n) == At(g.nodes, n);
      assert !Hollow(g, n);
      var e: Edge :| e in g.edges && (e.src == n || e.dst == n) && e.rel != HAS_STYLE;
      assert !Hollow(g, e.src) && !Hollow(g, e.dst);
      assert At(h.edges, e) == At(g.edges, e);
    }
  }

  /** The sentinel master goes with all its relationships, and nothing else does. */
  lemma SentinelGoes(g: Graph)
    ensures var h := CutSentinelEdges(g, g.edges.Keys);
      && h.nodes == g.nodes
      && forall e :: At(h.edges, e) == if e.src == Master("0") || e.dst == Master("0") then None else At(g.edges, e)
    ensures var h := Detach(g, {SENTINEL});
      && (forall n :: At(h.nodes, n) == if n == Master("0") then None else At(g.nodes, n))
      && forall e :: At(h.edges, e) == if e.src == Master("0") || e.dst == Master("0") then None else At(g.edges, e)
  {
  }
}
