/** The relationships no write ever takes back: PART_OF between styles and genres and IN_FAMILY
    between media and families, said in the fields of the records written. */
module RecordPairs {
  import opened Common
  import opened Graph
  import opened Records
  import opened Projection
  import opened Transactions
  import opened BatchEquivalence
  import opened GatedBatch
  import opened Runs
  import opened RecordEdges
  import opened RecordNodes

  predicate Additive(e: Edge) {
    || (e.rel == PART_OF && e.src.Style? && e.dst.Genre? && e.role == "" && e.source == "")
    || (e.rel == IN_FAMILY && e.src.Medium? && e.dst.Family? && e.role == "" && e.source == "")
  }

  /** A single named genre says which genre the named styles belong to. */
  predicate PairsWith(genres: seq<string>, styles: seq<string>, s: string, g: string) {
    genres == [g] && g != "" && s != "" && s in styles
  }

  predicate RecordSays(r: ReleaseRecord, e: Edge) {
    if e.rel == PART_OF then PairsWith(r.genres, r.styles, e.src.id, e.dst.id)
    else exists k :: 0 <= k < |r.media| && r.media[k].medium == e.src.id && r.media[k].family == e.dst.id
  }

  /** The write of this event, if it is not skipped, has a record that says so. */
  ghost predicate EventSays(w: World, ev: Event, e: Edge) {
    match ev
    case Entity(x) =>
      && x.MasterRecord? && !(Master(x.id) in w.g.nodes && w.g.nodes[Master(x.id)].hash == Some(x.hash))
      && e.rel == PART_OF && PairsWith(x.genres, x.styles, e.src.id, e.dst.id)
    case _ => exists a :: 0 <= a < |Written(w.latest, ev)| && RecordSays(Written(w.latest, ev)[a], e)
  }

  // ---------------------------------------------------------------- release events

  lemma WrittenEdge(universe: set<ReleaseRecord>, w: World, ev: Event, e: Edge, rs: seq<ReleaseRecord>)
    requires Exact(universe, w) && Normalised(universe) && Fair(universe, ev) && WritesReleases(ev)
    requires rs == Written(w.latest, ev)
    ensures At(Step(w, ev).g.edges, e) == EdgeSeq(rs, |rs|, e, At(w.g.edges, e))
  {
    match ev
    case Single(r) => SingleEdge(universe, w, r, e, rs);
    case Batch(ms) => BatchEdge(universe, w, ms, e, rs);
  }

  lemma SingleEdge(universe: set<ReleaseRecord>, w: World, r: ReleaseRecord, e: Edge, rs: seq<ReleaseRecord>)
    requires Exact(universe, w) && Normalised(universe) && r in universe
    requires rs == if UpToDate(w.latest, r) then [] else [r]
    ensures At(ProcessRelease(w.g, r).edges, e) == EdgeSeq(rs, |rs|, e, At(w.g.edges, e))
  {
    GateIsLatest(universe, w, r);
    if rs == [r] {
      WriteReleaseIsX(w.g, r);
      assert EdgeSeq(rs, 1, e, At(w.g.edges, e)) == EdgeStep(e)(rs[0], EdgeSeq(rs, 0, e, At(w.g.edges, e)));
    }
  }

  lemma BatchEdge(universe: set<ReleaseRecord>, w: World, ms: seq<ReleaseRecord>, e: Edge, rs: seq<ReleaseRecord>)
    requires Exact(universe, w) && Normalised(universe) && Consistent(ms) && forall m :: m in ms ==> m in universe
    requires rs == OutOfDate(w.latest, ms, |ms|)
    ensures At(ProcessBatch(w.g, ms).edges, e) == EdgeSeq(rs, |rs|, e, At(w.g.edges, e))
  {
    TodoIsOutOfDate(universe, w, ms, |ms|);
    assert Named(ms) by {
      forall i | 0 <= i < |ms| ensures NamedTaxonomy(ms[i]) { assert ms[i] in ms; }
    }
    BatchWritesTodo(w.g, ms);
    DrawnFromTodo(w.g, ms, |ms|);
    WriteAllEdge(w.g, rs, |rs|, e);
  }

  lemma StylesPaired(styles: seq<string>, genre: string, e: Edge)
    requires e.rel == PART_OF && Additive(e)
    ensures Offers(CollectAll(styles, PartOfRow(genre, true)), e) <==> genre == e.dst.id && e.src.id != "" && e.src.id in styles
  {
    CollectOffers(styles, PartOfRow(genre, true), e);
    forall i | 0 <= i < |styles|
      ensures Offers(PartOfRow(genre, true)(styles[i]), e) <==> styles[i] != "" && e == PartOf(styles[i], genre)
    {
      if styles[i] != "" { OfferOne(PartOfRow(genre, true)(styles[i]), e); }
    }
  }

  lemma RecordMentions(r: ReleaseRecord, e: Edge)
    requires Additive(e)
    ensures Mentions(RowsOf(EdgePart(e), r, true), e) <==> RecordSays(r, e)
  {
    if e.rel == PART_OF {
      OffersIsMentions(RowsOf(PartOfs, r, true), e);
      if |r.genres| == 1 { StylesPaired(r.styles, r.genres[0], e); }
    } else {
      MediaRowsEach(r);
    }
  }

  lemma {:induction false} SaidBySeq(rs: seq<ReleaseRecord>, k: nat, e: Edge, c: Option<EdgeCell>)
    requires k <= |rs| && Additive(e)
    ensures EdgeSeq(rs, k, e, c).Some? <==> c.Some? || exists a :: 0 <= a < k && RecordSays(rs[a], e)
  {
    if k > 0 {
      SaidBySeq(rs, k - 1, e, c);
      SaidByOne(rs[k - 1], e, EdgeSeq(rs, k - 1, e, c));
    }
  }

  lemma SaidByOne(r: ReleaseRecord, e: Edge, c: Option<EdgeCell>)
    requires Additive(e)
    ensures EdgeStep(e)(r, c).Some? <==> c.Some? || RecordSays(r, e)
  {
    var rows := RowsOf(EdgePart(e), r, true);
    RecordMentions(r, e);
    MergedEdge(rows, |rows|, e, c);
  }

  // ---------------------------------------------------------------- entity events

  /** Rows without anchors are never skipped. */
  lemma {:induction false} FreeEdge(g: Graph, rows: seq<Row>, k: nat, e: Edge)
    requires k <= |rows| && forall i :: 0 <= i < |rows| && e in Edges(rows[i]) ==> rows[i].anchors == {}
    ensures e in ApplyRows(g, rows, k).edges <==> e in g.edges || exists i :: 0 <= i < k && e in Edges(rows[i])
  {
    if k > 0 {
      FreeEdge(g, rows, k - 1, e);
      var before := ApplyRows(g, rows, k - 1);
      if rows[k - 1].anchors <= before.nodes.Keys { ApplyRowPointwise(before, rows[k - 1]); }
    }
  }

  ghost predicate NoPairs(rows: seq<Row>) {
    forall row :: row in rows ==> forall e :: e in Edges(row) ==> e.rel != PART_OF && e.rel != IN_FAMILY
  }

  lemma CollectNoPairs(xs: seq<string>, f: string -> seq<Row>)
    requires forall x :: x in xs ==> NoPairs(f(x))
    ensures NoPairs(CollectAll(xs, f))
  {
    CollectMembers(xs, f, |xs|);
  }

  lemma ArtistNoPairs(x: EntityRecord)
    requires x.ArtistRecord?
    ensures NoPairs(EntityRows(x))
  {
    CollectNoPairs(x.members, MemberRow(x.id));
    CollectNoPairs(x.groups, GroupRow(x.id));
    CollectNoPairs(x.aliases, AliasRow(x.id));
  }

  lemma LabelNoPairs(x: EntityRecord)
    requires x.LabelRecord?
    ensures NoPairs(EntityRows(x))
  {
    CollectNoPairs([x.parent], ParentRow(x.id));
    CollectNoPairs(x.sublabels, SublabelRow(x.id));
  }

  /** A master's rows: its own relationships, and the pairs when it has a single named genre. */
  function MasterPairs(x: EntityRecord): seq<Row>
    requires x.MasterRecord?
  {
    if |x.genres| == 1 && x.genres[0] != "" then CollectAll(x.styles, PartOfRow(x.genres[0], true)) else []
  }

  lemma MasterRowsSplit(x: EntityRecord) returns (own: seq<Row>)
    requires x.MasterRecord?
    ensures EntityRows(x) == own + MasterPairs(x) && NoPairs(own)
  {
    CollectNoPairs(x.artists, MasterArtistRow(x.id));
    CollectNoPairs(x.genres, MasterGenreRow(x.id));
    CollectNoPairs(x.styles, MasterStyleRow(x.id));
    var first := [Row({}, None, Some(EntityNode(x)), Record(x.name, x.hash), None, None, None)];
    own := first + (CollectAll(x.artists, MasterArtistRow(x.id)) + CollectAll(x.genres, MasterGenreRow(x.id)) + CollectAll(x.styles, MasterStyleRow(x.id)));
    assert EntityRows(x) == own + MasterPairs(x);
  }

  lemma PairsAreFree(x: EntityRecord)
    requires x.MasterRecord?
    ensures forall row :: row in MasterPairs(x) ==> row.anchors == {}
  {
    if |x.genres| == 1 { CollectMembers(x.styles, PartOfRow(x.genres[0], true), |x.styles|); }
  }

  ghost predicate SaysOf(x: EntityRecord, e: Edge) {
    x.MasterRecord? && e.rel == PART_OF && PairsWith(x.genres, x.styles, e.src.id, e.dst.id)
  }

  lemma MasterOffers(x: EntityRecord, e: Edge)
    requires x.MasterRecord? && Additive(e)
    ensures Offers(EntityRows(x), e) <==> SaysOf(x, e)
    ensures forall row :: row in EntityRows(x) && e in Edges(row) ==> row.anchors == {}
  {
    var own := MasterRowsSplit(x);
    PairsAreFree(x);
    assert Offers(EntityRows(x), e) <==> Offers(MasterPairs(x), e);
    PairsOffered(x, e);
  }

  lemma PairsOffered(x: EntityRecord, e: Edge)
    requires x.MasterRecord? && Additive(e)
    ensures Offers(MasterPairs(x), e) <==> SaysOf(x, e)
  {
    if |x.genres| == 1 {
      if e.rel == PART_OF { StylesPaired(x.styles, x.genres[0], e); }
      else { CollectMembers(x.styles, PartOfRow(x.genres[0], true), |x.styles|); }
    }
  }

  lemma EntityOffers(x: EntityRecord, e: Edge)
    requires Additive(e)
    ensures Mentions(EntityRows(x), e) <==> SaysOf(x, e)
    ensures forall row :: row in EntityRows(x) && e in Edges(row) ==> row.anchors == {}
  {
    OffersIsMentions(EntityRows(x), e);
    match x
    case ArtistRecord(_, _, _, _, _, _) => ArtistNoPairs(x);
    case LabelRecord(_, _, _, _, _) => LabelNoPairs(x);
    case MasterRecord(_, _, _, _, _, _) => MasterOffers(x, e);
  }

  lemma EntityAdds(g: Graph, x: EntityRecord, e: Edge)
    requires Additive(e)
    ensures e in Unwind(g, EntityRows(x)).edges <==> e in g.edges || SaysOf(x, e)
  {
    EntityOffers(x, e);
    FreeEdge(g, EntityRows(x), |EntityRows(x)|, e);
  }

  lemma EntityCutsNoPair(g: Graph, x: EntityRecord, e: Edge)
    requires Additive(e)
    ensures e in Prune(g, (d: Edge) => EntityStale(x, d)).edges <==> e in g.edges
  {
  }

  lemma EntitySays(w: World, x: EntityRecord, e: Edge)
    requires Additive(e)
    ensures e in WriteEntity(w.g, x).edges <==> e in w.g.edges || EventSays(w, Entity(x), e)
  {
    if !(At(w.g.nodes, EntityNode(x)).Some? && At(w.g.nodes, EntityNode(x)).value.hash == Some(x.hash)) {
      EntityCutsNoPair(w.g, x, e);
      EntityAdds(Prune(w.g, (d: Edge) => EntityStale(x, d)), x, e);
    }
  }

  // ---------------------------------------------------------------- every run

  lemma CleanupKeepsAdditive(w: World, ev: Event, e: Edge)
    requires Additive(e) && !WritesReleases(ev) && !ev.Entity? && !WritesElsewhere(ev, e)
    ensures e in Step(w, ev).g.edges <==> e in w.g.edges
    ensures !EventSays(w, ev, e)
  {
  }

  lemma EventAdds(universe: set<ReleaseRecord>, w: World, ev: Event, e: Edge)
    requires Exact(universe, w) && Normalised(universe) && Fair(universe, ev) && Additive(e) && !WritesElsewhere(ev, e)
    ensures e in Step(w, ev).g.edges <==> e in w.g.edges || EventSays(w, ev, e)
  {
    if WritesReleases(ev) {
      var rs := Written(w.latest, ev);
      WrittenEdge(universe, w, ev, e, rs);
      SaidBySeq(rs, |rs|, e, At(w.g.edges, e));
    } else if ev.Entity? {
      EntitySays(w, ev.x, e);
    } else {
      CleanupKeepsAdditive(w, ev, e);
    }
  }

  ghost predicate Said(evs: seq<Event>, b: int, e: Edge) {
    0 <= b < |evs| && EventSays(Run(evs[..b]), evs[b], e)
  }

  lemma SaidBefore(evs: seq<Event>, e: Edge)
    requires evs != []
    ensures forall b :: b < |evs| - 1 ==> (Said(evs, b, e) <==> Said(evs[..|evs| - 1], b, e))
    ensures Said(evs, |evs| - 1, e) <==> EventSays(Run(evs[..|evs| - 1]), evs[|evs| - 1], e)
  {
    forall b | 0 <= b < |evs| - 1 ensures evs[..|evs| - 1][..b] == evs[..b] {}
  }

  /** A style is part of a genre, and a medium of a family, exactly when some record written so far
      said so; no later record takes it back. */
  lemma {:induction false} PairsAccumulate(universe: set<ReleaseRecord>, evs: seq<Event>, e: Edge)
    requires Normalised(universe) && (forall ev :: ev in evs ==> Fair(universe, ev)) && Additive(e)
    requires forall ev :: ev in evs ==> !WritesElsewhere(ev, e)
    ensures e in Run(evs).g.edges <==> exists b :: Said(evs, b, e)
  {
    if evs != [] {
      var front, ev := evs[..|evs| - 1], evs[|evs| - 1];
      PairsAccumulate(universe, front, e);
      ReachableIsExact(universe, front);
      EventAdds(universe, Run(front), ev, e);
      OneMoreSaid(evs, front, e);
    }
  }

  lemma OneMoreSaid(evs: seq<Event>, front: seq<Event>, e: Edge)
    requires evs != [] && front == evs[..|evs| - 1]
    ensures (exists b :: Said(evs, b, e)) <==> (exists b :: Said(front, b, e)) || EventSays(Run(front), evs[|evs| - 1], e)
  {
    SaidBefore(evs, e);
    if b :| Said(evs, b, e) { assert b < |front| ==> Said(front, b, e); }
    if b :| Said(front, b, e) { assert Said(evs, b, e); }
  }
}
