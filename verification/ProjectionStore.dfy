/** The release writers themselves: the loops that build each statement's rows and the
    statements that change the stored graph, proved against the functions the theorems are
    about. */
module ProjectionStore {
  import opened Common
  import opened Graph
  import opened Records
  import opened Projection
  import opened Transactions
  import opened GatedBatch

  // ---------------------------------------------------------------- distinct values

  /** xs without repeats, each value where it was first seen. */
  function FirstSeen<T(==)>(xs: seq<T>, k: nat): seq<T>
    requires k <= |xs|
  {
    if k == 0 then []
    else if xs[k - 1] in FirstSeen(xs, k - 1) then FirstSeen(xs, k - 1)
    else FirstSeen(xs, k - 1) + [xs[k - 1]]
  }

  /** The same values, none twice; a longer prefix only adds values at the end, so they stand in
      the order they were first seen. */
  lemma {:induction false} FirstSeenIsDistinct<T>(xs: seq<T>, k: nat)
    requires k <= |xs|
    ensures forall x :: x in FirstSeen(xs, k) <==> x in xs[..k]
    ensures forall i, j :: 0 <= i < j < |FirstSeen(xs, k)| ==> FirstSeen(xs, k)[i] != FirstSeen(xs, k)[j]
    ensures forall j :: 0 <= j <= k ==> FirstSeen(xs, j) <= FirstSeen(xs, k)
  {
    if k > 0 {
      FirstSeenIsDistinct(xs, k - 1);
      assert xs[..k] == xs[..k - 1] + [xs[k - 1]];
    }
  }

  /** _distinct_values and _distinct_pairs. */
  method Distinct<T(==)>(xs: seq<T>) returns (ys: seq<T>)
    ensures ys == FirstSeen(xs, |xs|)
  {
    ys := [];
    for k := 0 to |xs|
      invariant ys == FirstSeen(xs, k)
    {
      if xs[k] !in ys { ys := ys + [xs[k]]; }
    }
  }

  // ---------------------------------------------------------------- merges that only create

  /** Rows that merge and SET nothing. */
  ghost predicate PureMerges(rows: seq<Row>) {
    forall i :: 0 <= i < |rows| ==> rows[i].update.Touch? && rows[i].prop.None?
  }

  lemma {:induction false} PureEdge(rows: seq<Row>, k: nat, e: Edge)
    requires k <= |rows| && PureMerges(rows)
    ensures LastProp(rows, k, e).None?
  {
    if k > 0 { PureEdge(rows, k - 1, e); }
  }

  /** Their whole effect: what they mention exists, everything else is as it was. */
  lemma PureMergeCells(g: Graph, rows: seq<Row>, n: Node, e: Edge)
    requires PureMerges(rows) && Anchored(g, rows)
    ensures At(Unwind(g, rows).nodes, n) == if Visits(rows, n) then Some(OrBlank(At(g.nodes, n))) else At(g.nodes, n)
    ensures At(Unwind(g, rows).edges, e) == if Mentions(rows, e) then Some(OrNew(At(g.edges, e))) else At(g.edges, e)
  {
    UnwindPointwise(g, rows);
    TouchedNode(rows, |rows|, n, At(g.nodes, n));
    PureEdge(rows, |rows|, e);
    EdgeFoldClosed(rows, |rows|, e, At(g.edges, e));
    MergedEdge(rows, |rows|, e, At(g.edges, e));
  }

  lemma MoreRowsMentionMore(a: seq<Row>, b: seq<Row>, n: Node, e: Edge)
    requires forall row :: row in a ==> row in b
    ensures Visits(a, n) ==> Visits(b, n)
    ensures Mentions(a, e) ==> Mentions(b, e)
  {
    if Visits(a, n) {
      var i :| 0 <= i < |a| && n in Nodes(a[i]);
      assert a[i] in b;
    }
    if Mentions(a, e) {
      var i :| 0 <= i < |a| && e in Edges(a[i]);
      assert a[i] in b;
    }
  }

  ghost predicate SameMentions(a: seq<Row>, b: seq<Row>) {
    && (forall n :: Visits(a, n) <==> Visits(b, n))
    && (forall e :: Mentions(a, e) <==> Mentions(b, e))
  }

  /** Pure merges that mention the same nodes and edges leave the same graph. */
  lemma SameMentionsSameGraph(g: Graph, a: seq<Row>, b: seq<Row>)
    requires PureMerges(a) && PureMerges(b) && Anchored(g, a) && Anchored(g, b) && SameMentions(a, b)
    ensures Unwind(g, a) == Unwind(g, b)
  {
    forall n ensures At(Unwind(g, a).nodes, n) == At(Unwind(g, b).nodes, n) {
      PureMergeCells(g, a, n, By("", ""));
      PureMergeCells(g, b, n, By("", ""));
    }
    forall e ensures At(Unwind(g, a).edges, e) == At(Unwind(g, b).edges, e) {
      PureMergeCells(g, a, Release(""), e);
      PureMergeCells(g, b, Release(""), e);
    }
    GraphExtensional(Unwind(g, a), Unwind(g, b));
  }

  lemma SameRowsSameMentions(a: seq<Row>, b: seq<Row>)
    requires forall row :: row in a <==> row in b
    ensures SameMentions(a, b)
  {
    forall n ensures Visits(a, n) <==> Visits(b, n) {
      MoreRowsMentionMore(a, b, n, By("", ""));
      MoreRowsMentionMore(b, a, n, By("", ""));
    }
    forall e ensures Mentions(a, e) <==> Mentions(b, e) {
      MoreRowsMentionMore(a, b, Release(""), e);
      MoreRowsMentionMore(b, a, Release(""), e);
    }
  }

  // ---------------------------------------------------------------- taxonomy in two statements

  function TaxonomyNode(genre: bool, name: string): Node { if genre then Genre(name) else Style(name) }
  function TaxonomyPart(genre: bool): Part { if genre then Genres else Styles }
  function TaxonomyNames(genre: bool, r: ReleaseRecord): seq<string> { if genre then r.genres else r.styles }

  function TaxonomyEdge(genre: bool, r: string, name: string): Edge {
    if genre then IsGenre(r, name) else IsStyle(r, name)
  }

  /** MERGE (:Genre {name}) per distinct name. */
  function NameRows(genre: bool, names: seq<string>): seq<Row> {
    seq(|names|, i requires 0 <= i < |names| => Row({}, None, Some(TaxonomyNode(genre, names[i])), Touch, None, None, None))
  }

  /** MATCH the release, MATCH the taxonomy node, MERGE the edge. */
  function LinkRows(genre: bool, data: seq<(string, string)>): seq<Row> {
    seq(|data|, i requires 0 <= i < |data| =>
      Row({Release(data[i].0), TaxonomyNode(genre, data[i].1)}, None, None, Touch, None, Some(TaxonomyEdge(genre, data[i].0, data[i].1)), None))
  }

  /** The single-statement form: MATCH the release, MERGE the node, MERGE the edge. */
  function JoinRows(genre: bool, data: seq<(string, string)>): seq<Row> {
    seq(|data|, i requires 0 <= i < |data| =>
      Joined(data[i].0, TaxonomyNode(genre, data[i].1), Touch, TaxonomyEdge(genre, data[i].0, data[i].1), None))
  }

  function Names(data: seq<(string, string)>): seq<string> {
    seq(|data|, i requires 0 <= i < |data| => data[i].1)
  }

  lemma NamesAreMerged(genre: bool, data: seq<(string, string)>, names: seq<string>, n: Node)
    requires forall x :: x in names <==> x in Names(data)
    ensures Visits(NameRows(genre, names), n) <==> Visits(JoinRows(genre, data), n)
  {
    if Visits(NameRows(genre, names), n) {
      var i :| 0 <= i < |names| && n == TaxonomyNode(genre, names[i]);
      assert names[i] in Names(data);
      var j :| 0 <= j < |data| && data[j].1 == names[i];
      assert n in Nodes(JoinRows(genre, data)[j]);
    }
    if Visits(JoinRows(genre, data), n) {
      var j :| 0 <= j < |data| && n in Nodes(JoinRows(genre, data)[j]);
      assert Names(data)[j] in names;
      var i :| 0 <= i < |names| && names[i] == data[j].1;
      assert n in Nodes(NameRows(genre, names)[i]);
    }
  }

  lemma LinkedEdges(genre: bool, data: seq<(string, string)>, e: Edge)
    ensures Mentions(LinkRows(genre, data), e) <==> Mentions(JoinRows(genre, data), e)
  {
    if Mentions(LinkRows(genre, data), e) {
      var i :| 0 <= i < |data| && e in Edges(LinkRows(genre, data)[i]);
      assert e in Edges(JoinRows(genre, data)[i]);
    }
    if Mentions(JoinRows(genre, data), e) {
      var i :| 0 <= i < |data| && e in Edges(JoinRows(genre, data)[i]);
      assert e in Edges(LinkRows(genre, data)[i]);
    }
  }

  lemma LinksAreAnchored(g: Graph, genre: bool, data: seq<(string, string)>, names: seq<string>)
    requires Anchored(g, JoinRows(genre, data)) && forall x :: x in names <==> x in Names(data)
    ensures Anchored(Unwind(g, NameRows(genre, names)), LinkRows(genre, data))
  {
    var named := Unwind(g, NameRows(genre, names));
    UnwindPointwise(g, NameRows(genre, names));
    forall i | 0 <= i < |data| ensures LinkRows(genre, data)[i].anchors <= named.nodes.Keys {
      assert JoinRows(genre, data)[i].anchors == {Release(data[i].0)};
      assert Names(data)[i] == data[i].1 && data[i].1 in names;
      var n := TaxonomyNode(genre, data[i].1);
      assert n in Nodes(JoinRows(genre, data)[i]);
      assert Visits(JoinRows(genre, data), n);
      NamesAreMerged(genre, data, names, n);
      PureMergeCells(g, NameRows(genre, names), n, By("", ""));
      assert At(named.nodes, n).Some?;
    }
  }

  /** Merging each distinct name once and only matching it per row leaves the graph that merging
      it on every row leaves, as long as every release of the batch is there. */
  lemma TwoStatementsAreOne(g: Graph, genre: bool, data: seq<(string, string)>, names: seq<string>)
    requires Anchored(g, JoinRows(genre, data)) && forall x :: x in names <==> x in Names(data)
    ensures Unwind(Unwind(g, NameRows(genre, names)), LinkRows(genre, data)) == Unwind(g, JoinRows(genre, data))
  {
    var named := Unwind(g, NameRows(genre, names));
    LinksAreAnchored(g, genre, data, names);
    var two, one := Unwind(named, LinkRows(genre, data)), Unwind(g, JoinRows(genre, data));
    forall n ensures At(two.nodes, n) == At(one.nodes, n) { SameNodes(g, genre, data, names, named, n); }
    forall e ensures At(two.edges, e) == At(one.edges, e) { SameEdges(g, genre, data, names, named, e); }
    GraphExtensional(two, one);
  }

  lemma LinksCreateNoNode(genre: bool, data: seq<(string, string)>, names: seq<string>)
    ensures forall n :: !Visits(LinkRows(genre, data), n)
    ensures forall e :: !Mentions(NameRows(genre, names), e)
  {
  }

  lemma SameNodes(g: Graph, genre: bool, data: seq<(string, string)>, names: seq<string>, named: Graph, n: Node)
    requires Anchored(g, JoinRows(genre, data)) && forall x :: x in names <==> x in Names(data)
    requires named == Unwind(g, NameRows(genre, names)) && Anchored(named, LinkRows(genre, data))
    ensures At(Unwind(named, LinkRows(genre, data)).nodes, n) == At(Unwind(g, JoinRows(genre, data)).nodes, n)
  {
    var e := By("", "");
    LinksCreateNoNode(genre, data, names);
    PureMergeCells(g, NameRows(genre, names), n, e);
    PureMergeCells(named, LinkRows(genre, data), n, e);
    PureMergeCells(g, JoinRows(genre, data), n, e);
    NamesAreMerged(genre, data, names, n);
  }

  lemma SameEdges(g: Graph, genre: bool, data: seq<(string, string)>, names: seq<string>, named: Graph, e: Edge)
    requires Anchored(g, JoinRows(genre, data))
    requires named == Unwind(g, NameRows(genre, names)) && Anchored(named, LinkRows(genre, data))
    ensures At(Unwind(named, LinkRows(genre, data)).edges, e) == At(Unwind(g, JoinRows(genre, data)).edges, e)
  {
    var n := Release("");
    LinksCreateNoNode(genre, data, names);
    PureMergeCells(g, NameRows(genre, names), n, e);
    PureMergeCells(named, LinkRows(genre, data), n, e);
    PureMergeCells(g, JoinRows(genre, data), n, e);
    LinkedEdges(genre, data, e);
  }

  // ---------------------------------------------------------------- row lists

  method ArtistData(rs: seq<ReleaseRecord>) returns (rows: seq<Row>)
    ensures rows == CollectAll(rs, PartRows(Artists, true))
  {
    rows := [];
    for i := 0 to |rs|
      invariant rows == Collect(rs, PartRows(Artists, true), i)
    {
      var own := ArtistsOf(rs[i].id, rs[i].artists);
      rows := rows + own;
    }
  }

  method ArtistsOf(r: string, refs: seq<Ref>) returns (rows: seq<Row>)
    ensures rows == CollectAll(refs, ArtistRow(r))
  {
    rows := [];
    for j := 0 to |refs|
      invariant rows == Collect(refs, ArtistRow(r), j)
    {
      var a := refs[j];
      if a.id != "" { rows := rows + [Joined(r, Artist(a.id), Fill(ReferenceName(a)), By(r, a.id), None)]; }
    }
  }

  method LabelData(rs: seq<ReleaseRecord>) returns (rows: seq<Row>)
    ensures rows == CollectAll(rs, PartRows(Labels, true))
  {
    rows := [];
    for i := 0 to |rs|
      invariant rows == Collect(rs, PartRows(Labels, true), i)
    {
      var own := LabelsOf(rs[i].id, rs[i].labels);
      rows := rows + own;
    }
  }

  method LabelsOf(r: string, refs: seq<Ref>) returns (rows: seq<Row>)
    ensures rows == CollectAll(refs, LabelRow(r))
  {
    rows := [];
    for j := 0 to |refs|
      invariant rows == Collect(refs, LabelRow(r), j)
    {
      var l := refs[j];
      if l.id != "" { rows := rows + [Joined(r, Label(l.id), Fill(ReferenceName(l)), On(r, l.id), None)]; }
    }
  }

  method MasterData(rs: seq<ReleaseRecord>) returns (rows: seq<Row>)
    ensures rows == CollectAll(rs, PartRows(Masters, true))
  {
    rows := [];
    for i := 0 to |rs|
      invariant rows == Collect(rs, PartRows(Masters, true), i)
    {
      if rs[i].master.Some? {
        rows := rows + [Joined(rs[i].id, Master(rs[i].master.value), Touch, DerivedFrom(rs[i].id, rs[i].master.value), None)];
      }
    }
  }

  lemma JoinOneMore(genre: bool, data: seq<(string, string)>, d: (string, string))
    ensures JoinRows(genre, data + [d]) == JoinRows(genre, data) + [Joined(d.0, TaxonomyNode(genre, d.1), Touch, TaxonomyEdge(genre, d.0, d.1), None)]
  {
  }

  function NameRow(genre: bool, r: string): string -> seq<Row> {
    if genre then GenreRow(r, true) else StyleRow(r, true)
  }

  /** The names of one release, empty ones dropped. */
  method NamesOf(r: string, names: seq<string>, genre: bool, before: seq<(string, string)>) returns (data: seq<(string, string)>)
    ensures JoinRows(genre, data) == JoinRows(genre, before) + CollectAll(names, NameRow(genre, r))
  {
    data := before;
    for j := 0 to |names|
      invariant JoinRows(genre, data) == JoinRows(genre, before) + Collect(names, NameRow(genre, r), j)
    {
      if names[j] != "" {
        JoinOneMore(genre, data, (r, names[j]));
        data := data + [(r, names[j])];
      }
    }
  }

  lemma TaxonomyRowsOf(genre: bool, r: ReleaseRecord)
    ensures PartRows(TaxonomyPart(genre), true)(r) == CollectAll(TaxonomyNames(genre, r), NameRow(genre, r.id))
  {
  }

  /** genre_data and style_data: (release, name) for every non-empty name. */
  method TaxonomyData(rs: seq<ReleaseRecord>, genre: bool) returns (data: seq<(string, string)>)
    ensures JoinRows(genre, data) == CollectAll(rs, PartRows(TaxonomyPart(genre), true))
  {
    data := [];
    for i := 0 to |rs|
      invariant JoinRows(genre, data) == Collect(rs, PartRows(TaxonomyPart(genre), true), i)
    {
      TaxonomyRowsOf(genre, rs[i]);
      data := NamesOf(rs[i].id, TaxonomyNames(genre, rs[i]), genre, data);
    }
  }

  function PairRow(d: (string, string)): Row {
    Row({}, Some(Genre(d.0)), Some(Style(d.1)), Touch, None, Some(PartOf(d.1, d.0)), None)
  }

  function PairRows(data: seq<(string, string)>): seq<Row> {
    seq(|data|, i requires 0 <= i < |data| => PairRow(data[i]))
  }

  lemma PairOneMore(data: seq<(string, string)>, d: (string, string))
    ensures PairRows(data + [d]) == PairRows(data) + [PairRow(d)]
  {
  }

  method StylesUnder(genre: string, styles: seq<string>, before: seq<(string, string)>) returns (data: seq<(string, string)>)
    ensures PairRows(data) == PairRows(before) + CollectAll(styles, PartOfRow(genre, true))
  {
    data := before;
    for j := 0 to |styles|
      invariant PairRows(data) == PairRows(before) + Collect(styles, PartOfRow(genre, true), j)
    {
      if styles[j] != "" {
        PairOneMore(data, (genre, styles[j]));
        data := data + [(genre, styles[j])];
      }
    }
  }

  lemma PartOfRowsOf(r: ReleaseRecord)
    ensures PartRows(PartOfs, true)(r) == if |r.genres| == 1 && r.genres[0] != "" then CollectAll(r.styles, PartOfRow(r.genres[0], true)) else []
  {
  }

  /** genre_style_data: (genre, style) of every record with a single, named genre. */
  method GenreStyleData(rs: seq<ReleaseRecord>) returns (data: seq<(string, string)>)
    ensures PairRows(data) == CollectAll(rs, PartRows(PartOfs, true))
  {
    data := [];
    for i := 0 to |rs|
      invariant PairRows(data) == Collect(rs, PartRows(PartOfs, true), i)
    {
      data := PairsOf(rs[i], data);
    }
  }

  method PairsOf(r: ReleaseRecord, before: seq<(string, string)>) returns (data: seq<(string, string)>)
    ensures PairRows(data) == PairRows(before) + PartRows(PartOfs, true)(r)
  {
    data := before;
    PartOfRowsOf(r);
    if |r.genres| == 1 && r.genres[0] != "" {
      data := StylesUnder(r.genres[0], r.styles, data);
    }
  }

  lemma DistinctPairRows(data: seq<(string, string)>, pairs: seq<(string, string)>)
    requires pairs == FirstSeen(data, |data|)
    ensures forall row :: row in PairRows(pairs) <==> row in PairRows(data)
  {
    FirstSeenIsDistinct(data, |data|);
    assert data[..|data|] == data;
    forall row | row in PairRows(pairs) ensures row in PairRows(data) {
      var i :| 0 <= i < |pairs| && PairRow(pairs[i]) == row;
      assert pairs[i] in data;
      var j :| 0 <= j < |data| && data[j] == pairs[i];
      assert PairRows(data)[j] == row;
    }
    forall row | row in PairRows(data) ensures row in PairRows(pairs) {
      var i :| 0 <= i < |data| && PairRow(data[i]) == row;
      assert data[i] in pairs;
      var j :| 0 <= j < |pairs| && pairs[j] == data[i];
      assert PairRows(pairs)[j] == row;
    }
  }

  /** The parts whose rows were computed once per release: gathered in release order. */
  method Gather(rs: seq<ReleaseRecord>, f: ReleaseRecord -> seq<Row>) returns (rows: seq<Row>)
    ensures rows == CollectAll(rs, f)
  {
    rows := [];
    for i := 0 to |rs|
      invariant rows == Collect(rs, f, i)
    {
      rows := rows + f(rs[i]);
    }
  }

  // ---------------------------------------------------------------- the store

  /** Messages without an id are rejected; the rest are handled. */
  function Accepted(ms: seq<ReleaseRecord>, k: nat): seq<ReleaseRecord>
    requires k <= |ms|
  {
    if k == 0 then [] else Accepted(ms, k - 1) + if ms[k - 1].id == "" then [] else [ms[k - 1]]
  }

  function Times<T(==)>(xs: seq<T>, k: nat, x: T): nat
    requires k <= |xs|
  {
    if k == 0 then 0 else Times(xs, k - 1, x) + if xs[k - 1] == x then 1 else 0
  }

  lemma {:induction false} TimesOfPrefix<T>(xs: seq<T>, y: T, k: nat, x: T)
    requires k <= |xs|
    ensures Times(xs + [y], k, x) == Times(xs, k, x)
  {
    if k > 0 { TimesOfPrefix(xs, y, k - 1, x); }
  }

  lemma TimesOneMore<T>(xs: seq<T>, y: T, x: T, ys: seq<T>)
    requires ys == xs + [y]
    ensures Times(ys, |ys|, x) == Times(xs, |xs|, x) + if y == x then 1 else 0
  {
    TimesOfPrefix(xs, y, |xs|, x);
    assert ys[|ys| - 1] == y;
  }

  /** So every message with an id is accepted as often as it came, in the order it came. */
  lemma {:induction false} AcceptedHaveIds(ms: seq<ReleaseRecord>, k: nat, r: ReleaseRecord)
    requires k <= |ms|
    ensures Times(Accepted(ms, k), |Accepted(ms, k)|, r) == if r.id == "" then 0 else Times(ms, k, r)
    ensures forall j :: 0 <= j <= k ==> Accepted(ms, j) <= Accepted(ms, k)
  {
    if k > 0 {
      AcceptedHaveIds(ms, k - 1, r);
      if ms[k - 1].id != "" {
        TimesOneMore(Accepted(ms, k - 1), ms[k - 1], r, Accepted(ms, k));
      } else {
        assert Accepted(ms, k) == Accepted(ms, k - 1);
      }
    }
  }

  lemma RunOneMore(g: Graph, rs: seq<ReleaseRecord>, script: nat -> Op, k: nat, batched: bool)
    ensures RunScript(g, rs, script, k + 1, batched) == DoOp(RunScript(g, rs, script, k, batched), rs, script(k), batched)
  {
  }

  class GraphStore {
    var g: Graph

    constructor ()
      ensures g == EMPTY_GRAPH
    {
      g := EMPTY_GRAPH;
    }

    /** Run one UNWIND statement. */
    method Write(rows: seq<Row>)
      modifies this
      ensures g == Unwind(old(g), rows)
    {
      var now := g;
      for k := 0 to |rows|
        invariant now == ApplyRows(old(g), rows, k)
        invariant g == old(g)
      {
        now := ApplyRow(now, rows[k]);
      }
      g := now;
    }

    /** Run one MATCH … DELETE statement. */
    method Delete(doomed: Edge -> bool)
      modifies this
      ensures g == Prune(old(g), doomed)
    {
      g := Prune(g, doomed);
    }

    /** One statement of a script, for the statements whose rows are computed as they stand. */
    method Statement(rs: seq<ReleaseRecord>, op: Op, batched: bool)
      modifies this
      ensures g == DoOp(old(g), rs, op, batched)
    {
      match op {
        case Merge(p) =>
          var rows := Gather(rs, PartRows(p, batched));
          Write(rows);
        case Cut(p) => Delete((e: Edge) => SomeStale(p, rs, e));
        case CutFused => Delete((e: Edge) => SomeFusedStale(rs, e));
      }
    }

    /** Merge each distinct name once, then only match it per row. */
    method WriteTaxonomy(rs: seq<ReleaseRecord>, genre: bool)
      requires ReleasesPresent(g, rs)
      modifies this
      ensures g == DoOp(old(g), rs, Merge(TaxonomyPart(genre)), true)
    {
      var data := TaxonomyData(rs, genre);
      RowsAnchored(g, TaxonomyPart(genre), rs, true);
      if data != [] {
        var names := Distinct(Names(data));
        FirstSeenIsDistinct(Names(data), |data|);
        assert Names(data)[..|data|] == Names(data);
        TwoStatementsAreOne(g, genre, data, names);
        Write(NameRows(genre, names));
        Write(LinkRows(genre, data));
      }
    }

    /** Merge each distinct (genre, style) pair once. */
    method WritePairs(rs: seq<ReleaseRecord>)
      modifies this
      ensures g == DoOp(old(g), rs, Merge(PartOfs), true)
    {
      var data := GenreStyleData(rs);
      if data != [] {
        var pairs := Distinct(data);
        DistinctPairRows(data, pairs);
        SameRowsSameMentions(PairRows(pairs), PairRows(data));
        SameMentionsSameGraph(g, PairRows(pairs), PairRows(data));
        Write(PairRows(pairs));
      }
    }

    /** batch_write: one transaction over every release that needs writing. */
    method BatchWrite(rs: seq<ReleaseRecord>)
      modifies this
      ensures g == WriteBatch(old(g), rs)
    {
      ghost var g0 := g;
      Statement(rs, Merge(ReleaseNode), true);
      FirstStatement(g0, rs, true);
      RunOneMore(g0, rs, BatchScript, 0, true);
      Statement(rs, CutFused, true);
      RunOneMore(g0, rs, BatchScript, 1, true);
      var artists := ArtistData(rs);
      Write(artists);
      RunOneMore(g0, rs, BatchScript, 2, true);
      var labels := LabelData(rs);
      Write(labels);
      RunOneMore(g0, rs, BatchScript, 3, true);
      var masters := MasterData(rs);
      Write(masters);
      RunOneMore(g0, rs, BatchScript, 4, true);
      ReleasesArePresent(g0, rs, BatchScript, 5, true);
      WriteTaxonomy(rs, true);
      RunOneMore(g0, rs, BatchScript, 5, true);
      ReleasesArePresent(g0, rs, BatchScript, 6, true);
      WriteTaxonomy(rs, false);
      RunOneMore(g0, rs, BatchScript, 6, true);
      WritePairs(rs);
      RunOneMore(g0, rs, BatchScript, 7, true);
      Statement(rs, Cut(Media), true);
      RunOneMore(g0, rs, BatchScript, 8, true);
      Statement(rs, Merge(Media), true);
      RunOneMore(g0, rs, BatchScript, 9, true);
      Statement(rs, Cut(Companies), true);
      RunOneMore(g0, rs, BatchScript, 10, true);
      Statement(rs, Merge(Companies), true);
      RunOneMore(g0, rs, BatchScript, 11, true);
      Statement(rs, Cut(Credits), true);
      RunOneMore(g0, rs, BatchScript, 12, true);
      Statement(rs, Merge(Credits), true);
      RunOneMore(g0, rs, BatchScript, 13, true);
    }

    /** The stored hash of each release asked for; an absent or empty one is left out. */
    method ExistingHashes(rs: seq<ReleaseRecord>) returns (hashes: map<string, string>)
      ensures forall r :: r in rs ==> ((r.id in hashes && hashes[r.id] == r.hash && r.hash != "") <==> Current(g, r) && r.hash != "")
    {
      hashes := map[];
      for k := 0 to |rs|
        invariant forall id :: id in hashes ==> Release(id) in g.nodes && g.nodes[Release(id)].hash == Some(hashes[id])
        invariant forall j :: 0 <= j < k && Current(g, rs[j]) && rs[j].hash != "" ==> rs[j].id in hashes
      {
        var n := Release(rs[k].id);
        if n in g.nodes && g.nodes[n].hash.Some? && g.nodes[n].hash.value != "" {
          hashes := hashes[rs[k].id := g.nodes[n].hash.value];
        }
      }
    }

    /** process_release: nothing when the stored hash is the record's, otherwise the record's
        prunes and merges in order. */
    method ProcessOne(r: ReleaseRecord) returns (changed: bool)
      modifies this
      ensures g == ProcessRelease(old(g), r) && changed == !Current(old(g), r)
    {
      if Release(r.id) in g.nodes && g.nodes[Release(r.id)].hash == Some(r.hash) {
        return false;
      }
      ghost var g0 := g;
      Statement([r], Merge(ReleaseNode), false);
      RunOneMore(g0, [r], SingleScript, 0, false);
      Statement([r], Cut(Artists), false);
      RunOneMore(g0, [r], SingleScript, 1, false);
      Statement([r], Cut(Labels), false);
      RunOneMore(g0, [r], SingleScript, 2, false);
      Statement([r], Cut(Masters), false);
      RunOneMore(g0, [r], SingleScript, 3, false);
      Statement([r], Cut(Genres), false);
      RunOneMore(g0, [r], SingleScript, 4, false);
      Statement([r], Cut(Styles), false);
      RunOneMore(g0, [r], SingleScript, 5, false);
      Statement([r], Cut(Media), false);
      RunOneMore(g0, [r], SingleScript, 6, false);
      Statement([r], Merge(Media), false);
      RunOneMore(g0, [r], SingleScript, 7, false);
      Statement([r], Cut(Companies), false);
      RunOneMore(g0, [r], SingleScript, 8, false);
      Statement([r], Merge(Companies), false);
      RunOneMore(g0, [r], SingleScript, 9, false);
      Statement([r], Merge(Artists), false);
      RunOneMore(g0, [r], SingleScript, 10, false);
      Statement([r], Merge(Labels), false);
      RunOneMore(g0, [r], SingleScript, 11, false);
      Statement([r], Merge(Masters), false);
      RunOneMore(g0, [r], SingleScript, 12, false);
      Statement([r], Merge(Genres), false);
      RunOneMore(g0, [r], SingleScript, 13, false);
      Statement([r], Merge(Styles), false);
      RunOneMore(g0, [r], SingleScript, 14, false);
      Statement([r], Merge(PartOfs), false);
      RunOneMore(g0, [r], SingleScript, 15, false);
      Statement([r], Cut(Credits), false);
      RunOneMore(g0, [r], SingleScript, 16, false);
      Statement([r], Merge(Credits), false);
      RunOneMore(g0, [r], SingleScript, 17, false);
      changed := true;
    }

    /** _process_releases_batch: reject the messages without an id, read every hash once, and
        write what is out of date in one transaction. */
    method ProcessMessages(ms: seq<ReleaseRecord>) returns (rejected: set<nat>)
      requires forall m :: m in ms ==> m.hash != ""
      modifies this
      ensures rejected == set i: nat | i < |ms| && ms[i].id == ""
      ensures g == ProcessBatch(old(g), Accepted(ms, |ms|))
    {
      rejected := {};
      var releases: seq<ReleaseRecord> := [];
      for i := 0 to |ms|
        invariant rejected == set j: nat | j < i && ms[j].id == ""
        invariant releases == Accepted(ms, i)
        invariant forall r :: r in releases ==> r in ms
      {
        if ms[i].id == "" { rejected := rejected + {i}; } else { releases := releases + [ms[i]]; }
      }
      var hashes := ExistingHashes(releases);
      var todo := [];
      for k := 0 to |releases|
        invariant todo == Todo(g, releases, k)
      {
        var r := releases[k];
        assert r in releases;
        if !(r.id in hashes && hashes[r.id] == r.hash) { todo := todo + [r]; }
      }
      if todo != [] { BatchWrite(todo); }
    }
  }
}
