/** The nodes of every reachable graph, said in the fields of the records written: what a release
    node holds, who names a medium or a company last, who names an artist or a label first. */
module RecordNodes {
  import opened Common
  import opened Graph
  import opened Records
  import opened Projection
  import opened Transactions
  import opened BatchEquivalence
  import opened GatedBatch
  import opened Runs
  import opened RecordEdges

  // ---------------------------------------------------------------- the records really written

  /** The latest record of this release has this hash. */
  predicate UpToDate(latest: map<string, ReleaseRecord>, r: ReleaseRecord) {
    r.id in latest && latest[r.id].hash == r.hash
  }

  function OutOfDate(latest: map<string, ReleaseRecord>, ms: seq<ReleaseRecord>, k: nat): seq<ReleaseRecord>
    requires k <= |ms|
  {
    if k == 0 then [] else OutOfDate(latest, ms, k - 1) + if UpToDate(latest, ms[k - 1]) then [] else [ms[k - 1]]
  }

  /** A single message is written unless it is the latest version; a batch compares all its messages
      with the versions before it. */
  function Written(latest: map<string, ReleaseRecord>, ev: Event): seq<ReleaseRecord> {
    match ev
    case Single(r) => if UpToDate(latest, r) then [] else [r]
    case Batch(ms) => OutOfDate(latest, ms, |ms|)
    case _ => []
  }

  /** The records written by the events from position `from` on, in order. */
  ghost function Applied(evs: seq<Event>, from: nat): seq<ReleaseRecord> {
    if |evs| <= from then [] else Applied(evs[..|evs| - 1], from) + Written(Run(evs[..|evs| - 1]).latest, evs[|evs| - 1])
  }

  lemma GateIsLatest(universe: set<ReleaseRecord>, w: World, r: ReleaseRecord)
    requires Exact(universe, w)
    ensures Current(w.g, r) <==> UpToDate(w.latest, r)
  {
    assert r.id in w.latest ==> At(w.g.nodes, Release(r.id)) == Some(Described(w.latest[r.id]));
    assert r.id !in w.latest ==> At(w.g.nodes, Release(r.id)).None?;
  }

  lemma {:induction false} TodoIsOutOfDate(universe: set<ReleaseRecord>, w: World, ms: seq<ReleaseRecord>, k: nat)
    requires Exact(universe, w) && k <= |ms|
    ensures Todo(w.g, ms, k) == OutOfDate(w.latest, ms, k)
  {
    if k > 0 {
      TodoIsOutOfDate(universe, w, ms, k - 1);
      GateIsLatest(universe, w, ms[k - 1]);
    }
  }

  predicate WritesReleases(ev: Event) { ev.Single? || ev.Batch? }

  /** A release event changes each node as its written records do one after the other. */
  lemma WrittenNode(universe: set<ReleaseRecord>, w: World, ev: Event, n: Node, rs: seq<ReleaseRecord>)
    requires Exact(universe, w) && Normalised(universe) && Fair(universe, ev) && WritesReleases(ev)
    requires rs == Written(w.latest, ev)
    ensures At(Step(w, ev).g.nodes, n) == NodeSeq(rs, |rs|, n, At(w.g.nodes, n))
  {
    match ev
    case Single(r) => SingleNode(universe, w, r, n, rs);
    case Batch(ms) => BatchNode(universe, w, ms, n, rs);
  }

  lemma SingleNode(universe: set<ReleaseRecord>, w: World, r: ReleaseRecord, n: Node, rs: seq<ReleaseRecord>)
    requires Exact(universe, w) && Normalised(universe) && r in universe
    requires rs == if UpToDate(w.latest, r) then [] else [r]
    ensures At(ProcessRelease(w.g, r).nodes, n) == NodeSeq(rs, |rs|, n, At(w.g.nodes, n))
  {
    GateIsLatest(universe, w, r);
    if rs == [r] {
      WriteReleaseIsX(w.g, r);
      assert NodeSeq(rs, 1, n, At(w.g.nodes, n)) == NodeStep(n)(rs[0], NodeSeq(rs, 0, n, At(w.g.nodes, n)));
    }
  }

  lemma BatchNode(universe: set<ReleaseRecord>, w: World, ms: seq<ReleaseRecord>, n: Node, rs: seq<ReleaseRecord>)
    requires Exact(universe, w) && Normalised(universe) && Consistent(ms) && forall m :: m in ms ==> m in universe
    requires rs == OutOfDate(w.latest, ms, |ms|)
    ensures At(ProcessBatch(w.g, ms).nodes, n) == NodeSeq(rs, |rs|, n, At(w.g.nodes, n))
  {
    TodoIsOutOfDate(universe, w, ms, |ms|);
    assert Named(ms) by {
      forall i | 0 <= i < |ms| ensures NamedTaxonomy(ms[i]) { assert ms[i] in ms; }
    }
    BatchNodeCells(w.g, ms, n);
  }

  // ---------------------------------------------------------------- rows gathered from records

  /** What one record's own rows leave as the last update and the first name. */
  function Naming(r: ReleaseRecord, n: Node): Option<Update> {
    LastUpdate(RowsOf(NodePart(n), r, true), |RowsOf(NodePart(n), r, true)|, n)
  }

  function Offer(r: ReleaseRecord, n: Node): Option<string> {
    FirstFill(RowsOf(NodePart(n), r, true), |RowsOf(NodePart(n), r, true)|, n)
  }

  lemma {:induction false} PrefixUpdates(a: seq<Row>, b: seq<Row>, k: nat, n: Node)
    requires k <= |a|
    ensures LastUpdate(a + b, k, n) == LastUpdate(a, k, n) && FirstFill(a + b, k, n) == FirstFill(a, k, n)
  {
    if k > 0 { PrefixUpdates(a, b, k - 1, n); }
  }

  lemma {:induction false} AppendedUpdates(a: seq<Row>, b: seq<Row>, k: nat, n: Node, rows: seq<Row>, m: nat)
    requires k <= |b| && rows == a + b && m == |a| + k
    ensures LastUpdate(rows, m, n) == if LastUpdate(b, k, n).Some? then LastUpdate(b, k, n) else LastUpdate(a, |a|, n)
    ensures FirstFill(rows, m, n) == if FirstFill(a, |a|, n).Some? then FirstFill(a, |a|, n) else FirstFill(b, k, n)
  {
    if k == 0 { PrefixUpdates(a, b, |a|, n); } else {
      AppendedUpdates(a, b, k - 1, n, rows, m - 1);
      assert rows[m - 1] == b[k - 1];
    }
  }

  /** The last and the first of k optional values. */
  function LastSome<T>(f: nat -> Option<T>, k: nat): Option<T> {
    if k == 0 then None else if f(k - 1).Some? then f(k - 1) else LastSome(f, k - 1)
  }

  function FirstSome<T>(f: nat -> Option<T>, k: nat): Option<T> {
    if k == 0 then None else if FirstSome(f, k - 1).Some? then FirstSome(f, k - 1) else f(k - 1)
  }

  lemma {:induction false} LastSomeIs<T>(f: nat -> Option<T>, k: nat)
    ensures LastSome(f, k).None? <==> forall j: nat :: j < k ==> f(j).None?
    ensures forall j: nat :: j < k && f(j).Some? && (forall i: nat :: j < i < k ==> f(i).None?) ==> LastSome(f, k) == f(j)
  {
    if k > 0 { LastSomeIs(f, k - 1); }
  }

  lemma {:induction false} FirstSomeIs<T>(f: nat -> Option<T>, k: nat)
    ensures FirstSome(f, k).None? <==> forall j: nat :: j < k ==> f(j).None?
    ensures forall j: nat :: j < k && f(j).Some? && (forall i: nat :: i < j ==> f(i).None?) ==> FirstSome(f, k) == f(j)
  {
    if k > 0 { FirstSomeIs(f, k - 1); }
  }

  lemma {:induction false} SameSome<T>(f: nat -> Option<T>, h: nat -> Option<T>, k: nat)
    requires forall i: nat :: i < k ==> h(i) == f(i)
    ensures LastSome(h, k) == LastSome(f, k) && FirstSome(h, k) == FirstSome(f, k)
  {
    if k > 0 { SameSome(f, h, k - 1); }
  }

  /** Of the values of f followed by those of g. */
  lemma {:induction false} JoinedSome<T>(f: nat -> Option<T>, a: nat, g: nat -> Option<T>, k: nat, h: nat -> Option<T>, m: nat)
    requires m == a + k && forall i: nat :: i < m ==> h(i) == if i < a then f(i) else g(i - a)
    ensures LastSome(h, m) == if LastSome(g, k).Some? then LastSome(g, k) else LastSome(f, a)
    ensures FirstSome(h, m) == if FirstSome(f, a).Some? then FirstSome(f, a) else FirstSome(g, k)
  {
    if k == 0 { SameSome(f, h, a); } else { JoinedSome(f, a, g, k - 1, h, m - 1); }
  }

  /** What each record of a list yields, if anything. */
  function Yield<T>(rs: seq<ReleaseRecord>, of: ReleaseRecord -> Option<T>): nat -> Option<T> {
    (i: nat) => if i < |rs| then of(rs[i]) else None
  }

  lemma JoinedYields<T>(a: seq<ReleaseRecord>, b: seq<ReleaseRecord>, of: ReleaseRecord -> Option<T>)
    ensures LastSome(Yield(a + b, of), |a + b|) == if LastSome(Yield(b, of), |b|).Some? then LastSome(Yield(b, of), |b|) else LastSome(Yield(a, of), |a|)
    ensures FirstSome(Yield(a + b, of), |a + b|) == if FirstSome(Yield(a, of), |a|).Some? then FirstSome(Yield(a, of), |a|) else FirstSome(Yield(b, of), |b|)
  {
    JoinedSome(Yield(a, of), |a|, Yield(b, of), |b|, Yield(a + b, of), |a + b|);
  }

  lemma YieldsAre<T>(rs: seq<ReleaseRecord>, of: ReleaseRecord -> Option<T>, l: Option<T>, f: Option<T>)
    requires l == LastSome(Yield(rs, of), |rs|) && f == FirstSome(Yield(rs, of), |rs|)
    ensures l.None? <==> forall a :: 0 <= a < |rs| ==> of(rs[a]).None?
    ensures f.None? <==> forall a :: 0 <= a < |rs| ==> of(rs[a]).None?
    ensures forall a :: 0 <= a < |rs| && of(rs[a]).Some? && (forall b :: a < b < |rs| ==> of(rs[b]).None?) ==> l == of(rs[a])
    ensures forall a :: 0 <= a < |rs| && of(rs[a]).Some? && (forall b :: 0 <= b < a ==> of(rs[b]).None?) ==> f == of(rs[a])
  {
    var y := Yield(rs, of);
    assert forall i: nat :: i < |rs| ==> y(i) == of(rs[i]);
    LastSomeIs(y, |rs|);
    FirstSomeIs(y, |rs|);
  }

  function NamingFor(n: Node): ReleaseRecord -> Option<Update> { (r: ReleaseRecord) => Naming(r, n) }
  function OfferFor(n: Node): ReleaseRecord -> Option<string> { (r: ReleaseRecord) => Offer(r, n) }

  /** The last naming and the first offer of the first k records. */
  function LastOf(rs: seq<ReleaseRecord>, k: nat, n: Node): Option<Update> { LastSome(Yield(rs, NamingFor(n)), k) }
  function FirstOf(rs: seq<ReleaseRecord>, k: nat, n: Node): Option<string> { FirstSome(Yield(rs, OfferFor(n)), k) }

  lemma {:induction false} GatheredNames(rs: seq<ReleaseRecord>, k: nat, n: Node, rows: seq<Row>)
    requires k <= |rs| && rows == Collect(rs, PartRows(NodePart(n), true), k)
    ensures LastUpdate(rows, |rows|, n) == LastOf(rs, k, n) && FirstFill(rows, |rows|, n) == FirstOf(rs, k, n)
  {
    if k > 0 {
      var front, own := Collect(rs, PartRows(NodePart(n), true), k - 1), RowsOf(NodePart(n), rs[k - 1], true);
      GatheredNames(rs, k - 1, n, front);
      AppendedUpdates(front, own, |own|, n, rows, |rows|);
      OneMoreName(rs, k, n, own);
    }
  }

  lemma OneMoreYield<T>(rs: seq<ReleaseRecord>, k: nat, of: ReleaseRecord -> Option<T>, x: Option<T>)
    requires 0 < k <= |rs| && x == of(rs[k - 1])
    ensures LastSome(Yield(rs, of), k) == if x.Some? then x else LastSome(Yield(rs, of), k - 1)
    ensures FirstSome(Yield(rs, of), k) == if FirstSome(Yield(rs, of), k - 1).Some? then FirstSome(Yield(rs, of), k - 1) else x
  {
  }

  lemma OneMoreName(rs: seq<ReleaseRecord>, k: nat, n: Node, own: seq<Row>)
    requires 0 < k <= |rs| && own == RowsOf(NodePart(n), rs[k - 1], true)
    ensures LastOf(rs, k, n) == if LastUpdate(own, |own|, n).Some? then LastUpdate(own, |own|, n) else LastOf(rs, k - 1, n)
    ensures FirstOf(rs, k, n) == if FirstOf(rs, k - 1, n).Some? then FirstOf(rs, k - 1, n) else FirstFill(own, |own|, n)
  {
    OneMoreYield(rs, k, NamingFor(n), LastUpdate(own, |own|, n));
    OneMoreYield(rs, k, OfferFor(n), FirstFill(own, |own|, n));
  }

  lemma JoinedNames(a: seq<ReleaseRecord>, b: seq<ReleaseRecord>, n: Node)
    ensures LastOf(a + b, |a + b|, n) == if LastOf(b, |b|, n).Some? then LastOf(b, |b|, n) else LastOf(a, |a|, n)
    ensures FirstOf(a + b, |a + b|, n) == if FirstOf(a, |a|, n).Some? then FirstOf(a, |a|, n) else FirstOf(b, |b|, n)
  {
    JoinedYields(a, b, NamingFor(n));
    JoinedYields(a, b, OfferFor(n));
  }

  // ---------------------------------------------------------------- events that write no release

  /** Entity rows leave media and companies alone, and name no node but the entity's own. */
  ghost predicate Unnaming(row: Row, own: Node) {
    && (forall n :: n in Nodes(row) ==> !Renamed(n))
    && (row.node.Some? && row.node != Some(own) ==> row.update.Touch?)
  }

  ghost predicate AllUnnaming(rows: seq<Row>, own: Node) {
    forall row :: row in rows ==> Unnaming(row, own)
  }

  lemma CollectUnnaming(xs: seq<string>, f: string -> seq<Row>, own: Node)
    requires forall x :: x in xs ==> AllUnnaming(f(x), own)
    ensures AllUnnaming(CollectAll(xs, f), own)
  {
    CollectMembers(xs, f, |xs|);
  }

  lemma ArtistRowsUnnaming(x: EntityRecord)
    requires x.ArtistRecord?
    ensures AllUnnaming(EntityRows(x), EntityNode(x))
  {
    CollectUnnaming(x.members, MemberRow(x.id), EntityNode(x));
    CollectUnnaming(x.groups, GroupRow(x.id), EntityNode(x));
    CollectUnnaming(x.aliases, AliasRow(x.id), EntityNode(x));
  }

  lemma LabelRowsUnnaming(x: EntityRecord)
    requires x.LabelRecord?
    ensures AllUnnaming(EntityRows(x), EntityNode(x))
  {
    CollectUnnaming([x.parent], ParentRow(x.id), EntityNode(x));
    CollectUnnaming(x.sublabels, SublabelRow(x.id), EntityNode(x));
  }

  lemma MasterRowsUnnaming(x: EntityRecord)
    requires x.MasterRecord?
    ensures AllUnnaming(EntityRows(x), EntityNode(x))
  {
    CollectUnnaming(x.artists, MasterArtistRow(x.id), EntityNode(x));
    CollectUnnaming(x.genres, MasterGenreRow(x.id), EntityNode(x));
    CollectUnnaming(x.styles, MasterStyleRow(x.id), EntityNode(x));
    if |x.genres| == 1 { PartOfRowsUnnaming(x.styles, x.genres[0], EntityNode(x)); }
  }

  lemma PartOfRowsUnnaming(styles: seq<string>, genre: string, own: Node)
    ensures AllUnnaming(CollectAll(styles, PartOfRow(genre, true)), own)
  {
    CollectUnnaming(styles, PartOfRow(genre, true), own);
  }

  lemma EntityRowsUnnaming(x: EntityRecord)
    ensures AllUnnaming(EntityRows(x), EntityNode(x))
  {
    match x
    case ArtistRecord(_, _, _, _, _, _) => ArtistRowsUnnaming(x);
    case LabelRecord(_, _, _, _, _) => LabelRowsUnnaming(x);
    case MasterRecord(_, _, _, _, _, _) => MasterRowsUnnaming(x);
  }

  function NameOf(g: Graph, n: Node): Option<string> {
    if n in g.nodes then g.nodes[n].name else None
  }

  lemma UnnamingRowKeeps(g: Graph, row: Row, own: Node, n: Node)
    requires Unnaming(row, own)
    ensures Renamed(n) ==> At(ApplyRow(g, row).nodes, n) == At(g.nodes, n)
    ensures n != own ==> NameOf(ApplyRow(g, row), n) == NameOf(g, n)
  {
    if row.anchors <= g.nodes.Keys {
      ApplyRowPointwise(g, row);
      assert At(ApplyRow(g, row).nodes, n) == NodeRow(row, n, At(g.nodes, n));
    }
  }

  lemma {:induction false} UnnamingRowsKeep(g: Graph, rows: seq<Row>, k: nat, own: Node, n: Node)
    requires k <= |rows| && AllUnnaming(rows, own)
    ensures Renamed(n) ==> At(ApplyRows(g, rows, k).nodes, n) == At(g.nodes, n)
    ensures n != own ==> NameOf(ApplyRows(g, rows, k), n) == NameOf(g, n)
  {
    if k > 0 {
      UnnamingRowsKeep(g, rows, k - 1, own, n);
      assert rows[k - 1] in rows;
      UnnamingRowKeeps(ApplyRows(g, rows, k - 1), rows[k - 1], own, n);
    }
  }

  lemma EntityRowsKeepNames(g: Graph, x: EntityRecord, n: Node, after: Graph)
    requires after == Unwind(g, EntityRows(x))
    ensures Renamed(n) ==> At(after.nodes, n) == At(g.nodes, n)
    ensures n != EntityNode(x) ==> NameOf(after, n) == NameOf(g, n)
  {
    EntityRowsUnnaming(x);
    UnnamingRowsKeep(g, EntityRows(x), |EntityRows(x)|, EntityNode(x), n);
  }

  lemma EntityKeepsNames(g: Graph, x: EntityRecord, n: Node)
    ensures Renamed(n) ==> At(WriteEntity(g, x).nodes, n) == At(g.nodes, n)
    ensures n != EntityNode(x) ==> NameOf(WriteEntity(g, x), n) == NameOf(g, n)
  {
    var pruned := Prune(g, (d: Edge) => EntityStale(x, d));
    EntityRowsKeepNames(pruned, x, n, Unwind(pruned, EntityRows(x)));
  }

  /** The event neither writes the node's own record nor may delete the node. */
  predicate Spares(ev: Event, n: Node) {
    match ev
    case Entity(x) => EntityNode(x) != n
    case StubCleanup(nodes) => n !in nodes
    case _ => true
  }

  lemma OtherEventKeepsNames(w: World, ev: Event, n: Node)
    requires !WritesReleases(ev) && n != SENTINEL
    ensures Renamed(n) ==> At(Step(w, ev).g.nodes, n) == At(w.g.nodes, n)
    ensures Spares(ev, n) ==> NameOf(Step(w, ev).g, n) == NameOf(w.g, n)
  {
    match ev
    case Entity(x) => EntityKeepsNames(w.g, x, n);
    case _ =>
  }

  // ---------------------------------------------------------------- media and companies

  /** What a naming, if any, leaves of a cell. */
  predicate Leaves(was: Option<Props>, u: Option<Update>, now: Option<Props>) {
    (u.Some? ==> u.value.Rename?) && now == if u.None? then was else Some(Updated(OrBlank(was), u.value))
  }

  lemma NamingsChain(u: Option<Update>, was: Option<Props>, v: Option<Update>, now: Option<Props>)
    requires Leaves(None, u, was) && Leaves(was, v, now)
    ensures Leaves(None, if v.Some? then v else u, now)
  {
  }

  /** A medium or company has the name and family of the last written record that names it. */
  lemma {:induction false} LastNamingStands(universe: set<ReleaseRecord>, evs: seq<Event>, n: Node, rs: seq<ReleaseRecord>)
    requires Normalised(universe) && (forall ev :: ev in evs ==> Fair(universe, ev)) && Renamed(n)
    requires rs == Applied(evs, 0)
    ensures Leaves(None, LastOf(rs, |rs|, n), At(Run(evs).g.nodes, n))
  {
    if evs != [] {
      var front, ev := evs[..|evs| - 1], evs[|evs| - 1];
      LastNamingStands(universe, front, n, Applied(front, 0));
      ReachableIsExact(universe, front);
      LastNamingStep(universe, Run(front), ev, n, Applied(front, 0), Written(Run(front).latest, ev), Step(Run(front), ev).g);
    }
  }

  lemma LastNamingStep(universe: set<ReleaseRecord>, w: World, ev: Event, n: Node, rs: seq<ReleaseRecord>, more: seq<ReleaseRecord>, g: Graph)
    requires Exact(universe, w) && Normalised(universe) && Fair(universe, ev) && Renamed(n) && more == Written(w.latest, ev) && g == Step(w, ev).g
    requires Leaves(None, LastOf(rs, |rs|, n), At(w.g.nodes, n))
    ensures Leaves(None, LastOf(rs + more, |rs + more|, n), At(g.nodes, n))
  {
    WrittenNames(universe, w, ev, n, more, g);
    NamingsOfBoth(rs, more, n, At(w.g.nodes, n), At(g.nodes, n));
  }

  lemma NamingsOfBoth(rs: seq<ReleaseRecord>, more: seq<ReleaseRecord>, n: Node, was: Option<Props>, now: Option<Props>)
    requires Leaves(None, LastOf(rs, |rs|, n), was) && Leaves(was, LastOf(more, |more|, n), now)
    ensures Leaves(None, LastOf(rs + more, |rs + more|, n), now)
  {
    JoinedNames(rs, more, n);
    NamingsChain(LastOf(rs, |rs|, n), was, LastOf(more, |more|, n), now);
  }

  lemma WrittenNames(universe: set<ReleaseRecord>, w: World, ev: Event, n: Node, rs: seq<ReleaseRecord>, g: Graph)
    requires Exact(universe, w) && Normalised(universe) && Fair(universe, ev) && Renamed(n) && rs == Written(w.latest, ev) && g == Step(w, ev).g
    ensures Leaves(At(w.g.nodes, n), LastOf(rs, |rs|, n), At(g.nodes, n))
  {
    if WritesReleases(ev) {
      WrittenNode(universe, w, ev, n, rs);
      RenamedNode(rs, n, At(w.g.nodes, n));
      GatheredNames(rs, |rs|, n, AllRows(NodePart(n), rs, true));
    } else {
      OtherEventKeepsNames(w, ev, n);
    }
  }

  lemma {:induction false} LastUpdateIs(rows: seq<Row>, k: nat, n: Node, j: nat)
    requires j < k <= |rows| && rows[j].node == Some(n) && forall i :: j < i < k ==> rows[i].node != Some(n)
    ensures LastUpdate(rows, k, n) == Some(rows[j].update)
  {
    if j < k - 1 { LastUpdateIs(rows, k - 1, n, j); }
  }

  lemma {:induction false} NoUpdate(rows: seq<Row>, k: nat, n: Node)
    requires k <= |rows| && forall i :: 0 <= i < k ==> rows[i].node != Some(n)
    ensures LastUpdate(rows, k, n) == None
  {
    if k > 0 { NoUpdate(rows, k - 1, n); }
  }

  lemma LastOfIs(rs: seq<ReleaseRecord>, n: Node)
    ensures LastOf(rs, |rs|, n).None? <==> forall a :: 0 <= a < |rs| ==> Naming(rs[a], n).None?
    ensures forall a :: 0 <= a < |rs| && Naming(rs[a], n).Some? && (forall b :: a < b < |rs| ==> Naming(rs[b], n).None?) ==> LastOf(rs, |rs|, n) == Naming(rs[a], n)
  {
    var of := NamingFor(n);
    assert forall r :: of(r) == Naming(r, n);
    YieldsAre(rs, of, LastOf(rs, |rs|, n), FirstSome(Yield(rs, of), |rs|));
  }

  /** The record's media rows name the medium, and the last of them is row k. */
  lemma MediumNaming(r: ReleaseRecord, m: string)
    ensures Naming(r, Medium(m)).None? <==> forall k :: !MediaAt(r.media, m, k)
    ensures forall k :: LastMedia(r.media, m, k) ==> Naming(r, Medium(m)) == Some(Rename(Some(r.media[k].caption), Some(r.media[k].family)))
  {
    var rows := RowsOf(Media, r, true);
    MediaRowsEach(r);
    forall k | LastMedia(r.media, m, k)
      ensures Naming(r, Medium(m)) == Some(Rename(Some(r.media[k].caption), Some(r.media[k].family)))
    {
      forall j | k < j < |rows| ensures rows[j].node != Some(Medium(m)) { assert !MediaAt(r.media, m, j); }
      LastUpdateIs(rows, |rows|, Medium(m), k);
    }
    if forall k :: !MediaAt(r.media, m, k) {
      forall j | 0 <= j < |rows| ensures rows[j].node != Some(Medium(m)) { assert !MediaAt(r.media, m, j); }
      NoUpdate(rows, |rows|, Medium(m));
    } else {
      var k :| MediaAt(r.media, m, k);
      LastUpdateFound(rows, |rows|, k, Medium(m));
    }
  }

  /** Row k of record a is the last one written that names the medium. */
  ghost predicate NamesMediumLast(rs: seq<ReleaseRecord>, m: string, a: int, k: int) {
    0 <= a < |rs| && LastMedia(rs[a].media, m, k) && forall b, j :: a < b < |rs| ==> !MediaAt(rs[b].media, m, j)
  }

  /** A medium's node exists iff some record written had a row of it, and its name and family are
      the label and family of the last such row. */
  lemma MediumIsItsLastRow(universe: set<ReleaseRecord>, evs: seq<Event>, m: string)
    requires Normalised(universe) && forall ev :: ev in evs ==> Fair(universe, ev)
    ensures var rs := Applied(evs, 0);
      && (Medium(m) in Run(evs).g.nodes <==> exists a, k :: 0 <= a < |rs| && MediaAt(rs[a].media, m, k))
      && (forall a, k :: NamesMediumLast(rs, m, a, k) ==>
            At(Run(evs).g.nodes, Medium(m)) == Some(Props(None, Some(rs[a].media[k].caption), Some(rs[a].media[k].family), None, None, [])))
  {
    var rs, n := Applied(evs, 0), Medium(m);
    LastNamingStands(universe, evs, n, rs);
    LastOfIs(rs, n);
    forall a | 0 <= a < |rs|
      ensures Naming(rs[a], n).None? <==> forall k :: !MediaAt(rs[a].media, m, k)
      ensures forall k :: LastMedia(rs[a].media, m, k) ==> Naming(rs[a], n) == Some(Rename(Some(rs[a].media[k].caption), Some(rs[a].media[k].family)))
    {
      MediumNaming(rs[a], m);
    }
    forall a, k | NamesMediumLast(rs, m, a, k)
      ensures At(Run(evs).g.nodes, n) == Some(Props(None, Some(rs[a].media[k].caption), Some(rs[a].media[k].family), None, None, []))
    {
      assert Naming(rs[a], n).Some? && forall b :: a < b < |rs| ==> Naming(rs[b], n).None?;
    }
  }

  predicate NamesCompany(rows: seq<CompanyRow>, c: string, k: int) {
    0 <= k < |rows| && rows[k].id == c
  }

  predicate LastNamesCompany(rows: seq<CompanyRow>, c: string, k: int) {
    NamesCompany(rows, c, k) && forall j :: k < j < |rows| ==> !NamesCompany(rows, c, j)
  }

  function CompaniesOf(r: ReleaseRecord): seq<CompanyRow> {
    if r.companies.Some? then r.companies.value else []
  }

  lemma CompanyNaming(r: ReleaseRecord, c: string)
    ensures Naming(r, Company(c)).None? <==> forall k :: !NamesCompany(CompaniesOf(r), c, k)
    ensures forall k :: LastNamesCompany(CompaniesOf(r), c, k) ==> Naming(r, Company(c)) == Some(Rename(Some(CompaniesOf(r)[k].name), None))
  {
    var rows, cs := RowsOf(Companies, r, true), CompaniesOf(r);
    if r.companies.Some? { CompanyRowsEach(r); }
    forall k | LastNamesCompany(cs, c, k) ensures Naming(r, Company(c)) == Some(Rename(Some(cs[k].name), None)) {
      forall j | k < j < |rows| ensures rows[j].node != Some(Company(c)) { assert !NamesCompany(cs, c, j); }
      LastUpdateIs(rows, |rows|, Company(c), k);
    }
    if forall k :: !NamesCompany(cs, c, k) {
      forall j | 0 <= j < |rows| ensures rows[j].node != Some(Company(c)) { assert !NamesCompany(cs, c, j); }
      NoUpdate(rows, |rows|, Company(c));
    } else {
      var k :| NamesCompany(cs, c, k);
      LastUpdateFound(rows, |rows|, k, Company(c));
    }
  }

  ghost predicate NamesCompanyLast(rs: seq<ReleaseRecord>, c: string, a: int, k: int) {
    0 <= a < |rs| && LastNamesCompany(CompaniesOf(rs[a]), c, k) && forall b, j :: a < b < |rs| ==> !NamesCompany(CompaniesOf(rs[b]), c, j)
  }

  /** A company's node exists iff some record written credited it, and its name is that of the last
      such row. */
  lemma CompanyIsItsLastRow(universe: set<ReleaseRecord>, evs: seq<Event>, c: string)
    requires Normalised(universe) && forall ev :: ev in evs ==> Fair(universe, ev)
    ensures var rs := Applied(evs, 0);
      && (Company(c) in Run(evs).g.nodes <==> exists a, k :: 0 <= a < |rs| && NamesCompany(CompaniesOf(rs[a]), c, k))
      && (forall a, k :: NamesCompanyLast(rs, c, a, k) ==>
            At(Run(evs).g.nodes, Company(c)) == Some(Props(None, Some(CompaniesOf(rs[a])[k].name), None, None, None, [])))
  {
    var rs, n := Applied(evs, 0), Company(c);
    LastNamingStands(universe, evs, n, rs);
    LastOfIs(rs, n);
    forall a | 0 <= a < |rs|
      ensures Naming(rs[a], n).None? <==> forall k :: !NamesCompany(CompaniesOf(rs[a]), c, k)
      ensures forall k :: LastNamesCompany(CompaniesOf(rs[a]), c, k) ==> Naming(rs[a], n) == Some(Rename(Some(CompaniesOf(rs[a])[k].name), None))
    {
      CompanyNaming(rs[a], c);
    }
    forall a, k | NamesCompanyLast(rs, c, a, k)
      ensures At(Run(evs).g.nodes, n) == Some(Props(None, Some(CompaniesOf(rs[a])[k].name), None, None, None, []))
    {
      assert Naming(rs[a], n).Some? && forall b :: a < b < |rs| ==> Naming(rs[b], n).None?;
    }
  }

  // ---------------------------------------------------------------- artists and labels

  predicate Reference(n: Node) { n.Artist? || n.Label? }

  lemma FillRows(rs: seq<ReleaseRecord>, n: Node)
    requires Reference(n)
    ensures OnlyFills(AllRows(NodePart(n), rs, true), n)
  {
    var rows := AllRows(NodePart(n), rs, true);
    forall i | 0 <= i < |rows| && rows[i].node == Some(n) ensures rows[i].update.Fill? {
      var j := AllRowsFit(NodePart(n), rs, true, rows[i]);
    }
  }

  /** Records written one after the other give a nameless artist or label the first name offered. */
  lemma FilledBySeq(rs: seq<ReleaseRecord>, n: Node, p: Option<Props>)
    requires Reference(n)
    ensures var q := NodeSeq(rs, |rs|, n, p);
      var was := if p.Some? then p.value.name else None;
      (if q.Some? then q.value.name else None) == if was.Some? then was else FirstOf(rs, |rs|, n)
  {
    var rows := AllRows(NodePart(n), rs, true);
    FillRows(rs, n);
    FilledNode(rows, |rows|, n, p);
    GatheredNodes(rs, |rs|, n, p);
    GatheredNames(rs, |rs|, n, rows);
  }

  lemma FirstNameStep(universe: set<ReleaseRecord>, w: World, ev: Event, n: Node, rs: seq<ReleaseRecord>, more: seq<ReleaseRecord>, was: Option<string>)
    requires Exact(universe, w) && Normalised(universe) && Fair(universe, ev) && Reference(n) && Spares(ev, n) && more == Written(w.latest, ev)
    requires NameOf(w.g, n) == if was.Some? then was else FirstOf(rs, |rs|, n)
    ensures NameOf(Step(w, ev).g, n) == if was.Some? then was else FirstOf(rs + more, |rs + more|, n)
  {
    JoinedNames(rs, more, n);
    WrittenOffers(universe, w, ev, n, more, Step(w, ev).g);
  }

  lemma WrittenOffers(universe: set<ReleaseRecord>, w: World, ev: Event, n: Node, rs: seq<ReleaseRecord>, g: Graph)
    requires Exact(universe, w) && Normalised(universe) && Fair(universe, ev) && Reference(n) && Spares(ev, n)
    requires rs == Written(w.latest, ev) && g == Step(w, ev).g
    ensures NameOf(g, n) == if NameOf(w.g, n).Some? then NameOf(w.g, n) else FirstOf(rs, |rs|, n)
  {
    if WritesReleases(ev) {
      WrittenNode(universe, w, ev, n, rs);
      FilledBySeq(rs, n, At(w.g.nodes, n));
    } else {
      OtherEventKeepsNames(w, ev, n);
    }
  }

  lemma {:induction false} FirstNameStands(universe: set<ReleaseRecord>, evs: seq<Event>, from: nat, n: Node, rs: seq<ReleaseRecord>)
    requires Normalised(universe) && (forall ev :: ev in evs ==> Fair(universe, ev)) && Reference(n) && from <= |evs|
    requires (forall j :: from <= j < |evs| ==> Spares(evs[j], n)) && rs == Applied(evs, from)
    ensures var was := NameOf(Run(evs[..from]).g, n);
      NameOf(Run(evs).g, n) == if was.Some? then was else FirstOf(rs, |rs|, n)
  {
    if |evs| == from {
      assert evs[..from] == evs;
    } else {
      var front, ev := evs[..|evs| - 1], evs[|evs| - 1];
      FirstNameStands(universe, front, from, n, Applied(front, from));
      ReachableIsExact(universe, front);
      assert front[..from] == evs[..from];
      FirstNameStep(universe, Run(front), ev, n, Applied(front, from), Written(Run(front).latest, ev), NameOf(Run(evs[..from]).g, n));
    }
  }

  /** Reference k is to x and carries a name, that is, a text that is not blank. */
  predicate OffersName(refs: seq<Ref>, x: string, k: int) {
    0 <= k < |refs| && x != "" && refs[k].id == x && refs[k].name.Str? && Strip(refs[k].name.s) != ""
  }

  predicate FirstOffersName(refs: seq<Ref>, x: string, k: int) {
    OffersName(refs, x, k) && forall j :: 0 <= j < k ==> !OffersName(refs, x, j)
  }

  /** The references a node of this kind is named by. */
  function ReferencesOf(r: ReleaseRecord, n: Node): seq<Ref> {
    if n.Artist? then r.artists else r.labels
  }

  /** The name each reference offers. */
  function OfferedTo(refs: seq<Ref>, x: string): nat -> Option<string> {
    (i: nat) => if OffersName(refs, x, i) then Some(Strip(refs[i].name.s)) else None
  }

  lemma {:induction false} FilledByRefs(refs: seq<Ref>, f: Ref -> seq<Row>, n: Node, k: nat, rows: seq<Row>)
    requires k <= |refs| && Reference(n) && rows == Collect(refs, f, k)
    requires forall i :: 0 <= i < |refs| ==> NamesFrom(f(refs[i]), refs[i], n)
    ensures FirstFill(rows, |rows|, n) == FirstSome(OfferedTo(refs, n.id), k)
  {
    if k > 0 {
      var front, one := Collect(refs, f, k - 1), f(refs[k - 1]);
      FilledByRefs(refs, f, n, k - 1, front);
      OneRefFills(one, refs, k - 1, n);
      AppendedUpdates(front, one, |one|, n, rows, |rows|);
    }
  }

  predicate NamesFrom(rows: seq<Row>, a: Ref, n: Node) {
    (rows == [] && a.id == "") || FillsFrom(rows, a, n)
  }

  /** One row that merges the reference's node, if that is n, and offers its name. */
  predicate FillsFrom(rows: seq<Row>, a: Ref, n: Node) {
    && |rows| == 1 && a.id != "" && rows[0].node.Some? && (rows[0].node == Some(n) <==> a.id == n.id)
    && rows[0].update == Fill(ReferenceName(a))
  }

  lemma OneRefFills(rows: seq<Row>, refs: seq<Ref>, i: nat, n: Node)
    requires i < |refs| && Reference(n) && NamesFrom(rows, refs[i], n)
    ensures FirstFill(rows, |rows|, n) == if OffersName(refs, n.id, i) then Some(Strip(refs[i].name.s)) else None
  {
    if rows != [] { assert FirstFill(rows, 0, n) == None; }
  }

  lemma ArtistOffer(r: ReleaseRecord, n: Node)
    requires n.Artist?
    ensures Offer(r, n) == FirstSome(OfferedTo(r.artists, n.id), |r.artists|)
  {
    FilledByRefs(r.artists, ArtistRow(r.id), n, |r.artists|, RowsOf(Artists, r, true));
  }

  lemma LabelOffer(r: ReleaseRecord, n: Node)
    requires n.Label?
    ensures Offer(r, n) == FirstSome(OfferedTo(r.labels, n.id), |r.labels|)
  {
    FilledByRefs(r.labels, LabelRow(r.id), n, |r.labels|, RowsOf(Labels, r, true));
  }

  lemma OfferIs(r: ReleaseRecord, n: Node)
    requires Reference(n)
    ensures Offer(r, n).None? <==> forall k :: !OffersName(ReferencesOf(r, n), n.id, k)
    ensures forall k :: FirstOffersName(ReferencesOf(r, n), n.id, k) ==> Offer(r, n) == Some(Strip(ReferencesOf(r, n)[k].name.s))
  {
    if n.Artist? { ArtistOffer(r, n); } else { LabelOffer(r, n); }
    var refs := ReferencesOf(r, n);
    var offers := OfferedTo(refs, n.id);
    FirstSomeIs(offers, |refs|);
    assert forall k: nat :: offers(k).Some? <==> OffersName(refs, n.id, k);
    forall k | FirstOffersName(refs, n.id, k) ensures Offer(r, n) == Some(Strip(refs[k].name.s)) {
      assert offers(k) == Some(Strip(refs[k].name.s));
    }
  }

  lemma FirstOfIs(rs: seq<ReleaseRecord>, n: Node)
    ensures FirstOf(rs, |rs|, n).None? <==> forall a :: 0 <= a < |rs| ==> Offer(rs[a], n).None?
    ensures forall a :: 0 <= a < |rs| && Offer(rs[a], n).Some? && (forall b :: 0 <= b < a ==> Offer(rs[b], n).None?) ==> FirstOf(rs, |rs|, n) == Offer(rs[a], n)
  {
    var of := OfferFor(n);
    assert forall r :: of(r) == Offer(r, n);
    YieldsAre(rs, of, LastSome(Yield(rs, of), |rs|), FirstOf(rs, |rs|, n));
  }

  /** Reference k of record a is the first one written that offers the node a name. */
  ghost predicate NamesFirst(rs: seq<ReleaseRecord>, n: Node, a: int, k: int)
    requires Reference(n)
  {
    0 <= a < |rs| && FirstOffersName(ReferencesOf(rs[a], n), n.id, k) && forall b, j :: 0 <= b < a ==> !OffersName(ReferencesOf(rs[b], n), n.id, j)
  }

  /** While its own record is not written and no cleanup may pick it, an artist or label keeps the
      name it has, and without one gets the first name a written release offers for it. */
  lemma ReferenceKeepsItsFirstName(universe: set<ReleaseRecord>, evs: seq<Event>, from: nat, n: Node)
    requires Normalised(universe) && (forall ev :: ev in evs ==> Fair(universe, ev)) && Reference(n) && from <= |evs|
    requires forall j :: from <= j < |evs| ==> Spares(evs[j], n)
    ensures var was, name, rs := NameOf(Run(evs[..from]).g, n), NameOf(Run(evs).g, n), Applied(evs, from);
      && (was.Some? ==> name == was)
      && (was.None? ==> (name.Some? <==> exists a, k :: 0 <= a < |rs| && OffersName(ReferencesOf(rs[a], n), n.id, k)))
      && (was.None? ==> forall a, k :: NamesFirst(rs, n, a, k) ==> name == Some(Strip(ReferencesOf(rs[a], n)[k].name.s)))
  {
    var rs := Applied(evs, from);
    FirstNameStands(universe, evs, from, n, rs);
    FirstOfIs(rs, n);
    forall a | 0 <= a < |rs|
      ensures Offer(rs[a], n).None? <==> forall k :: !OffersName(ReferencesOf(rs[a], n), n.id, k)
      ensures forall k :: FirstOffersName(ReferencesOf(rs[a], n), n.id, k) ==> Offer(rs[a], n) == Some(Strip(ReferencesOf(rs[a], n)[k].name.s))
    {
      OfferIs(rs[a], n);
    }
  }

  // ---------------------------------------------------------------- releases

  /** The latest record: the last message about the release, in a single event or within a batch. */
  function Messages(ev: Event): seq<ReleaseRecord> {
    match ev
    case Single(r) => [r]
    case Batch(ms) => ms
    case _ => []
  }

  predicate Speaks(evs: seq<Event>, i: string, a: int, k: int) {
    0 <= a < |evs| && 0 <= k < |Messages(evs[a])| && Messages(evs[a])[k].id == i
  }

  ghost predicate SpeaksLast(evs: seq<Event>, i: string, a: int, k: int) {
    && Speaks(evs, i, a, k)
    && (forall b, j :: a < b ==> !Speaks(evs, i, b, j))
    && forall j :: k < j ==> !Speaks(evs, i, a, j)
  }

  function MessageOf(ms: seq<ReleaseRecord>, i: string): nat -> Option<ReleaseRecord> {
    (j: nat) => if j < |ms| && ms[j].id == i then Some(ms[j]) else None
  }

  lemma {:induction false} NotedIsLast(latest: map<string, ReleaseRecord>, ms: seq<ReleaseRecord>, k: nat, i: string, f: nat -> Option<ReleaseRecord>)
    requires k <= |ms| && f == MessageOf(ms, i)
    ensures At(Noted(latest, ms, k), i) == if LastSome(f, k).Some? then LastSome(f, k) else At(latest, i)
  {
    if k > 0 {
      NotedIsLast(latest, ms, k - 1, i, f);
      assert f(k - 1) == if ms[k - 1].id == i then Some(ms[k - 1]) else None;
    }
  }

  lemma NotedLast(latest: map<string, ReleaseRecord>, ms: seq<ReleaseRecord>, i: string)
    ensures (forall j :: 0 <= j < |ms| ==> ms[j].id != i) ==> At(Noted(latest, ms, |ms|), i) == At(latest, i)
    ensures forall j :: 0 <= j < |ms| && ms[j].id == i && (forall m :: j < m < |ms| ==> ms[m].id != i) ==> At(Noted(latest, ms, |ms|), i) == Some(ms[j])
  {
    var f := MessageOf(ms, i);
    assert forall j: nat :: j < |ms| ==> f(j) == if ms[j].id == i then Some(ms[j]) else None;
    NotedIsLast(latest, ms, |ms|, i, f);
    LastSomeIs(f, |ms|);
  }

  lemma StepNotes(w: World, ev: Event, after: World)
    requires after == Step(w, ev)
    ensures after.latest == Noted(w.latest, Messages(ev), |Messages(ev)|)
  {
  }

  ghost predicate Remembers(latest: map<string, ReleaseRecord>, evs: seq<Event>, i: string) {
    && ((forall a, k :: !Speaks(evs, i, a, k)) ==> i !in latest)
    && forall a, k :: SpeaksLast(evs, i, a, k) ==> At(latest, i) == Some(Messages(evs[a])[k])
  }

  lemma SpeaksBefore(front: seq<Event>, ev: Event, i: string)
    ensures forall b, j :: b < |front| ==> (Speaks(front + [ev], i, b, j) <==> Speaks(front, i, b, j))
    ensures forall j :: Speaks(front + [ev], i, |front|, j) <==> 0 <= j < |Messages(ev)| && Messages(ev)[j].id == i
  {
  }

  lemma RemembersOneMore(latest: map<string, ReleaseRecord>, front: seq<Event>, ev: Event, i: string, ms: seq<ReleaseRecord>, after: map<string, ReleaseRecord>, evs: seq<Event>)
    requires Remembers(latest, front, i) && ms == Messages(ev) && after == Noted(latest, ms, |ms|) && evs == front + [ev]
    ensures Remembers(after, evs, i)
  {
    SpeaksBefore(front, ev, i);
    NotedLast(latest, ms, i);
    forall a, k | SpeaksLast(evs, i, a, k) ensures At(after, i) == Some(Messages(evs[a])[k]) {
      if a == |front| {
        forall m | k < m < |ms| ensures ms[m].id != i { assert !Speaks(evs, i, a, m); }
      } else {
        forall m | 0 <= m < |ms| ensures ms[m].id != i { assert !Speaks(evs, i, |front|, m); }
        assert SpeaksLast(front, i, a, k);
      }
    }
    if forall a, k :: !Speaks(evs, i, a, k) { SilentAbout(front, ev, i, ms); }
  }

  lemma SilentAbout(front: seq<Event>, ev: Event, i: string, ms: seq<ReleaseRecord>)
    requires ms == Messages(ev) && forall a, k :: !Speaks(front + [ev], i, a, k)
    ensures forall m :: 0 <= m < |ms| ==> ms[m].id != i
    ensures forall a, k :: !Speaks(front, i, a, k)
  {
    SpeaksBefore(front, ev, i);
    forall m | 0 <= m < |ms| ensures ms[m].id != i { assert !Speaks(front + [ev], i, |front|, m); }
    forall a, k ensures !Speaks(front, i, a, k) { assert !Speaks(front + [ev], i, a, k); }
  }

  /** The record remembered as a release's latest is the last message about it. */
  lemma {:induction false} LatestIsLast(evs: seq<Event>, i: string)
    ensures Remembers(Run(evs).latest, evs, i)
  {
    if evs != [] {
      var front, ev := evs[..|evs| - 1], evs[|evs| - 1];
      LatestIsLast(front, i);
      RunNotes(evs, front, ev);
      RemembersOneMore(Run(front).latest, front, ev, i, Messages(ev), Run(evs).latest, evs);
    }
  }

  lemma RunNotes(evs: seq<Event>, front: seq<Event>, ev: Event)
    requires evs != [] && front == evs[..|evs| - 1] && ev == evs[|evs| - 1]
    ensures evs == front + [ev] && Run(evs).latest == Noted(Run(front).latest, Messages(ev), |Messages(ev)|)
  {
    LastIsSplit(evs, front, ev);
    RunLast(evs);
    StepNotes(Run(front), ev, Run(evs));
  }

  lemma LastIsSplit(evs: seq<Event>, front: seq<Event>, ev: Event)
    requires evs != [] && front == evs[..|evs| - 1] && ev == evs[|evs| - 1]
    ensures evs == front + [ev]
  {
  }

  lemma RunLast(evs: seq<Event>)
    requires evs != []
    ensures Run(evs) == Step(Run(evs[..|evs| - 1]), evs[|evs| - 1])
  {
  }

  /** A release's node holds the hash, year, country and media families of the last message about
      it, and exists only if there was one. */
  lemma ReleaseIsItsLastMessage(universe: set<ReleaseRecord>, evs: seq<Event>, i: string)
    requires Normalised(universe) && forall ev :: ev in evs ==> Fair(universe, ev)
    ensures (forall a, k :: !Speaks(evs, i, a, k)) ==> Release(i) !in Run(evs).g.nodes
    ensures forall a, k :: SpeaksLast(evs, i, a, k) ==>
      var r := Messages(evs[a])[k];
      At(Run(evs).g.nodes, Release(i)) == Some(Props(Some(r.hash), None, None, r.year, r.country, r.families))
  {
    ReachableIsExact(universe, evs);
    LatestIsLast(evs, i);
    var w := Run(evs);
    assert i in w.latest ==> At(w.g.nodes, Release(i)) == Some(Described(w.latest[i]));
    assert i !in w.latest ==> At(w.g.nodes, Release(i)).None?;
  }

  // ---------------------------------------------------------------- endpoints

  /** The row merges or matches both ends of every relationship it merges. */
  predicate Grounded(row: Row) {
    forall e :: e in Edges(row) ==> e.src in row.anchors + Nodes(row) && e.dst in row.anchors + Nodes(row)
  }

  ghost predicate AllGrounded(rows: seq<Row>) {
    forall row :: row in rows ==> Grounded(row)
  }

  predicate Stands(g: Graph, e: Edge) {
    e in g.edges ==> e.src in g.nodes && e.dst in g.nodes
  }

  lemma CollectGrounded<A>(xs: seq<A>, f: A -> seq<Row>)
    requires forall x :: x in xs ==> AllGrounded(f(x))
    ensures AllGrounded(CollectAll(xs, f))
  {
    CollectMembers(xs, f, |xs|);
  }

  lemma ReferenceRowsGrounded(p: Part, r: ReleaseRecord, batched: bool)
    requires p.ReleaseNode? || p.Artists? || p.Labels? || p.Masters?
    ensures AllGrounded(RowsOf(p, r, batched))
  {
    if p.Artists? { CollectGrounded(r.artists, ArtistRow(r.id)); }
    if p.Labels? { CollectGrounded(r.labels, LabelRow(r.id)); }
  }

  lemma TaxonomyRowsGrounded(p: Part, r: ReleaseRecord, batched: bool)
    requires p.Genres? || p.Styles? || p.PartOfs?
    ensures AllGrounded(RowsOf(p, r, batched))
  {
    if p.Genres? { CollectGrounded(r.genres, GenreRow(r.id, batched)); }
    if p.Styles? { CollectGrounded(r.styles, StyleRow(r.id, batched)); }
    if p.PartOfs? && |r.genres| == 1 { CollectGrounded(r.styles, PartOfRow(r.genres[0], batched)); }
  }

  lemma CreditRowsGrounded(p: Part, r: ReleaseRecord, batched: bool)
    requires p.Media? || p.Companies? || p.Credits?
    ensures AllGrounded(RowsOf(p, r, batched))
  {
    if p.Media? { CollectGrounded(r.media, MediumRow(r.id)); }
    if p.Companies? && r.companies.Some? { CollectGrounded(r.companies.value, CompanyCredit(r.id)); }
    if p.Credits? { CollectGrounded(r.credits, PersonCredit(r.id)); }
  }

  lemma PartRowsGrounded(p: Part, rs: seq<ReleaseRecord>, batched: bool)
    ensures AllGrounded(AllRows(p, rs, batched))
  {
    forall r | r in rs ensures AllGrounded(PartRows(p, batched)(r)) {
      match p
      case Genres => TaxonomyRowsGrounded(p, r, batched);
      case Styles => TaxonomyRowsGrounded(p, r, batched);
      case PartOfs => TaxonomyRowsGrounded(p, r, batched);
      case Media => CreditRowsGrounded(p, r, batched);
      case Companies => CreditRowsGrounded(p, r, batched);
      case Credits => CreditRowsGrounded(p, r, batched);
      case _ => ReferenceRowsGrounded(p, r, batched);
    }
    CollectGrounded(rs, PartRows(p, batched));
  }

  lemma ArtistRowsGrounded(x: EntityRecord)
    requires x.ArtistRecord?
    ensures AllGrounded(EntityRows(x))
  {
    CollectGrounded(x.members, MemberRow(x.id));
    CollectGrounded(x.groups, GroupRow(x.id));
    CollectGrounded(x.aliases, AliasRow(x.id));
  }

  lemma LabelRowsGrounded(x: EntityRecord)
    requires x.LabelRecord?
    ensures AllGrounded(EntityRows(x))
  {
    CollectGrounded([x.parent], ParentRow(x.id));
    CollectGrounded(x.sublabels, SublabelRow(x.id));
  }

  lemma PairRowsGrounded(styles: seq<string>, genre: string)
    ensures AllGrounded(CollectAll(styles, PartOfRow(genre, true)))
  {
    CollectGrounded(styles, PartOfRow(genre, true));
  }

  lemma MasterRowsGrounded(x: EntityRecord)
    requires x.MasterRecord?
    ensures AllGrounded(EntityRows(x))
  {
    CollectGrounded(x.artists, MasterArtistRow(x.id));
    CollectGrounded(x.genres, MasterGenreRow(x.id));
    CollectGrounded(x.styles, MasterStyleRow(x.id));
    if |x.genres| == 1 { PairRowsGrounded(x.styles, x.genres[0]); }
  }

  lemma EntityRowsGrounded(x: EntityRecord)
    ensures AllGrounded(EntityRows(x))
  {
    match x
    case ArtistRecord(_, _, _, _, _, _) => ArtistRowsGrounded(x);
    case LabelRecord(_, _, _, _, _) => LabelRowsGrounded(x);
    case MasterRecord(_, _, _, _, _, _) => MasterRowsGrounded(x);
  }

  lemma GroundedRowKeeps(g: Graph, row: Row, e: Edge)
    requires Grounded(row) && Stands(g, e)
    ensures Stands(ApplyRow(g, row), e) && g.nodes.Keys <= ApplyRow(g, row).nodes.Keys
  {
  }

  lemma {:induction false} GroundedRowsKeep(g: Graph, rows: seq<Row>, k: nat, e: Edge)
    requires k <= |rows| && AllGrounded(rows) && Stands(g, e)
    ensures Stands(ApplyRows(g, rows, k), e)
  {
    if k > 0 {
      GroundedRowsKeep(g, rows, k - 1, e);
      assert rows[k - 1] in rows;
      GroundedRowKeeps(ApplyRows(g, rows, k - 1), rows[k - 1], e);
    }
  }

  lemma {:induction false} ScriptKeepsStanding(g: Graph, rs: seq<ReleaseRecord>, script: nat -> Op, k: nat, batched: bool, e: Edge)
    requires Stands(g, e)
    ensures Stands(RunScript(g, rs, script, k, batched), e)
  {
    if k > 0 {
      ScriptKeepsStanding(g, rs, script, k - 1, batched, e);
      StatementKeepsStanding(RunScript(g, rs, script, k - 1, batched), rs, script(k - 1), batched, e);
    }
  }

  lemma StatementKeepsStanding(g: Graph, rs: seq<ReleaseRecord>, op: Op, batched: bool, e: Edge)
    requires Stands(g, e)
    ensures Stands(DoOp(g, rs, op, batched), e)
  {
    match op
    case Merge(p) =>
      PartRowsGrounded(p, rs, batched);
      GroundedRowsKeep(g, AllRows(p, rs, batched), |AllRows(p, rs, batched)|, e);
    case Cut(p) => PrunePointwise(g, (d: Edge) => SomeStale(p, rs, d));
    case CutFused => PrunePointwise(g, (d: Edge) => SomeFusedStale(rs, d));
  }

  lemma EventKeepsStanding(w: World, ev: Event, e: Edge)
    requires Stands(w.g, e) && !WritesElsewhere(ev, e)
    ensures Stands(Step(w, ev).g, e)
  {
    match ev
    case Single(r) => ScriptKeepsStanding(w.g, [r], SingleScript, SINGLE_LENGTH, false, e);
    case Batch(ms) => ScriptKeepsStanding(w.g, Todo(w.g, ms, |ms|), BatchScript, BATCH_LENGTH, true, e);
    case Entity(x) =>
      EntityRowsGrounded(x);
      GroundedRowsKeep(Prune(w.g, (d: Edge) => EntityStale(x, d)), EntityRows(x), |EntityRows(x)|, e);
    case _ =>
  }

  /** In every reachable graph a relationship stands between two nodes of the graph, unless some
      other writer put it there. */
  lemma {:induction false} EdgesStandOnNodes(evs: seq<Event>, e: Edge)
    requires forall ev :: ev in evs ==> !WritesElsewhere(ev, e)
    ensures e in Run(evs).g.edges ==> e.src in Run(evs).g.nodes && e.dst in Run(evs).g.nodes
  {
    if evs != [] {
      EdgesStandOnNodes(evs[..|evs| - 1], e);
      EventKeepsStanding(Run(evs[..|evs| - 1]), evs[|evs| - 1], e);
    }
  }
}
