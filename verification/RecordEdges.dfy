/** The relationships of every reachable graph, said in the fields of the latest records: which
    exist, how many copies, and the property each carries. */
module RecordEdges {
  import opened Common
  import opened Graph
  import opened Records
  import opened Projection
  import opened Transactions
  import opened BatchEquivalence
  import opened GatedBatch
  import opened Runs

  // ---------------------------------------------------------------- the last row of an edge

  lemma {:induction false} OneRowEach<A>(xs: seq<A>, f: A -> seq<Row>, k: nat)
    requires k <= |xs| && forall i :: 0 <= i < |xs| ==> |f(xs[i])| == 1
    ensures |Collect(xs, f, k)| == k && forall i :: 0 <= i < k ==> Collect(xs, f, k)[i] == f(xs[i])[0]
  {
    if k > 0 { OneRowEach(xs, f, k - 1); }
  }

  lemma {:induction false} LastPropIs(rows: seq<Row>, k: nat, e: Edge, j: nat)
    requires j < k <= |rows| && rows[j].edge == Some(e) && rows[j].prop.Some?
    requires forall i :: j < i < k ==> rows[i].edge != Some(e)
    ensures LastProp(rows, k, e) == rows[j].prop
  {
    if j < k - 1 { LastPropIs(rows, k - 1, e, j); }
  }

  /** An owned edge's cell in a reachable world, when some row of its record merges it last. */
  lemma CellOfLastRow(universe: set<ReleaseRecord>, w: World, p: Part, i: string, r: ReleaseRecord, e: Edge, j: nat)
    requires Exact(universe, w) && Owns(p, i, e) && SetsProp(p)
    requires if p.Companies? then i in w.blocks && w.blocks[i] == r else i in w.latest && w.latest[i] == r
    requires var rows := RowsOf(p, r, true);
      j < |rows| && rows[j].edge == Some(e) && rows[j].prop.Some? && forall m :: j < m < |rows| ==> rows[m].edge != Some(e)
    ensures e in w.g.edges && w.g.edges[e] == EdgeCell(1, RowsOf(p, r, true)[j].prop.value)
  {
    var rows := RowsOf(p, r, true);
    assert r.id == i;
    assert At(w.g.edges, e) == Expected(w, p, i, e);
    LastPropIs(rows, |rows|, e, j);
    EdgeFoldClosed(rows, |rows|, e, None);
    MergedEdge(rows, |rows|, e, None);
    assert e in Edges(rows[j]);
  }

  /** An owned edge of an exact world is there iff the record it follows asserts it. */
  lemma StatedIff(universe: set<ReleaseRecord>, w: World, p: Part, i: string, e: Edge)
    requires Exact(universe, w) && Owns(p, i, e)
    ensures e in w.g.edges <==> if p.Companies? then i in w.blocks && Asserts(p, w.blocks[i], e) else i in w.latest && Asserts(p, w.latest[i], e)
  {
    assert At(w.g.edges, e) == Expected(w, p, i, e);
    var known := if p.Companies? then w.blocks else w.latest;
    if i in known { AssertedCell(p, known[i], e); }
  }

  // ---------------------------------------------------------------- references and taxonomy

  predicate NamesArtist(r: ReleaseRecord, x: string) { x != "" && exists i :: 0 <= i < |r.artists| && r.artists[i].id == x }
  predicate NamesLabel(r: ReleaseRecord, x: string) { x != "" && exists i :: 0 <= i < |r.labels| && r.labels[i].id == x }

  lemma RefIsKept(refs: seq<Ref>, x: string)
    ensures x in KeptRefs(refs) <==> x != "" && exists i :: 0 <= i < |refs| && refs[i].id == x
  {
    if x in KeptRefs(refs) {
      var a :| a in refs && a.id != "" && a.id == x;
      var i :| 0 <= i < |refs| && refs[i] == a;
    }
    if i :| 0 <= i < |refs| && refs[i].id == x { assert refs[i] in refs; }
  }

  lemma ByIsExact(universe: set<ReleaseRecord>, w: World, i: string, x: string)
    requires Exact(universe, w)
    ensures Edge(Release(i), BY, Artist(x), "", "") in w.g.edges <==> i in w.latest && NamesArtist(w.latest[i], x)
  {
    StatedIff(universe, w, Artists, i, Edge(Release(i), BY, Artist(x), "", ""));
    if i in w.latest { RefIsKept(w.latest[i].artists, x); }
  }

  /** A release's artists in the graph are those its latest record lists, and so for each kind of
      reference below: one relationship each, with no other key. */
  lemma ByIsTheRecords(universe: set<ReleaseRecord>, evs: seq<Event>, i: string, x: string)
    requires Normalised(universe) && forall ev :: ev in evs ==> Fair(universe, ev)
    ensures var w := Run(evs);
      Edge(Release(i), BY, Artist(x), "", "") in w.g.edges <==> i in w.latest && NamesArtist(w.latest[i], x)
  {
    ReachableIsExact(universe, evs);
    ByIsExact(universe, Run(evs), i, x);
  }

  lemma OnIsExact(universe: set<ReleaseRecord>, w: World, i: string, x: string)
    requires Exact(universe, w)
    ensures Edge(Release(i), ON, Label(x), "", "") in w.g.edges <==> i in w.latest && NamesLabel(w.latest[i], x)
  {
    StatedIff(universe, w, Labels, i, Edge(Release(i), ON, Label(x), "", ""));
    if i in w.latest { RefIsKept(w.latest[i].labels, x); }
  }

  lemma OnIsTheRecords(universe: set<ReleaseRecord>, evs: seq<Event>, i: string, x: string)
    requires Normalised(universe) && forall ev :: ev in evs ==> Fair(universe, ev)
    ensures var w := Run(evs);
      Edge(Release(i), ON, Label(x), "", "") in w.g.edges <==> i in w.latest && NamesLabel(w.latest[i], x)
  {
    ReachableIsExact(universe, evs);
    OnIsExact(universe, Run(evs), i, x);
  }

  lemma DerivedFromIsExact(universe: set<ReleaseRecord>, w: World, i: string, x: string)
    requires Exact(universe, w)
    ensures Edge(Release(i), DERIVED_FROM, Master(x), "", "") in w.g.edges <==> i in w.latest && w.latest[i].master == Some(x)
  {
    StatedIff(universe, w, Masters, i, Edge(Release(i), DERIVED_FROM, Master(x), "", ""));
  }

  lemma DerivedFromIsTheRecords(universe: set<ReleaseRecord>, evs: seq<Event>, i: string, x: string)
    requires Normalised(universe) && forall ev :: ev in evs ==> Fair(universe, ev)
    ensures var w := Run(evs);
      Edge(Release(i), DERIVED_FROM, Master(x), "", "") in w.g.edges <==> i in w.latest && w.latest[i].master == Some(x)
  {
    ReachableIsExact(universe, evs);
    DerivedFromIsExact(universe, Run(evs), i, x);
  }

  lemma GenresAreExact(universe: set<ReleaseRecord>, w: World, i: string, x: string)
    requires Exact(universe, w)
    ensures Edge(Release(i), IS, Genre(x), "", "") in w.g.edges <==> i in w.latest && x != "" && x in w.latest[i].genres
  {
    StatedIff(universe, w, Genres, i, Edge(Release(i), IS, Genre(x), "", ""));
  }

  lemma GenresAreTheRecords(universe: set<ReleaseRecord>, evs: seq<Event>, i: string, x: string)
    requires Normalised(universe) && forall ev :: ev in evs ==> Fair(universe, ev)
    ensures var w := Run(evs);
      Edge(Release(i), IS, Genre(x), "", "") in w.g.edges <==> i in w.latest && x != "" && x in w.latest[i].genres
  {
    ReachableIsExact(universe, evs);
    GenresAreExact(universe, Run(evs), i, x);
  }

  lemma StylesAreExact(universe: set<ReleaseRecord>, w: World, i: string, x: string)
    requires Exact(universe, w)
    ensures Edge(Release(i), IS, Style(x), "", "") in w.g.edges <==> i in w.latest && x != "" && x in w.latest[i].styles
  {
    StatedIff(universe, w, Styles, i, Edge(Release(i), IS, Style(x), "", ""));
  }

  lemma StylesAreTheRecords(universe: set<ReleaseRecord>, evs: seq<Event>, i: string, x: string)
    requires Normalised(universe) && forall ev :: ev in evs ==> Fair(universe, ev)
    ensures var w := Run(evs);
      Edge(Release(i), IS, Style(x), "", "") in w.g.edges <==> i in w.latest && x != "" && x in w.latest[i].styles
  {
    ReachableIsExact(universe, evs);
    StylesAreExact(universe, Run(evs), i, x);
  }

  // ---------------------------------------------------------------- media

  predicate MediaAt(rows: seq<MediaRow>, m: string, k: int) {
    0 <= k < |rows| && rows[k].medium == m
  }

  /** The last row of a medium among a record's media rows. */
  predicate LastMedia(rows: seq<MediaRow>, m: string, k: int) {
    MediaAt(rows, m, k) && forall j :: k < j < |rows| ==> !MediaAt(rows, m, j)
  }

  lemma MediaRowsEach(r: ReleaseRecord)
    ensures var rows := RowsOf(Media, r, true);
      |rows| == |r.media| && forall k :: 0 <= k < |rows| ==> rows[k] == MediumRow(r.id)(r.media[k])[0]
  {
    OneRowEach(r.media, MediumRow(r.id), |r.media|);
  }

  lemma MediumCell(universe: set<ReleaseRecord>, w: World, i: string, r: ReleaseRecord, m: string, k: int)
    requires Exact(universe, w) && i in w.latest && w.latest[i] == r && LastMedia(r.media, m, k)
    ensures var e := Edge(Release(i), ISSUED_ON, Medium(m), "", "discogs");
      e in w.g.edges && w.g.edges[e] == EdgeCell(1, Qty(r.media[k].qty))
  {
    MediaRowsEach(r);
    var e := Edge(Release(i), ISSUED_ON, Medium(m), "", "discogs");
    forall j | k < j < |r.media| ensures RowsOf(Media, r, true)[j].edge != Some(e) { assert !MediaAt(r.media, m, j); }
    CellOfLastRow(universe, w, Media, i, r, e, k);
  }

  lemma MediumStated(universe: set<ReleaseRecord>, w: World, i: string, m: string)
    requires Exact(universe, w)
    ensures Edge(Release(i), ISSUED_ON, Medium(m), "", "discogs") in w.g.edges <==> i in w.latest && exists k :: MediaAt(w.latest[i].media, m, k)
  {
    StatedIff(universe, w, Media, i, Edge(Release(i), ISSUED_ON, Medium(m), "", "discogs"));
    if i in w.latest { MediumIsKept(w.latest[i].media, m); }
  }

  /** A release has a discogs ISSUED_ON edge to a medium iff its latest record has a row of it, and
      the edge carries that row's quantity. */
  lemma IssuedOnIsTheRecords(universe: set<ReleaseRecord>, evs: seq<Event>, i: string, m: string)
    requires Normalised(universe) && forall ev :: ev in evs ==> Fair(universe, ev)
    ensures var w := Run(evs);
      var e := Edge(Release(i), ISSUED_ON, Medium(m), "", "discogs");
      && (e in w.g.edges <==> i in w.latest && exists k :: MediaAt(w.latest[i].media, m, k))
      && (i in w.latest ==> forall k :: LastMedia(w.latest[i].media, m, k) ==> e in w.g.edges && w.g.edges[e] == EdgeCell(1, Qty(w.latest[i].media[k].qty)))
  {
    ReachableIsExact(universe, evs);
    MediumStated(universe, Run(evs), i, m);
    var w := Run(evs);
    if i in w.latest {
      forall k | LastMedia(w.latest[i].media, m, k)
        ensures Edge(Release(i), ISSUED_ON, Medium(m), "", "discogs") in w.g.edges
        ensures w.g.edges[Edge(Release(i), ISSUED_ON, Medium(m), "", "discogs")] == EdgeCell(1, Qty(w.latest[i].media[k].qty))
      {
        MediumCell(universe, w, i, w.latest[i], m, k);
      }
    }
  }

  lemma MediumIsKept(rows: seq<MediaRow>, m: string)
    ensures m in KeptMedia(rows) <==> exists k :: MediaAt(rows, m, k)
  {
    if m in KeptMedia(rows) {
      var x :| x in rows && x.medium == m;
      var k :| 0 <= k < |rows| && rows[k] == x;
      assert MediaAt(rows, m, k);
    }
    if k :| MediaAt(rows, m, k) { assert rows[k] in rows; }
  }

  // ---------------------------------------------------------------- companies

  predicate LastCompany(rows: seq<CompanyRow>, id: string, role: string, k: int) {
    CompanyAt(rows, id, role, k) && forall j :: k < j < |rows| ==> !CompanyAt(rows, id, role, j)
  }

  lemma CompanyRowsEach(r: ReleaseRecord)
    requires r.companies.Some?
    ensures var rows := RowsOf(Companies, r, true);
      |rows| == |r.companies.value| && forall k :: 0 <= k < |rows| ==> rows[k] == CompanyCredit(r.id)(r.companies.value[k])[0]
  {
    OneRowEach(r.companies.value, CompanyCredit(r.id), |r.companies.value|);
  }

  lemma CompanyCell(universe: set<ReleaseRecord>, w: World, i: string, r: ReleaseRecord, c: string, role: string, k: int)
    requires Exact(universe, w) && i in w.blocks && w.blocks[i] == r && r.companies.Some? && LastCompany(r.companies.value, c, role, k)
    ensures var e := Edge(Release(i), CREDITED_TO, Company(c), role, "discogs");
      e in w.g.edges && w.g.edges[e] == EdgeCell(1, Category(r.companies.value[k].category))
  {
    CompanyRowsEach(r);
    var e := Edge(Release(i), CREDITED_TO, Company(c), role, "discogs");
    forall j | k < j < |r.companies.value| ensures RowsOf(Companies, r, true)[j].edge != Some(e) { assert !CompanyAt(r.companies.value, c, role, j); }
    CellOfLastRow(universe, w, Companies, i, r, e, k);
  }

  /** Only records with a block are remembered as such. */
  lemma BlocksSpeak(universe: set<ReleaseRecord>, evs: seq<Event>)
    requires Normalised(universe) && forall ev :: ev in evs ==> Fair(universe, ev)
    ensures forall k :: k in Run(evs).blocks ==> Run(evs).blocks[k].companies.Some? && Run(evs).blocks[k].id == k
  {
    ReachableIsExact(universe, evs);
  }

  lemma CompanyStated(universe: set<ReleaseRecord>, w: World, i: string, c: string, role: string)
    requires Exact(universe, w)
    ensures i in w.blocks ==> w.blocks[i].companies.Some?
    ensures Edge(Release(i), CREDITED_TO, Company(c), role, "discogs") in w.g.edges
      <==> i in w.blocks && exists k :: CompanyAt(w.blocks[i].companies.value, c, role, k)
  {
    StatedIff(universe, w, Companies, i, Edge(Release(i), CREDITED_TO, Company(c), role, "discogs"));
    if i in w.blocks { CompanyIsKept(w.blocks[i].companies.value, c, role); }
  }

  /** A release has a discogs CREDITED_TO edge for a company and role iff the last record of it that
      carried a block has such a row, and the edge carries that row's role category. */
  lemma CreditedToIsTheRecords(universe: set<ReleaseRecord>, evs: seq<Event>, i: string, c: string, role: string)
    requires Normalised(universe) && forall ev :: ev in evs ==> Fair(universe, ev)
    ensures forall k :: k in Run(evs).blocks ==> Run(evs).blocks[k].companies.Some?
    ensures var w := Run(evs);
      var e := Edge(Release(i), CREDITED_TO, Company(c), role, "discogs");
      && (e in w.g.edges <==> i in w.blocks && exists k :: CompanyAt(w.blocks[i].companies.value, c, role, k))
      && (i in w.blocks ==> forall k :: LastCompany(w.blocks[i].companies.value, c, role, k) ==>
            e in w.g.edges && w.g.edges[e] == EdgeCell(1, Category(w.blocks[i].companies.value[k].category)))
  {
    BlocksSpeak(universe, evs);
    ReachableIsExact(universe, evs);
    CompanyStated(universe, Run(evs), i, c, role);
    var w := Run(evs);
    if i in w.blocks {
      forall k | LastCompany(w.blocks[i].companies.value, c, role, k)
        ensures Edge(Release(i), CREDITED_TO, Company(c), role, "discogs") in w.g.edges
        ensures w.g.edges[Edge(Release(i), CREDITED_TO, Company(c), role, "discogs")] == EdgeCell(1, Category(w.blocks[i].companies.value[k].category))
      {
        CompanyCell(universe, w, i, w.blocks[i], c, role, k);
      }
    }
  }

  predicate CompanyAt(rows: seq<CompanyRow>, id: string, role: string, k: int) {
    0 <= k < |rows| && rows[k].id == id && rows[k].role == role
  }

  lemma CompanyIsKept(rows: seq<CompanyRow>, id: string, role: string)
    ensures (id, role) in KeptCompanies(rows) <==> exists k :: CompanyAt(rows, id, role, k)
  {
    if (id, role) in KeptCompanies(rows) {
      var x :| x in rows && (x.id, x.role) == (id, role);
      var k :| 0 <= k < |rows| && rows[k] == x;
      assert CompanyAt(rows, id, role, k);
    }
    if k :| CompanyAt(rows, id, role, k) { assert rows[k] in rows; }
  }

  // ---------------------------------------------------------------- people

  predicate LastCredit(rows: seq<CreditRow>, name: string, role: string, k: int) {
    CreditAt(rows, name, role, k) && forall j :: k < j < |rows| ==> !CreditAt(rows, name, role, j)
  }

  lemma CreditRowsEach(r: ReleaseRecord)
    ensures var rows := RowsOf(Credits, r, true);
      |rows| == |r.credits| && forall k :: 0 <= k < |rows| ==> rows[k] == PersonCredit(r.id)(r.credits[k])[0]
  {
    OneRowEach(r.credits, PersonCredit(r.id), |r.credits|);
  }

  predicate CreditAt(rows: seq<CreditRow>, name: string, role: string, k: int) {
    0 <= k < |rows| && rows[k].name == name && rows[k].role == role
  }

  lemma CreditIsKept(rows: seq<CreditRow>, name: string, role: string)
    ensures (name, role) in KeptCredits(rows) <==> exists k :: CreditAt(rows, name, role, k)
  {
    if (name, role) in KeptCredits(rows) {
      var x :| x in rows && (x.name, x.role) == (name, role);
      var k :| 0 <= k < |rows| && rows[k] == x;
      assert CreditAt(rows, name, role, k);
    }
    if k :| CreditAt(rows, name, role, k) { assert rows[k] in rows; }
  }

  lemma CreditCell(universe: set<ReleaseRecord>, w: World, i: string, r: ReleaseRecord, name: string, role: string, k: int)
    requires Exact(universe, w) && i in w.latest && w.latest[i] == r && LastCredit(r.credits, name, role, k)
    ensures var e := Edge(Person(name), CREDITED_ON, Release(i), role, "");
      e in w.g.edges && w.g.edges[e] == EdgeCell(1, Category(r.credits[k].category))
  {
    CreditRowsEach(r);
    var e := Edge(Person(name), CREDITED_ON, Release(i), role, "");
    forall j | k < j < |r.credits| ensures RowsOf(Credits, r, true)[j].edge != Some(e) { assert !CreditAt(r.credits, name, role, j); }
    CellOfLastRow(universe, w, Credits, i, r, e, k);
  }

  lemma CreditStated(universe: set<ReleaseRecord>, w: World, i: string, name: string, role: string)
    requires Exact(universe, w)
    ensures Edge(Person(name), CREDITED_ON, Release(i), role, "") in w.g.edges <==> i in w.latest && exists k :: CreditAt(w.latest[i].credits, name, role, k)
  {
    StatedIff(universe, w, Credits, i, Edge(Person(name), CREDITED_ON, Release(i), role, ""));
    if i in w.latest { CreditIsKept(w.latest[i].credits, name, role); }
  }

  /** A person is credited on a release in a role iff its latest record has such a row, and the edge
      carries that row's category. */
  lemma CreditedOnIsTheRecords(universe: set<ReleaseRecord>, evs: seq<Event>, i: string, name: string, role: string)
    requires Normalised(universe) && forall ev :: ev in evs ==> Fair(universe, ev)
    ensures var w := Run(evs);
      var e := Edge(Person(name), CREDITED_ON, Release(i), role, "");
      && (e in w.g.edges <==> i in w.latest && exists k :: CreditAt(w.latest[i].credits, name, role, k))
      && (i in w.latest ==> forall k :: LastCredit(w.latest[i].credits, name, role, k) ==>
            e in w.g.edges && w.g.edges[e] == EdgeCell(1, Category(w.latest[i].credits[k].category)))
  {
    ReachableIsExact(universe, evs);
    CreditStated(universe, Run(evs), i, name, role);
    var w := Run(evs);
    if i in w.latest {
      forall k | LastCredit(w.latest[i].credits, name, role, k)
        ensures Edge(Person(name), CREDITED_ON, Release(i), role, "") in w.g.edges
        ensures w.g.edges[Edge(Person(name), CREDITED_ON, Release(i), role, "")] == EdgeCell(1, Category(w.latest[i].credits[k].category))
      {
        CreditCell(universe, w, i, w.latest[i], name, role, k);
      }
    }
  }
}
