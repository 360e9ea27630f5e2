/** Person credit counts straight from the latest records, and their agreement with the
    grouped counts over CREDITED_ON edges. */
module CreditStats {
  import opened Common
  import opened Graph
  import opened Records
  import opened Projection
  import opened Transactions
  import opened Runs
  import opened Aggregates
  import opened RecordStats
  import B = Rows
  import N = PersonNames

  // ---------------------------------------------------------------- straight from the records

  predicate Credits(r: ReleaseRecord, name: string) {
    exists c :: c in r.credits && c.name == name
  }

  predicate CreditsAs(r: ReleaseRecord, name: string, category: string) {
    exists c :: c in r.credits && c.name == name && c.category == category
  }

  /** The releases crediting the person, and those doing so in one category. */
  function Crediting(latest: Latest, name: string): set<string> {
    set i | i in latest && Credits(latest[i], name)
  }

  function CreditingAs(latest: Latest, name: string, category: string): set<string> {
    set i | i in latest && CreditsAs(latest[i], name, category)
  }

  /** The category is computed from the role. */
  predicate CategoryByRole(r: ReleaseRecord) {
    forall c, d :: c in r.credits && d in r.credits && c.role == d.role ==> c.category == d.category
  }

  ghost predicate Categorising(universe: set<ReleaseRecord>) {
    forall r :: r in universe ==> CategoryByRole(r)
  }

  /** Credit rows as person_credit_rows builds them always are. */
  lemma BuiltCreditsAreByRole(r: ReleaseRecord, cs: seq<B.Credit>, rules: B.CreditRules)
    requires N.Hex(rules.digest) && r.credits == B.CreditRows(cs, rules, |cs|)
    ensures CategoryByRole(r)
  {
    B.CreditRowsAreUsable(cs, rules, |cs|);
  }

  // ---------------------------------------------------------------- the cell of a credit

  lemma {:induction false} LastPropFromRow(rows: seq<Row>, k: nat, e: Edge)
    requires k <= |rows| && LastProp(rows, k, e).Some?
    ensures exists i :: 0 <= i < k && rows[i].edge == Some(e) && rows[i].prop == LastProp(rows, k, e)
  {
    if !(rows[k - 1].edge == Some(e) && rows[k - 1].prop.Some?) { LastPropFromRow(rows, k - 1, e); }
  }

  predicate CreditMakes(c: CreditRow, i: string, e: Edge, prop: EdgeProp) {
    CreditedOn(c.name, i, c.role) == e && prop == Category(c.category)
  }

  /** A credit edge's category is that of one of the record's rows for it. */
  lemma CreditCell(r: ReleaseRecord, e: Edge)
    requires Owns(Part.Credits, r.id, e)
    ensures var cell := EdgesAfter(RowsOf(Part.Credits, r, true), e, None);
      cell.Some? ==> exists c :: c in r.credits && CreditMakes(c, r.id, e, cell.value.prop)
  {
    var rows := RowsOf(Part.Credits, r, true);
    var cell := EdgesAfter(rows, e, None);
    if cell.Some? {
      RowsFit(Part.Credits, r, true);
      MergedEdge(rows, |rows|, e, None);
      OwnedProp(rows, |rows|, Part.Credits, r.id, e);
      EdgeFoldClosed(rows, |rows|, e, None);
      LastPropFromRow(rows, |rows|, e);
      var i :| 0 <= i < |rows| && rows[i].edge == Some(e) && rows[i].prop == LastProp(rows, |rows|, e);
      assert rows[i] in rows;
      CollectMembers(r.credits, PersonCredit(r.id), |r.credits|);
      var k :| 0 <= k < |r.credits| && rows[i] in PersonCredit(r.id)(r.credits[k]);
      assert CreditMakes(r.credits[k], r.id, e, cell.value.prop);
    }
  }

  /** In a reachable graph, the credit edges of a release are its latest record's rows. */
  lemma CreditEdge(universe: set<ReleaseRecord>, w: World, e: Edge)
    requires Exact(universe, w) && e.rel == CREDITED_ON && e.src.Person? && e.dst.Release?
    ensures e in w.g.edges ==> e.dst.id in w.latest && exists c :: c in w.latest[e.dst.id].credits && CreditMakes(c, e.dst.id, e, w.g.edges[e].prop)
  {
    var i := e.dst.id;
    assert Owns(Part.Credits, i, e);
    assert At(w.g.edges, e) == Expected(w, Part.Credits, i, e);
    if i in w.latest {
      assert w.latest[i].id == i;
      CreditCell(w.latest[i], e);
    }
  }

  lemma RowHasEdge(universe: set<ReleaseRecord>, w: World, i: string, c: CreditRow)
    requires Exact(universe, w) && i in w.latest && c in w.latest[i].credits
    ensures CreditedOn(c.name, i, c.role) in CreditsOf(w.g, Person(c.name))
  {
    var e := CreditedOn(c.name, i, c.role);
    assert Owns(Part.Credits, i, e);
    assert w.latest[i].id == i;
    assert At(w.g.edges, e) == Expected(w, Part.Credits, i, e);
    AssertedCell(Part.Credits, w.latest[i], e);
    assert (c.name, c.role) in KeptCredits(w.latest[i].credits);
  }

  // ---------------------------------------------------------------- counts agree

  function ReleaseAt(): string -> Node {
    (i: string) => Release(i)
  }

  /** The distinct releases of a person's credits are those whose latest record names them. */
  lemma CreditCountIsDirect(universe: set<ReleaseRecord>, w: World, name: string)
    requires Exact(universe, w)
    ensures |CreditedReleases(w.g, Person(name))| == |Crediting(w.latest, name)|
  {
    var rs, f := CreditedReleases(w.g, Person(name)), ReleaseAt();
    forall r | r in rs ensures exists i :: i in Crediting(w.latest, name) && f(i) == r {
      var e :| e in CreditsOf(w.g, Person(name)) && e.dst == r;
      CreditEdge(universe, w, e);
      assert f(r.id) == r;
    }
    forall i | i in Crediting(w.latest, name) ensures f(i) in rs {
      var c :| c in w.latest[i].credits && c.name == name;
      RowHasEdge(universe, w, i, c);
    }
    SameSize(Crediting(w.latest, name), rs, f);
  }

  lemma CategoryFromRecord(universe: set<ReleaseRecord>, w: World, name: string, category: string, r: Node)
    requires Exact(universe, w) && r in ReleasesIn(w.g, Person(name), category)
    ensures r.Release? && r.id in CreditingAs(w.latest, name, category)
  {
    var e :| e in CreditsOf(w.g, Person(name)) && e.dst == r && w.g.edges[e].prop.Category? && w.g.edges[e].prop.c == category;
    CreditEdge(universe, w, e);
  }

  lemma CategoryInGraph(universe: set<ReleaseRecord>, w: World, name: string, category: string, i: string)
    requires Exact(universe, w) && Categorising(universe) && i in CreditingAs(w.latest, name, category)
    ensures Release(i) in ReleasesIn(w.g, Person(name), category)
  {
    var c :| c in w.latest[i].credits && c.name == name && c.category == category;
    RowHasEdge(universe, w, i, c);
    var e := CreditedOn(c.name, i, c.role);
    CreditEdge(universe, w, e);
    var d :| d in w.latest[i].credits && CreditMakes(d, i, e, w.g.edges[e].prop);
    assert w.latest[i] in universe;
    assert d.category == c.category;
    assert e.dst == Release(i) && w.g.edges[e].prop == Category(category);
  }

  lemma CategoryCountIsDirect(universe: set<ReleaseRecord>, w: World, name: string, category: string)
    requires Exact(universe, w) && Categorising(universe)
    ensures |ReleasesIn(w.g, Person(name), category)| == |CreditingAs(w.latest, name, category)|
  {
    var rs, f := ReleasesIn(w.g, Person(name), category), ReleaseAt();
    forall r | r in rs ensures exists i :: i in CreditingAs(w.latest, name, category) && f(i) == r {
      CategoryFromRecord(universe, w, name, category, r);
      assert f(r.id) == r;
    }
    forall i | i in CreditingAs(w.latest, name, category) ensures f(i) in rs {
      CategoryInGraph(universe, w, name, category, i);
    }
    SameSize(CreditingAs(w.latest, name, category), rs, f);
  }
}
