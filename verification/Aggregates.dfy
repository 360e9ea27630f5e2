/** The earliest of a set of years. */
module Years {
  import opened Common

  ghost predicate IsLeast(years: set<int>, y: int) {
    y in years && forall z :: z in years ==> y <= z
  }

  /** min(r.year), or null over no rows. */
  ghost function LeastYear(years: set<int>): Option<int> {
    if exists y :: IsLeast(years, y) then var y :| IsLeast(years, y); Some(y) else None
  }

  lemma {:induction false} LeastExists(years: set<int>, x: int)
    requires x in years
    ensures exists y :: IsLeast(years, y)
    decreases |years|
  {
    if IsLeast(years, x) {
    } else {
      var z :| z in years && z < x;
      var rest := years - {x};
      LeastExists(rest, z);
      var y :| IsLeast(rest, y);
      assert forall v :: v in years ==> v == x || v in rest;
      assert IsLeast(years, y);
    }
  }

  lemma LeastYearIsLeast(years: set<int>)
    ensures LeastYear(years).None? <==> forall y :: y !in years
    ensures LeastYear(years).Some? ==> IsLeast(years, LeastYear(years).value)
  {
    if x :| x in years { LeastExists(years, x); }
  }
}

/** The statistics statements as written, over the edges of the graph: counts without DISTINCT,
    shared expansions, sort-then-head, grouped credits, and guarded writes. */
module Aggregates {
  import opened Common
  import opened Graph
  import opened Years

  // ---------------------------------------------------------------- rows and counts

  /** count(r) over matched relationships: one row per copy of each. */
  ghost function CopiesSum(edges: map<Edge, EdgeCell>, es: set<Edge>): nat
    requires es <= edges.Keys
  {
    if es == {} then 0 else var e :| e in es; edges[e].copies + CopiesSum(edges, es - {e})
  }

  ghost predicate SingleCopies(edges: map<Edge, EdgeCell>, es: set<Edge>) {
    forall e :: e in es ==> e in edges && edges[e].copies == 1
  }

  /** MERGE keeps one copy per key, so counting rows counts relationships. */
  lemma {:induction false} CopiesSumIsSize(edges: map<Edge, EdgeCell>, es: set<Edge>)
    requires SingleCopies(edges, es)
    ensures CopiesSum(edges, es) == |es|
  {
    if es != {} {
      var e :| e in es && CopiesSum(edges, es) == edges[e].copies + CopiesSum(edges, es - {e});
      CopiesSumIsSize(edges, es - {e});
    }
  }

  /** count(r) over a two-step pattern: one row per pair of copies. */
  ghost function PairSum(edges: map<Edge, EdgeCell>, ps: set<(Edge, Edge)>): nat
    requires forall p :: p in ps ==> p.0 in edges && p.1 in edges
  {
    if ps == {} then 0 else var p :| p in ps; edges[p.0].copies * edges[p.1].copies + PairSum(edges, ps - {p})
  }

  lemma {:induction false} PairSumIsSize(edges: map<Edge, EdgeCell>, ps: set<(Edge, Edge)>)
    requires forall p :: p in ps ==> p.0 in edges && p.1 in edges && edges[p.0].copies == 1 && edges[p.1].copies == 1
    ensures PairSum(edges, ps) == |ps|
  {
    if ps != {} {
      var p :| p in ps && PairSum(edges, ps) == edges[p.0].copies * edges[p.1].copies + PairSum(edges, ps - {p});
      PairSumIsSize(edges, ps - {p});
    }
  }

  /** A second copy is counted twice: the fast count needs the uniqueness MERGE provides. */
  lemma SecondCopyIsCountedTwice(e: Edge)
    ensures CopiesSum(map[e := EdgeCell(2, NoProp)], {e}) == 2 && |{e}| == 1
  {
    var edges := map[e := EdgeCell(2, NoProp)];
    var x :| x in {e} && CopiesSum(edges, {e}) == edges[x].copies + CopiesSum(edges, {e} - {x});
    assert {e} - {x} == {};
  }

  // ---------------------------------------------------------------- patterns

  /** MATCH (n)<-[:rel]-(r:Release) */
  function Into(g: Graph, n: Node, rel: Relation): set<Edge> {
    set e | e in g.edges && e.rel == rel && e.dst == n && e.src.Release?
  }

  function ReleasesOf(es: set<Edge>): set<Node> {
    set e | e in es :: e.src
  }

  function Pairs(near: set<Edge>, far: set<Edge>): set<(Edge, Edge)> {
    set a, b | a in near && b in far && a.src == b.src :: (a, b)
  }

  /** MATCH (n)<-[:near]-(r:Release)-[:far]->(t) for one t */
  function Through(g: Graph, n: Node, near: Relation, far: Relation, t: Node): set<(Edge, Edge)> {
    Pairs(Into(g, n, near), Into(g, t, far))
  }

  function Onward(g: Graph, rs: set<Node>, far: Relation, kind: Node -> bool): set<Edge> {
    set e | e in g.edges && e.rel == far && kind(e.dst) && e.src in rs
  }

  /** The targets reached that way, of one label. */
  function Reached(g: Graph, n: Node, near: Relation, far: Relation, kind: Node -> bool): set<Node> {
    set e | e in Onward(g, ReleasesOf(Into(g, n, near)), far, kind) :: e.dst
  }

  predicate AnArtist(n: Node) { n.Artist? }
  predicate ALabel(n: Node) { n.Label? }
  predicate AGenre(n: Node) { n.Genre? }
  predicate AStyle(n: Node) { n.Style? }

  // ---------------------------------------------------------------- stored statistics

  datatype Stat = ReleaseCount | ArtistCount | LabelCount | GenreCount | StyleCount | FirstYear | PrimaryGenre
                | CreditCount | CategoryCount(category: string)

  datatype StatValue = Number(n: int) | Word(s: string)

  type Stats = map<(Node, Stat), StatValue>

  /** SET n.stat = v; null removes the property. */
  function SetStat(st: Stats, n: Node, s: Stat, v: Option<StatValue>): Stats {
    if v.Some? then st[(n, s) := v.value] else st - {(n, s)}
  }

  /** SET only when the stored value is missing or differs. */
  function GuardedSet(st: Stats, n: Node, s: Stat, v: StatValue): Stats {
    if (n, s) !in st || st[(n, s)] != v then st[(n, s) := v] else st
  }

  lemma GuardedSetIsSet(st: Stats, n: Node, s: Stat, v: StatValue)
    ensures GuardedSet(st, n, s, v) == SetStat(st, n, s, Some(v))
  {
  }

  lemma SetStatCells(st: Stats, n: Node, s: Stat, v: Option<StatValue>)
    ensures forall k :: At(SetStat(st, n, s, v), k) == if k == (n, s) then v else At(st, k)
  {
  }

  /** The primary genre's guard compares with absent read as the empty text. */
  function GuardedGenre(st: Stats, n: Node, v: Option<string>): Stats {
    var stored := if (n, PrimaryGenre) in st && st[(n, PrimaryGenre)].Word? then st[(n, PrimaryGenre)].s else "";
    if stored != (if v.Some? then v.value else "") then SetStat(st, n, PrimaryGenre, if v.Some? then Some(Word(v.value)) else None) else st
  }

  /** The guard skips a write it should make exactly when the live or the stored genre is the
      empty text and the other is absent. */
  lemma GuardedGenreIsSetIff(st: Stats, n: Node, v: Option<string>)
    requires (n, PrimaryGenre) in st ==> st[(n, PrimaryGenre)].Word?
    ensures GuardedGenre(st, n, v) == SetStat(st, n, PrimaryGenre, if v.Some? then Some(Word(v.value)) else None)
       <==> !(v == Some("") && (n, PrimaryGenre) !in st) && !(v.None? && (n, PrimaryGenre) in st && st[(n, PrimaryGenre)] == Word(""))
  {
    var key := (n, PrimaryGenre);
    if v.Some? {
      assert (key in st[key := Word(v.value)]) && (st[key := Word(v.value)])[key] == Word(v.value);
    } else {
      assert key !in st - {key};
      if key !in st { assert st - {key} == st; }
    }
    if v == Some("") && key !in st { assert GuardedGenre(st, n, v) == st; }
  }

  // ---------------------------------------------------------------- Genre and Style

  function YearOf(g: Graph, n: Node): int {
    if n in g.nodes && g.nodes[n].year.Some? then g.nodes[n].year.value else 0
  }

  function YearsInto(g: Graph, n: Node): set<int> {
    set e | e in Into(g, n, IS) && YearOf(g, e.src) > 0 :: YearOf(g, e.src)
  }

  /** The other taxonomy counted on a Genre or Style node. */
  function OtherKind(n: Node): Node -> bool { if n.Genre? then AStyle else AGenre }
  function OtherStat(n: Node): Stat { if n.Genre? then StyleCount else GenreCount }

  const TAXONOMY_STATEMENTS := 3

  /** The three statements of one Genre or Style node. */
  ghost function TaxonomyStatement(g: Graph, st: Stats, n: Node, i: nat): Stats {
    match i
    case 0 => SetStat(st, n, ReleaseCount, Some(Number(CopiesSum(g.edges, Into(g, n, IS)))))
    case 1 =>
      var st1 := SetStat(st, n, ArtistCount, Some(Number(|Reached(g, n, IS, BY, AnArtist)|)));
      var st2 := SetStat(st1, n, LabelCount, Some(Number(|Reached(g, n, IS, ON, ALabel)|)));
      SetStat(st2, n, OtherStat(n), Some(Number(|Reached(g, n, IS, IS, OtherKind(n))|)))
    case _ => SetStat(st, n, FirstYear, YearValue(LeastYear(YearsInto(g, n))))
  }

  /** Each statement is its own transaction, so a failing page may stop after the first k. */
  ghost function TaxonomyStats(g: Graph, st: Stats, n: Node, k: nat): Stats {
    if k == 0 then st else TaxonomyStatement(g, TaxonomyStats(g, st, n, k - 1), n, k - 1)
  }

  function YearValue(y: Option<int>): Option<StatValue> {
    if y.Some? then Some(Number(y.value)) else None
  }

  // ---------------------------------------------------------------- Label

  function HasStyle(l: Node, s: Node): Edge { Edge(l, HAS_STYLE, s, "", "") }

  /** The (style, count(r)) groups of a label. */
  ghost function StyleGroups(g: Graph, l: Node): map<Node, nat> {
    map s | s in Reached(g, l, ON, IS, AStyle) :: PairSum(g.edges, Through(g, l, ON, IS, s))
  }

  /** The HAS_STYLE edges of styles the label no longer has. */
  predicate StaleStyle(l: Node, styles: map<Node, nat>, e: Edge) {
    e.src == l && e.rel == HAS_STYLE && e.dst.Style? && e.dst !in styles
  }

  /** A HAS_STYLE edge the label's groups merge. */
  predicate CurrentStyle(l: Node, styles: map<Node, nat>, e: Edge) {
    e.dst in styles && e == HasStyle(l, e.dst)
  }

  /** Delete the HAS_STYLE edges of styles the label no longer has, merge the current ones and
      set each count that differs. */
  ghost function DeriveStyles(g: Graph, l: Node, styles: map<Node, nat>): Graph {
    var kept := Prune(g, (e: Edge) => StaleStyle(l, styles, e));
    kept.(edges := map e | e in kept.edges.Keys + (set s | s in styles :: HasStyle(l, s)) ::
      if CurrentStyle(l, styles, e) then OrNew(At(kept.edges, e)).(prop := Releases(styles[e.dst])) else kept.edges[e])
  }

  /** The three counts of one label of a Label page. */
  ghost function LabelStats(g: Graph, st: Stats, l: Node): Stats {
    var st1 := GuardedSet(st, l, ReleaseCount, Number(|ReleasesOf(Into(g, l, ON))|));
    var st2 := GuardedSet(st1, l, ArtistCount, Number(|Reached(g, l, ON, BY, AnArtist)|));
    GuardedSet(st2, l, GenreCount, Number(|Reached(g, l, ON, IS, AGenre)|))
  }

  // ---------------------------------------------------------------- Artist

  /** One row of the artist's grouped expansion: a label or genre and its count(r). */
  datatype Group = Group(target: Node, n: nat)

  ghost predicate IsGroupOf(g: Graph, a: Node, row: Group) {
    var rel := if row.target.Label? then ON else IS;
    && (row.target.Label? || row.target.Genre?)
    && row.target in Reached(g, a, BY, rel, if row.target.Label? then ALabel else AGenre)
    && row.n == PairSum(g.edges, Through(g, a, BY, rel, row.target))
  }

  /** ORDER BY n DESC, then the genre's name ascending with null last. */
  predicate NotAfter(x: Group, y: Group) {
    || x.n > y.n
    || (x.n == y.n && (if x.target.Genre? then !y.target.Genre? || AtMost(x.target.id, y.target.id) else !y.target.Genre?))
  }

  /** The rows in the order the sort leaves them: each group once, none before a better one. */
  ghost predicate SortedRows(g: Graph, a: Node, rows: seq<Group>) {
    && (forall row :: row in rows <==> IsGroupOf(g, a, row))
    && (forall i, j :: 0 <= i < j < |rows| ==> NotAfter(rows[i], rows[j]) && rows[i] != rows[j])
  }

  /** head(collect(CASE WHEN t:Genre THEN t.name END)): labels yield null, which collect drops. */
  function HeadGenre(rows: seq<Group>, i: nat): Option<string>
    requires i <= |rows|
    decreases |rows| - i
  {
    if i == |rows| then None else if rows[i].target.Genre? then Some(rows[i].target.id) else HeadGenre(rows, i + 1)
  }

  predicate FirstGenreAt(rows: seq<Group>, i: nat, k: int, name: string) {
    i <= k < |rows| && rows[k].target == Genre(name) && forall j :: i <= j < k ==> !rows[j].target.Genre?
  }

  lemma {:induction false} HeadGenreIsFirst(rows: seq<Group>, i: nat)
    requires i <= |rows|
    ensures HeadGenre(rows, i).None? <==> forall k :: i <= k < |rows| ==> !rows[k].target.Genre?
    ensures HeadGenre(rows, i).Some? ==> exists k :: FirstGenreAt(rows, i, k, HeadGenre(rows, i).value)
    decreases |rows| - i
  {
    if i < |rows| && rows[i].target.Genre? {
      assert FirstGenreAt(rows, i, i, rows[i].target.id);
    } else if i < |rows| {
      HeadGenreIsFirst(rows, i + 1);
      if HeadGenre(rows, i).Some? {
        var k :| FirstGenreAt(rows, i + 1, k, HeadGenre(rows, i).value);
        assert FirstGenreAt(rows, i, k, HeadGenre(rows, i).value);
      }
    }
  }

  /** count(CASE WHEN t:Label THEN 1 END) over the rows. */
  function CountLabels(rows: seq<Group>): nat {
    |set i | 0 <= i < |rows| && rows[i].target.Label?|
  }

  /** The order is a total preorder, so some sequence of the rows is sorted. */
  lemma NotAfterTransitive(x: Group, y: Group, z: Group)
    requires NotAfter(x, y) && NotAfter(y, z)
    ensures NotAfter(x, z)
  {
    if x.target.Genre? && y.target.Genre? && z.target.Genre? && Less(x.target.id, y.target.id) && Less(y.target.id, z.target.id) {
      LessTransitive(x.target.id, y.target.id, z.target.id);
    }
  }

  lemma NotAfterTotal(x: Group, y: Group)
    ensures NotAfter(x, y) || NotAfter(y, x)
  {
    LessTotal(x.target.id, y.target.id);
  }

  ghost predicate Foremost(s: set<Group>, m: Group) {
    m in s && forall x :: x in s ==> NotAfter(m, x)
  }

  lemma {:induction false} ForemostExists(s: set<Group>, seed: Group)
    requires seed in s
    ensures exists m :: Foremost(s, m)
    decreases |s|
  {
    var rest := s - {seed};
    NotAfterTotal(seed, seed);
    if other :| other in rest {
      ForemostExists(rest, other);
      var m :| Foremost(rest, m);
      NotAfterTotal(seed, m);
      forall x | x in rest && NotAfter(seed, m) ensures NotAfter(seed, x) { NotAfterTransitive(seed, m, x); }
      assert forall x :: x in s ==> x == seed || x in rest;
      assert Foremost(s, if NotAfter(seed, m) then seed else m);
    } else {
      assert forall x :: x in s ==> x == seed || x in rest;
      assert Foremost(s, seed);
    }
  }

  ghost predicate InOrder(rows: seq<Group>) {
    forall i, j :: 0 <= i < j < |rows| ==> NotAfter(rows[i], rows[j]) && rows[i] != rows[j]
  }

  ghost predicate Sorts(rows: seq<Group>, s: set<Group>) {
    InOrder(rows) && forall x :: x in rows <==> x in s
  }

  lemma {:induction false} SortExists(s: set<Group>)
    ensures exists rows :: Sorts(rows, s)
    decreases |s|
  {
    if seed :| seed in s {
      ForemostExists(s, seed);
      var m :| Foremost(s, m);
      SortExists(s - {m});
      var rest :| Sorts(rest, s - {m});
      var rows := [m] + rest;
      forall i, j | 0 <= i < j < |rows| ensures NotAfter(rows[i], rows[j]) && rows[i] != rows[j] {
        assert rows[j] in rest;
      }
      assert Sorts(rows, s);
    } else {
      assert Sorts([], s);
    }
  }

  ghost function GroupOf(g: Graph, a: Node): Node -> Group {
    (t: Node) => Group(t, PairSum(g.edges, Through(g, a, BY, if t.Label? then ON else IS, t)))
  }

  lemma SortedRowsExist(g: Graph, a: Node)
    ensures exists rows :: SortedRows(g, a, rows)
  {
    var f := GroupOf(g, a);
    var s := set t | t in Reached(g, a, BY, ON, ALabel) + Reached(g, a, BY, IS, AGenre) :: f(t);
    SortExists(s);
    var rows :| Sorts(rows, s);
    forall row ensures row in rows <==> IsGroupOf(g, a, row) {
      if IsGroupOf(g, a, row) { assert f(row.target) == row; }
    }
    assert SortedRows(g, a, rows);
  }

  /** Counting label rows counts the labels the artist's releases are on. */
  lemma LabelRowsAreLabels(g: Graph, a: Node, rows: seq<Group>)
    requires SortedRows(g, a, rows)
    ensures CountLabels(rows) == |Reached(g, a, BY, ON, ALabel)|
  {
    var spots := set i | 0 <= i < |rows| && rows[i].target.Label?;
    var f := TargetAt(rows);
    forall i | i in spots ensures f(i) in Reached(g, a, BY, ON, ALabel) { assert rows[i] in rows; }
    forall t | t in Reached(g, a, BY, ON, ALabel) ensures exists i :: i in spots && f(i) == t {
      var row := GroupOf(g, a)(t);
      assert IsGroupOf(g, a, row);
      var i :| 0 <= i < |rows| && rows[i] == row;
      assert i in spots && f(i) == t;
    }
    forall i, j | i in spots && j in spots && f(i) == f(j) ensures i == j {
      assert rows[i] in rows && rows[j] in rows;
      assert rows[i] == rows[j];
    }
    SameSize(spots, Reached(g, a, BY, ON, ALabel), f);
  }

  function TargetAt(rows: seq<Group>): int -> Node {
    (i: int) => if 0 <= i < |rows| then rows[i].target else Label("")
  }

  ghost function ArtistRows(g: Graph, a: Node): (rows: seq<Group>)
    ensures SortedRows(g, a, rows)
  {
    SortedRowsExist(g, a);
    var rows :| SortedRows(g, a, rows);
    rows
  }

  /** One artist of an Artist page. */
  ghost function ArtistStats(g: Graph, st: Stats, a: Node): Stats {
    var rows := ArtistRows(g, a);
    var st1 := GuardedSet(st, a, ReleaseCount, Number(|ReleasesOf(Into(g, a, BY))|));
    var st2 := GuardedSet(st1, a, LabelCount, Number(CountLabels(rows)));
    GuardedGenre(st2, a, HeadGenre(rows, 0))
  }

  /** The winning genre: no genre has a higher count, and among equals none has a smaller name. */
  ghost predicate Primary(g: Graph, a: Node, name: string) {
    && IsGroupOf(g, a, Group(Genre(name), PairSum(g.edges, Through(g, a, BY, IS, Genre(name)))))
    && forall row :: IsGroupOf(g, a, row) && row.target.Genre? ==>
         || row.n < PairSum(g.edges, Through(g, a, BY, IS, Genre(name)))
         || (row.n == PairSum(g.edges, Through(g, a, BY, IS, Genre(name))) && (row.target.id == name || Precedes(name, row.target.id)))
  }

  /** Sort-then-head picks a genre of maximal count, alphabetically first among ties, wherever
      label rows fall in the same sort, and none iff the artist's releases have no genre. */
  lemma HeadOfSortIsPrimary(g: Graph, a: Node, rows: seq<Group>)
    requires SortedRows(g, a, rows)
    ensures HeadGenre(rows, 0).None? <==> forall row :: IsGroupOf(g, a, row) ==> !row.target.Genre?
    ensures HeadGenre(rows, 0).Some? ==> Primary(g, a, HeadGenre(rows, 0).value)
  {
    HeadGenreIsFirst(rows, 0);
    if HeadGenre(rows, 0).None? {
      forall row | IsGroupOf(g, a, row) ensures !row.target.Genre? {
        var k :| 0 <= k < |rows| && rows[k] == row;
      }
    } else {
      var k :| FirstGenreAt(rows, 0, k, HeadGenre(rows, 0).value);
      assert rows[k] in rows;
      forall row | IsGroupOf(g, a, row) && row.target.Genre?
        ensures row.n < rows[k].n || (row.n == rows[k].n && (row.target.id == rows[k].target.id || Precedes(rows[k].target.id, row.target.id)))
      {
        LessIsAlphabetical(rows[k].target.id, row.target.id);
        assert row in rows;
        var m :| 0 <= m < |rows| && rows[m] == row;
        if m > k { assert NotAfter(rows[k], rows[m]); }
      }
    }
  }

  /** Two sorts of the same groups give the same answer. */
  lemma PrimaryIsUnique(g: Graph, a: Node, x: string, y: string)
    requires Primary(g, a, x) && Primary(g, a, y)
    ensures x == y
  {
    if x != y {
      var rx := Group(Genre(x), PairSum(g.edges, Through(g, a, BY, IS, Genre(x))));
      var ry := Group(Genre(y), PairSum(g.edges, Through(g, a, BY, IS, Genre(y))));
      assert IsGroupOf(g, a, rx) && IsGroupOf(g, a, ry);
      LessIsAlphabetical(x, y);
      LessIsAlphabetical(y, x);
      LessAsymmetric(x, y);
    }
  }

  // ---------------------------------------------------------------- Person

  /** sum(CASE WHEN hit THEN 1 ELSE 0 END) over one row per release. */
  ghost function CaseSum(rs: set<Node>, hit: Node -> bool): nat {
    if rs == {} then 0 else var r :| r in rs; (if hit(r) then 1 else 0) + CaseSum(rs - {r}, hit)
  }

  lemma {:induction false} CaseSumIsSize(rs: set<Node>, hit: Node -> bool)
    ensures CaseSum(rs, hit) == |set r | r in rs && hit(r)|
  {
    if rs == {} {
      assert (set r | r in rs && hit(r)) == {};
    } else {
      var r :| r in rs && CaseSum(rs, hit) == (if hit(r) then 1 else 0) + CaseSum(rs - {r}, hit);
      CaseSumIsSize(rs - {r}, hit);
      var rest := set x | x in rs - {r} && hit(x);
      assert (set x | x in rs && hit(x)) == if hit(r) then rest + {r} else rest;
    }
  }

  /** MATCH (p)-[c:CREDITED_ON]->(r:Release) */
  function CreditsOf(g: Graph, p: Node): set<Edge> {
    set e | e in g.edges && e.rel == CREDITED_ON && e.src == p && e.dst.Release?
  }

  function CreditedReleases(g: Graph, p: Node): set<Node> {
    set e | e in CreditsOf(g, p) :: e.dst
  }

  /** collect(DISTINCT c.category) for one release row. */
  function CategoriesOn(g: Graph, p: Node, r: Node): set<string> {
    set e | e in CreditsOf(g, p) && e.dst == r && g.edges[e].prop.Category? :: g.edges[e].prop.c
  }

  function InCategory(g: Graph, p: Node, c: string): Node -> bool {
    (r: Node) => c in CategoriesOn(g, p, r)
  }

  /** The releases a person is credited on in a category. */
  function ReleasesIn(g: Graph, p: Node, c: string): set<Node> {
    set r | r in CreditedReleases(g, p) && c in CategoriesOn(g, p, r)
  }

  ghost function CategoryStats(g: Graph, st: Stats, p: Node, categories: seq<string>, k: nat): Stats
    requires k <= |categories|
  {
    if k == 0 then st else
      GuardedSet(CategoryStats(g, st, p, categories, k - 1), p, CategoryCount(categories[k - 1]),
                 Number(CaseSum(CreditedReleases(g, p), InCategory(g, p, categories[k - 1]))))
  }

  /** One person of a Person page: the total, then each category. */
  ghost function PersonStats(g: Graph, st: Stats, p: Node, categories: seq<string>): Stats {
    CategoryStats(g, GuardedSet(st, p, CreditCount, Number(|CreditedReleases(g, p)|)), p, categories, |categories|)
  }

  /** Grouping by release and summing counts distinct releases in the category. */
  lemma CategoryCountsDistinctReleases(g: Graph, p: Node, c: string)
    ensures CaseSum(CreditedReleases(g, p), InCategory(g, p, c)) == |ReleasesIn(g, p, c)| <= |CreditedReleases(g, p)|
  {
    var hit := InCategory(g, p, c);
    CaseSumIsSize(CreditedReleases(g, p), hit);
    assert (set r | r in CreditedReleases(g, p) && hit(r)) == ReleasesIn(g, p, c);
    SubsetSize(ReleasesIn(g, p, c), CreditedReleases(g, p));
  }

  function UnionIn(g: Graph, p: Node, categories: seq<string>, k: nat): set<Node>
    requires k <= |categories|
  {
    if k == 0 then {} else UnionIn(g, p, categories, k - 1) + ReleasesIn(g, p, categories[k - 1])
  }

  function SumIn(g: Graph, p: Node, categories: seq<string>, k: nat): nat
    requires k <= |categories|
  {
    if k == 0 then 0 else SumIn(g, p, categories, k - 1) + |ReleasesIn(g, p, categories[k - 1])|
  }

  /** Every credit carries a category of the vocabulary. */
  ghost predicate Categorised(g: Graph, p: Node, categories: seq<string>) {
    forall e :: e in CreditsOf(g, p) ==> g.edges[e].prop.Category? && g.edges[e].prop.c in categories
  }

  lemma {:induction false} UnionSize(g: Graph, p: Node, categories: seq<string>, k: nat)
    requires k <= |categories|
    ensures |UnionIn(g, p, categories, k)| <= SumIn(g, p, categories, k)
  {
    if k > 0 {
      UnionSize(g, p, categories, k - 1);
      var a, b := UnionIn(g, p, categories, k - 1), ReleasesIn(g, p, categories[k - 1]);
      assert |a + b| == |a| + |b| - |a * b|;
    }
  }

  lemma {:induction false} UnionMembers(g: Graph, p: Node, categories: seq<string>, k: nat, r: Node)
    requires k <= |categories|
    ensures r in UnionIn(g, p, categories, k) <==> exists i :: 0 <= i < k && r in ReleasesIn(g, p, categories[i])
  {
    if k > 0 { UnionMembers(g, p, categories, k - 1, r); }
  }

  /** The total is the size of the union of the categories' releases: at least each category,
      at most their sum, and zero everywhere for a person whose credits are all gone. */
  lemma TotalIsUnionOfCategories(g: Graph, p: Node, categories: seq<string>)
    requires Categorised(g, p, categories)
    ensures CreditedReleases(g, p) == UnionIn(g, p, categories, |categories|)
    ensures |CreditedReleases(g, p)| <= SumIn(g, p, categories, |categories|)
    ensures forall i :: 0 <= i < |categories| ==> |ReleasesIn(g, p, categories[i])| <= |CreditedReleases(g, p)|
    ensures CreditsOf(g, p) == {} ==> |CreditedReleases(g, p)| == 0 && SumIn(g, p, categories, |categories|) == 0
  {
    UnionSize(g, p, categories, |categories|);
    forall r ensures r in CreditedReleases(g, p) <==> r in UnionIn(g, p, categories, |categories|) {
      UnionMembers(g, p, categories, |categories|, r);
      if r in CreditedReleases(g, p) {
        var e :| e in CreditsOf(g, p) && e.dst == r;
        var i :| 0 <= i < |categories| && categories[i] == g.edges[e].prop.c;
        assert r in ReleasesIn(g, p, categories[i]);
      }
    }
    assert CreditedReleases(g, p) == UnionIn(g, p, categories, |categories|);
    forall i | 0 <= i < |categories| ensures |ReleasesIn(g, p, categories[i])| <= |CreditedReleases(g, p)| {
      SubsetSize(ReleasesIn(g, p, categories[i]), CreditedReleases(g, p));
    }
    if CreditsOf(g, p) == {} {
      assert CreditedReleases(g, p) == {};
      NothingToSum(g, p, categories, |categories|);
    }
  }

  lemma {:induction false} NothingToSum(g: Graph, p: Node, categories: seq<string>, k: nat)
    requires k <= |categories| && CreditedReleases(g, p) == {}
    ensures SumIn(g, p, categories, k) == 0
  {
    if k > 0 {
      NothingToSum(g, p, categories, k - 1);
      assert ReleasesIn(g, p, categories[k - 1]) == {};
    }
  }
}
