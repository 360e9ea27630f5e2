/** The statistics computed straight from the latest record of each release, and the proof that
    the graph's statements compute the same numbers on every graph a run can reach. */
module RecordStats {
  import opened Common
  import opened Years
  import opened Graph
  import opened Records
  import opened Projection
  import opened Transactions
  import opened Runs
  import opened Aggregates
  import E = RecordEdges

  type Latest = map<string, ReleaseRecord>

  // ---------------------------------------------------------------- straight from the records

  /** The record names this artist, label, genre or style. */
  predicate Lists(r: ReleaseRecord, n: Node) {
    match n
    case Artist(id) => id != "" && exists k :: 0 <= k < |r.artists| && r.artists[k].id == id
    case Label(id) => id != "" && exists k :: 0 <= k < |r.labels| && r.labels[k].id == id
    case Genre(id) => id != "" && id in r.genres
    case Style(id) => id != "" && id in r.styles
    case _ => false
  }

  /** The prunes' keep-lists hold the same names. */
  lemma KeptIsListed(r: ReleaseRecord, n: Node)
    ensures Lists(r, n) <==>
      match n
      case Artist(id) => id in KeptRefs(r.artists)
      case Label(id) => id in KeptRefs(r.labels)
      case Genre(id) => id in KeptNames(r.genres)
      case Style(id) => id in KeptNames(r.styles)
      case _ => false
  {
    if n.Artist? { E.RefIsKept(r.artists, n.id); }
    if n.Label? { E.RefIsKept(r.labels, n.id); }
  }

  function Targets(r: ReleaseRecord): (ts: set<Node>)
    ensures forall n :: n in ts <==> Lists(r, n)
  {
    (set a | a in r.artists && a.id != "" :: Artist(a.id)) + (set l | l in r.labels && l.id != "" :: Label(l.id))
    + (set g | g in r.genres && g != "" :: Genre(g)) + (set s | s in r.styles && s != "" :: Style(s))
  }

  /** The releases naming n. */
  function Naming(latest: Latest, n: Node): set<string> {
    set i | i in latest && Lists(latest[i], n)
  }

  /** What the releases naming n also name, of one kind. */
  function AlsoNamed(latest: Latest, n: Node, kind: Node -> bool): set<Node> {
    set i, t | i in Naming(latest, n) && t in Targets(latest[i]) && kind(t) :: t
  }

  /** The same, kind by kind. */
  function ArtistsWith(latest: Latest, n: Node): set<Node> { set i, t | i in Naming(latest, n) && t in Targets(latest[i]) && t.Artist? :: t }
  function LabelsWith(latest: Latest, n: Node): set<Node> { set i, t | i in Naming(latest, n) && t in Targets(latest[i]) && t.Label? :: t }
  function GenresWith(latest: Latest, n: Node): set<Node> { set i, t | i in Naming(latest, n) && t in Targets(latest[i]) && t.Genre? :: t }
  function StylesWith(latest: Latest, n: Node): set<Node> { set i, t | i in Naming(latest, n) && t in Targets(latest[i]) && t.Style? :: t }

  lemma ArtistsAlsoNamed(latest: Latest, n: Node)
    ensures AlsoNamed(latest, n, AnArtist) == ArtistsWith(latest, n)
  {
    forall t ensures t in AlsoNamed(latest, n, AnArtist) <==> t in ArtistsWith(latest, n) {
      if t in AlsoNamed(latest, n, AnArtist) { var i :| i in Naming(latest, n) && t in Targets(latest[i]) && AnArtist(t); }
      if t in ArtistsWith(latest, n) { var i :| i in Naming(latest, n) && t in Targets(latest[i]) && AnArtist(t); }
    }
  }

  lemma LabelsAlsoNamed(latest: Latest, n: Node)
    ensures AlsoNamed(latest, n, ALabel) == LabelsWith(latest, n)
  {
    forall t ensures t in AlsoNamed(latest, n, ALabel) <==> t in LabelsWith(latest, n) {
      if t in AlsoNamed(latest, n, ALabel) { var i :| i in Naming(latest, n) && t in Targets(latest[i]) && ALabel(t); }
      if t in LabelsWith(latest, n) { var i :| i in Naming(latest, n) && t in Targets(latest[i]) && ALabel(t); }
    }
  }

  lemma GenresAlsoNamed(latest: Latest, n: Node)
    ensures AlsoNamed(latest, n, AGenre) == GenresWith(latest, n)
  {
    forall t ensures t in AlsoNamed(latest, n, AGenre) <==> t in GenresWith(latest, n) {
      if t in AlsoNamed(latest, n, AGenre) { var i :| i in Naming(latest, n) && t in Targets(latest[i]) && AGenre(t); }
      if t in GenresWith(latest, n) { var i :| i in Naming(latest, n) && t in Targets(latest[i]) && AGenre(t); }
    }
  }

  lemma StylesAlsoNamed(latest: Latest, n: Node)
    ensures AlsoNamed(latest, n, AStyle) == StylesWith(latest, n)
  {
    forall t ensures t in AlsoNamed(latest, n, AStyle) <==> t in StylesWith(latest, n) {
      if t in AlsoNamed(latest, n, AStyle) { var i :| i in Naming(latest, n) && t in Targets(latest[i]) && AStyle(t); }
      if t in StylesWith(latest, n) { var i :| i in Naming(latest, n) && t in Targets(latest[i]) && AStyle(t); }
    }
  }

  lemma KindsWith(latest: Latest, n: Node)
    ensures AlsoNamed(latest, n, AnArtist) == ArtistsWith(latest, n) && AlsoNamed(latest, n, ALabel) == LabelsWith(latest, n)
    ensures AlsoNamed(latest, n, AGenre) == GenresWith(latest, n) && AlsoNamed(latest, n, AStyle) == StylesWith(latest, n)
  {
    ArtistsAlsoNamed(latest, n);
    LabelsAlsoNamed(latest, n);
    GenresAlsoNamed(latest, n);
    StylesAlsoNamed(latest, n);
  }

  function YearsNaming(latest: Latest, n: Node): set<int> {
    set i | i in Naming(latest, n) && latest[i].year.Some? && latest[i].year.value > 0 :: latest[i].year.value
  }

  // ---------------------------------------------------------------- edges of listed nodes

  predicate Listable(n: Node) {
    n.Artist? || n.Label? || n.Genre? || n.Style?
  }

  function RelTo(n: Node): Relation {
    match n
    case Artist(_) => BY
    case Label(_) => ON
    case _ => IS
  }

  function PartTo(n: Node): Part {
    match n
    case Artist(_) => Artists
    case Label(_) => Labels
    case Genre(_) => Genres
    case _ => Styles
  }

  function NamingOf(i: string, n: Node): Edge {
    Edge(Release(i), RelTo(n), n, "", "")
  }

  /** Of the relationships a release has to listed nodes, the graph holds exactly one copy of
      each its latest record names. */
  ghost predicate Faithful(w: World) {
    forall e: Edge :: Listable(e.dst) && e.src.Release? && e.rel == RelTo(e.dst) ==>
      && (e in w.g.edges <==> e == NamingOf(e.src.id, e.dst) && e.src.id in w.latest && Lists(w.latest[e.src.id], e.dst))
      && (e in w.g.edges ==> w.g.edges[e].copies == 1)
  }

  lemma ExactIsFaithful(universe: set<ReleaseRecord>, w: World)
    requires Exact(universe, w)
    ensures Faithful(w)
  {
    forall e: Edge | Listable(e.dst) && e.src.Release? && e.rel == RelTo(e.dst)
      ensures e in w.g.edges <==> e == NamingOf(e.src.id, e.dst) && e.src.id in w.latest && Lists(w.latest[e.src.id], e.dst)
      ensures e in w.g.edges ==> w.g.edges[e].copies == 1
    {
      var p, i := PartTo(e.dst), e.src.id;
      assert Owns(p, i, e);
      assert At(w.g.edges, e) == Expected(w, p, i, e);
      if i in w.latest {
        AssertedCell(p, w.latest[i], e);
        KeptIsListed(w.latest[i], e.dst);
      }
    }
  }

  // ---------------------------------------------------------------- counts agree

  function NamingEdge(n: Node): string -> Edge {
    (i: string) => NamingOf(i, n)
  }

  lemma IntoIsNaming(w: World, n: Node)
    requires Faithful(w) && Listable(n)
    ensures forall e :: e in Into(w.g, n, RelTo(n)) <==> e.src.Release? && e.src.id in Naming(w.latest, n) && e == NamingOf(e.src.id, n)
    ensures SingleCopies(w.g.edges, Into(w.g, n, RelTo(n)))
    ensures |Into(w.g, n, RelTo(n))| == |Naming(w.latest, n)|
  {
    var f := NamingEdge(n);
    forall e | e in Into(w.g, n, RelTo(n)) ensures exists i :: i in Naming(w.latest, n) && f(i) == e {
      assert f(e.src.id) == e;
    }
    forall i | i in Naming(w.latest, n) ensures f(i) in Into(w.g, n, RelTo(n)) {
      assert NamingOf(i, n).dst == n;
    }
    SameSize(Naming(w.latest, n), Into(w.g, n, RelTo(n)), f);
  }

  /** count(r) without DISTINCT is the number of releases naming the node. */
  lemma RowCountIsReleaseCount(w: World, n: Node)
    requires Faithful(w) && Listable(n)
    ensures CopiesSum(w.g.edges, Into(w.g, n, RelTo(n))) == |Naming(w.latest, n)|
    ensures |ReleasesOf(Into(w.g, n, RelTo(n)))| == |Naming(w.latest, n)|
  {
    IntoIsNaming(w, n);
    CopiesSumIsSize(w.g.edges, Into(w.g, n, RelTo(n)));
    var rs := ReleasesOf(Into(w.g, n, RelTo(n)));
    var f := (i: string) => Release(i);
    forall r | r in rs ensures exists i :: i in Naming(w.latest, n) && f(i) == r {
      var e :| e in Into(w.g, n, RelTo(n)) && e.src == r;
      assert f(e.src.id) == r;
    }
    forall i | i in Naming(w.latest, n) ensures f(i) in rs {
      assert NamingOf(i, n) in Into(w.g, n, RelTo(n));
    }
    SameSize(Naming(w.latest, n), rs, f);
  }

  /** The shared expansion reaches exactly what the same releases also name. */
  lemma ReachedIsAlsoNamed(w: World, n: Node, far: Relation, kind: Node -> bool)
    requires Faithful(w) && Listable(n)
    requires forall t :: kind(t) ==> Listable(t) && RelTo(t) == far
    ensures Reached(w.g, n, RelTo(n), far, kind) == AlsoNamed(w.latest, n, kind)
  {
    forall t ensures t in Reached(w.g, n, RelTo(n), far, kind) <==> t in AlsoNamed(w.latest, n, kind) {
      if t in Reached(w.g, n, RelTo(n), far, kind) { ReachedIsNamed(w, n, far, kind, t); }
      if t in AlsoNamed(w.latest, n, kind) { NamedIsReached(w, n, far, kind, t); }
    }
  }

  lemma ReachedIsNamed(w: World, n: Node, far: Relation, kind: Node -> bool, t: Node)
    requires Faithful(w) && Listable(n) && t in Reached(w.g, n, RelTo(n), far, kind) && Listable(t) && RelTo(t) == far
    ensures t in AlsoNamed(w.latest, n, kind)
  {
    var b :| b in Onward(w.g, ReleasesOf(Into(w.g, n, RelTo(n))), far, kind) && b.dst == t;
    var a :| a in Into(w.g, n, RelTo(n)) && a.src == b.src;
    var i := a.src.id;
    assert i in Naming(w.latest, n) && t in Targets(w.latest[i]);
  }

  lemma NamedIsReached(w: World, n: Node, far: Relation, kind: Node -> bool, t: Node)
    requires Faithful(w) && Listable(n) && t in AlsoNamed(w.latest, n, kind) && Listable(t) && RelTo(t) == far
    ensures t in Reached(w.g, n, RelTo(n), far, kind)
  {
    var i :| i in Naming(w.latest, n) && t in Targets(w.latest[i]) && kind(t);
    var a, b := NamingOf(i, n), NamingOf(i, t);
    assert a in Into(w.g, n, RelTo(n)) && b in w.g.edges;
    assert b in Onward(w.g, ReleasesOf(Into(w.g, n, RelTo(n))), far, kind);
  }

  function PairOf(n: Node, t: Node): string -> (Edge, Edge) {
    (i: string) => (NamingOf(i, n), NamingOf(i, t))
  }

  lemma PairsAreBoth(w: World, n: Node, t: Node, ps: set<(Edge, Edge)>)
    requires Faithful(w) && Listable(n) && Listable(t) && ps == Through(w.g, n, RelTo(n), RelTo(t), t)
    ensures forall p :: p in ps ==> p.0.src.Release? && p.0.src.id in Naming(w.latest, n) * Naming(w.latest, t) && PairOf(n, t)(p.0.src.id) == p
    ensures forall i :: i in Naming(w.latest, n) * Naming(w.latest, t) ==> PairOf(n, t)(i) in ps
  {
    IntoIsNaming(w, n);
    IntoIsNaming(w, t);
    forall i | i in Naming(w.latest, n) * Naming(w.latest, t) ensures PairOf(n, t)(i) in ps {
      assert NamingOf(i, n) in Into(w.g, n, RelTo(n)) && NamingOf(i, t) in Into(w.g, t, RelTo(t));
    }
  }

  lemma PairsAreSingle(w: World, n: Node, t: Node, ps: set<(Edge, Edge)>)
    requires Faithful(w) && Listable(n) && Listable(t) && ps == Through(w.g, n, RelTo(n), RelTo(t), t)
    ensures PairSum(w.g.edges, ps) == |ps|
  {
    IntoIsNaming(w, n);
    IntoIsNaming(w, t);
    PairSumIsSize(w.g.edges, ps);
  }

  /** The grouped count(r) is the number of releases naming both. */
  lemma GroupCountIsBoth(w: World, n: Node, t: Node)
    requires Faithful(w) && Listable(n) && Listable(t)
    ensures PairSum(w.g.edges, Through(w.g, n, RelTo(n), RelTo(t), t)) == |Naming(w.latest, n) * Naming(w.latest, t)|
  {
    var ps := Through(w.g, n, RelTo(n), RelTo(t), t);
    PairsAreSingle(w, n, t, ps);
    PairsAreBoth(w, n, t, ps);
    SameSize(Naming(w.latest, n) * Naming(w.latest, t), ps, PairOf(n, t));
  }

  lemma YearsAgree(universe: set<ReleaseRecord>, w: World, n: Node)
    requires Exact(universe, w) && (n.Genre? || n.Style?)
    ensures YearsInto(w.g, n) == YearsNaming(w.latest, n)
  {
    ExactIsFaithful(universe, w);
    IntoIsNaming(w, n);
    forall i | i in w.latest ensures YearOf(w.g, Release(i)) == RecordYear(w.latest[i]) { YearIsRecorded(w, i); }
    forall y ensures y in YearsInto(w.g, n) <==> y in YearsNaming(w.latest, n) {
      if y in YearsInto(w.g, n) {
        var e :| e in Into(w.g, n, IS) && YearOf(w.g, e.src) > 0 && YearOf(w.g, e.src) == y;
        assert e.src.id in Naming(w.latest, n);
      }
      if y in YearsNaming(w.latest, n) { RecordedYearIsSeen(w, n, y); }
    }
  }

  function RecordYear(r: ReleaseRecord): int {
    if r.year.Some? then r.year.value else 0
  }

  lemma YearIsRecorded(w: World, i: string)
    requires Stamped(w) && i in w.latest
    ensures YearOf(w.g, Release(i)) == RecordYear(w.latest[i])
  {
    assert At(w.g.nodes, Release(i)) == Some(Described(w.latest[i]));
  }

  lemma RecordedYearIsSeen(w: World, n: Node, y: int)
    requires Faithful(w) && (n.Genre? || n.Style?) && y in YearsNaming(w.latest, n)
    requires forall i :: i in w.latest ==> YearOf(w.g, Release(i)) == RecordYear(w.latest[i])
    ensures y in YearsInto(w.g, n)
  {
    var i :| i in Naming(w.latest, n) && w.latest[i].year.Some? && w.latest[i].year.value > 0 && w.latest[i].year.value == y;
    var e := NamingOf(i, n);
    assert e in w.g.edges;
    assert e in Into(w.g, n, IS) && e.src == Release(i);
  }
}
