/** The whole promise: after any run of writes followed by sweeps that reported done, however
    they were interrupted, the stored statistics are the numbers one would compute directly
    from the latest record of each release. */
module EndToEnd {
  import opened Common
  import opened Years
  import opened Graph
  import opened Records
  import opened Runs
  import opened Aggregates
  import opened RecordStats
  import opened CreditStats
  import opened Sweeps
  import opened SweepLogs
  import opened Passes

  // ---------------------------------------------------------------- direct values

  /** How many releases name both. */
  function Together(latest: Latest, a: Node, b: Node): nat {
    |Naming(latest, a) * Naming(latest, b)|
  }

  /** The genre on most of the artist's releases, alphabetically first among equals. */
  ghost predicate TopGenre(latest: Latest, a: Node, name: string) {
    && Genre(name) in GenresWith(latest, a)
    && forall t :: t in GenresWith(latest, a) ==>
         || Together(latest, a, t) < Together(latest, a, Genre(name))
         || (Together(latest, a, t) == Together(latest, a, Genre(name)) && (t.id == name || Precedes(name, t.id)))
  }

  ghost predicate DirectGenre(latest: Latest, a: Node, v: Option<StatValue>) {
    if v.None? then GenresWith(latest, a) == {} else v.value.Word? && TopGenre(latest, a, v.value.s)
  }

  /** A release naming n that has a year. */
  predicate Dated(latest: Latest, n: Node, i: string) {
    i in Naming(latest, n) && latest[i].year.Some? && latest[i].year.value > 0
  }

  /** The least positive year of the releases naming n, or nothing. */
  ghost predicate DirectYear(latest: Latest, n: Node, v: Option<StatValue>) {
    if v.None? then forall i :: !Dated(latest, n, i)
    else
      && v.value.Number?
      && (exists i :: Dated(latest, n, i) && latest[i].year.value == v.value.n)
      && forall i :: Dated(latest, n, i) ==> v.value.n <= latest[i].year.value
  }

  function Count(n: nat): Option<StatValue> { Some(Number(n)) }

  // ---------------------------------------------------------------- live is direct

  lemma LiveTaxonomyIsDirect(universe: set<ReleaseRecord>, w: World, n: Node)
    requires Exact(universe, w) && (n.Genre? || n.Style?)
    ensures Live(w.g, n, ReleaseCount) == Count(|Naming(w.latest, n)|)
    ensures Live(w.g, n, ArtistCount) == Count(|ArtistsWith(w.latest, n)|) && Live(w.g, n, LabelCount) == Count(|LabelsWith(w.latest, n)|)
    ensures n.Genre? ==> Live(w.g, n, StyleCount) == Count(|StylesWith(w.latest, n)|)
    ensures n.Style? ==> Live(w.g, n, GenreCount) == Count(|GenresWith(w.latest, n)|)
    ensures DirectYear(w.latest, n, Live(w.g, n, FirstYear))
  {
    ExactIsFaithful(universe, w);
    TaxonomyCounts(w, n);
    OtherTaxonomyCount(w, n);
    LiveYearIsDirect(universe, w, n);
  }

  lemma TaxonomyCounts(w: World, n: Node)
    requires Faithful(w) && (n.Genre? || n.Style?)
    ensures Live(w.g, n, ReleaseCount) == Count(|Naming(w.latest, n)|)
    ensures Live(w.g, n, ArtistCount) == Count(|ArtistsWith(w.latest, n)|) && Live(w.g, n, LabelCount) == Count(|LabelsWith(w.latest, n)|)
  {
    RowCountIsReleaseCount(w, n);
    ReachedIsAlsoNamed(w, n, BY, AnArtist);
    ReachedIsAlsoNamed(w, n, ON, ALabel);
    KindsWith(w.latest, n);
  }

  lemma OtherTaxonomyCount(w: World, n: Node)
    requires Faithful(w) && (n.Genre? || n.Style?)
    ensures n.Genre? ==> Live(w.g, n, StyleCount) == Count(|StylesWith(w.latest, n)|)
    ensures n.Style? ==> Live(w.g, n, GenreCount) == Count(|GenresWith(w.latest, n)|)
  {
    ReachedIsAlsoNamed(w, n, IS, if n.Genre? then AStyle else AGenre);
    KindsWith(w.latest, n);
  }

  lemma LiveYearIsDirect(universe: set<ReleaseRecord>, w: World, n: Node)
    requires Exact(universe, w) && (n.Genre? || n.Style?)
    ensures DirectYear(w.latest, n, Live(w.g, n, FirstYear))
  {
    YearsAgree(universe, w, n);
    var years := YearsNaming(w.latest, n);
    LeastYearIsLeast(years);
    assert forall i :: Dated(w.latest, n, i) ==> w.latest[i].year.value in years;
  }

  lemma LiveLabelIsDirect(universe: set<ReleaseRecord>, w: World, n: Node)
    requires Exact(universe, w) && n.Label?
    ensures Live(w.g, n, ReleaseCount) == Count(|Naming(w.latest, n)|)
    ensures Live(w.g, n, ArtistCount) == Count(|ArtistsWith(w.latest, n)|) && Live(w.g, n, GenreCount) == Count(|GenresWith(w.latest, n)|)
  {
    ExactIsFaithful(universe, w);
    KindsWith(w.latest, n);
    RowCountIsReleaseCount(w, n);
    ReachedIsAlsoNamed(w, n, BY, AnArtist);
    ReachedIsAlsoNamed(w, n, IS, AGenre);
  }

  lemma LiveArtistIsDirect(universe: set<ReleaseRecord>, w: World, n: Node)
    requires Exact(universe, w) && n.Artist?
    ensures Live(w.g, n, ReleaseCount) == Count(|Naming(w.latest, n)|) && Live(w.g, n, LabelCount) == Count(|LabelsWith(w.latest, n)|)
  {
    ExactIsFaithful(universe, w);
    KindsWith(w.latest, n);
    RowCountIsReleaseCount(w, n);
    ReachedIsAlsoNamed(w, n, ON, ALabel);
  }

  lemma LivePersonIsDirect(universe: set<ReleaseRecord>, w: World, name: string, c: string)
    requires Exact(universe, w) && Categorising(universe)
    ensures Live(w.g, Person(name), CreditCount) == Count(|Crediting(w.latest, name)|)
    ensures Live(w.g, Person(name), CategoryCount(c)) == Count(|CreditingAs(w.latest, name, c)|)
  {
    CreditCountIsDirect(universe, w, name);
    CategoryCountIsDirect(universe, w, name, c);
  }

  lemma GenreGroup(w: World, a: Node, name: string)
    requires Faithful(w) && a.Artist?
    ensures IsGroupOf(w.g, a, Group(Genre(name), Together(w.latest, a, Genre(name)))) <==> Genre(name) in GenresWith(w.latest, a)
    ensures PairSum(w.g.edges, Through(w.g, a, BY, IS, Genre(name))) == Together(w.latest, a, Genre(name))
  {
    KindsWith(w.latest, a);
    GroupCountIsBoth(w, a, Genre(name));
    ReachedIsAlsoNamed(w, a, IS, AGenre);
  }

  lemma PrimaryIsTop(w: World, a: Node, name: string)
    requires Faithful(w) && a.Artist? && Primary(w.g, a, name)
    ensures TopGenre(w.latest, a, name)
  {
    GenreGroup(w, a, name);
    forall t | t in GenresWith(w.latest, a)
      ensures || Together(w.latest, a, t) < Together(w.latest, a, Genre(name))
              || (Together(w.latest, a, t) == Together(w.latest, a, Genre(name)) && (t.id == name || Precedes(name, t.id)))
    {
      GenreGroup(w, a, t.id);
      assert IsGroupOf(w.g, a, Group(t, Together(w.latest, a, t)));
    }
  }

  lemma LiveGenreIsDirect(universe: set<ReleaseRecord>, w: World, a: Node)
    requires Exact(universe, w) && a.Artist?
    ensures DirectGenre(w.latest, a, Live(w.g, a, PrimaryGenre))
  {
    ExactIsFaithful(universe, w);
    var rows := ArtistRows(w.g, a);
    HeadOfSortIsPrimary(w.g, a, rows);
    if HeadGenre(rows, 0).Some? {
      PrimaryIsTop(w, a, HeadGenre(rows, 0).value);
    } else {
      forall t | t in GenresWith(w.latest, a) ensures false {
        GenreGroup(w, a, t.id);
      }
    }
  }

  lemma StyleGroupsAreDirect(universe: set<ReleaseRecord>, w: World, l: Node, s: Node)
    requires Exact(universe, w) && l.Label? && s.Style?
    ensures s in StyleGroups(w.g, l) <==> s in StylesWith(w.latest, l)
    ensures s in StyleGroups(w.g, l) ==> StyleGroups(w.g, l)[s] == Together(w.latest, l, s)
  {
    ExactIsFaithful(universe, w);
    KindsWith(w.latest, l);
    ReachedIsAlsoNamed(w, l, IS, AStyle);
    GroupCountIsBoth(w, l, s);
  }

  /** Normalised records name no empty genre. */
  lemma ReachableHasNoBlankGenre(universe: set<ReleaseRecord>, w: World)
    requires Exact(universe, w)
    ensures NoBlankGenre(w.g)
  {
    ExactIsFaithful(universe, w);
    forall e: Edge | e in w.g.edges && e.rel == IS && e.src.Release? ensures e.dst != Genre("") {
      if e.dst.Genre? { assert e == NamingOf(e.src.id, e.dst) && Lists(w.latest[e.src.id], e.dst); }
    }
  }

  predicate Stored(st: Stats, n: Node, s: Stat, count: nat) {
    At(st, (n, s)) == Some(Number(count))
  }

  /** What the stored statistics of one node should be: every number computed from the records. */
  ghost predicate Agrees(latest: Latest, cats: seq<string>, n: Node, d: Derived) {
    match n
    case Genre(_) => TaxonomyAgrees(latest, n, d.st) && Stored(d.st, n, StyleCount, |StylesWith(latest, n)|)
    case Style(_) => TaxonomyAgrees(latest, n, d.st) && Stored(d.st, n, GenreCount, |GenresWith(latest, n)|)
    case Label(_) => LabelAgrees(latest, n, d.st) && forall s: Node :: s.Style? ==> StyleAgrees(latest, n, s, d.g)
    case Artist(_) => ArtistAgrees(latest, n, d.st) && DirectGenre(latest, n, At(d.st, (n, PrimaryGenre)))
    case Person(name) => PersonAgrees(latest, cats, name, d.st)
    case _ => true
  }

  ghost predicate TaxonomyAgrees(latest: Latest, n: Node, st: Stats) {
    && Stored(st, n, ReleaseCount, |Naming(latest, n)|) && Stored(st, n, ArtistCount, |ArtistsWith(latest, n)|)
    && Stored(st, n, LabelCount, |LabelsWith(latest, n)|) && DirectYear(latest, n, At(st, (n, FirstYear)))
  }

  predicate LabelAgrees(latest: Latest, n: Node, st: Stats) {
    && Stored(st, n, ReleaseCount, |Naming(latest, n)|) && Stored(st, n, ArtistCount, |ArtistsWith(latest, n)|)
    && Stored(st, n, GenreCount, |GenresWith(latest, n)|)
  }

  predicate ArtistAgrees(latest: Latest, n: Node, st: Stats) {
    Stored(st, n, ReleaseCount, |Naming(latest, n)|) && Stored(st, n, LabelCount, |LabelsWith(latest, n)|)
  }

  predicate PersonAgrees(latest: Latest, cats: seq<string>, name: string, st: Stats) {
    && Stored(st, Person(name), CreditCount, |Crediting(latest, name)|)
    && forall c :: c in cats ==> Stored(st, Person(name), CategoryCount(c), |CreditingAs(latest, name, c)|)
  }

  predicate StyleAgrees(latest: Latest, l: Node, s: Node, g: Graph) {
    var e := Edge(l, HAS_STYLE, s, "", "");
    (e in g.edges <==> s in StylesWith(latest, l)) && (e in g.edges ==> g.edges[e].prop == Releases(Together(latest, l, s)))
  }

  predicate SweptKind(n: Node) {
    n.Genre? || n.Style? || n.Label? || n.Artist? || n.Person?
  }

  lemma SettledStat(g: Graph, cats: seq<string>, n: Node, st: Stats, s: Stat)
    requires Settled(g, cats, n, st) && Kept(cats, n, s)
    ensures At(st, (n, s)) == Live(g, n, s)
  {
  }

  lemma TaxonomySettles(universe: set<ReleaseRecord>, w: World, cats: seq<string>, n: Node, st: Stats)
    requires Exact(universe, w) && (n.Genre? || n.Style?) && Settled(w.g, cats, n, st)
    ensures TaxonomyAgrees(w.latest, n, st)
    ensures n.Genre? ==> Stored(st, n, StyleCount, |StylesWith(w.latest, n)|)
    ensures n.Style? ==> Stored(st, n, GenreCount, |GenresWith(w.latest, n)|)
  {
    LiveTaxonomyIsDirect(universe, w, n);
    SettledStat(w.g, cats, n, st, ReleaseCount);
    SettledStat(w.g, cats, n, st, ArtistCount);
    SettledStat(w.g, cats, n, st, LabelCount);
    SettledStat(w.g, cats, n, st, FirstYear);
    if n.Genre? { SettledStat(w.g, cats, n, st, StyleCount); } else { SettledStat(w.g, cats, n, st, GenreCount); }
  }

  lemma LabelSettles(universe: set<ReleaseRecord>, w: World, cats: seq<string>, n: Node, st: Stats)
    requires Exact(universe, w) && n.Label? && Settled(w.g, cats, n, st)
    ensures LabelAgrees(w.latest, n, st)
  {
    LiveLabelIsDirect(universe, w, n);
    SettledStat(w.g, cats, n, st, ReleaseCount);
    SettledStat(w.g, cats, n, st, ArtistCount);
    SettledStat(w.g, cats, n, st, GenreCount);
  }

  lemma ArtistSettles(universe: set<ReleaseRecord>, w: World, cats: seq<string>, n: Node, st: Stats)
    requires Exact(universe, w) && n.Artist? && Settled(w.g, cats, n, st)
    ensures ArtistAgrees(w.latest, n, st) && DirectGenre(w.latest, n, At(st, (n, PrimaryGenre)))
  {
    LiveArtistIsDirect(universe, w, n);
    LiveGenreIsDirect(universe, w, n);
    SettledStat(w.g, cats, n, st, ReleaseCount);
    SettledStat(w.g, cats, n, st, LabelCount);
    SettledStat(w.g, cats, n, st, PrimaryGenre);
  }

  lemma PersonSettles(universe: set<ReleaseRecord>, w: World, cats: seq<string>, name: string, st: Stats)
    requires Exact(universe, w) && Categorising(universe) && Settled(w.g, cats, Person(name), st)
    ensures PersonAgrees(w.latest, cats, name, st)
  {
    LivePersonIsDirect(universe, w, name, "");
    SettledStat(w.g, cats, Person(name), st, CreditCount);
    forall c | c in cats ensures Stored(st, Person(name), CategoryCount(c), |CreditingAs(w.latest, name, c)|) {
      LivePersonIsDirect(universe, w, name, c);
      SettledStat(w.g, cats, Person(name), st, CategoryCount(c));
    }
  }

  lemma StylesSettle(universe: set<ReleaseRecord>, w: World, l: Node, g: Graph)
    requires Exact(universe, w) && l.Label? && StylesExact(g, l, StyleGroups(w.g, l))
    ensures forall s: Node :: s.Style? ==> StyleAgrees(w.latest, l, s, g)
  {
    forall s: Node | s.Style? ensures StyleAgrees(w.latest, l, s, g) {
      assert StyleExact(g, l, StyleGroups(w.g, l), s);
      StyleGroupsAreDirect(universe, w, l, s);
    }
  }

  lemma SettledAgrees(universe: set<ReleaseRecord>, w: World, cats: seq<string>, n: Node, d: Derived)
    requires Exact(universe, w) && Categorising(universe) && SweptKind(n) && Settled(w.g, cats, n, d.st)
    requires n.Label? ==> StylesExact(d.g, n, StyleGroups(w.g, n))
    ensures Agrees(w.latest, cats, n, d)
  {
    match n
    case Label(_) =>
      LabelSettles(universe, w, cats, n, d.st);
      StylesSettle(universe, w, n, d.g);
    case Artist(_) => ArtistSettles(universe, w, cats, n, d.st);
    case Person(name) => PersonSettles(universe, w, cats, name, d.st);
    case _ => TaxonomySettles(universe, w, cats, n, d.st);
  }

  // ---------------------------------------------------------------- the theorem

  /** A node some item of the log completed agrees with the records, whatever the order of the
      log and whatever partial pages it holds besides. */
  lemma LoggedNodeAgrees(universe: set<ReleaseRecord>, evs: seq<Event>, cats: seq<string>, st: Stats, items: seq<Item>, i: nat)
    requires Normalised(universe) && Categorising(universe) && forall ev :: ev in evs ==> Fair(universe, ev)
    requires Sane(st) && (forall j :: 0 <= j < |items| ==> RightKind(items[j]))
    requires i < |items| && Completes(items[i], items[i].n)
    ensures Agrees(Run(evs).latest, cats, items[i].n, DoLog(Derived(Run(evs).g, st), cats, items, |items|))
  {
    var w := Run(evs);
    ReachableIsExact(universe, evs);
    ReachableHasNoBlankGenre(universe, w);
    CompletedNodeIsLive(w.g, cats, Derived(w.g, st), items, |items|, i);
    SettledAgrees(universe, w, cats, items[i].n, DoLog(Derived(w.g, st), cats, items, |items|));
  }

  function KindOf(n: Node): Kind
    requires SweptKind(n)
  {
    match n
    case Genre(_) => GenreSweep
    case Style(_) => StyleSweep
    case Label(_) => LabelSweep
    case Artist(_) => ArtistSweep
    case Person(_) => PersonSweep
  }

  /** A maintenance pass over a reachable graph: any interleaving of attempts of its steps, with
      failing pages, crashes and lost or unseen checkpoint writes. Once a step is marked done,
      every node of its label agrees with the latest records. */
  lemma DoneSweepAgreesWithRecords(universe: set<ReleaseRecord>, evs: seq<Event>, cats: seq<string>, st: Stats, p: Pass, n: Node)
    requires Normalised(universe) && Categorising(universe) && forall ev :: ev in evs ==> Fair(universe, ev)
    requires Sane(st) && LegalPass(p) && Ranges(p, Run(evs).g)
    requires n in Run(evs).g.nodes && SweptKind(n) && n.id != "" && StepDone(p, KindOf(n))
    ensures Agrees(Run(evs).latest, cats, n, AfterPass(Run(evs), cats, st, p))
  {
    var i := DoneStepIsLogged(p, Run(evs).g, n);
    LoggedNodeAgrees(universe, evs, cats, st, PassItems(p), i);
  }

  lemma DoneStepIsLogged(p: Pass, g: Graph, n: Node) returns (i: nat)
    requires LegalPass(p) && Ranges(p, g) && n in g.nodes && SweptKind(n) && n.id != "" && StepDone(p, KindOf(n))
    ensures i < |PassItems(p)| && Completes(PassItems(p)[i], PassItems(p)[i].n) && PassItems(p)[i].n == n
    ensures forall j :: 0 <= j < |PassItems(p)| ==> RightKind(PassItems(p)[j])
  {
    assert NodeOf(KindOf(n), n.id) == n;
    i := DoneStepCompletesEveryNode(p, g, KindOf(n), n.id);
    PassItemsAreRight(p);
  }

  /** The stored statistics and derived edges the pass leaves. */
  ghost function AfterPass(w: World, cats: seq<string>, st: Stats, p: Pass): Derived
    requires LegalPass(p)
  {
    DoLog(Derived(w.g, st), cats, PassItems(p), |PassItems(p)|)
  }

  /** And once every step is done, so does every Genre, Style, Label, Artist and Person. */
  lemma FinishedPassAgreesWithRecords(universe: set<ReleaseRecord>, evs: seq<Event>, cats: seq<string>, st: Stats, p: Pass)
    requires Normalised(universe) && Categorising(universe) && forall ev :: ev in evs ==> Fair(universe, ev)
    requires Sane(st) && LegalPass(p) && Ranges(p, Run(evs).g) && forall c :: StepDone(p, c)
    ensures forall n :: n in Run(evs).g.nodes && SweptKind(n) && n.id != "" ==> Agrees(Run(evs).latest, cats, n, AfterPass(Run(evs), cats, st, p))
  {
    forall n | n in Run(evs).g.nodes && SweptKind(n) && n.id != ""
      ensures Agrees(Run(evs).latest, cats, n, AfterPass(Run(evs), cats, st, p))
    {
      DoneSweepAgreesWithRecords(universe, evs, cats, st, p, n);
    }
  }
}
