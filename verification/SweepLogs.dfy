/** Logs of processed keys, in whatever order and however often pages were retried: what a log
    leaves on every node it completed. */
module SweepLogs {
  import opened Common
  import opened Years
  import opened Graph
  import opened Aggregates
  import opened Sweeps

  // ---------------------------------------------------------------- items

  /** One key of a page. A Genre or Style key may stop after any of its statements; the other
      pages are one statement each. */
  datatype Item = TaxonomyItem(n: Node, statements: nat) | LabelItem(n: Node) | ArtistItem(n: Node) | PersonItem(n: Node)

  predicate RightKind(item: Item) {
    match item
    case TaxonomyItem(n, k) => (n.Genre? || n.Style?) && k <= TAXONOMY_STATEMENTS
    case LabelItem(n) => n.Label?
    case ArtistItem(n) => n.Artist?
    case PersonItem(n) => n.Person?
  }

  predicate Completes(item: Item, n: Node) {
    item.n == n && (item.TaxonomyItem? ==> item.statements == TAXONOMY_STATEMENTS)
  }

  /** The graph with its derived edges, and the stored statistics. */
  datatype Derived = Derived(g: Graph, st: Stats)

  ghost function DoItem(d: Derived, cats: seq<string>, item: Item): Derived {
    match item
    case TaxonomyItem(n, k) => d.(st := TaxonomyStats(d.g, d.st, n, k))
    case LabelItem(n) => Derived(DeriveStyles(d.g, n, StyleGroups(d.g, n)), LabelStats(d.g, d.st, n))
    case ArtistItem(n) => d.(st := ArtistStats(d.g, d.st, n))
    case PersonItem(n) => d.(st := PersonStats(d.g, d.st, n, cats))
  }

  ghost function DoLog(d: Derived, cats: seq<string>, items: seq<Item>, k: nat): Derived
    requires k <= |items|
  {
    if k == 0 then d else DoItem(DoLog(d, cats, items, k - 1), cats, items[k - 1])
  }

  // ---------------------------------------------------------------- live values

  /** The statistics the sweeps keep on a node. */
  predicate Kept(cats: seq<string>, n: Node, s: Stat) {
    match n
    case Genre(_) => s.ReleaseCount? || s.ArtistCount? || s.LabelCount? || s.StyleCount? || s.FirstYear?
    case Style(_) => s.ReleaseCount? || s.ArtistCount? || s.LabelCount? || s.GenreCount? || s.FirstYear?
    case Label(_) => s.ReleaseCount? || s.ArtistCount? || s.GenreCount?
    case Artist(_) => s.ReleaseCount? || s.LabelCount? || s.PrimaryGenre?
    case Person(_) => s.CreditCount? || (s.CategoryCount? && s.category in cats)
    case _ => false
  }

  /** Their values over the graph as it stands. */
  ghost function Live(g: Graph, n: Node, s: Stat): Option<StatValue> {
    match n
    case Label(_) => LiveLabel(g, n, s)
    case Artist(_) => LiveArtist(g, n, s)
    case Person(_) => LivePerson(g, n, s)
    case _ => LiveTaxonomy(g, n, s)
  }

  ghost function LiveTaxonomy(g: Graph, n: Node, s: Stat): Option<StatValue> {
    match s
    case ReleaseCount => Some(Number(CopiesSum(g.edges, Into(g, n, IS))))
    case ArtistCount => Some(Number(|Reached(g, n, IS, BY, AnArtist)|))
    case LabelCount => Some(Number(|Reached(g, n, IS, ON, ALabel)|))
    case FirstYear => YearValue(LeastYear(YearsInto(g, n)))
    case _ => Some(Number(|Reached(g, n, IS, IS, OtherKind(n))|))
  }

  ghost function LiveLabel(g: Graph, n: Node, s: Stat): Option<StatValue> {
    match s
    case ReleaseCount => Some(Number(|ReleasesOf(Into(g, n, ON))|))
    case ArtistCount => Some(Number(|Reached(g, n, ON, BY, AnArtist)|))
    case _ => Some(Number(|Reached(g, n, ON, IS, AGenre)|))
  }

  function GenreValue(v: Option<string>): Option<StatValue> {
    if v.Some? then Some(Word(v.value)) else None
  }

  ghost function LiveArtist(g: Graph, n: Node, s: Stat): Option<StatValue> {
    match s
    case ReleaseCount => Some(Number(|ReleasesOf(Into(g, n, BY))|))
    case LabelCount => Some(Number(|Reached(g, n, BY, ON, ALabel)|))
    case _ => GenreValue(HeadGenre(ArtistRows(g, n), 0))
  }

  ghost function LivePerson(g: Graph, n: Node, s: Stat): Option<StatValue> {
    match s
    case CategoryCount(c) => Some(Number(|ReleasesIn(g, n, c)|))
    case _ => Some(Number(|CreditedReleases(g, n)|))
  }

  // ---------------------------------------------------------------- one item

  /** Genre texts are never empty: what the primary genre's guard relies on. */
  ghost predicate Sane(st: Stats) {
    forall n: Node :: (n, PrimaryGenre) in st ==> st[(n, PrimaryGenre)].Word? && st[(n, PrimaryGenre)].s != ""
  }

  ghost predicate NoBlankGenre(g: Graph) {
    forall e: Edge :: e in g.edges && e.rel == IS && e.src.Release? ==> e.dst != Genre("")
  }

  lemma SameLiveTaxonomy(g: Graph, h: Graph, n: Node, s: Stat)
    requires SameBase(g, h) && (n.Genre? || n.Style?)
    ensures LiveTaxonomy(h, n, s) == LiveTaxonomy(g, n, s)
  {
    SameIntoCount(g, h, n, IS, Into(g, n, IS));
    SameReached(g, h, n, IS, BY, AnArtist);
    SameReached(g, h, n, IS, ON, ALabel);
    SameReached(g, h, n, IS, IS, OtherKind(n));
    assert YearsInto(h, n) == YearsInto(g, n);
  }

  /** Every statistic is as before, or one of n's with its live value. */
  ghost predicate Toward(g: Graph, cats: seq<string>, n: Node, st: Stats, st': Stats) {
    forall k: (Node, Stat) :: At(st', k) == At(st, k) || (k.0 == n && Kept(cats, n, k.1) && At(st', k) == Live(g, n, k.1))
  }

  lemma SetToward(g: Graph, cats: seq<string>, n: Node, st0: Stats, st: Stats, s: Stat, v: Option<StatValue>)
    requires Toward(g, cats, n, st0, st) && Kept(cats, n, s) && v == Live(g, n, s)
    ensures Toward(g, cats, n, st0, SetStat(st, n, s, v))
    ensures forall x: Stat :: At(SetStat(st, n, s, v), (n, x)) == if x == s then v else At(st, (n, x))
  {
    SetStatCells(st, n, s, v);
  }

  lemma StatementToward(g: Graph, cats: seq<string>, n: Node, st0: Stats, st: Stats, i: nat, st': Stats)
    requires (n.Genre? || n.Style?) && i < TAXONOMY_STATEMENTS && Toward(g, cats, n, st0, st) && st' == TaxonomyStatement(g, st, n, i)
    ensures Toward(g, cats, n, st0, st')
    ensures forall x: Stat :: At(st', (n, x)) == if Kept(cats, n, x) && StatementOf(x) == i then Live(g, n, x) else At(st, (n, x))
  {
    match i
    case 0 => { SetToward(g, cats, n, st0, st, ReleaseCount, LiveTaxonomy(g, n, ReleaseCount)); }
    case 1 => {
      var st1 := SetStat(st, n, ArtistCount, LiveTaxonomy(g, n, ArtistCount));
      var st2 := SetStat(st1, n, LabelCount, LiveTaxonomy(g, n, LabelCount));
      SetToward(g, cats, n, st0, st, ArtistCount, LiveTaxonomy(g, n, ArtistCount));
      SetToward(g, cats, n, st0, st1, LabelCount, LiveTaxonomy(g, n, LabelCount));
      SetToward(g, cats, n, st0, st2, OtherStat(n), LiveTaxonomy(g, n, OtherStat(n)));
    }
    case _ => { SetToward(g, cats, n, st0, st, FirstYear, LiveTaxonomy(g, n, FirstYear)); }
  }

  /** Which statement of a taxonomy node writes the statistic. */
  function StatementOf(s: Stat): nat {
    if s.ReleaseCount? then 0 else if s.FirstYear? then 2 else 1
  }

  lemma {:induction false} TaxonomyToward(g: Graph, cats: seq<string>, n: Node, k: nat, st: Stats)
    requires (n.Genre? || n.Style?) && k <= TAXONOMY_STATEMENTS
    ensures Toward(g, cats, n, st, TaxonomyStats(g, st, n, k))
    ensures forall x: Stat :: Kept(cats, n, x) && StatementOf(x) < k ==> At(TaxonomyStats(g, st, n, k), (n, x)) == Live(g, n, x)
  {
    if k > 0 {
      TaxonomyToward(g, cats, n, k - 1, st);
      StatementToward(g, cats, n, st, TaxonomyStats(g, st, n, k - 1), k - 1, TaxonomyStats(g, st, n, k));
    }
  }

  /** All statistics of the node have their live values. */
  ghost predicate Settled(g: Graph, cats: seq<string>, n: Node, st: Stats) {
    forall s: Stat :: Kept(cats, n, s) ==> At(st, (n, s)) == Live(g, n, s)
  }

  lemma LabelToward(g: Graph, cats: seq<string>, n: Node, st: Stats)
    requires n.Label?
    ensures Toward(g, cats, n, st, LabelStats(g, st, n)) && Settled(g, cats, n, LabelStats(g, st, n))
  {
    var v1, v2, v3 := LiveLabel(g, n, ReleaseCount), LiveLabel(g, n, ArtistCount), LiveLabel(g, n, GenreCount);
    GuardedSetIsSet(st, n, ReleaseCount, v1.value);
    var st1 := SetStat(st, n, ReleaseCount, v1);
    SetToward(g, cats, n, st, st, ReleaseCount, v1);
    GuardedSetIsSet(st1, n, ArtistCount, v2.value);
    var st2 := SetStat(st1, n, ArtistCount, v2);
    SetToward(g, cats, n, st, st1, ArtistCount, v2);
    GuardedSetIsSet(st2, n, GenreCount, v3.value);
    SetToward(g, cats, n, st, st2, GenreCount, v3);
  }

  lemma ArtistToward(g: Graph, cats: seq<string>, n: Node, st: Stats)
    requires n.Artist? && Sane(st) && HeadGenre(ArtistRows(g, n), 0) != Some("")
    ensures Toward(g, cats, n, st, ArtistStats(g, st, n)) && Settled(g, cats, n, ArtistStats(g, st, n))
  {
    var rows := ArtistRows(g, n);
    LabelRowsAreLabels(g, n, rows);
    var v1, v2, v3 := LiveArtist(g, n, ReleaseCount), LiveArtist(g, n, LabelCount), HeadGenre(rows, 0);
    GuardedSetIsSet(st, n, ReleaseCount, v1.value);
    var st1 := SetStat(st, n, ReleaseCount, v1);
    SetToward(g, cats, n, st, st, ReleaseCount, v1);
    GuardedSetIsSet(st1, n, LabelCount, v2.value);
    var st2 := SetStat(st1, n, LabelCount, v2);
    SetToward(g, cats, n, st, st1, LabelCount, v2);
    assert (n, PrimaryGenre) in st2 <==> (n, PrimaryGenre) in st;
    GuardedGenreIsSetIff(st2, n, v3);
    SetToward(g, cats, n, st, st2, PrimaryGenre, GenreValue(v3));
  }

  lemma {:induction false} CategoriesToward(g: Graph, cats: seq<string>, n: Node, st0: Stats, st: Stats, k: nat)
    requires n.Person? && k <= |cats| && Toward(g, cats, n, st0, st)
    ensures Toward(g, cats, n, st0, CategoryStats(g, st, n, cats, k))
    ensures At(CategoryStats(g, st, n, cats, k), (n, CreditCount)) == At(st, (n, CreditCount))
    ensures forall i :: 0 <= i < k ==> At(CategoryStats(g, st, n, cats, k), (n, CategoryCount(cats[i]))) == Live(g, n, CategoryCount(cats[i]))
  {
    if k > 0 {
      CategoriesToward(g, cats, n, st0, st, k - 1);
      OneMoreCategory(g, cats, n, st0, CategoryStats(g, st, n, cats, k - 1), k, CategoryStats(g, st, n, cats, k));
    }
  }

  lemma OneMoreCategory(g: Graph, cats: seq<string>, n: Node, st0: Stats, before: Stats, k: nat, after: Stats)
    requires n.Person? && 0 < k <= |cats| && Toward(g, cats, n, st0, before)
    requires after == GuardedSet(before, n, CategoryCount(cats[k - 1]), Number(CaseSum(CreditedReleases(g, n), InCategory(g, n, cats[k - 1]))))
    ensures Toward(g, cats, n, st0, after)
    ensures forall x: Stat :: At(after, (n, x)) == if x == CategoryCount(cats[k - 1]) then Live(g, n, x) else At(before, (n, x))
  {
    var s, v := CategoryCount(cats[k - 1]), LivePerson(g, n, CategoryCount(cats[k - 1]));
    CategoryCountsDistinctReleases(g, n, cats[k - 1]);
    GuardedSetIsSet(before, n, s, v.value);
    SetToward(g, cats, n, st0, before, s, v);
  }

  lemma PersonToward(g: Graph, cats: seq<string>, n: Node, st: Stats)
    requires n.Person?
    ensures Toward(g, cats, n, st, PersonStats(g, st, n, cats)) && Settled(g, cats, n, PersonStats(g, st, n, cats))
  {
    var v := LivePerson(g, n, CreditCount);
    GuardedSetIsSet(st, n, CreditCount, v.value);
    SetToward(g, cats, n, st, st, CreditCount, v);
    CategoriesToward(g, cats, n, st, SetStat(st, n, CreditCount, v), |cats|);
  }

  // ---------------------------------------------------------------- derived edges disturb no value

  lemma SameLiveLabel(g: Graph, h: Graph, n: Node, s: Stat)
    requires SameBase(g, h)
    ensures LiveLabel(h, n, s) == LiveLabel(g, n, s)
  {
    SameInto(g, h, n, ON);
    SameReached(g, h, n, ON, BY, AnArtist);
    SameReached(g, h, n, ON, IS, AGenre);
  }

  lemma SameGroups(g: Graph, h: Graph, a: Node, row: Group)
    requires SameBase(g, h) && IsGroupOf(h, a, row)
    ensures IsGroupOf(g, a, row)
  {
    if row.target.Label? {
      SameReached(g, h, a, BY, ON, ALabel);
      SameGroupCount(g, h, a, BY, ON, row.target);
      assert row.n == GroupCount(h, a, BY, ON, row.target);
    } else {
      SameReached(g, h, a, BY, IS, AGenre);
      SameGroupCount(g, h, a, BY, IS, row.target);
      assert row.n == GroupCount(h, a, BY, IS, row.target);
    }
  }

  lemma SameBaseSymmetric(g: Graph, h: Graph)
    requires SameBase(g, h)
    ensures SameBase(h, g)
  {
  }

  lemma SamePrimaryGenre(g: Graph, h: Graph, a: Node)
    requires SameBase(g, h)
    ensures HeadGenre(ArtistRows(h, a), 0) == HeadGenre(ArtistRows(g, a), 0)
  {
    var x, y := HeadGenre(ArtistRows(g, a), 0), HeadGenre(ArtistRows(h, a), 0);
    SameBaseSymmetric(g, h);
    forall row ensures row in ArtistRows(h, a) <==> IsGroupOf(g, a, row) {
      if IsGroupOf(h, a, row) { SameGroups(g, h, a, row); }
      if IsGroupOf(g, a, row) { SameGroups(h, g, a, row); }
    }
    HeadOfSortIsPrimary(g, a, ArtistRows(g, a));
    HeadOfSortIsPrimary(g, a, ArtistRows(h, a));
    if x.Some? && y.Some? { PrimaryIsUnique(g, a, x.value, y.value); }
  }

  lemma SameLiveArtist(g: Graph, h: Graph, n: Node, s: Stat)
    requires SameBase(g, h)
    ensures LiveArtist(h, n, s) == LiveArtist(g, n, s)
  {
    match s
    case ReleaseCount => SameInto(g, h, n, BY);
    case LabelCount => SameReached(g, h, n, BY, ON, ALabel);
    case _ => SamePrimaryGenre(g, h, n);
  }

  lemma SameCredits(g: Graph, h: Graph, p: Node)
    requires SameBase(g, h)
    ensures CreditsOf(h, p) == CreditsOf(g, p)
    ensures forall e :: e in CreditsOf(g, p) ==> SameAt(g, h, e)
  {
    forall e: Edge ensures (e in CreditsOf(h, p) <==> e in CreditsOf(g, p)) && (e in CreditsOf(g, p) ==> SameAt(g, h, e)) {
      if e.rel == CREDITED_ON { assert At(h.edges, e) == At(g.edges, e); }
    }
  }

  lemma SameLivePerson(g: Graph, h: Graph, n: Node, s: Stat)
    requires SameBase(g, h)
    ensures LivePerson(h, n, s) == LivePerson(g, n, s)
  {
    SameCredits(g, h, n);
    if s.CategoryCount? {
      forall r ensures CategoriesOn(h, n, r) == CategoriesOn(g, n, r) { SameCategories(g, h, n, r); }
      assert ReleasesIn(h, n, s.category) == ReleasesIn(g, n, s.category);
    }
  }

  lemma SameCategories(g: Graph, h: Graph, p: Node, r: Node)
    requires CreditsOf(h, p) == CreditsOf(g, p) && forall e :: e in CreditsOf(g, p) ==> SameAt(g, h, e)
    ensures CategoriesOn(h, p, r) == CategoriesOn(g, p, r)
  {
    forall c ensures c in CategoriesOn(h, p, r) <==> c in CategoriesOn(g, p, r) {
      if c in CategoriesOn(h, p, r) {
        var e :| e in CreditsOf(h, p) && e.dst == r && h.edges[e].prop.Category? && h.edges[e].prop.c == c;
        assert SameAt(g, h, e);
      }
    }
  }

  lemma SameLive(g: Graph, h: Graph, n: Node, s: Stat)
    requires SameBase(g, h) && (n.Genre? || n.Style? || n.Label? || n.Artist? || n.Person?)
    ensures Live(h, n, s) == Live(g, n, s)
  {
    match n
    case Label(_) => SameLiveLabel(g, h, n, s);
    case Artist(_) => SameLiveArtist(g, h, n, s);
    case Person(_) => SameLivePerson(g, h, n, s);
    case _ => SameLiveTaxonomy(g, h, n, s);
  }

  // ---------------------------------------------------------------- a whole log

  /** Genre texts are never empty in the graph either. */
  lemma PrimaryGenreHasName(g: Graph, a: Node)
    requires NoBlankGenre(g)
    ensures HeadGenre(ArtistRows(g, a), 0) != Some("")
  {
    var rows := ArtistRows(g, a);
    HeadOfSortIsPrimary(g, a, rows);
    assert Genre("") !in Reached(g, a, BY, IS, AGenre);
  }

  ghost predicate Tracks(g: Graph, d: Derived) {
    SameBase(g, d.g) && Sane(d.st)
  }

  /** The item's effect in terms of the graph it started from. */
  lemma ItemToward(g: Graph, cats: seq<string>, d: Derived, item: Item)
    requires RightKind(item) && Tracks(g, d) && NoBlankGenre(g)
    ensures Toward(d.g, cats, item.n, d.st, DoItem(d, cats, item).st)
    ensures Completes(item, item.n) ==> Settled(d.g, cats, item.n, DoItem(d, cats, item).st)
  {
    match item
    case TaxonomyItem(n, k) => { TaxonomyToward(d.g, cats, n, k, d.st); }
    case LabelItem(n) => { LabelToward(d.g, cats, n, d.st); }
    case ArtistItem(n) => {
      SamePrimaryGenre(g, d.g, n);
      PrimaryGenreHasName(g, n);
      ArtistToward(d.g, cats, n, d.st);
    }
    case PersonItem(n) => { PersonToward(d.g, cats, n, d.st); }
  }

  /** The item's effect in terms of the graph the sweep started from. */
  lemma ItemRefreshes(g: Graph, cats: seq<string>, d: Derived, item: Item)
    requires RightKind(item) && Tracks(g, d) && NoBlankGenre(g)
    ensures Toward(g, cats, item.n, d.st, DoItem(d, cats, item).st)
    ensures Completes(item, item.n) ==> Settled(g, cats, item.n, DoItem(d, cats, item).st)
  {
    ItemToward(g, cats, d, item);
    forall s: Stat ensures Live(d.g, item.n, s) == Live(g, item.n, s) { SameLive(g, d.g, item.n, s); }
  }

  lemma ItemKeepsTracks(g: Graph, cats: seq<string>, d: Derived, item: Item, d': Derived)
    requires RightKind(item) && Tracks(g, d) && NoBlankGenre(g) && d' == DoItem(d, cats, item)
    ensures Tracks(g, d')
  {
    ItemRefreshes(g, cats, d, item);
    if item.LabelItem? { LabelStylesAreExact(d.g, item.n); }
    forall n: Node | (n, PrimaryGenre) in d'.st ensures d'.st[(n, PrimaryGenre)].Word? && d'.st[(n, PrimaryGenre)].s != "" {
      assert At(d'.st, (n, PrimaryGenre)) == Some(d'.st[(n, PrimaryGenre)]);
      if At(d'.st, (n, PrimaryGenre)) == At(d.st, (n, PrimaryGenre)) {
        assert (n, PrimaryGenre) in d.st;
      } else {
        assert n.Artist?;
        PrimaryGenreHasName(g, n);
      }
    }
  }

  /** A settled node stays settled. */
  lemma ItemKeepsSettled(g: Graph, cats: seq<string>, d: Derived, item: Item, n: Node)
    requires RightKind(item) && Tracks(g, d) && NoBlankGenre(g) && Settled(g, cats, n, d.st)
    ensures Settled(g, cats, n, DoItem(d, cats, item).st)
  {
    ItemRefreshes(g, cats, d, item);
    var st' := DoItem(d, cats, item).st;
    forall s: Stat | Kept(cats, n, s) ensures At(st', (n, s)) == Live(g, n, s) {
      assert At(d.st, (n, s)) == Live(g, n, s);
      var k := (n, s);
      assert At(st', k) == At(d.st, k) || (k.0 == item.n && At(st', k) == Live(g, item.n, k.1));
    }
  }

  /** A label's item makes its HAS_STYLE edges exact, and every item keeps those of the others. */
  lemma ItemKeepsStyles(g: Graph, cats: seq<string>, d: Derived, item: Item, l: Node, d': Derived)
    requires RightKind(item) && Tracks(g, d) && l.Label? && d' == DoItem(d, cats, item)
    ensures item == LabelItem(l) || StylesExact(d.g, l, StyleGroups(g, l)) ==> StylesExact(d'.g, l, StyleGroups(g, l))
  {
    if item.LabelItem? {
      LabelStylesAreExact(d.g, item.n);
      if item.n == l {
        SameStyleGroups(g, d.g, l);
      } else if StylesExact(d.g, l, StyleGroups(g, l)) {
        OtherStylesKept(d.g, d'.g, l, StyleGroups(g, l));
      }
    }
  }

  lemma OtherStylesKept(g: Graph, h: Graph, l: Node, styles: map<Node, nat>)
    requires StylesExact(g, l, styles) && forall e: Edge :: e.src == l ==> At(h.edges, e) == At(g.edges, e)
    ensures StylesExact(h, l, styles)
  {
    forall s: Node | s.Style? ensures StyleExact(h, l, styles, s) {
      assert StyleExact(g, l, styles, s);
      assert At(h.edges, HasStyle(l, s)) == At(g.edges, HasStyle(l, s));
    }
  }

  lemma {:induction false} LogKeepsTracks(g: Graph, cats: seq<string>, d: Derived, items: seq<Item>, k: nat)
    requires k <= |items| && (forall i :: 0 <= i < |items| ==> RightKind(items[i])) && Tracks(g, d) && NoBlankGenre(g)
    ensures Tracks(g, DoLog(d, cats, items, k))
  {
    if k > 0 {
      LogKeepsTracks(g, cats, d, items, k - 1);
      ItemKeepsTracks(g, cats, DoLog(d, cats, items, k - 1), items[k - 1], DoLog(d, cats, items, k));
    }
  }

  /** Whatever the order and the retries, a node some item completed ends with its live values,
      and a completed label with its live HAS_STYLE edges. */
  lemma {:induction false} CompletedNodeIsLive(g: Graph, cats: seq<string>, d: Derived, items: seq<Item>, k: nat, i: nat)
    requires i < k <= |items| && (forall j :: 0 <= j < |items| ==> RightKind(items[j])) && Tracks(g, d) && NoBlankGenre(g)
    requires Completes(items[i], items[i].n)
    ensures Settled(g, cats, items[i].n, DoLog(d, cats, items, k).st)
    ensures items[i].LabelItem? ==> StylesExact(DoLog(d, cats, items, k).g, items[i].n, StyleGroups(g, items[i].n))
  {
    var before, after := DoLog(d, cats, items, k - 1), DoLog(d, cats, items, k);
    LogKeepsTracks(g, cats, d, items, k - 1);
    if i == k - 1 {
      ItemRefreshes(g, cats, before, items[i]);
    } else {
      CompletedNodeIsLive(g, cats, d, items, k - 1, i);
      ItemKeepsSettled(g, cats, before, items[k - 1], items[i].n);
    }
    if items[i].LabelItem? { ItemKeepsStyles(g, cats, before, items[k - 1], items[i].n, after); }
  }
}
