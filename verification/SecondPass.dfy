/** How many writes a pass makes: guarded SETs that fire, deletes and creates. A second pass over
    unchanged data makes none. */
module SecondPass {
  import opened Common
  import opened Graph
  import opened Aggregates
  import opened Sweeps
  import opened SweepLogs

  // ---------------------------------------------------------------- counting writes

  function GuardWrites(st: Stats, n: Node, s: Stat, v: StatValue): nat {
    if (n, s) !in st || st[(n, s)] != v then 1 else 0
  }

  function GenreWrites(st: Stats, n: Node, v: Option<string>): nat {
    var stored := if (n, PrimaryGenre) in st && st[(n, PrimaryGenre)].Word? then st[(n, PrimaryGenre)].s else "";
    if stored != (if v.Some? then v.value else "") then 1 else 0
  }

  /** The HAS_STYLE edges of a label that its groups do not have. */
  function StaleEdges(g: Graph, l: Node, styles: map<Node, nat>): set<Edge> {
    set e | e in g.edges && StaleStyle(l, styles, e)
  }

  function NewStyles(g: Graph, l: Node, styles: map<Node, nat>): set<Node> {
    set s | s in styles && HasStyle(l, s) !in g.edges
  }

  /** The styles whose edge, merged first, does not yet carry the live count. */
  function UncountedStyles(g: Graph, l: Node, styles: map<Node, nat>): set<Node> {
    set s | s in styles && OrNew(At(g.edges, HasStyle(l, s))).prop != Releases(styles[s])
  }

  /** One label of a page: three guarded SETs, then its deletes, creates and counts. */
  ghost function LabelWrites(g: Graph, st: Stats, l: Node): nat {
    var styles := StyleGroups(g, l);
    GuardWrites(st, l, ReleaseCount, Number(|ReleasesOf(Into(g, l, ON))|))
    + GuardWrites(st, l, ArtistCount, Number(|Reached(g, l, ON, BY, AnArtist)|))
    + GuardWrites(st, l, GenreCount, Number(|Reached(g, l, ON, IS, AGenre)|))
    + |StaleEdges(g, l, styles)| + |NewStyles(g, l, styles)| + |UncountedStyles(g, l, styles)|
  }

  ghost function ArtistWrites(g: Graph, st: Stats, a: Node): nat {
    GuardWrites(st, a, ReleaseCount, Number(|ReleasesOf(Into(g, a, BY))|))
    + GuardWrites(st, a, LabelCount, Number(CountLabels(ArtistRows(g, a))))
    + GenreWrites(st, a, HeadGenre(ArtistRows(g, a), 0))
  }

  ghost function CategoryWrites(g: Graph, st: Stats, p: Node, cats: seq<string>, k: nat): nat
    requires k <= |cats|
  {
    if k == 0 then 0 else
      CategoryWrites(g, st, p, cats, k - 1)
      + GuardWrites(CategoryStats(g, st, p, cats, k - 1), p, CategoryCount(cats[k - 1]),
                    Number(CaseSum(CreditedReleases(g, p), InCategory(g, p, cats[k - 1]))))
  }

  ghost function PersonWrites(g: Graph, st: Stats, p: Node, cats: seq<string>): nat {
    var v := Number(|CreditedReleases(g, p)|);
    GuardWrites(st, p, CreditCount, v) + CategoryWrites(g, GuardedSet(st, p, CreditCount, v), p, cats, |cats|)
  }

  /** A Genre or Style statement SETs unconditionally, so it always writes. */
  ghost function ItemWrites(d: Derived, cats: seq<string>, item: Item): nat {
    match item
    case TaxonomyItem(_, k) => k
    case LabelItem(n) => LabelWrites(d.g, d.st, n)
    case ArtistItem(n) => ArtistWrites(d.g, d.st, n)
    case PersonItem(n) => PersonWrites(d.g, d.st, n, cats)
  }

  ghost function LogWrites(d: Derived, cats: seq<string>, items: seq<Item>, k: nat): nat
    requires k <= |items|
  {
    if k == 0 then 0 else LogWrites(d, cats, items, k - 1) + ItemWrites(DoLog(d, cats, items, k - 1), cats, items[k - 1])
  }

  // ---------------------------------------------------------------- every change is counted

  lemma UncountedLabel(g: Graph, st: Stats, l: Node)
    requires LabelWrites(g, st, l) == 0
    ensures LabelStats(g, st, l) == st && DeriveStyles(g, l, StyleGroups(g, l)) == g
  {
    UncountedStylesStay(g, l, StyleGroups(g, l));
  }

  lemma UncountedStylesStay(g: Graph, l: Node, styles: map<Node, nat>)
    requires StaleEdges(g, l, styles) == {} && NewStyles(g, l, styles) == {} && UncountedStyles(g, l, styles) == {}
    ensures DeriveStyles(g, l, styles) == g
  {
    DeriveStylesCells(g, l, styles);
    var h := DeriveStyles(g, l, styles);
    forall e: Edge ensures At(h.edges, e) == At(g.edges, e) {
      assert At(h.edges, e) == DerivedCell(l, styles, e, At(g.edges, e));
      assert e !in StaleEdges(g, l, styles) && e.dst !in NewStyles(g, l, styles) && e.dst !in UncountedStyles(g, l, styles);
    }
    GraphExtensional(h, g);
  }

  lemma {:induction false} UncountedCategories(g: Graph, st: Stats, p: Node, cats: seq<string>, k: nat)
    requires k <= |cats| && CategoryWrites(g, st, p, cats, k) == 0
    ensures CategoryStats(g, st, p, cats, k) == st
  {
    if k > 0 { UncountedCategories(g, st, p, cats, k - 1); }
  }

  lemma UncountedItem(d: Derived, cats: seq<string>, item: Item)
    requires ItemWrites(d, cats, item) == 0
    ensures DoItem(d, cats, item) == d
  {
    match item
    case TaxonomyItem(_, _) =>
    case LabelItem(l) => UncountedLabel(d.g, d.st, l);
    case ArtistItem(_) =>
    case PersonItem(p) => UncountedCategories(d.g, d.st, p, cats, |cats|);
  }

  /** The counts miss no write: a log that counts none changes nothing, on any graph. */
  lemma {:induction false} EveryChangeIsCounted(d: Derived, cats: seq<string>, items: seq<Item>, k: nat)
    requires k <= |items| && LogWrites(d, cats, items, k) == 0
    ensures DoLog(d, cats, items, k) == d
  {
    if k > 0 {
      EveryChangeIsCounted(d, cats, items, k - 1);
      UncountedItem(DoLog(d, cats, items, k - 1), cats, items[k - 1]);
    }
  }

  // ---------------------------------------------------------------- settled nodes cost nothing

  /** A stored live value makes its guard skip. */
  lemma SettledGuard(g: Graph, cats: seq<string>, st: Stats, n: Node, s: Stat, v: StatValue)
    requires Settled(g, cats, n, st) && Kept(cats, n, s) && Live(g, n, s) == Some(v)
    ensures GuardWrites(st, n, s, v) == 0 && GuardedSet(st, n, s, v) == st
  {
    assert At(st, (n, s)) == Some(v);
  }

  lemma SettledLabelStats(g: Graph, cats: seq<string>, st: Stats, l: Node)
    requires l.Label? && Settled(g, cats, l, st)
    ensures LabelStats(g, st, l) == st
    ensures LabelWrites(g, st, l) == |StaleEdges(g, l, StyleGroups(g, l))| + |NewStyles(g, l, StyleGroups(g, l))| + |UncountedStyles(g, l, StyleGroups(g, l))|
  {
    SettledGuard(g, cats, st, l, ReleaseCount, LiveLabel(g, l, ReleaseCount).value);
    SettledGuard(g, cats, st, l, ArtistCount, LiveLabel(g, l, ArtistCount).value);
    SettledGuard(g, cats, st, l, GenreCount, LiveLabel(g, l, GenreCount).value);
  }

  lemma ExactStylesCostNothing(g: Graph, l: Node, styles: map<Node, nat>)
    requires OnlyStyles(styles) && StylesExact(g, l, styles) && PlainStyles(g, l)
    ensures StaleEdges(g, l, styles) == {} && NewStyles(g, l, styles) == {} && UncountedStyles(g, l, styles) == {}
  {
    forall e ensures e !in StaleEdges(g, l, styles) {
      assert StyleExact(g, l, styles, e.dst) || !e.dst.Style?;
    }
    forall s ensures s !in NewStyles(g, l, styles) && s !in UncountedStyles(g, l, styles) {
      assert StyleExact(g, l, styles, s) || !s.Style?;
    }
  }

  lemma SettledArtist(g: Graph, cats: seq<string>, st: Stats, a: Node)
    requires a.Artist? && Settled(g, cats, a, st) && HeadGenre(ArtistRows(g, a), 0) != Some("")
    ensures ArtistStats(g, st, a) == st && ArtistWrites(g, st, a) == 0
  {
    LabelRowsAreLabels(g, a, ArtistRows(g, a));
    SettledGuard(g, cats, st, a, ReleaseCount, LiveArtist(g, a, ReleaseCount).value);
    SettledGuard(g, cats, st, a, LabelCount, LiveArtist(g, a, LabelCount).value);
    assert At(st, (a, PrimaryGenre)) == LiveArtist(g, a, PrimaryGenre);
  }

  lemma {:induction false} SettledCategories(g: Graph, cats: seq<string>, st: Stats, p: Node, k: nat)
    requires p.Person? && Settled(g, cats, p, st) && k <= |cats|
    ensures CategoryStats(g, st, p, cats, k) == st && CategoryWrites(g, st, p, cats, k) == 0
  {
    if k > 0 {
      SettledCategories(g, cats, st, p, k - 1);
      CategoryCountsDistinctReleases(g, p, cats[k - 1]);
      SettledGuard(g, cats, st, p, CategoryCount(cats[k - 1]), LivePerson(g, p, CategoryCount(cats[k - 1])).value);
    }
  }

  lemma SettledPerson(g: Graph, cats: seq<string>, st: Stats, p: Node)
    requires p.Person? && Settled(g, cats, p, st)
    ensures PersonStats(g, st, p, cats) == st && PersonWrites(g, st, p, cats) == 0
  {
    SettledGuard(g, cats, st, p, CreditCount, LivePerson(g, p, CreditCount).value);
    SettledCategories(g, cats, st, p, |cats|);
  }

  // ---------------------------------------------------------------- one item again

  /** HAS_STYLE edges carry no key properties, as every MERGE of one writes them. */
  ghost predicate AllPlain(g: Graph) {
    forall l: Node :: PlainStyles(g, l)
  }

  lemma ItemKeepsPlain(d: Derived, cats: seq<string>, item: Item)
    requires AllPlain(d.g)
    ensures AllPlain(DoItem(d, cats, item).g)
  {
    if item.LabelItem? {
      var h := DoItem(d, cats, item).g;
      LabelStylesAreExact(d.g, item.n);
      DerivedStylesArePlain(d.g, item.n, StyleGroups(d.g, item.n));
      forall l: Node ensures PlainStyles(h, l) {
        forall e: Edge | l != item.n && e in h.edges && e.src == l && e.rel == HAS_STYLE && e.dst.Style? ensures e == HasStyle(l, e.dst) {
          assert At(h.edges, e) == At(d.g.edges, e);
          assert PlainStyles(d.g, l);
        }
      }
    }
  }

  lemma {:induction false} LogKeepsPlain(d: Derived, cats: seq<string>, items: seq<Item>, k: nat)
    requires k <= |items| && AllPlain(d.g)
    ensures AllPlain(DoLog(d, cats, items, k).g)
  {
    if k > 0 {
      LogKeepsPlain(d, cats, items, k - 1);
      ItemKeepsPlain(DoLog(d, cats, items, k - 1), cats, items[k - 1]);
    }
  }

  /** The node has its live values, and a label its live edges. */
  ghost predicate AtRest(g: Graph, cats: seq<string>, d: Derived, n: Node) {
    Settled(g, cats, n, d.st) && (n.Label? ==> StylesExact(d.g, n, StyleGroups(g, n)))
  }

  lemma SettledHere(g: Graph, cats: seq<string>, d: Derived, n: Node)
    requires Tracks(g, d) && Settled(g, cats, n, d.st) && (n.Genre? || n.Style? || n.Label? || n.Artist? || n.Person?)
    ensures Settled(d.g, cats, n, d.st)
  {
    forall s: Stat ensures Live(d.g, n, s) == Live(g, n, s) { SameLive(g, d.g, n, s); }
  }

  lemma RestingItemWritesNothing(g: Graph, cats: seq<string>, d: Derived, item: Item)
    requires RightKind(item) && !item.TaxonomyItem? && Tracks(g, d) && NoBlankGenre(g) && AllPlain(d.g) && AtRest(g, cats, d, item.n)
    ensures ItemWrites(d, cats, item) == 0 && DoItem(d, cats, item) == d
  {
    SettledHere(g, cats, d, item.n);
    match item
    case LabelItem(l) => {
      SameStyleGroups(g, d.g, l);
      StyleGroupsAreStyles(d.g, l);
      assert PlainStyles(d.g, l);
      SettledLabelStats(d.g, cats, d.st, l);
      ExactStylesCostNothing(d.g, l, StyleGroups(d.g, l));
      DeriveExactIsIdentity(d.g, l, StyleGroups(d.g, l));
    }
    case ArtistItem(a) => {
      SamePrimaryGenre(g, d.g, a);
      PrimaryGenreHasName(g, a);
      SettledArtist(d.g, cats, d.st, a);
    }
    case PersonItem(p) => { SettledPerson(d.g, cats, d.st, p); }
  }

  // ---------------------------------------------------------------- a whole second pass

  /** The first pass completed every node the second one visits, and the second visits only
      Labels, Artists and Persons. */
  ghost predicate Repeats(items: seq<Item>, again: seq<Item>) {
    forall i :: 0 <= i < |again| ==> RightKind(again[i]) && !again[i].TaxonomyItem? && Completed(items, again[i].n)
  }

  ghost predicate Completed(items: seq<Item>, n: Node) {
    exists j :: 0 <= j < |items| && Completes(items[j], n)
  }

  lemma CompletedIsAtRest(g: Graph, cats: seq<string>, d: Derived, items: seq<Item>, n: Node)
    requires Tracks(g, d) && NoBlankGenre(g) && (forall j :: 0 <= j < |items| ==> RightKind(items[j])) && Completed(items, n)
    ensures AtRest(g, cats, DoLog(d, cats, items, |items|), n)
  {
    var i :| 0 <= i < |items| && Completes(items[i], n);
    CompletedNodeIsLive(g, cats, d, items, |items|, i);
  }

  /** The item neither writes nor changes anything. */
  ghost predicate Idle(d: Derived, cats: seq<string>, item: Item) {
    ItemWrites(d, cats, item) == 0 && DoItem(d, cats, item) == d
  }

  lemma {:induction false} IdleLogWritesNothing(cats: seq<string>, d: Derived, again: seq<Item>, k: nat)
    requires k <= |again| && forall i :: 0 <= i < |again| ==> Idle(d, cats, again[i])
    ensures LogWrites(d, cats, again, k) == 0 && DoLog(d, cats, again, k) == d
  {
    if k > 0 {
      IdleLogWritesNothing(cats, d, again, k - 1);
      assert Idle(d, cats, again[k - 1]);
    }
  }

  /** Over unchanged data a second Label, Artist or Person pass makes not one write: no SET fires,
      no edge is deleted or created, and nothing differs afterwards. */
  lemma SecondPassWritesNothing(g: Graph, cats: seq<string>, d: Derived, items: seq<Item>, again: seq<Item>)
    requires Tracks(g, d) && NoBlankGenre(g) && AllPlain(d.g)
    requires (forall j :: 0 <= j < |items| ==> RightKind(items[j])) && Repeats(items, again)
    ensures var after := DoLog(d, cats, items, |items|);
      LogWrites(after, cats, again, |again|) == 0 && DoLog(after, cats, again, |again|) == after
  {
    var after := DoLog(d, cats, items, |items|);
    LogKeepsTracks(g, cats, d, items, |items|);
    LogKeepsPlain(d, cats, items, |items|);
    forall i | 0 <= i < |again| ensures Idle(after, cats, again[i]) {
      CompletedIsAtRest(g, cats, d, items, again[i].n);
      RestingItemWritesNothing(g, cats, after, again[i]);
    }
    IdleLogWritesNothing(cats, after, again, |again|);
  }
}
