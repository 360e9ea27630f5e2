/** The sweeps of a maintenance pass as they ran: attempts of five steps in any interleaving, over
    the keys the graph holds, and the log of what each attempt applied. */
module Passes {
  import opened Common
  import opened Graph
  import opened Aggregates
  import opened Sweeps
  import opened SweepLogs
  import P = Paging
  import T = PagingTheorems

  // ---------------------------------------------------------------- key spaces

  /** The keyed sweeps of a pass. */
  datatype Kind = GenreSweep | StyleSweep | LabelSweep | ArtistSweep | PersonSweep

  function NodeOf(c: Kind, key: string): Node {
    match c
    case GenreSweep => Genre(key)
    case StyleSweep => Style(key)
    case LabelSweep => Label(key)
    case ArtistSweep => Artist(key)
    case PersonSweep => Person(key)
  }

  /** The keys of one sweep: the nodes of its label. */
  function KeySet(g: Graph, c: Kind): set<string> {
    set n | n in g.nodes && n == NodeOf(c, n.id) && n.id != P.START_CURSOR :: n.id
  }

  ghost predicate LeastKey(s: set<string>, k: string) {
    k in s && forall x :: x in s ==> AtMost(k, x)
  }

  lemma {:induction false} LeastKeyExists(s: set<string>, seed: string)
    requires seed in s
    ensures exists k :: LeastKey(s, k)
    decreases |s|
  {
    var rest := s - {seed};
    if other :| other in rest {
      LeastKeyExists(rest, other);
      var k :| LeastKey(rest, k);
      LessTotal(seed, k);
      if Less(seed, k) {
        forall x | x in s ensures AtMost(seed, x) {
          if x != seed && x != k {
            assert x in rest && Less(k, x);
            LessTransitive(seed, k, x);
          }
        }
        assert LeastKey(s, seed);
      } else {
        assert LeastKey(s, k);
      }
    } else {
      assert LeastKey(s, seed);
    }
  }

  ghost predicate InKeyOrder(keys: seq<string>, s: set<string>) {
    P.Ascending(keys) && forall k :: k in keys <==> k in s
  }

  lemma AscendingFrom(s: set<string>, k: string, rest: seq<string>)
    requires LeastKey(s, k) && k != P.START_CURSOR && InKeyOrder(rest, s - {k})
    ensures InKeyOrder([k] + rest, s)
  {
    var keys := [k] + rest;
    forall i, j | 0 <= i < j < |keys| ensures Less(keys[i], keys[j]) {
      assert keys[j] == rest[j - 1] && rest[j - 1] in rest;
      if i > 0 { assert keys[i] == rest[i - 1]; }
    }
  }

  lemma {:induction false} KeyOrderExists(s: set<string>)
    requires P.START_CURSOR !in s
    ensures exists keys :: InKeyOrder(keys, s)
    decreases |s|
  {
    if seed :| seed in s {
      LeastKeyExists(s, seed);
      var k :| LeastKey(s, k);
      KeyOrderExists(s - {k});
      var rest :| InKeyOrder(rest, s - {k});
      AscendingFrom(s, k, rest);
    } else {
      assert InKeyOrder([], s);
    }
  }

  /** The keys in the order the database returns them. */
  ghost function KeysIn(g: Graph, c: Kind): (keys: seq<string>)
    ensures InKeyOrder(keys, KeySet(g, c))
  {
    KeyOrderExists(KeySet(g, c));
    var keys :| InKeyOrder(keys, KeySet(g, c));
    keys
  }

  // ---------------------------------------------------------------- what an attempt applies

  function WholeItem(c: Kind, key: string): Item {
    match c
    case GenreSweep => TaxonomyItem(Genre(key), TAXONOMY_STATEMENTS)
    case StyleSweep => TaxonomyItem(Style(key), TAXONOMY_STATEMENTS)
    case LabelSweep => LabelItem(Label(key))
    case ArtistSweep => ArtistItem(Artist(key))
    case PersonSweep => PersonItem(Person(key))
  }

  /** The key a failing page stopped in: some of its statements, where each is a transaction of
      its own. */
  function PartItem(c: Kind, key: string, statements: nat): Item {
    var k := P.Min(statements, TAXONOMY_STATEMENTS);
    match c
    case GenreSweep => TaxonomyItem(Genre(key), k)
    case StyleSweep => TaxonomyItem(Style(key), k)
    case _ => WholeItem(c, key)
  }

  /** A page processed in full ran every statement of every key. */
  function PageItems(c: Kind, keys: seq<string>): seq<Item> {
    seq(|keys|, i requires 0 <= i < |keys| => WholeItem(c, keys[i]))
  }

  /** A failing page ran the keys it reached, the last of them in part. */
  function TouchedItems(c: Kind, keys: seq<string>, statements: nat): seq<Item> {
    seq(|keys|, i requires 0 <= i < |keys| => if i == |keys| - 1 then PartItem(c, keys[i], statements) else WholeItem(c, keys[i]))
  }

  function SweepItems(c: Kind, keys: seq<string>, floor: nat, runKey: Option<string>, stored: Option<P.Stored>,
                      cursor: string, size: nat, failures: nat, env: nat -> P.Event, statements: nat -> nat, n: nat): seq<Item>
    requires P.Ready(keys, floor, size, failures)
    decreases |keys| - P.Rank(keys, cursor), size, P.MAX_FAILURES_AT_MIN_PAGE - failures
  {
    match P.OneTurn(keys, floor, runKey, stored, cursor, size, failures, env(n))
    case End(run) => PageItems(c, run.full) + TouchedItems(c, run.partial, statements(n))
    case Again(stored', cursor', size', failures', page, touched) =>
      PageItems(c, page) + TouchedItems(c, touched, statements(n))
      + SweepItems(c, keys, floor, runKey, stored', cursor', size', failures', env, statements, n + 1)
  }

  ghost predicate AllRight(items: seq<Item>) {
    forall j :: 0 <= j < |items| ==> RightKind(items[j])
  }

  lemma PageItemsHold(c: Kind, keys: seq<string>, touched: seq<string>, statements: nat)
    ensures AllRight(PageItems(c, keys)) && AllRight(TouchedItems(c, touched, statements))
    ensures forall k :: k in keys ==> WholeItem(c, k) in PageItems(c, keys)
  {
    forall k | k in keys ensures WholeItem(c, k) in PageItems(c, keys) {
      var i :| 0 <= i < |keys| && keys[i] == k;
      assert PageItems(c, keys)[i] == WholeItem(c, k);
    }
  }

  /** Every key the attempt processed in full is a whole item of its log. */
  lemma {:induction false} SweepItemsHold(c: Kind, keys: seq<string>, floor: nat, runKey: Option<string>, stored: Option<P.Stored>,
                                          cursor: string, size: nat, failures: nat, env: nat -> P.Event, statements: nat -> nat, n: nat)
    requires P.Ready(keys, floor, size, failures)
    ensures AllRight(SweepItems(c, keys, floor, runKey, stored, cursor, size, failures, env, statements, n))
    ensures forall k :: k in P.Sweep(keys, floor, runKey, stored, cursor, size, failures, env, n).full ==>
      WholeItem(c, k) in SweepItems(c, keys, floor, runKey, stored, cursor, size, failures, env, statements, n)
    decreases |keys| - P.Rank(keys, cursor), size, P.MAX_FAILURES_AT_MIN_PAGE - failures
  {
    match P.OneTurn(keys, floor, runKey, stored, cursor, size, failures, env(n))
    case End(run) => { PageItemsHold(c, run.full, run.partial, statements(n)); }
    case Again(stored', cursor', size', failures', page, touched) => {
      PageItemsHold(c, page, touched, statements(n));
      SweepItemsHold(c, keys, floor, runKey, stored', cursor', size', failures', env, statements, n + 1);
    }
  }

  // ---------------------------------------------------------------- a pass

  /** One attempt of one step; `statements` says how far a failing page got in its last key. */
  datatype Attempt = Attempt(kind: Kind, visit: T.Visit, statements: nat -> nat)

  /** The attempts of one run key, under which nobody else writes the graph; `earlier` are the
      attempts each step saw before, under other run keys. */
  datatype Pass = Pass(run: string, spaces: Kind -> T.KeySpace, earlier: Kind -> seq<T.Visit>, attempts: seq<Attempt>)

  ghost predicate LegalPass(p: Pass) {
    && (forall c, v :: v in p.earlier(c) ==> T.Legal(p.spaces(c), v) && v.runKey != p.run)
    && (forall a :: a in p.attempts ==> T.Legal(p.spaces(a.kind), a.visit) && a.visit.runKey == p.run)
  }

  /** The step's key space is what the graph holds. */
  ghost predicate Ranges(p: Pass, g: Graph) {
    forall c :: p.spaces(c)(p.run) == KeysIn(g, c)
  }

  /** The first k attempts that are of one step. */
  function VisitsOf(p: Pass, c: Kind, k: nat): seq<T.Visit>
    requires k <= |p.attempts|
  {
    if k == 0 then [] else VisitsOf(p, c, k - 1) + if p.attempts[k - 1].kind == c then [p.attempts[k - 1].visit] else []
  }

  lemma {:induction false} VisitsAreLegal(p: Pass, c: Kind, k: nat)
    requires k <= |p.attempts| && LegalPass(p)
    ensures forall v :: v in p.earlier(c) + VisitsOf(p, c, k) ==> T.Legal(p.spaces(c), v)
  {
    if k > 0 {
      VisitsAreLegal(p, c, k - 1);
      assert p.attempts[k - 1] in p.attempts;
    }
  }

  /** The step's checkpoint and work after the first k attempts. */
  ghost function StepWorld(p: Pass, c: Kind, k: nat): T.World
    requires k <= |p.attempts| && LegalPass(p)
  {
    VisitsAreLegal(p, c, k);
    T.History(p.spaces(c), p.earlier(c) + VisitsOf(p, c, k))
  }

  function VisitItems(a: Attempt, space: T.KeySpace, stored: Option<P.Stored>): seq<Item>
    requires P.Ascending(space(a.visit.runKey)) && a.visit.floor >= 1
  {
    var c := P.Resume(stored, Some(a.visit.runKey));
    if c.done then []
    else SweepItems(a.kind, space(a.visit.runKey), a.visit.floor, Some(a.visit.runKey), stored, c.cursor,
                    P.StartSize(c, a.visit.pageSize, a.visit.floor), 0, a.visit.env, a.statements, 0)
  }

  lemma AttemptIsLegal(p: Pass, j: nat)
    requires j < |p.attempts| && LegalPass(p)
    ensures T.Legal(p.spaces(p.attempts[j].kind), p.attempts[j].visit) && p.attempts[j].visit.runKey == p.run
  {
    assert p.attempts[j] in p.attempts;
  }

  /** What the j-th attempt applied. */
  ghost function ItemsOf(p: Pass, j: nat): seq<Item>
    requires j < |p.attempts| && LegalPass(p)
  {
    AttemptIsLegal(p, j);
    var a := p.attempts[j];
    VisitItems(a, p.spaces(a.kind), StepWorld(p, a.kind, j).stored)
  }

  function Joined<A>(chunks: seq<seq<A>>, k: nat): seq<A>
    requires k <= |chunks|
  {
    if k == 0 then [] else Joined(chunks, k - 1) + chunks[k - 1]
  }

  ghost function Chunks(p: Pass): (chunks: seq<seq<Item>>)
    requires LegalPass(p)
    ensures |chunks| == |p.attempts| && forall j :: 0 <= j < |p.attempts| ==> chunks[j] == ItemsOf(p, j)
  {
    seq(|p.attempts|, j requires 0 <= j < |p.attempts| && LegalPass(p) => ItemsOf(p, j))
  }

  /** Everything the attempts applied, in order. */
  ghost function PassItems(p: Pass): seq<Item>
    requires LegalPass(p)
  {
    Joined(Chunks(p), |p.attempts|)
  }

  lemma {:induction false} JoinedMembers<A>(chunks: seq<seq<A>>, k: nat, x: A)
    requires k <= |chunks|
    ensures x in Joined(chunks, k) <==> exists j :: 0 <= j < k && x in chunks[j]
  {
    if k > 0 { JoinedMembers(chunks, k - 1, x); }
  }

  lemma VisitItemsHold(a: Attempt, space: T.KeySpace, w: T.World)
    requires T.Legal(space, a.visit)
    ensures AllRight(VisitItems(a, space, w.stored))
    ensures forall k :: k in T.VisitRun(space, w, a.visit).full ==> WholeItem(a.kind, k) in VisitItems(a, space, w.stored)
  {
    var c := P.Resume(w.stored, Some(a.visit.runKey));
    if !c.done {
      SweepItemsHold(a.kind, space(a.visit.runKey), a.visit.floor, Some(a.visit.runKey), w.stored, c.cursor,
                     P.StartSize(c, a.visit.pageSize, a.visit.floor), 0, a.visit.env, a.statements, 0);
    }
  }

  /** Attempts of other run keys leave no work under this one. */
  lemma {:induction false} ForeignVisitsDoNoWork(space: T.KeySpace, vs: seq<T.Visit>, run: string)
    requires forall v :: v in vs ==> T.Legal(space, v) && v.runKey != run
    ensures run !in T.History(space, vs).work
  {
    if vs != [] {
      ForeignVisitsDoNoWork(space, vs[..|vs| - 1], run);
      assert vs[|vs| - 1] in vs;
    }
  }

  /** Some attempt of the step processed the key in full. */
  ghost predicate DoneBy(p: Pass, c: Kind, j: nat, key: string)
    requires j < |p.attempts| && LegalPass(p)
  {
    AttemptIsLegal(p, j);
    p.attempts[j].kind == c && key in T.VisitRun(p.spaces(c), StepWorld(p, c, j), p.attempts[j].visit).full
  }

  ghost predicate WorkedBy(p: Pass, c: Kind, k: nat, key: string)
    requires k <= |p.attempts| && LegalPass(p)
  {
    exists j: nat :: j < k && DoneBy(p, c, j, key)
  }

  lemma OneMoreVisit(p: Pass, c: Kind, k: nat)
    requires 0 < k <= |p.attempts| && LegalPass(p) && p.attempts[k - 1].kind == c
    ensures T.Legal(p.spaces(c), p.attempts[k - 1].visit)
    ensures StepWorld(p, c, k) == T.After(p.spaces(c), StepWorld(p, c, k - 1), p.attempts[k - 1].visit)
  {
    AttemptIsLegal(p, k - 1);
    VisitsAreLegal(p, c, k);
    var vs := p.earlier(c) + VisitsOf(p, c, k);
    assert vs[..|vs| - 1] == p.earlier(c) + VisitsOf(p, c, k - 1);
  }

  lemma OtherKindsVisit(p: Pass, c: Kind, k: nat)
    requires 0 < k <= |p.attempts| && LegalPass(p) && p.attempts[k - 1].kind != c
    ensures StepWorld(p, c, k) == StepWorld(p, c, k - 1)
  {
    assert VisitsOf(p, c, k) == VisitsOf(p, c, k - 1);
  }

  /** The work a visit adds is what it processed in full. */
  lemma VisitWork(space: T.KeySpace, w: T.World, v: T.Visit, key: string)
    requires T.Legal(space, v) && v.runKey in T.After(space, w, v).work && key in T.After(space, w, v).work[v.runKey]
    ensures key in T.VisitRun(space, w, v).full || (v.runKey in w.work && key in w.work[v.runKey])
  {
  }

  /** Whatever work a step has on record, some attempt of the pass did. */
  lemma {:induction false} WorkWasDone(p: Pass, c: Kind, k: nat, w: T.World, key: string)
    requires k <= |p.attempts| && LegalPass(p) && w == StepWorld(p, c, k) && p.run in w.work && key in w.work[p.run]
    ensures WorkedBy(p, c, k, key)
  {
    if k == 0 {
      assert p.earlier(c) + VisitsOf(p, c, 0) == p.earlier(c);
      ForeignVisitsDoNoWork(p.spaces(c), p.earlier(c), p.run);
    } else if p.attempts[k - 1].kind != c {
      OtherKindsVisit(p, c, k);
      WorkWasDone(p, c, k - 1, w, key);
      MoreAttempts(p, c, k, key);
    } else {
      var before := StepWorld(p, c, k - 1);
      OneMoreVisit(p, c, k);
      AttemptIsLegal(p, k - 1);
      VisitWork(p.spaces(c), before, p.attempts[k - 1].visit, key);
      if key in T.VisitRun(p.spaces(c), before, p.attempts[k - 1].visit).full {
        assert DoneBy(p, c, k - 1, key);
      } else {
        WorkWasDone(p, c, k - 1, before, key);
        MoreAttempts(p, c, k, key);
      }
    }
  }

  lemma MoreAttempts(p: Pass, c: Kind, k: nat, key: string)
    requires 0 < k <= |p.attempts| && LegalPass(p) && WorkedBy(p, c, k - 1, key)
    ensures WorkedBy(p, c, k, key)
  {
    var j: nat :| j < k - 1 && DoneBy(p, c, j, key);
    assert j < k && DoneBy(p, c, j, key);
  }

  lemma DoneByIsLogged(p: Pass, c: Kind, j: nat, key: string)
    requires j < |p.attempts| && LegalPass(p) && DoneBy(p, c, j, key)
    ensures WholeItem(c, key) in ItemsOf(p, j)
  {
    AttemptIsLegal(p, j);
    VisitItemsHold(p.attempts[j], p.spaces(c), StepWorld(p, c, j));
  }

  lemma ItemsAreRight(p: Pass, j: nat)
    requires j < |p.attempts| && LegalPass(p)
    ensures AllRight(ItemsOf(p, j))
  {
    AttemptIsLegal(p, j);
    var a := p.attempts[j];
    VisitItemsHold(a, p.spaces(a.kind), StepWorld(p, a.kind, j));
  }

  lemma PassItemsAreRight(p: Pass)
    requires LegalPass(p)
    ensures AllRight(PassItems(p))
  {
    var items, chunks := PassItems(p), Chunks(p);
    forall i | 0 <= i < |items| ensures RightKind(items[i]) {
      JoinedMembers(chunks, |chunks|, items[i]);
      assert items[i] in items;
      var j :| 0 <= j < |chunks| && items[i] in chunks[j];
      ItemsAreRight(p, j);
    }
  }

  /** The log of the pass holds, as a whole item, every key any step has on record. */
  lemma PassLogsItsWork(p: Pass, c: Kind, key: string)
    requires LegalPass(p)
    requires var w := StepWorld(p, c, |p.attempts|); p.run in w.work && key in w.work[p.run]
    ensures WholeItem(c, key) in PassItems(p)
  {
    WorkWasDone(p, c, |p.attempts|, StepWorld(p, c, |p.attempts|), key);
    var j: nat :| j < |p.attempts| && DoneBy(p, c, j, key);
    DoneByIsLogged(p, c, j, key);
    JoinedMembers(Chunks(p), |p.attempts|, WholeItem(c, key));
  }

  // ---------------------------------------------------------------- done steps

  /** The step's checkpoint says this run finished it. */
  ghost predicate StepDone(p: Pass, c: Kind)
    requires LegalPass(p)
  {
    var w := StepWorld(p, c, |p.attempts|);
    w.stored.Some? && w.stored.value.runKey == p.run && w.stored.value.mark.done
  }

  /** A done mark means that every node of the step's label, with a key to page by, was completed
      by some item of the log. */
  lemma DoneStepCompletesEveryNode(p: Pass, g: Graph, c: Kind, key: string) returns (i: nat)
    requires LegalPass(p) && Ranges(p, g) && StepDone(p, c) && NodeOf(c, key) in g.nodes && key != P.START_CURSOR
    ensures i < |PassItems(p)| && Completes(PassItems(p)[i], NodeOf(c, key))
  {
    var k := |p.attempts|;
    VisitsAreLegal(p, c, k);
    T.DoneMeansEveryKeyProcessed(p.spaces(c), p.earlier(c) + VisitsOf(p, c, k));
    assert NodeOf(c, key).id == key && key in KeySet(g, c);
    assert key in KeysIn(g, c);
    PassLogsItsWork(p, c, key);
    var items := PassItems(p);
    i :| 0 <= i < |items| && items[i] == WholeItem(c, key);
  }
}
