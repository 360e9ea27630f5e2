/** What the resumable sweep guarantees: within one attempt, and over every history of
    attempts, whatever the failures, crashes and run keys. */
module PagingTheorems {
  import opened Common
  import opened Paging
  import opened PagingCalls

  // ---------------------------------------------------------------- one attempt

  /** The position a later attempt under this run key would resume from. */
  function Position(keys: seq<string>, runKey: string, stored: Option<Stored>): nat {
    Rank(keys, Resume(stored, Some(runKey)).cursor)
  }

  /** The key sits at position p or later. */
  ghost predicate AtOrAfter(keys: seq<string>, p: nat, k: string) {
    exists i :: p <= i < |keys| && keys[i] == k
  }

  /** A run from position p processed in full exactly the keys [p, q), in order, each once. */
  ghost predicate Contiguous(keys: seq<string>, p: nat, size: nat, r: Run) {
    var q := p + |r.full|;
    && q <= |keys|
    && r.full == keys[p..q]
    && r.last <= size && r.last <= |r.full|
    && (forall k :: k in r.partial ==> AtOrAfter(keys, p, k))
    && (r.outcome.Done? ==> q == |keys|)
  }

  /** The checkpoint a run leaves is at its end, or one full page short of it. */
  ghost predicate Committed(keys: seq<string>, p: nat, runKey: string, before: Option<Stored>, size: nat, floor: nat, r: Run) {
    var q := p + |r.full|;
    && r.last <= |r.full|
    && (Position(keys, runKey, r.stored) == q || Position(keys, runKey, r.stored) == q - r.last)
    && (r.outcome.Done? ==> Resume(r.stored, Some(runKey)).done)
    && (Resume(r.stored, Some(runKey)).done ==> Position(keys, runKey, r.stored) == q == |keys|)
    && (r.stored == before || (r.stored.Some? && r.stored.value.runKey == runKey
        && r.stored.value.mark.size.Some? && floor <= r.stored.value.mark.size.value <= size))
  }

  /** What one turn that goes on has done: advanced over one full page, or shrunk in place. */
  ghost predicate TurnFacts(keys: seq<string>, p: nat, size: nat, t: Turn)
    requires t.Again? && p <= |keys|
  {
    && t.size <= size
    && |t.page| <= size && p + |t.page| <= |keys|
    && t.page == keys[p..p + |t.page|]
    && Rank(keys, t.cursor) == p + |t.page|
    && (forall k :: k in t.touched ==> AtOrAfter(keys, p, k))
  }

  lemma TurnAdvances(keys: seq<string>, floor: nat, runKey: Option<string>, stored: Option<Stored>,
                     cursor: string, size: nat, failures: nat, event: Event)
    requires Ready(keys, floor, size, failures)
    requires OneTurn(keys, floor, runKey, stored, cursor, size, failures, event).Again?
    ensures TurnFacts(keys, Rank(keys, cursor), size, OneTurn(keys, floor, runKey, stored, cursor, size, failures, event))
  {
    var page := Page(keys, cursor, size);
    if event.Processed? { RankOfKey(keys, Rank(keys, cursor) + |page| - 1); }
  }

  lemma LastTurnIsContiguous(keys: seq<string>, floor: nat, runKey: Option<string>, stored: Option<Stored>,
                             cursor: string, size: nat, failures: nat, event: Event)
    requires Ready(keys, floor, size, failures)
    requires OneTurn(keys, floor, runKey, stored, cursor, size, failures, event).End?
    ensures Contiguous(keys, Rank(keys, cursor), size, OneTurn(keys, floor, runKey, stored, cursor, size, failures, event).run)
  {
    var p, page := Rank(keys, cursor), Page(keys, cursor, size);
    assert page == keys[p..p + |page|] && forall k :: k in page ==> AtOrAfter(keys, p, k);
    match event
    case Processed(fate) => { assert page == [] ==> p == |keys|; }
    case _ => { assert keys[p..p] == []; }
  }

  lemma ContiguousWithOneMoreTurn(keys: seq<string>, p: nat, size: nat, t: Turn, rest: Run)
    requires t.Again? && p <= |keys| && TurnFacts(keys, p, size, t)
    requires Contiguous(keys, Rank(keys, t.cursor), t.size, rest)
    ensures Contiguous(keys, p, size, Before(t.page, t.touched, rest))
  {
    var p', q := p + |t.page|, p + |t.page| + |rest.full|;
    assert keys[p..p'] + keys[p'..q] == keys[p..q];
    assert forall k :: AtOrAfter(keys, p', k) ==> AtOrAfter(keys, p, k);
  }

  lemma {:induction false} SweepIsContiguous(keys: seq<string>, floor: nat, runKey: Option<string>, stored: Option<Stored>,
                                             cursor: string, size: nat, failures: nat, env: nat -> Event, n: nat)
    requires Ready(keys, floor, size, failures)
    ensures Contiguous(keys, Rank(keys, cursor), size, Sweep(keys, floor, runKey, stored, cursor, size, failures, env, n))
    decreases |keys| - Rank(keys, cursor), size, MAX_FAILURES_AT_MIN_PAGE - failures
  {
    var t := OneTurn(keys, floor, runKey, stored, cursor, size, failures, env(n));
    if t.End? {
      LastTurnIsContiguous(keys, floor, runKey, stored, cursor, size, failures, env(n));
    } else {
      TurnAdvances(keys, floor, runKey, stored, cursor, size, failures, env(n));
      SweepIsContiguous(keys, floor, runKey, t.stored, t.cursor, t.size, t.failures, env, n + 1);
      ContiguousWithOneMoreTurn(keys, Rank(keys, cursor), size, t,
                                Sweep(keys, floor, runKey, t.stored, t.cursor, t.size, t.failures, env, n + 1));
    }
  }

  lemma LastTurnCommits(keys: seq<string>, floor: nat, runKey: string, stored: Option<Stored>,
                        cursor: string, size: nat, failures: nat, event: Event)
    requires Ready(keys, floor, size, failures)
    requires Position(keys, runKey, stored) == Rank(keys, cursor) && !Resume(stored, Some(runKey)).done
    requires OneTurn(keys, floor, Some(runKey), stored, cursor, size, failures, event).End?
    ensures Committed(keys, Rank(keys, cursor), runKey, stored, size, floor,
                      OneTurn(keys, floor, Some(runKey), stored, cursor, size, failures, event).run)
  {
    var p, page := Rank(keys, cursor), Page(keys, cursor, size);
    if event.Processed? {
      if page != [] {
        assert page[|page| - 1] == keys[p + |page| - 1];
        RankOfKey(keys, p + |page| - 1);
      }
    }
  }

  lemma CommittedWithOneMoreTurn(keys: seq<string>, p: nat, runKey: string, before: Option<Stored>, size: nat, floor: nat, t: Turn, rest: Run)
    requires t.Again? && p <= |keys| && TurnFacts(keys, p, size, t) && floor <= t.size
    requires t.stored == before || t.stored == Some(Stored(runKey, Checkpoint(t.cursor, Some(t.size), false)))
    requires Committed(keys, Rank(keys, t.cursor), runKey, t.stored, t.size, floor, rest)
    ensures Committed(keys, p, runKey, before, size, floor, Before(t.page, t.touched, rest))
  {
  }

  lemma {:induction false} SweepCommits(keys: seq<string>, floor: nat, runKey: string, stored: Option<Stored>,
                                        cursor: string, size: nat, failures: nat, env: nat -> Event, n: nat)
    requires Ready(keys, floor, size, failures)
    requires Position(keys, runKey, stored) == Rank(keys, cursor) && !Resume(stored, Some(runKey)).done
    ensures Committed(keys, Rank(keys, cursor), runKey, stored, size, floor,
                      Sweep(keys, floor, Some(runKey), stored, cursor, size, failures, env, n))
    decreases |keys| - Rank(keys, cursor), size, MAX_FAILURES_AT_MIN_PAGE - failures
  {
    var t := OneTurn(keys, floor, Some(runKey), stored, cursor, size, failures, env(n));
    if t.End? {
      LastTurnCommits(keys, floor, runKey, stored, cursor, size, failures, env(n));
    } else {
      TurnAdvances(keys, floor, Some(runKey), stored, cursor, size, failures, env(n));
      SweepCommits(keys, floor, runKey, t.stored, t.cursor, t.size, t.failures, env, n + 1);
      CommittedWithOneMoreTurn(keys, Rank(keys, cursor), runKey, stored, size, floor, t,
                               Sweep(keys, floor, Some(runKey), t.stored, t.cursor, t.size, t.failures, env, n + 1));
    }
  }

  /** One attempt under a run key: it continues strictly after the honoured cursor, processes
      consecutive keys once each, and leaves the checkpoint at most one page behind. From call to
      call the page size stays or is halved, never growing and never below the floor. */
  lemma AttemptResumesExactly(keys: seq<string>, runKey: string, stored: Option<Stored>, pageSize: nat, floor: nat, env: nat -> Event)
    requires Ascending(keys) && floor >= 1
    requires Resume(stored, Some(runKey)).done ==> Position(keys, runKey, stored) == |keys|
    ensures var r := Attempt(keys, Some(runKey), stored, pageSize, floor, env);
      && Contiguous(keys, Position(keys, runKey, stored), Max(floor, pageSize), r)
      && Committed(keys, Position(keys, runKey, stored), runKey, stored, Max(floor, pageSize), floor, r)
    ensures var calls := AttemptCalls(keys, Some(runKey), stored, pageSize, floor, env);
      && |calls| == Attempt(keys, Some(runKey), stored, pageSize, floor, env).calls
      && SizesFall(calls, floor, StartSize(Resume(stored, Some(runKey)), pageSize, floor))
  {
    var c := Resume(stored, Some(runKey));
    if !c.done {
      var size := StartSize(c, pageSize, floor);
      CallSizesFall(keys, floor, Some(runKey), stored, c.cursor, size, 0, env, 0);
      CallsAreCounted(keys, floor, Some(runKey), stored, c.cursor, size, 0, env, 0);
      SweepIsContiguous(keys, floor, Some(runKey), stored, c.cursor, size, 0, env, 0);
      SweepCommits(keys, floor, runKey, stored, c.cursor, size, 0, env, 0);
    }
  }

  /** No key at or below a committed cursor is touched again, not even by a failing page: each
      call reaches only keys above the cursor the run had stored and above every cursor an earlier
      call of the attempt committed, and after a done mark there is no call at all. */
  lemma NoKeyBelowTheCursorIsRedone(keys: seq<string>, runKey: string, stored: Option<Stored>, pageSize: nat, floor: nat,
                                    env: nat -> Event)
    requires Ascending(keys) && floor >= 1
    ensures KeysAbove(AttemptCalls(keys, Some(runKey), stored, pageSize, floor, env), Resume(stored, Some(runKey)).cursor)
    ensures Resume(stored, Some(runKey)).done ==> AttemptCalls(keys, Some(runKey), stored, pageSize, floor, env) == []
    ensures SameKeys(AttemptCalls(keys, Some(runKey), stored, pageSize, floor, env), Attempt(keys, Some(runKey), stored, pageSize, floor, env))
  {
    var c := Resume(stored, Some(runKey));
    if !c.done {
      var size := StartSize(c, pageSize, floor);
      CallsReachOnlyLaterKeys(keys, floor, Some(runKey), stored, c.cursor, size, 0, env, 0);
      forall k {
        CallsAreTheRun(keys, floor, Some(runKey), stored, c.cursor, size, 0, env, 0, k);
      }
    }
  }

  /** A checkpoint of another run key is never honoured: the attempt behaves as with none. */
  lemma ForeignCheckpointIsIgnored(keys: seq<string>, runKey: string, stored: Stored, pageSize: nat, floor: nat, env: nat -> Event)
    requires Ascending(keys) && floor >= 1 && stored.runKey != runKey
    ensures var r := Attempt(keys, Some(runKey), Some(stored), pageSize, floor, env);
      var f := Attempt(keys, Some(runKey), None, pageSize, floor, env);
      && r.outcome == f.outcome && r.full == f.full && r.partial == f.partial && r.calls == f.calls
      && r.stored == if f.stored.None? then Some(stored) else f.stored
  {
    ForeignMarkInLoop(keys, floor, runKey, Some(stored), START_CURSOR, StartSize(FRESH, pageSize, floor), 0, env, 0);
  }

  /** One turn reads nothing from the stored mark: it passes it on or overwrites it. */
  lemma TurnIgnoresMark(keys: seq<string>, floor: nat, runKey: string, stored: Option<Stored>,
                        cursor: string, size: nat, failures: nat, event: Event, t: Turn, f: Turn)
    requires Ready(keys, floor, size, failures)
    requires t == OneTurn(keys, floor, Some(runKey), stored, cursor, size, failures, event)
    requires f == OneTurn(keys, floor, Some(runKey), None, cursor, size, failures, event)
    ensures t.End? <==> f.End?
    ensures t.End? ==> t.run == f.run.(stored := if f.run.stored.None? then stored else f.run.stored)
    ensures t.Again? ==> t == f.(stored := if f.stored.None? then stored else f.stored)
  {
  }

  lemma {:induction false} ForeignMarkInLoop(keys: seq<string>, floor: nat, runKey: string, stored: Option<Stored>,
                                             cursor: string, size: nat, failures: nat, env: nat -> Event, n: nat)
    requires Ready(keys, floor, size, failures)
    ensures var r := Sweep(keys, floor, Some(runKey), stored, cursor, size, failures, env, n);
      var f := Sweep(keys, floor, Some(runKey), None, cursor, size, failures, env, n);
      && r.outcome == f.outcome && r.full == f.full && r.partial == f.partial && r.calls == f.calls
      && r.stored == if f.stored.None? then stored else f.stored
    decreases |keys| - Rank(keys, cursor), size, MAX_FAILURES_AT_MIN_PAGE - failures
  {
    var t := OneTurn(keys, floor, Some(runKey), stored, cursor, size, failures, env(n));
    var f := OneTurn(keys, floor, Some(runKey), None, cursor, size, failures, env(n));
    TurnIgnoresMark(keys, floor, runKey, stored, cursor, size, failures, env(n), t, f);
    if f.Again? && f.stored.None? {
      ForeignMarkInLoop(keys, floor, runKey, stored, f.cursor, f.size, f.failures, env, n + 1);
    } else if f.Again? {
      AMarkStays(keys, floor, runKey, f.stored, f.cursor, f.size, f.failures, env, n + 1);
    }
  }

  lemma {:induction false} AMarkStays(keys: seq<string>, floor: nat, runKey: string, stored: Option<Stored>,
                                      cursor: string, size: nat, failures: nat, env: nat -> Event, n: nat)
    requires Ready(keys, floor, size, failures) && stored.Some?
    ensures Sweep(keys, floor, Some(runKey), stored, cursor, size, failures, env, n).stored.Some?
    decreases |keys| - Rank(keys, cursor), size, MAX_FAILURES_AT_MIN_PAGE - failures
  {
    match OneTurn(keys, floor, Some(runKey), stored, cursor, size, failures, env(n))
    case End(_) =>
    case Again(stored', cursor', size', failures', _, _) =>
      AMarkStays(keys, floor, runKey, stored', cursor', size', failures', env, n + 1);
  }

  // ---------------------------------------------------------------- cost and progress

  function Log2(n: nat): nat
    requires n >= 1
  {
    if n == 1 then 0 else 1 + Log2(n / 2)
  }

  /** How often a page size can be halved before it rests on the floor. */
  function Halvings(size: nat, floor: nat): nat
    requires 1 <= floor <= size
    decreases size
  {
    if size == floor then 0 else 1 + Halvings(Max(floor, size / 2), floor)
  }

  lemma {:induction false} HalvingsAtMostLog2(size: nat, floor: nat)
    requires 1 <= floor <= size
    ensures Halvings(size, floor) <= Log2(size)
    decreases size
  {
    if size != floor {
      HalvingsAtMostLog2(Max(floor, size / 2), floor);
      if size / 2 < floor { assert Halvings(floor, floor) == 0; }
    }
  }

  /** Page calls still possible: three per remaining key and for the closing page, less the
      failures already spent at the floor, plus one per halving left. */
  function Budget(remaining: nat, size: nat, floor: nat, failures: nat): int
    requires 1 <= floor <= size
  {
    3 * (remaining + 1) - failures + Halvings(size, floor)
  }

  lemma {:induction false} SweepWithinBudget(keys: seq<string>, floor: nat, runKey: Option<string>, stored: Option<Stored>,
                                             cursor: string, size: nat, failures: nat, env: nat -> Event, n: nat)
    requires Ready(keys, floor, size, failures)
    ensures Sweep(keys, floor, runKey, stored, cursor, size, failures, env, n).calls
         <= Budget(|keys| - Rank(keys, cursor), size, floor, failures)
    decreases |keys| - Rank(keys, cursor), size, MAX_FAILURES_AT_MIN_PAGE - failures
  {
    TurnSpendsBudget(keys, floor, runKey, stored, cursor, size, failures, env(n));
    var t := OneTurn(keys, floor, runKey, stored, cursor, size, failures, env(n));
    if t.Again? {
      SweepWithinBudget(keys, floor, runKey, t.stored, t.cursor, t.size, t.failures, env, n + 1);
    }
  }

  /** Every page call costs at least one unit of the budget. */
  lemma TurnSpendsBudget(keys: seq<string>, floor: nat, runKey: Option<string>, stored: Option<Stored>,
                         cursor: string, size: nat, failures: nat, event: Event)
    requires Ready(keys, floor, size, failures)
    ensures var t := OneTurn(keys, floor, runKey, stored, cursor, size, failures, event);
      var b := Budget(|keys| - Rank(keys, cursor), size, floor, failures);
      && b >= 1
      && (t.End? ==> t.run.calls <= 1)
      && (t.Again? ==> Budget(|keys| - Rank(keys, t.cursor), t.size, floor, t.failures) < b)
  {
    var t := OneTurn(keys, floor, runKey, stored, cursor, size, failures, event);
    if t.Again? {
      TurnAdvances(keys, floor, runKey, stored, cursor, size, failures, event);
      if t.page == [] { assert event.TooLarge?; }
    }
  }

  lemma BudgetAtStart(keys: seq<string>, floor: nat, runKey: Option<string>, stored: Option<Stored>, cursor: string, size: nat, env: nat -> Event)
    requires Ready(keys, floor, size, 0)
    ensures Sweep(keys, floor, runKey, stored, cursor, size, 0, env, 0).calls <= 3 * (|keys| - Rank(keys, cursor) + 1) + Log2(size)
  {
    HalvingsAtMostLog2(size, floor);
    SweepWithinBudget(keys, floor, runKey, stored, cursor, size, 0, env, 0);
  }

  /** From page size s with K keys left an attempt makes at most 3(K+1) + floor(log2 s) page
      calls, whatever the environment does. */
  lemma AttemptCallBound(keys: seq<string>, runKey: Option<string>, stored: Option<Stored>, pageSize: nat, floor: nat, env: nat -> Event)
    requires Ascending(keys) && floor >= 1
    ensures var c := Resume(stored, runKey);
      var remaining := |keys| - Rank(keys, c.cursor);
      Attempt(keys, runKey, stored, pageSize, floor, env).calls <= 3 * (remaining + 1) + Log2(StartSize(c, pageSize, floor))
  {
    var c := Resume(stored, runKey);
    if !c.done {
      BudgetAtStart(keys, floor, runKey, stored, c.cursor, StartSize(c, pageSize, floor), env);
    }
  }

  /** An environment in which every page and every checkpoint write succeeds. */
  ghost predicate Undisturbed(env: nat -> Event) {
    forall n :: env(n) == Processed(Landed)
  }

  lemma {:induction false} UndisturbedSweepCompletes(keys: seq<string>, floor: nat, runKey: Option<string>, stored: Option<Stored>,
                                                     cursor: string, size: nat, failures: nat, env: nat -> Event, n: nat)
    requires Ready(keys, floor, size, failures) && Undisturbed(env)
    ensures Sweep(keys, floor, runKey, stored, cursor, size, failures, env, n).outcome.Done?
    decreases |keys| - Rank(keys, cursor), size, MAX_FAILURES_AT_MIN_PAGE - failures
  {
    var t := OneTurn(keys, floor, runKey, stored, cursor, size, failures, env(n));
    assert env(n) == Processed(Landed);
    if t.Again? {
      UndisturbedSweepCompletes(keys, floor, runKey, t.stored, t.cursor, t.size, t.failures, env, n + 1);
    }
  }

  // ---------------------------------------------------------------- histories

  /** One attempt of a history: its run key, page size, floor and what the environment did. */
  datatype Visit = Visit(runKey: string, pageSize: nat, floor: nat, env: nat -> Event)

  /** The stored checkpoint of a step, and for each run key the keys processed in full since
      that run last started from the beginning. */
  datatype World = World(stored: Option<Stored>, work: map<string, seq<string>>)

  const NOTHING := World(None, map[])

  /** The key space each run key sweeps, fixed while the attempts of that run proceed. */
  type KeySpace = string -> seq<string>

  ghost predicate Legal(keysOf: KeySpace, v: Visit) {
    Ascending(keysOf(v.runKey)) && v.floor >= 1
  }

  ghost function VisitRun(keysOf: KeySpace, w: World, v: Visit): Run
    requires Legal(keysOf, v)
  {
    Attempt(keysOf(v.runKey), Some(v.runKey), w.stored, v.pageSize, v.floor, v.env)
  }

  ghost function After(keysOf: KeySpace, w: World, v: Visit): World
    requires Legal(keysOf, v)
  {
    var r := VisitRun(keysOf, w, v);
    var resumed := w.stored.Some? && w.stored.value.runKey == v.runKey;
    var kept := if resumed && v.runKey in w.work then w.work[v.runKey] else [];
    World(r.stored, w.work[v.runKey := kept + r.full])
  }

  ghost function History(keysOf: KeySpace, vs: seq<Visit>): World
    requires forall v :: v in vs ==> Legal(keysOf, v)
  {
    if vs == [] then NOTHING else After(keysOf, History(keysOf, vs[..|vs| - 1]), vs[|vs| - 1])
  }

  /** Every key the stored cursor has passed was processed under the stored run key. */
  ghost predicate Covered(keysOf: KeySpace, w: World) {
    w.stored.Some? ==>
      var run := w.stored.value.runKey;
      var keys := keysOf(run);
      var p := Rank(keys, w.stored.value.mark.cursor);
      && run in w.work
      && (forall i :: 0 <= i < p ==> keys[i] in w.work[run])
      && (w.stored.value.mark.done ==> p == |keys|)
  }

  lemma VisitKeepsCovered(keysOf: KeySpace, w: World, v: Visit)
    requires Legal(keysOf, v) && Covered(keysOf, w)
    ensures Covered(keysOf, After(keysOf, w, v))
  {
    var keys := keysOf(v.runKey);
    AttemptResumesExactly(keys, v.runKey, w.stored, v.pageSize, v.floor, v.env);
    RankOfStart(keys);
    var r := VisitRun(keysOf, w, v);
    var p := Position(keys, v.runKey, w.stored);
    var kept := if w.stored.Some? && w.stored.value.runKey == v.runKey && v.runKey in w.work then w.work[v.runKey] else [];
    WorkGrows(keys, p, r.full, kept);
  }

  /** Work that covers a prefix, and then the keys right after it, covers the longer prefix. */
  lemma WorkGrows(keys: seq<string>, p: nat, full: seq<string>, kept: seq<string>)
    requires p + |full| <= |keys| && full == keys[p..p + |full|] && forall i :: 0 <= i < p ==> keys[i] in kept
    ensures forall i :: 0 <= i < p + |full| ==> keys[i] in kept + full
  {
    forall i | p <= i < p + |full| ensures keys[i] in kept + full { assert keys[i] == full[i - p]; }
  }

  /** Over every history: when the step is marked done, every key of its run was processed. */
  lemma {:induction false} DoneMeansEveryKeyProcessed(keysOf: KeySpace, vs: seq<Visit>)
    requires forall v :: v in vs ==> Legal(keysOf, v)
    ensures Covered(keysOf, History(keysOf, vs))
    ensures var w := History(keysOf, vs);
      w.stored.Some? && w.stored.value.mark.done ==>
        w.stored.value.runKey in w.work &&
        forall k :: k in keysOf(w.stored.value.runKey) ==> k in w.work[w.stored.value.runKey]
  {
    if vs != [] {
      DoneMeansEveryKeyProcessed(keysOf, vs[..|vs| - 1]);
      VisitKeepsCovered(keysOf, History(keysOf, vs[..|vs| - 1]), vs[|vs| - 1]);
    }
  }

  /** A finished run is skipped without a page call, and an undisturbed attempt finishes it. */
  lemma LaterAttemptsFinish(keysOf: KeySpace, vs: seq<Visit>, v: Visit)
    requires (forall u :: u in vs ==> Legal(keysOf, u)) && Legal(keysOf, v)
    requires Undisturbed(v.env)
    ensures var w := History(keysOf, vs);
      var w' := After(keysOf, w, v);
      && VisitRun(keysOf, w, v).outcome.Done?
      && w'.stored.Some? && w'.stored.value.runKey == v.runKey && w'.stored.value.mark.done
      && (Resume(w.stored, Some(v.runKey)).done ==> VisitRun(keysOf, w, v).calls == 0 && w'.stored == w.stored)
  {
    var w := History(keysOf, vs);
    DoneMeansEveryKeyProcessed(keysOf, vs);
    var keys := keysOf(v.runKey);
    var c := Resume(w.stored, Some(v.runKey));
    AttemptResumesExactly(keys, v.runKey, w.stored, v.pageSize, v.floor, v.env);
    if !c.done {
      UndisturbedSweepCompletes(keys, v.floor, Some(v.runKey), w.stored, c.cursor, StartSize(c, v.pageSize, v.floor), 0, v.env, 0);
    }
  }

  /** The page sizes of the attempts that did not finish: one page each is all they can waste. */
  ghost function Waste(keysOf: KeySpace, vs: seq<Visit>): nat
    requires forall v :: v in vs ==> Legal(keysOf, v)
  {
    if vs == [] then 0 else
      var v := vs[|vs| - 1];
      var r := VisitRun(keysOf, History(keysOf, vs[..|vs| - 1]), v);
      Waste(keysOf, vs[..|vs| - 1]) + if r.outcome.Done? then 0 else Max(v.floor, v.pageSize)
  }

  /** Keys processed in full over a whole history, repeats included. */
  ghost function Effort(keysOf: KeySpace, vs: seq<Visit>): nat
    requires forall v :: v in vs ==> Legal(keysOf, v)
  {
    if vs == [] then 0 else
      Effort(keysOf, vs[..|vs| - 1]) + |VisitRun(keysOf, History(keysOf, vs[..|vs| - 1]), vs[|vs| - 1]).full|
  }

  /** Under one run key, each interruption costs at most one page of repeated work. */
  lemma {:induction false} InterruptionsRedoAtMostOnePage(keysOf: KeySpace, vs: seq<Visit>, run: string)
    requires forall v :: v in vs ==> Legal(keysOf, v) && v.runKey == run
    requires Ascending(keysOf(run))
    ensures var w := History(keysOf, vs);
      && Effort(keysOf, vs) <= Position(keysOf(run), run, w.stored) + Waste(keysOf, vs)
      && Effort(keysOf, vs) <= |keysOf(run)| + Waste(keysOf, vs)
  {
    RankOfStart(keysOf(run));
    if vs != [] {
      var v := vs[|vs| - 1];
      var w := History(keysOf, vs[..|vs| - 1]);
      InterruptionsRedoAtMostOnePage(keysOf, vs[..|vs| - 1], run);
      DoneMeansEveryKeyProcessed(keysOf, vs[..|vs| - 1]);
      AttemptResumesExactly(keysOf(run), run, w.stored, v.pageSize, v.floor, v.env);
    }
  }
}
