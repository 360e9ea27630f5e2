/** How an attempt goes on from call to call and how it ends, said over its calls and what the
    environment did to each: retryable failures are retried, and a third one in a row at the
    smallest page size is the only one that gives up. */
module PagingProgress {
  import opened Common
  import opened Paging
  import opened PagingCalls

  // ---------------------------------------------------------------- from call to call

  /** The call after one that did not end the attempt: the same place at half the size after a
      retryable failure, the next place at the same size after a page. */
  predicate NextCall(e: Event, c: Call, next: Call, floor: nat) {
    if e.TooLarge? then
      && next.cursor == c.cursor
      && next.size == (if c.size / 2 < floor then floor else c.size / 2)
    else
      && e.Processed? && c.keys != []
      && next.cursor == c.keys[|c.keys| - 1]
      && next.size == c.size
  }

  ghost predicate Linked(env: nat -> Event, n: nat, calls: seq<Call>, floor: nat) {
    forall i :: 0 <= i < |calls| - 1 ==> NextCall(env(n + i), calls[i], calls[i + 1], floor)
  }

  ghost predicate Starts(calls: seq<Call>, cursor: string, size: nat) {
    calls != [] ==> calls[0].cursor == cursor && calls[0].size == size
  }

  // ---------------------------------------------------------------- failures in a row

  predicate FailsAtFloor(env: nat -> Event, n: nat, calls: seq<Call>, floor: nat, i: nat) {
    i < |calls| && env(n + i).TooLarge? && calls[i].size == floor
  }

  /** The retryable failures at the smallest size in a row up to call i, after f earlier ones. */
  function Streak(env: nat -> Event, n: nat, calls: seq<Call>, floor: nat, f: nat, i: nat): nat {
    if !FailsAtFloor(env, n, calls, floor, i) then 0
    else 1 + if i == 0 then f else Streak(env, n, calls, floor, f, i - 1)
  }

  lemma {:induction false} StreakOneMore(env: nat -> Event, n: nat, call: Call, rest: seq<Call>, floor: nat, f: nat, i: nat)
    ensures Streak(env, n, [call] + rest, floor, f, i + 1)
         == Streak(env, n + 1, rest, floor, Streak(env, n, [call] + rest, floor, f, 0), i)
  {
    var calls := [call] + rest;
    assert FailsAtFloor(env, n, calls, floor, i + 1) <==> FailsAtFloor(env, n + 1, rest, floor, i);
    if i > 0 { StreakOneMore(env, n, call, rest, floor, f, i - 1); }
  }

  /** How the call with this many failures in a row ends the attempt, if it does. */
  function Ending(runKey: Option<string>, e: Event, c: Call, streak: nat): Option<Outcome> {
    match e
    case Stopped => Some(StoppedBetweenPages)
    case Failed(_) => Some(PageRaised)
    case TooLarge(_) => if streak >= 3 then Some(GaveUp) else None
    case Processed(fate) =>
      if runKey.Some? && !fate.Landed? then Some(CheckpointRaised) else if c.keys == [] then Some(Done) else None
  }

  /** How call i ends the attempt, if it does. */
  function EndingAt(runKey: Option<string>, env: nat -> Event, n: nat, calls: seq<Call>, floor: nat, f: nat, i: nat): Option<Outcome>
    requires i < |calls|
  {
    Ending(runKey, env(n + i), calls[i], Streak(env, n, calls, floor, f, i))
  }

  /** Every call but the last goes on, and the last ends the attempt unless it is stopped before
      the next. */
  ghost predicate EndsWith(runKey: Option<string>, env: nat -> Event, n: nat, calls: seq<Call>, floor: nat, f: nat, outcome: Outcome) {
    && (forall i :: 0 <= i < |calls| - 1 ==> EndingAt(runKey, env, n, calls, floor, f, i).None?)
    && (calls != [] ==> !env(n + |calls| - 1).Stopped?)
    && (if calls != [] && EndingAt(runKey, env, n, calls, floor, f, |calls| - 1).Some?
        then outcome == EndingAt(runKey, env, n, calls, floor, f, |calls| - 1).value
        else outcome.StoppedBetweenPages? && env(n + |calls|).Stopped?)
  }

  lemma LinkedOneMore(env: nat -> Event, n: nat, call: Call, rest: seq<Call>, floor: nat)
    requires Linked(env, n + 1, rest, floor) && (rest != [] ==> NextCall(env(n), call, rest[0], floor))
    ensures Linked(env, n, [call] + rest, floor)
  {
    var calls := [call] + rest;
    forall i | 0 <= i < |calls| - 1 ensures NextCall(env(n + i), calls[i], calls[i + 1], floor) {
      if i > 0 { assert NextCall(env(n + 1 + (i - 1)), rest[i - 1], rest[i], floor); }
    }
  }

  lemma EndingLater(runKey: Option<string>, env: nat -> Event, n: nat, call: Call, rest: seq<Call>, floor: nat, f: nat, i: nat)
    requires i < |rest|
    ensures EndingAt(runKey, env, n, [call] + rest, floor, f, i + 1)
         == EndingAt(runKey, env, n + 1, rest, floor, Streak(env, n, [call] + rest, floor, f, 0), i)
  {
    StreakOneMore(env, n, call, rest, floor, f, i);
  }

  lemma EndsOneMore(runKey: Option<string>, env: nat -> Event, n: nat, call: Call, rest: seq<Call>, floor: nat, f: nat, f': nat, outcome: Outcome)
    requires EndsWith(runKey, env, n + 1, rest, floor, f', outcome) && !env(n).Stopped?
    requires f' == Streak(env, n, [call] + rest, floor, f, 0) && Ending(runKey, env(n), call, f').None?
    ensures EndsWith(runKey, env, n, [call] + rest, floor, f, outcome)
  {
    var calls := [call] + rest;
    forall i | 0 <= i < |calls| - 1 ensures EndingAt(runKey, env, n, calls, floor, f, i).None? {
      if i > 0 { EndingLater(runKey, env, n, call, rest, floor, f, i - 1); }
    }
    if rest != [] { EndingLater(runKey, env, n, call, rest, floor, f, |rest| - 1); }
  }

  /** One turn of the loop against the reading of its call. */
  lemma TurnGoesOnAsSaid(keys: seq<string>, floor: nat, runKey: Option<string>, stored: Option<Stored>,
                         cursor: string, size: nat, failures: nat, event: Event, call: Call, streak: nat)
    requires Ready(keys, floor, size, failures) && !event.Stopped? && call == CallOf(keys, runKey, cursor, size, event)
    requires failures > 0 ==> size == floor
    requires streak == if event.TooLarge? && size == floor then failures + 1 else 0
    ensures var t := OneTurn(keys, floor, runKey, stored, cursor, size, failures, event);
      && (t.Again? ==> Ending(runKey, event, call, streak).None?)
      && (t.End? ==> Ending(runKey, event, call, streak) == Some(t.run.outcome))
      && (t.Again? ==> t.failures == streak && (streak > 0 ==> t.size == floor))
      && (t.Again? ==> NextCall(event, call, Call(t.cursor, t.size, [], None), floor))
  {
  }

  lemma LastTurnEndsAsSaid(runKey: Option<string>, env: nat -> Event, n: nat, call: Call, floor: nat, f: nat, streak: nat, outcome: Outcome)
    requires !env(n).Stopped? && streak == (if env(n).TooLarge? && call.size == floor then f + 1 else 0)
    requires Ending(runKey, env(n), call, streak) == Some(outcome)
    ensures EndsWith(runKey, env, n, [call], floor, f, outcome) && Linked(env, n, [call], floor)
  {
    assert Streak(env, n, [call], floor, f, 0) == streak;
    assert EndingAt(runKey, env, n, [call], floor, f, 0) == Some(outcome);
  }

  lemma {:induction false} LoopIsLinked(keys: seq<string>, floor: nat, runKey: Option<string>, stored: Option<Stored>,
                                        cursor: string, size: nat, failures: nat, env: nat -> Event, n: nat)
    requires Ready(keys, floor, size, failures) && (failures > 0 ==> size == floor)
    ensures Linked(env, n, Calls(keys, floor, runKey, stored, cursor, size, failures, env, n), floor)
    ensures Starts(Calls(keys, floor, runKey, stored, cursor, size, failures, env, n), cursor, size)
    decreases |keys| - Rank(keys, cursor), size, MAX_FAILURES_AT_MIN_PAGE - failures
  {
    if !env(n).Stopped? {
      var call := CallOf(keys, runKey, cursor, size, env(n));
      var streak := if env(n).TooLarge? && size == floor then failures + 1 else 0;
      TurnGoesOnAsSaid(keys, floor, runKey, stored, cursor, size, failures, env(n), call, streak);
      match OneTurn(keys, floor, runKey, stored, cursor, size, failures, env(n))
      case End(_) => {}
      case Again(stored', cursor', size', failures', _, _) => {
        LoopIsLinked(keys, floor, runKey, stored', cursor', size', failures', env, n + 1);
        LinkedOneMore(env, n, call, Calls(keys, floor, runKey, stored', cursor', size', failures', env, n + 1), floor);
      }
    }
  }

  lemma {:induction false} LoopEndsAsSaid(keys: seq<string>, floor: nat, runKey: Option<string>, stored: Option<Stored>,
                                          cursor: string, size: nat, failures: nat, env: nat -> Event, n: nat)
    requires Ready(keys, floor, size, failures) && (failures > 0 ==> size == floor)
    ensures EndsWith(runKey, env, n, Calls(keys, floor, runKey, stored, cursor, size, failures, env, n), floor, failures,
                     Sweep(keys, floor, runKey, stored, cursor, size, failures, env, n).outcome)
    decreases |keys| - Rank(keys, cursor), size, MAX_FAILURES_AT_MIN_PAGE - failures
  {
    if !env(n).Stopped? {
      var call := CallOf(keys, runKey, cursor, size, env(n));
      var streak := if env(n).TooLarge? && size == floor then failures + 1 else 0;
      TurnGoesOnAsSaid(keys, floor, runKey, stored, cursor, size, failures, env(n), call, streak);
      match OneTurn(keys, floor, runKey, stored, cursor, size, failures, env(n))
      case End(run) => { LastTurnEndsAsSaid(runKey, env, n, call, floor, failures, streak, run.outcome); }
      case Again(stored', cursor', size', failures', _, _) => {
        var rest := Calls(keys, floor, runKey, stored', cursor', size', failures', env, n + 1);
        LoopEndsAsSaid(keys, floor, runKey, stored', cursor', size', failures', env, n + 1);
        assert Streak(env, n, [call] + rest, floor, failures, 0) == streak;
        EndsOneMore(runKey, env, n, call, rest, floor, failures, streak, Sweep(keys, floor, runKey, stored', cursor', size', failures', env, n + 1).outcome);
      }
    }
  }

  // ---------------------------------------------------------------- main results

  /** Call i failed retryably at the smallest page size. */
  predicate RetryableAtFloor(env: nat -> Event, calls: seq<Call>, floor: nat, i: int) {
    0 <= i < |calls| && env(i).TooLarge? && calls[i].size == floor
  }

  /** Calls i, i + 1 and i + 2 all did. */
  predicate ThreeInARow(env: nat -> Event, calls: seq<Call>, floor: nat, i: int) {
    RetryableAtFloor(env, calls, floor, i) && RetryableAtFloor(env, calls, floor, i + 1) && RetryableAtFloor(env, calls, floor, i + 2)
  }

  lemma {:induction false} StreakOfThree(env: nat -> Event, calls: seq<Call>, floor: nat, i: nat)
    ensures Streak(env, 0, calls, floor, 0, i) <= i + 1
    ensures Streak(env, 0, calls, floor, 0, i) >= 3 <==> ThreeInARow(env, calls, floor, i - 2)
  {
    if i > 0 { StreakOfThree(env, calls, floor, i - 1); }
    if i > 1 { StreakOfThree(env, calls, floor, i - 2); }
  }

  /** The calls of an attempt that has something to do, by what happened to each. */
  lemma AttemptGoesOnAsSaid(keys: seq<string>, runKey: Option<string>, stored: Option<Stored>, pageSize: nat, floor: nat, env: nat -> Event)
    requires Ascending(keys) && floor >= 1 && !Resume(stored, runKey).done
    ensures var c := Resume(stored, runKey);
      var calls := AttemptCalls(keys, runKey, stored, pageSize, floor, env);
      && Linked(env, 0, calls, floor) && Starts(calls, c.cursor, StartSize(c, pageSize, floor))
      && EndsWith(runKey, env, 0, calls, floor, 0, Attempt(keys, runKey, stored, pageSize, floor, env).outcome)
  {
    var c := Resume(stored, runKey);
    LoopIsLinked(keys, floor, runKey, stored, c.cursor, StartSize(c, pageSize, floor), 0, env, 0);
    LoopEndsAsSaid(keys, floor, runKey, stored, c.cursor, StartSize(c, pageSize, floor), 0, env, 0);
  }

  /** A retryable failure above the smallest size is retried: unless the attempt is stopped, the
      next call reads from the same cursor at half the size, or at the floor if that is larger. */
  lemma RetryableFailureIsRetried(keys: seq<string>, runKey: Option<string>, stored: Option<Stored>, pageSize: nat, floor: nat,
                                  env: nat -> Event, i: nat)
    requires Ascending(keys) && floor >= 1
    requires i < |AttemptCalls(keys, runKey, stored, pageSize, floor, env)|
    requires env(i).TooLarge? && AttemptCalls(keys, runKey, stored, pageSize, floor, env)[i].size > floor
    ensures var calls := AttemptCalls(keys, runKey, stored, pageSize, floor, env);
      if i + 1 < |calls| then
        calls[i + 1].cursor == calls[i].cursor && calls[i + 1].size == (if calls[i].size / 2 < floor then floor else calls[i].size / 2)
      else env(i + 1).Stopped? && Attempt(keys, runKey, stored, pageSize, floor, env).outcome.StoppedBetweenPages?
  {
    AttemptGoesOnAsSaid(keys, runKey, stored, pageSize, floor, env);
    var calls := AttemptCalls(keys, runKey, stored, pageSize, floor, env);
    if i + 1 < |calls| {
      assert NextCall(env(0 + i), calls[i], calls[i + 1], floor);
    } else {
      assert EndingAt(runKey, env, 0, calls, floor, 0, i).None?;
    }
  }

  /** An attempt gives up exactly when its last three calls all failed retryably at the smallest
      size, and no three calls before that did. */
  lemma GivesUpIffThreeInARow(keys: seq<string>, runKey: Option<string>, stored: Option<Stored>, pageSize: nat, floor: nat, env: nat -> Event)
    requires Ascending(keys) && floor >= 1
    ensures var calls := AttemptCalls(keys, runKey, stored, pageSize, floor, env);
      && (Attempt(keys, runKey, stored, pageSize, floor, env).outcome.GaveUp? <==> ThreeInARow(env, calls, floor, |calls| - 3))
      && (forall i :: ThreeInARow(env, calls, floor, i) ==> i == |calls| - 3)
  {
    var calls := AttemptCalls(keys, runKey, stored, pageSize, floor, env);
    if !Resume(stored, runKey).done {
      AttemptGoesOnAsSaid(keys, runKey, stored, pageSize, floor, env);
      if calls != [] { StreakOfThree(env, calls, floor, |calls| - 1); }
      forall i | ThreeInARow(env, calls, floor, i) ensures i == |calls| - 3 {
        StreakOfThree(env, calls, floor, i + 2);
        var ending := EndingAt(runKey, env, 0, calls, floor, 0, i + 2);
      }
    }
  }

  /** What an attempt may meet and still finish: no stop, no hard error, every write confirmed. */
  ghost predicate Bearable(env: nat -> Event) {
    forall i :: env(i).TooLarge? || env(i) == Processed(Landed)
  }

  /** Such an attempt ends with the step done, unless three retryable failures in a row fall at
      the smallest size. */
  lemma BearableAttemptFinishes(keys: seq<string>, runKey: Option<string>, stored: Option<Stored>, pageSize: nat, floor: nat, env: nat -> Event)
    requires Ascending(keys) && floor >= 1 && Bearable(env)
    requires forall i :: !ThreeInARow(env, AttemptCalls(keys, runKey, stored, pageSize, floor, env), floor, i)
    ensures Attempt(keys, runKey, stored, pageSize, floor, env).outcome.Done?
  {
    var calls := AttemptCalls(keys, runKey, stored, pageSize, floor, env);
    if !Resume(stored, runKey).done {
      AttemptGoesOnAsSaid(keys, runKey, stored, pageSize, floor, env);
      assert env(|calls|).TooLarge? || env(|calls|) == Processed(Landed);
      if calls != [] {
        assert env(|calls| - 1).TooLarge? || env(|calls| - 1) == Processed(Landed);
        StreakOfThree(env, calls, floor, |calls| - 1);
        assert !ThreeInARow(env, calls, floor, |calls| - 3);
      }
    }
  }

  // ---------------------------------------------------------------- where it starts, what it leaves

  /** The first call reads from the honoured cursor, and asks for the page size or the remembered
      one, whichever is smaller, but never less than the floor. */
  lemma FirstCallAsSaid(keys: seq<string>, runKey: Option<string>, stored: Option<Stored>, pageSize: nat, floor: nat, env: nat -> Event)
    requires Ascending(keys) && floor >= 1 && AttemptCalls(keys, runKey, stored, pageSize, floor, env) != []
    ensures var first := AttemptCalls(keys, runKey, stored, pageSize, floor, env)[0];
      var ours := runKey.Some? && stored.Some? && stored.value.runKey == runKey.value;
      var remembered := if ours && stored.value.mark.size.Some? && stored.value.mark.size.value > 0 then stored.value.mark.size.value else pageSize;
      && first.cursor == (if ours then stored.value.mark.cursor else "")
      && first.size >= floor
      && (first.size == floor || first.size == pageSize || first.size == remembered)
      && (first.size > floor ==> first.size <= pageSize && first.size <= remembered)
      && (floor <= pageSize <= remembered ==> first.size == pageSize)
      && (floor <= remembered <= pageSize ==> first.size == remembered)
  {
    AttemptGoesOnAsSaid(keys, runKey, stored, pageSize, floor, env);
  }

  /** Every call that went through read a full page where it stood, and left behind the checkpoint
      after it, unless the write was lost: the last key and the size, or the done mark. */
  ghost predicate HoldsOfCalls(keys: seq<string>, runKey: Option<string>, claim: (Event, Call) -> bool) {
    forall cursor: string, size: nat, e: Event :: claim(e, CallOf(keys, runKey, cursor, size, e))
  }

  /** What holds of every page call holds of each call of an attempt. */
  lemma {:induction false} EachCall(keys: seq<string>, floor: nat, runKey: Option<string>, stored: Option<Stored>,
                                    cursor: string, size: nat, failures: nat, env: nat -> Event, n: nat, i: nat, calls: seq<Call>,
                                    claim: (Event, Call) -> bool)
    requires Ready(keys, floor, size, failures) && calls == Calls(keys, floor, runKey, stored, cursor, size, failures, env, n) && i < |calls|
    requires HoldsOfCalls(keys, runKey, claim)
    ensures claim(env(n + i), calls[i])
    decreases i
  {
    var call := CallOf(keys, runKey, cursor, size, env(n));
    match OneTurn(keys, floor, runKey, stored, cursor, size, failures, env(n))
    case End(_) => { assert calls == [call]; }
    case Again(stored', cursor', size', failures', _, _) => {
      var rest := Calls(keys, floor, runKey, stored', cursor', size', failures', env, n + 1);
      assert calls == [call] + rest;
      if i > 0 {
        EachCall(keys, floor, runKey, stored', cursor', size', failures', env, n + 1, i - 1, rest, claim);
        assert calls[i] == rest[i - 1];
      }
    }
  }

  /** The stored checkpoint after the calls: the last mark any of them left, or the one before. */
  function LastMark(runKey: string, stored: Option<Stored>, calls: seq<Call>, k: nat): Option<Stored>
    requires k <= |calls|
  {
    if k == 0 then stored
    else if calls[k - 1].mark.Some? then Some(Stored(runKey, calls[k - 1].mark.value))
    else LastMark(runKey, stored, calls, k - 1)
  }

  lemma {:induction false} LastMarkOneMore(runKey: string, stored: Option<Stored>, call: Call, rest: seq<Call>, k: nat)
    requires k <= |rest|
    ensures LastMark(runKey, stored, [call] + rest, k + 1)
         == LastMark(runKey, Marked(runKey, stored, call), rest, k)
  {
    if k > 0 { LastMarkOneMore(runKey, stored, call, rest, k - 1); }
  }

  function Marked(runKey: string, stored: Option<Stored>, call: Call): Option<Stored> {
    if call.mark.Some? then Some(Stored(runKey, call.mark.value)) else stored
  }

  lemma TurnMarks(keys: seq<string>, floor: nat, runKey: string, stored: Option<Stored>, cursor: string, size: nat, failures: nat, e: Event)
    requires Ready(keys, floor, size, failures)
    ensures match OneTurn(keys, floor, Some(runKey), stored, cursor, size, failures, e)
      case End(run) => run.stored == if e.Stopped? then stored else Marked(runKey, stored, CallOf(keys, Some(runKey), cursor, size, e))
      case Again(stored', _, _, _, _, _) => !e.Stopped? && stored' == Marked(runKey, stored, CallOf(keys, Some(runKey), cursor, size, e))
  {
  }

  lemma {:induction false} LoopStoresLastMark(keys: seq<string>, floor: nat, runKey: string, stored: Option<Stored>,
                                              cursor: string, size: nat, failures: nat, env: nat -> Event, n: nat)
    requires Ready(keys, floor, size, failures)
    ensures var calls := Calls(keys, floor, Some(runKey), stored, cursor, size, failures, env, n);
      Sweep(keys, floor, Some(runKey), stored, cursor, size, failures, env, n).stored == LastMark(runKey, stored, calls, |calls|)
    decreases |keys| - Rank(keys, cursor), size, MAX_FAILURES_AT_MIN_PAGE - failures
  {
    var call := CallOf(keys, Some(runKey), cursor, size, env(n));
    TurnMarks(keys, floor, runKey, stored, cursor, size, failures, env(n));
    match OneTurn(keys, floor, Some(runKey), stored, cursor, size, failures, env(n))
    case End(_) => { if !env(n).Stopped? { LastMarkOf(runKey, stored, call); } }
    case Again(stored', cursor', size', failures', _, _) => {
      var rest := Calls(keys, floor, Some(runKey), stored', cursor', size', failures', env, n + 1);
      LoopStoresLastMark(keys, floor, runKey, stored', cursor', size', failures', env, n + 1);
      LastMarkOneMore(runKey, stored, call, rest, |rest|);
    }
  }

  lemma LastMarkOf(runKey: string, stored: Option<Stored>, call: Call)
    ensures LastMark(runKey, stored, [call], 1) == Marked(runKey, stored, call)
  {
    assert LastMark(runKey, stored, [call], 0) == stored;
  }

  /** What an attempt leaves stored, call by call: each call that went through marked its last key
      and its size under the run key, an empty page the done mark, and a failure nothing. */
  lemma AttemptStoresLastMark(keys: seq<string>, runKey: string, stored: Option<Stored>, pageSize: nat, floor: nat, env: nat -> Event)
    requires Ascending(keys) && floor >= 1
    ensures var calls := AttemptCalls(keys, Some(runKey), stored, pageSize, floor, env);
      Attempt(keys, Some(runKey), stored, pageSize, floor, env).stored == LastMark(runKey, stored, calls, |calls|)
    ensures forall i :: 0 <= i < |AttemptCalls(keys, Some(runKey), stored, pageSize, floor, env)| ==>
      MarksItsPage(keys, env(i), AttemptCalls(keys, Some(runKey), stored, pageSize, floor, env)[i])
  {
    var c := Resume(stored, Some(runKey));
    if !c.done {
      LoopStoresLastMark(keys, floor, runKey, stored, c.cursor, StartSize(c, pageSize, floor), 0, env, 0);
      forall i: nat | i < |AttemptCalls(keys, Some(runKey), stored, pageSize, floor, env)|
        ensures MarksItsPage(keys, env(i), AttemptCalls(keys, Some(runKey), stored, pageSize, floor, env)[i])
      {
        LoopCallMarks(keys, floor, runKey, stored, c.cursor, StartSize(c, pageSize, floor), env, i);
      }
    }
  }

  lemma LoopCallMarks(keys: seq<string>, floor: nat, runKey: string, stored: Option<Stored>, cursor: string, size: nat, env: nat -> Event, i: nat)
    requires Ready(keys, floor, size, 0) && i < |Calls(keys, floor, Some(runKey), stored, cursor, size, 0, env, 0)|
    ensures MarksItsPage(keys, env(i), Calls(keys, floor, Some(runKey), stored, cursor, size, 0, env, 0)[i])
  {
    var claim := (e: Event, call: Call) => MarksItsPage(keys, e, call);
    CallsMarkTheirPages(keys, runKey, claim);
    var calls := Calls(keys, floor, Some(runKey), stored, cursor, size, 0, env, 0);
    EachCall(keys, floor, Some(runKey), stored, cursor, size, 0, env, 0, i, calls, claim);
    assert claim(env(i), calls[i]);
  }

  lemma CallsMarkTheirPages(keys: seq<string>, runKey: string, claim: (Event, Call) -> bool)
    requires forall e, call :: claim(e, call) == MarksItsPage(keys, e, call)
    ensures HoldsOfCalls(keys, Some(runKey), claim)
  {
  }

  predicate MarksItsPage(keys: seq<string>, e: Event, c: Call) {
    match e
    case Processed(fate) =>
      && c.keys == Page(keys, c.cursor, c.size)
      && (fate.Lost? <==> c.mark.None?)
      && (c.mark.Some? && c.keys == [] ==> c.mark.value == Checkpoint(c.cursor, Some(c.size), true))
      && (c.mark.Some? && c.keys != [] ==> c.mark.value == Checkpoint(c.keys[|c.keys| - 1], Some(c.size), false))
    case _ => c.mark.None? && c.keys <= Page(keys, c.cursor, c.size)
  }
}
