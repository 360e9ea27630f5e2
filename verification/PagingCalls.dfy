/** The page calls of one attempt, one after the other: the size each asked for, the keys it
    reached, and the cursor committed after it. */
module PagingCalls {
  import opened Common
  import opened Paging

  /** One page call: where it reads from, how many keys it asks for, the keys it processes, or had
      applied when it failed, and the checkpoint its write left behind. */
  datatype Call = Call(cursor: string, size: nat, keys: seq<string>, mark: Option<Checkpoint>)

  function CallOf(keys: seq<string>, runKey: Option<string>, cursor: string, size: nat, event: Event): Call {
    var page := Page(keys, cursor, size);
    match event
    case Processed(fate) =>
      Call(cursor, size, page,
           if runKey.Some? && fate.Lost? then None
           else if page == [] then Some(Checkpoint(cursor, Some(size), true))
           else Some(Checkpoint(page[|page| - 1], Some(size), false)))
    case TooLarge(applied) => Call(cursor, size, page[..Min(applied, |page|)], None)
    case Failed(applied) => Call(cursor, size, page[..Min(applied, |page|)], None)
    case Stopped => Call(cursor, size, [], None)
  }

  /** The calls of the loop, in order. */
  function Calls(keys: seq<string>, floor: nat, runKey: Option<string>, stored: Option<Stored>,
                 cursor: string, size: nat, failures: nat, env: nat -> Event, n: nat): seq<Call>
    requires Ready(keys, floor, size, failures)
    decreases |keys| - Rank(keys, cursor), size, MAX_FAILURES_AT_MIN_PAGE - failures
  {
    if env(n).Stopped? then []
    else
      var call := CallOf(keys, runKey, cursor, size, env(n));
      match OneTurn(keys, floor, runKey, stored, cursor, size, failures, env(n))
      case End(_) => [call]
      case Again(stored', cursor', size', failures', _, _) =>
        [call] + Calls(keys, floor, runKey, stored', cursor', size', failures', env, n + 1)
  }

  function AttemptCalls(keys: seq<string>, runKey: Option<string>, stored: Option<Stored>, pageSize: nat, floor: nat, env: nat -> Event): seq<Call>
    requires Ascending(keys) && floor >= 1
  {
    var c := Resume(stored, runKey);
    if c.done then [] else Calls(keys, floor, runKey, stored, c.cursor, StartSize(c, pageSize, floor), 0, env, 0)
  }

  // ---------------------------------------------------------------- sizes

  /** The size stays or is halved, never below the floor. */
  predicate NextSize(floor: nat, size: nat, next: nat) {
    next == size || next == Max(floor, size / 2)
  }

  ghost predicate SizesFall(calls: seq<Call>, floor: nat, size: nat) {
    && (forall i :: 0 <= i < |calls| ==> floor <= calls[i].size <= size)
    && (forall i, j :: 0 <= i < j < |calls| ==> calls[j].size <= calls[i].size)
    && (forall i :: 0 <= i < |calls| - 1 ==> NextSize(floor, calls[i].size, calls[i + 1].size))
    && (calls != [] ==> calls[0].size == size)
  }

  lemma SizesFallOneMore(call: Call, rest: seq<Call>, floor: nat, size: nat, next: nat)
    requires call.size == size && floor <= next <= size && NextSize(floor, size, next) && SizesFall(rest, floor, next)
    ensures SizesFall([call] + rest, floor, size)
  {
    var calls := [call] + rest;
    forall i | 0 <= i < |calls| - 1 ensures NextSize(floor, calls[i].size, calls[i + 1].size) {
      if i > 0 { assert NextSize(floor, rest[i - 1].size, rest[i].size); }
    }
  }

  lemma {:induction false} CallSizesFall(keys: seq<string>, floor: nat, runKey: Option<string>, stored: Option<Stored>,
                                         cursor: string, size: nat, failures: nat, env: nat -> Event, n: nat)
    requires Ready(keys, floor, size, failures)
    ensures SizesFall(Calls(keys, floor, runKey, stored, cursor, size, failures, env, n), floor, size)
    decreases |keys| - Rank(keys, cursor), size, MAX_FAILURES_AT_MIN_PAGE - failures
  {
    var t := OneTurn(keys, floor, runKey, stored, cursor, size, failures, env(n));
    if t.Again? {
      var rest := Calls(keys, floor, runKey, t.stored, t.cursor, t.size, t.failures, env, n + 1);
      CallSizesFall(keys, floor, runKey, t.stored, t.cursor, t.size, t.failures, env, n + 1);
      TurnKeepsSize(keys, floor, runKey, stored, cursor, size, failures, env(n));
      SizesFallOneMore(CallOf(keys, runKey, cursor, size, env(n)), rest, floor, size, t.size);
    }
  }

  lemma TurnKeepsSize(keys: seq<string>, floor: nat, runKey: Option<string>, stored: Option<Stored>,
                      cursor: string, size: nat, failures: nat, event: Event)
    requires Ready(keys, floor, size, failures) && OneTurn(keys, floor, runKey, stored, cursor, size, failures, event).Again?
    ensures var t := OneTurn(keys, floor, runKey, stored, cursor, size, failures, event);
      floor <= t.size <= size && NextSize(floor, size, t.size) && CallOf(keys, runKey, cursor, size, event).size == size
  {
  }

  /** One listed call per page call of the run. */
  lemma {:induction false} CallsAreCounted(keys: seq<string>, floor: nat, runKey: Option<string>, stored: Option<Stored>,
                                           cursor: string, size: nat, failures: nat, env: nat -> Event, n: nat)
    requires Ready(keys, floor, size, failures)
    ensures |Calls(keys, floor, runKey, stored, cursor, size, failures, env, n)| == Sweep(keys, floor, runKey, stored, cursor, size, failures, env, n).calls
    decreases |keys| - Rank(keys, cursor), size, MAX_FAILURES_AT_MIN_PAGE - failures
  {
    match OneTurn(keys, floor, runKey, stored, cursor, size, failures, env(n))
    case End(_) => {}
    case Again(stored', cursor', size', failures', _, _) => {
      CallsAreCounted(keys, floor, runKey, stored', cursor', size', failures', env, n + 1);
    }
  }

  // ---------------------------------------------------------------- keys

  /** Every key a call reaches lies above the cursor the attempt started from and above every
      cursor an earlier call committed. */
  ghost predicate KeysAbove(calls: seq<Call>, cursor: string) {
    && (forall i, k :: 0 <= i < |calls| && k in calls[i].keys ==> Less(cursor, k))
    && (forall i, j, k :: 0 <= i < j < |calls| && calls[i].mark.Some? && k in calls[j].keys ==> Less(calls[i].mark.value.cursor, k))
  }

  lemma CallKeysAbove(keys: seq<string>, runKey: Option<string>, cursor: string, size: nat, event: Event)
    requires Ascending(keys)
    ensures var call := CallOf(keys, runKey, cursor, size, event);
      (forall k :: k in call.keys ==> Less(cursor, k))
      && (call.mark.Some? && !call.mark.value.done ==> Less(cursor, call.mark.value.cursor))
  {
    PageIsLeastKeys(keys, cursor, size);
  }

  lemma KeysAboveOneMore(call: Call, rest: seq<Call>, cursor: string, next: string)
    requires forall k :: k in call.keys ==> Less(cursor, k)
    requires next == cursor || Less(cursor, next)
    requires call.mark.Some? ==> next == call.mark.value.cursor
    requires KeysAbove(rest, next)
    ensures KeysAbove([call] + rest, cursor)
  {
    var calls := [call] + rest;
    forall i, k | 0 <= i < |calls| && k in calls[i].keys ensures Less(cursor, k) {
      if i > 0 && next != cursor { LessTransitive(cursor, next, k); }
    }
    forall i, j, k | 0 <= i < j < |calls| && calls[i].mark.Some? && k in calls[j].keys ensures Less(calls[i].mark.value.cursor, k) {
      assert calls[j] == rest[j - 1];
      if i > 0 { assert calls[i] == rest[i - 1]; }
    }
  }

  lemma {:induction false} CallsReachOnlyLaterKeys(keys: seq<string>, floor: nat, runKey: Option<string>, stored: Option<Stored>,
                                                   cursor: string, size: nat, failures: nat, env: nat -> Event, n: nat)
    requires Ready(keys, floor, size, failures)
    ensures KeysAbove(Calls(keys, floor, runKey, stored, cursor, size, failures, env, n), cursor)
    decreases |keys| - Rank(keys, cursor), size, MAX_FAILURES_AT_MIN_PAGE - failures
  {
    var t := OneTurn(keys, floor, runKey, stored, cursor, size, failures, env(n));
    CallKeysAbove(keys, runKey, cursor, size, env(n));
    if t.Again? {
      CallsReachOnlyLaterKeys(keys, floor, runKey, t.stored, t.cursor, t.size, t.failures, env, n + 1);
      KeysAboveOneMore(CallOf(keys, runKey, cursor, size, env(n)), Calls(keys, floor, runKey, t.stored, t.cursor, t.size, t.failures, env, n + 1), cursor, t.cursor);
    }
  }

  /** The calls reach exactly the keys the run reports. */
  ghost predicate Reaches(calls: seq<Call>, k: string) {
    exists i :: 0 <= i < |calls| && k in calls[i].keys
  }

  predicate TouchedBy(r: Run, k: string) {
    k in r.full || k in r.partial
  }

  ghost predicate SameKeys(calls: seq<Call>, r: Run) {
    forall k :: Reaches(calls, k) <==> TouchedBy(r, k)
  }

  lemma ReachesOneMore(call: Call, rest: seq<Call>, k: string)
    ensures Reaches([call] + rest, k) <==> k in call.keys || Reaches(rest, k)
  {
    var calls := [call] + rest;
    if k in call.keys { assert k in calls[0].keys; }
    if i :| 0 <= i < |rest| && k in rest[i].keys { assert k in calls[i + 1].keys; }
    if i :| 0 <= i < |calls| && k in calls[i].keys {
      if i > 0 { assert k in rest[i - 1].keys; }
    }
  }

  lemma {:induction false} CallsAreTheRun(keys: seq<string>, floor: nat, runKey: Option<string>, stored: Option<Stored>,
                                          cursor: string, size: nat, failures: nat, env: nat -> Event, n: nat, k: string)
    requires Ready(keys, floor, size, failures)
    ensures Reaches(Calls(keys, floor, runKey, stored, cursor, size, failures, env, n), k)
       <==> TouchedBy(Sweep(keys, floor, runKey, stored, cursor, size, failures, env, n), k)
    decreases |keys| - Rank(keys, cursor), size, MAX_FAILURES_AT_MIN_PAGE - failures
  {
    var call := CallOf(keys, runKey, cursor, size, env(n));
    match OneTurn(keys, floor, runKey, stored, cursor, size, failures, env(n))
    case End(run) => {
      LastCallIsTheRun(keys, floor, runKey, stored, cursor, size, failures, env(n), k);
      if !env(n).Stopped? {
        ReachesOneMore(call, [], k);
        assert [call] + [] == [call];
      }
    }
    case Again(stored', cursor', size', failures', page, touched) => {
      TurnCallIsTheRun(keys, floor, runKey, stored, cursor, size, failures, env(n), k);
      CallsAreTheRun(keys, floor, runKey, stored', cursor', size', failures', env, n + 1, k);
      ReachesOneMore(call, Calls(keys, floor, runKey, stored', cursor', size', failures', env, n + 1), k);
    }
  }

  lemma LastCallIsTheRun(keys: seq<string>, floor: nat, runKey: Option<string>, stored: Option<Stored>,
                         cursor: string, size: nat, failures: nat, event: Event, k: string)
    requires Ready(keys, floor, size, failures) && OneTurn(keys, floor, runKey, stored, cursor, size, failures, event).End?
    ensures TouchedBy(OneTurn(keys, floor, runKey, stored, cursor, size, failures, event).run, k)
       <==> k in CallOf(keys, runKey, cursor, size, event).keys
  {
  }

  lemma TurnCallIsTheRun(keys: seq<string>, floor: nat, runKey: Option<string>, stored: Option<Stored>,
                         cursor: string, size: nat, failures: nat, event: Event, k: string)
    requires Ready(keys, floor, size, failures) && OneTurn(keys, floor, runKey, stored, cursor, size, failures, event).Again?
    ensures var t := OneTurn(keys, floor, runKey, stored, cursor, size, failures, event);
      k in CallOf(keys, runKey, cursor, size, event).keys <==> k in t.page || k in t.touched
  {
  }
}
