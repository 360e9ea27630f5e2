/** The resumable keyed sweep: pages after a cursor, halving on pressure, a durable
    checkpoint per step and run key, and any pattern of failures and crashes. */
module Paging {
  import opened Common

  const START_CURSOR := ""
  const MAX_FAILURES_AT_MIN_PAGE := 3

  // ---------------------------------------------------------------- keys and pages

  /** The key space of a sweep: non-empty keys, strictly ascending. */
  predicate Ascending(keys: seq<string>) {
    && (forall i :: 0 <= i < |keys| ==> keys[i] != START_CURSOR)
    && (forall i, j :: 0 <= i < j < |keys| ==> Less(keys[i], keys[j]))
  }

  /** How many keys the cursor has left behind: the first index holding a greater key. */
  function Rank(keys: seq<string>, cursor: string): (n: nat)
    ensures n <= |keys|
  {
    FirstAbove(keys, cursor, 0)
  }

  function FirstAbove(keys: seq<string>, cursor: string, i: nat): (n: nat)
    requires i <= |keys|
    ensures i <= n <= |keys|
    decreases |keys| - i
  {
    if i == |keys| || Less(cursor, keys[i]) then i else FirstAbove(keys, cursor, i + 1)
  }

  lemma {:induction false} FirstAboveIsFirst(keys: seq<string>, cursor: string, i: nat)
    requires i <= |keys|
    ensures forall j :: i <= j < FirstAbove(keys, cursor, i) ==> !Less(cursor, keys[j])
    ensures FirstAbove(keys, cursor, i) < |keys| ==> Less(cursor, keys[FirstAbove(keys, cursor, i)])
    decreases |keys| - i
  {
    if i < |keys| && !Less(cursor, keys[i]) { FirstAboveIsFirst(keys, cursor, i + 1); }
  }

  lemma RankSplits(keys: seq<string>, cursor: string)
    requires Ascending(keys)
    ensures forall i :: 0 <= i < Rank(keys, cursor) ==> !Less(cursor, keys[i])
    ensures forall i :: Rank(keys, cursor) <= i < |keys| ==> Less(cursor, keys[i])
  {
    FirstAboveIsFirst(keys, cursor, 0);
    var p := Rank(keys, cursor);
    forall i | p < i < |keys| ensures Less(cursor, keys[i]) {
      LessTransitive(cursor, keys[p], keys[i]);
    }
  }

  lemma RankOfKey(keys: seq<string>, j: nat)
    requires Ascending(keys) && j < |keys|
    ensures Rank(keys, keys[j]) == j + 1
  {
    RankSplits(keys, keys[j]);
    LessIrreflexive(keys[j]);
    if j + 1 < |keys| { assert Less(keys[j], keys[j + 1]); }
    if Rank(keys, keys[j]) > j + 1 { assert false; }
    if Rank(keys, keys[j]) < j + 1 { assert false; }
  }

  lemma RankOfStart(keys: seq<string>)
    requires Ascending(keys)
    ensures Rank(keys, START_CURSOR) == 0
  {
  }

  /** The `size` keys after `cursor`, in key order. */
  function Page(keys: seq<string>, cursor: string, size: nat): seq<string> {
    var p := Rank(keys, cursor);
    keys[p..if p + size <= |keys| then p + size else |keys|]
  }

  lemma PageIsLeastKeys(keys: seq<string>, cursor: string, size: nat)
    requires Ascending(keys)
    ensures var page := Page(keys, cursor, size);
      && |page| <= size
      && Ascending(page)
      && (forall k :: k in page ==> k in keys && Less(cursor, k))
      && (forall k, q :: k in keys && Less(cursor, k) && k !in page && q in page ==> |page| == size && Less(q, k))
      && (page == [] && size > 0 ==> forall k :: k in keys ==> !Less(cursor, k))
  {
    RankSplits(keys, cursor);
    var p := Rank(keys, cursor);
    var page := Page(keys, cursor, size);
    assert forall i :: 0 <= i < |page| ==> page[i] == keys[p + i];
    assert forall i :: p <= i < p + |page| ==> keys[i] == page[i - p];
    forall k, q | k in keys && Less(cursor, k) && k !in page && q in page
      ensures |page| == size && Less(q, k)
    {
      var i :| 0 <= i < |keys| && keys[i] == k;
      var j :| 0 <= j < |page| && page[j] == q;
      assert i >= p + |page|;
    }
  }

  /** A page is the alphabetically least `size` keys above the cursor, in order: nothing at or
      below the cursor, and a key left for later only when the page is full and every key in it
      is smaller. */
  lemma PageIsLeastKeysAfterCursor(keys: seq<string>, cursor: string, size: nat)
    requires Ascending(keys)
    ensures var page := Page(keys, cursor, size);
      && |page| <= size
      && (forall i, j :: 0 <= i < j < |page| ==> Precedes(page[i], page[j]))
      && (forall k :: k in page ==> k in keys && Precedes(cursor, k))
      && (forall k, q :: k in keys && Precedes(cursor, k) && k !in page && q in page ==> |page| == size && Precedes(q, k))
      && (page == [] && size > 0 ==> forall k :: k in keys ==> !Precedes(cursor, k))
  {
    PageIsLeastKeys(keys, cursor, size);
    forall x, y ensures Less(x, y) <==> Precedes(x, y) { LessIsAlphabetical(x, y); }
  }

  // ---------------------------------------------------------------- checkpoints

  datatype Checkpoint = Checkpoint(cursor: string, size: Option<nat>, done: bool)

  /** The checkpoint node of one step: its progress and the run it belongs to. */
  datatype Stored = Stored(runKey: string, mark: Checkpoint)

  const FRESH := Checkpoint(START_CURSOR, None, false)

  /** What a run reads: only a checkpoint of its own run key counts. */
  function Resume(stored: Option<Stored>, runKey: Option<string>): Checkpoint {
    if runKey.Some? && stored.Some? && stored.value.runKey == runKey.value then stored.value.mark else FRESH
  }

  function Min(a: nat, b: nat): nat { if a <= b then a else b }
  function Max(a: nat, b: nat): nat { if a <= b then b else a }

  /** The starting page size: the remembered one if smaller, never below the floor. */
  function StartSize(c: Checkpoint, pageSize: nat, floor: nat): nat {
    Max(floor, Min(pageSize, if c.size.Some? && c.size.value != 0 then c.size.value else pageSize))
  }

  // ---------------------------------------------------------------- one attempt

  /** What happens to a checkpoint write: it lands, it is lost, or it lands but the caller
      sees a failure (or dies before it sees the answer). */
  datatype Fate = Landed | Lost | Ambiguous

  /** What the environment does at one turn of the loop. A failing page may still have applied
      some of its keys: the per-key processor runs one transaction per statement. */
  datatype Event =
    | Stopped
    | Processed(fate: Fate)
    | TooLarge(applied: nat)
    | Failed(applied: nat)

  datatype Outcome = Done | StoppedBetweenPages | GaveUp | PageRaised | CheckpointRaised

  /** Everything one attempt leaves behind: the stored checkpoint, how it ended, the keys of the
      pages processed in full, the length of the last such page, the keys failing pages had
      already applied, and the page calls made. */
  datatype Run = Run(stored: Option<Stored>, outcome: Outcome, full: seq<string>, last: nat, partial: seq<string>, calls: nat)

  function Written(stored: Option<Stored>, runKey: Option<string>, c: Checkpoint, fate: Fate): Option<Stored> {
    if runKey.None? || fate.Lost? then stored else Some(Stored(runKey.value, c))
  }

  predicate WriteReturns(runKey: Option<string>, fate: Fate) {
    runKey.None? || fate.Landed?
  }

  predicate Ready(keys: seq<string>, floor: nat, size: nat, failures: nat) {
    Ascending(keys) && 1 <= floor <= size && failures < MAX_FAILURES_AT_MIN_PAGE
  }

  /** The result of one turn of the loop: either the attempt ends, or it goes on. */
  datatype Turn =
    | End(run: Run)
    | Again(stored: Option<Stored>, cursor: string, size: nat, failures: nat, page: seq<string>, touched: seq<string>)

  /** The loop measure goes down lexicographically: keys remaining, page size, failures left. */
  predicate Shrinks(keys: seq<string>, cursor: string, size: nat, failures: nat, t: Turn)
    requires t.Again?
  {
    || Rank(keys, cursor) < Rank(keys, t.cursor)
    || (t.cursor == cursor && t.size < size)
    || (t.cursor == cursor && t.size == size && failures < t.failures)
  }

  function OneTurn(keys: seq<string>, floor: nat, runKey: Option<string>, stored: Option<Stored>,
                   cursor: string, size: nat, failures: nat, event: Event): (t: Turn)
    requires Ready(keys, floor, size, failures)
    ensures t.Again? ==> Ready(keys, floor, t.size, t.failures) && Shrinks(keys, cursor, size, failures, t)
  {
    var page := Page(keys, cursor, size);
    match event
    case Stopped =>
      End(Run(stored, StoppedBetweenPages, [], 0, [], 0))
    case Failed(applied) =>
      End(Run(stored, PageRaised, [], 0, page[..Min(applied, |page|)], 1))
    case TooLarge(applied) =>
      var touched := page[..Min(applied, |page|)];
      if size > floor then Again(stored, cursor, Max(floor, size / 2), failures, [], touched)
      else if failures + 1 >= MAX_FAILURES_AT_MIN_PAGE then End(Run(stored, GaveUp, [], 0, touched, 1))
      else Again(stored, cursor, size, failures + 1, [], touched)
    case Processed(fate) =>
      if page == [] then
        var stored' := Written(stored, runKey, Checkpoint(cursor, Some(size), true), fate);
        End(Run(stored', if WriteReturns(runKey, fate) then Done else CheckpointRaised, [], 0, [], 1))
      else
        var last := page[|page| - 1];
        var stored' := Written(stored, runKey, Checkpoint(last, Some(size), false), fate);
        RankOfKey(keys, Rank(keys, cursor) + |page| - 1);
        if !WriteReturns(runKey, fate) then End(Run(stored', CheckpointRaised, page, |page|, [], 1))
        else Again(stored', last, size, 0, page, [])
  }

  /** The page loop as a function of the environment: the turns until one ends it. */
  function Sweep(keys: seq<string>, floor: nat, runKey: Option<string>, stored: Option<Stored>,
                 cursor: string, size: nat, failures: nat, env: nat -> Event, n: nat): Run
    requires Ready(keys, floor, size, failures)
    decreases |keys| - Rank(keys, cursor), size, MAX_FAILURES_AT_MIN_PAGE - failures
  {
    match OneTurn(keys, floor, runKey, stored, cursor, size, failures, env(n))
    case End(run) => run
    case Again(stored', cursor', size', failures', page, touched) =>
      Before(page, touched, Sweep(keys, floor, runKey, stored', cursor', size', failures', env, n + 1))
  }

  /** One more page call in front of a run. */
  function Before(page: seq<string>, touched: seq<string>, r: Run): Run {
    Run(r.stored, r.outcome, page + r.full, if r.full == [] then |page| else r.last, touched + r.partial, 1 + r.calls)
  }

  function Attempt(keys: seq<string>, runKey: Option<string>, stored: Option<Stored>,
                   pageSize: nat, floor: nat, env: nat -> Event): Run
    requires Ascending(keys) && floor >= 1
  {
    var c := Resume(stored, runKey);
    if c.done then Run(stored, Done, [], 0, [], 0)
    else Sweep(keys, floor, runKey, stored, c.cursor, StartSize(c, pageSize, floor), 0, env, 0)
  }

  // ---------------------------------------------------------------- the loop itself

  function Lookup(marks: map<string, Stored>, step: string): Option<Stored> {
    if step in marks then Some(marks[step]) else None
  }

  /** The checkpoint nodes, one per step. */
  class CheckpointStore {
    var marks: map<string, Stored>

    constructor ()
      ensures marks == map[]
    {
      marks := map[];
    }

    method ReadCheckpoint(step: string, runKey: string) returns (c: Checkpoint)
      ensures c == Resume(Lookup(marks, step), Some(runKey))
    {
      c := FRESH;
      if step in marks {
        var record := marks[step];
        if record.runKey == runKey {
          c := record.mark;
        }
      }
    }

    method WriteCheckpoint(step: string, runKey: string, c: Checkpoint, fate: Fate) returns (ok: bool)
      modifies this
      ensures ok == fate.Landed?
      ensures marks == if fate.Lost? then old(marks) else old(marks)[step := Stored(runKey, c)]
    {
      ok := fate.Landed?;
      if !fate.Lost? {
        marks := marks[step := Stored(runKey, c)];
      }
    }

    /** The body of the loop: process one page, and on success commit the checkpoint after it. */
    method TakeTurn(step: string, runKey: Option<string>, keys: seq<string>, floor: nat,
                    cursor: string, size: nat, failuresAtMin: nat, event: Event)
      returns (ended: bool, outcome: Outcome, cursor': string, size': nat, failures': nat, processed: nat)
      requires Ready(keys, floor, size, failuresAtMin)
      modifies this
      ensures var t := OneTurn(keys, floor, runKey, old(Lookup(marks, step)), cursor, size, failuresAtMin, event);
        && ended == t.End?
        && (ended ==> outcome == t.run.outcome && Lookup(marks, step) == t.run.stored)
        && (!ended ==> t == Again(Lookup(marks, step), cursor', size', failures', t.page, t.touched))
        && processed == |if ended then t.run.full else t.page|
      ensures forall s :: s != step ==> Lookup(marks, s) == old(Lookup(marks, s))
    {
      var page := Page(keys, cursor, size);
      ended, outcome, cursor', size', failures', processed := true, Done, cursor, size, failuresAtMin, 0;
      match event {
        case Stopped =>
          outcome := StoppedBetweenPages;
        case Failed(_) =>
          outcome := PageRaised;
        case TooLarge(_) =>
          if size > floor {
            ended, size' := false, Max(floor, size / 2);
          } else {
            failures' := failuresAtMin + 1;
            if failures' >= MAX_FAILURES_AT_MIN_PAGE {
              outcome := GaveUp;
            } else {
              ended := false;
            }
          }
        case Processed(fate) =>
          failures' := 0;
          var ok := true;
          if page == [] {
            if runKey.Some? {
              ok := WriteCheckpoint(step, runKey.value, Checkpoint(cursor, Some(size), true), fate);
            }
            outcome := if ok then Done else CheckpointRaised;
          } else {
            cursor', processed := page[|page| - 1], |page|;
            if runKey.Some? {
              ok := WriteCheckpoint(step, runKey.value, Checkpoint(cursor', Some(size), false), fate);
            }
            ended, outcome := !ok, CheckpointRaised;
          }
      }
    }

    /** The page loop: cursor, size, total and failure count change until a turn ends it. */
    method PageLoop(step: string, runKey: Option<string>, keys: seq<string>, floor: nat, start: string, startSize: nat, env: nat -> Event)
      returns (outcome: Outcome, total: nat, ghost run: Run)
      requires Ready(keys, floor, startSize, 0)
      modifies this
      ensures run == Sweep(keys, floor, runKey, old(Lookup(marks, step)), start, startSize, 0, env, 0)
      ensures outcome == run.outcome && Lookup(marks, step) == run.stored && total == |run.full|
      ensures forall s :: s != step ==> Lookup(marks, s) == old(Lookup(marks, s))
    {
      run := Sweep(keys, floor, runKey, Lookup(marks, step), start, startSize, 0, env, 0);
      outcome, total := Done, 0;
      var cursor, size: nat, failuresAtMin: nat := start, startSize, 0;
      var n: nat, ended := 0, false;
      ghost var full: seq<string>, last: nat, partial: seq<string> := [], 0, [];
      NothingBefore(run, keys, floor, runKey, Lookup(marks, step), cursor, size, env);
      while !ended
        invariant Ready(keys, floor, size, failuresAtMin)
        invariant forall s :: s != step ==> Lookup(marks, s) == old(Lookup(marks, s))
        invariant ended ==> outcome == run.outcome && Lookup(marks, step) == run.stored && total == |run.full|
        invariant !ended ==> total == |full|
        invariant !ended ==> run == Resumed(full, last, partial, n, Sweep(keys, floor, runKey, Lookup(marks, step), cursor, size, failuresAtMin, env, n))
        decreases !ended, |keys| - Rank(keys, cursor), size, MAX_FAILURES_AT_MIN_PAGE - failuresAtMin
      {
        ghost var turn := OneTurn(keys, floor, runKey, Lookup(marks, step), cursor, size, failuresAtMin, env(n));
        var o, c, s, f, processed;
        ended, o, c, s, f, processed := TakeTurn(step, runKey, keys, floor, cursor, size, failuresAtMin, env(n));
        total := total + processed;
        if ended {
          outcome := o;
        } else {
          cursor, size, failuresAtMin, n := c, s, f, n + 1;
          Regroup(full, last, partial, n - 1, turn, Sweep(keys, floor, runKey, Lookup(marks, step), cursor, size, failuresAtMin, env, n));
          full, last, partial := full + turn.page, if turn.page == [] then last else |turn.page|, partial + turn.touched;
        }
      }
    }

    /** One call of the step: skip it if this run already finished it, else sweep on from its
        cursor. It computes Attempt and touches no other step's checkpoint. */
    method RunCheckpointedStep(step: string, runKey: Option<string>, keys: seq<string>, pageSize: nat,
                               floor: nat, env: nat -> Event)
      returns (outcome: Outcome, total: nat, ghost run: Run)
      requires Ascending(keys) && floor >= 1
      modifies this
      ensures run == Attempt(keys, runKey, old(Lookup(marks, step)), pageSize, floor, env)
      ensures outcome == run.outcome && Lookup(marks, step) == run.stored && total == |run.full|
      ensures forall s :: s != step ==> Lookup(marks, s) == old(Lookup(marks, s))
    {
      var checkpoint := FRESH;
      if runKey.Some? {
        checkpoint := ReadCheckpoint(step, runKey.value);
        if checkpoint.done {
          return Done, 0, Run(Lookup(marks, step), Done, [], 0, [], 0);
        }
      }
      outcome, total, run := PageLoop(step, runKey, keys, floor, checkpoint.cursor, StartSize(checkpoint, pageSize, floor), env);
    }
  }

  lemma NothingBefore(run: Run, keys: seq<string>, floor: nat, runKey: Option<string>, stored: Option<Stored>, cursor: string, size: nat, env: nat -> Event)
    requires Ready(keys, floor, size, 0)
    requires run == Sweep(keys, floor, runKey, stored, cursor, size, 0, env, 0)
    ensures run == Resumed([], 0, [], 0, run)
  {
    assert [] + run.full == run.full && [] + run.partial == run.partial;
  }

  /** A run seen from its n-th turn: what came before it, then the rest. */
  ghost function Resumed(full: seq<string>, last: nat, partial: seq<string>, n: nat, rest: Run): Run {
    Run(rest.stored, rest.outcome, full + rest.full, if rest.full == [] then last else rest.last, partial + rest.partial, n + rest.calls)
  }

  lemma Regroup(full: seq<string>, last: nat, partial: seq<string>, n: nat, turn: Turn, rest: Run)
    requires turn.Again?
    ensures Resumed(full, last, partial, n, Before(turn.page, turn.touched, rest))
         == Resumed(full + turn.page, if turn.page == [] then last else |turn.page|, partial + turn.touched, n + 1, rest)
  {
    var whole := Before(turn.page, turn.touched, rest);
    assert full + whole.full == (full + turn.page) + rest.full;
    assert partial + whole.partial == (partial + turn.touched) + rest.partial;
  }
}
