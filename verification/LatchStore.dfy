/** The latch and the maintenance retry loop as the service runs them: durable nodes and a
    process-local cache updated in place, proved against the steps of the state machine. */
module LatchStore {
  import opened Common
  import opened Latch

  // ---------------------------------------------------------------- one locked section

  /** The locked section of one marker: enter, read unless the cache is of this version, write. */
  function LockedSection(s: State, id: MessageId, loads: bool, fate: Fate, bury: bool): State {
    DoMarker(DoMarker(DoMarker(s, Acquire(id)), Load(id, loads, bury)), Persist(id, fate, bury))
  }

  /** The signals the section starts from: the cache of its own version, else the durable ones. */
  function Known(s: State, v: Version): set<DataType> {
    if s.cacheVersion == Some(v) then s.cache else SignalsOf(s.nodes, v)
  }

  predicate Unread(s: State, v: Version, loads: bool) {
    s.cacheVersion != Some(v) && !loads
  }

  /** The section as it runs when the cache serves the version or the read succeeds. */
  lemma ReadSection(s: State, id: MessageId, m: Marker, loads: bool, fate: Fate, bury: bool)
    requires AcquireEnabled(s, id) && s.desk.handlers[id].marker == m && !Unread(s, m.version, loads)
    ensures var entered := s.(desk := SetPhase(s.desk, id, InSection), lock := Writing(id, Known(s, m.version) + {m.dataType}));
      LockedSection(s, id, loads, fate, bury) == DoPersist(entered, id, fate, bury)
  {
    var s1 := DoAcquire(s, id);
    if s.cacheVersion == Some(m.version) {
      assert DoMarker(s1, Load(id, loads, bury)) == s1;
    } else {
      assert DoMarker(s1, Load(id, loads, bury)) == DoLoad(s1, id, loads, bury);
    }
  }

  /** A failed read ends the section before it wrote anything. */
  lemma UnreadSection(s: State, id: MessageId, m: Marker, loads: bool, fate: Fate, bury: bool)
    requires AcquireEnabled(s, id) && s.desk.handlers[id].marker == m && Unread(s, m.version, loads)
    ensures var entered := SetPhase(s.desk, id, InSection);
      LockedSection(s, id, loads, fate, bury) == s.(desk := Return(entered, id, bury))
  {
    var s1 := DoAcquire(s, id);
    assert DoMarker(s1, Load(id, loads, bury)) == DoLoad(s1, id, loads, bury);
  }

  /** The steps of one attempt's ending: take the lock, then stamp or record the failure. */
  function StampSection(s: State, fate: Fate): State {
    DoTask(DoTask(s, AcquireForTask), Stamp(fate))
  }

  function FailSection(s: State, fate: Fate, error: string): State {
    DoTask(DoTask(s, AcquireForTask), Fail(fate, error))
  }

  // ---------------------------------------------------------------- attempts

  /** What one attempt meets: a shutdown request, the drain, each step, and the stamp's write. */
  datatype Attempt = Attempt(shutdown: bool, drains: bool, steps: nat -> bool, stamp: Fate)

  datatype Verdict = Finished | Abandoned | Exhausted

  predicate EveryStep(steps: nat -> bool) {
    forall i: nat :: i < STEPS ==> steps(i)
  }

  /** The attempt drained, every step completed, and its stamp was confirmed on a node. */
  predicate Passes(a: Attempt, known: bool) {
    a.drains && EveryStep(a.steps) && a.stamp.Landed? && known
  }

  function VerdictFrom(env: nat -> Attempt, known: bool, k: nat): Verdict
    requires 1 <= k <= MAX_ATTEMPTS
    decreases MAX_ATTEMPTS - k
  {
    if env(k).shutdown then Abandoned
    else if Passes(env(k), known) then Finished
    else if k == MAX_ATTEMPTS then Exhausted
    else VerdictFrom(env, known, k + 1)
  }

  predicate FirstPass(env: nat -> Attempt, known: bool, k: nat, i: nat) {
    && k <= i <= 3 && Passes(env(i), known)
    && (forall j: nat :: k <= j <= i ==> !env(j).shutdown)
    && (forall j: nat :: k <= j < i ==> !Passes(env(j), known))
  }

  /** A pass finishes iff one of its attempts passes before any shutdown request. */
  lemma {:induction false} FinishedIff(env: nat -> Attempt, known: bool, k: nat)
    requires 1 <= k <= MAX_ATTEMPTS
    ensures VerdictFrom(env, known, k).Finished? <==> exists i: nat :: FirstPass(env, known, k, i)
    decreases MAX_ATTEMPTS - k
  {
    if !env(k).shutdown && Passes(env(k), known) {
      assert FirstPass(env, known, k, k);
    } else if !env(k).shutdown && k < MAX_ATTEMPTS {
      FinishedIff(env, known, k + 1);
      forall i: nat ensures FirstPass(env, known, k + 1, i) <==> FirstPass(env, known, k, i) {
        FirstPassLater(env, known, k, i);
      }
      assert VerdictFrom(env, known, k) == VerdictFrom(env, known, k + 1);
      if VerdictFrom(env, known, k).Finished? {
        var i: nat :| FirstPass(env, known, k + 1, i);
        assert FirstPass(env, known, k, i);
      }
    }
  }

  /** It is exhausted iff none of its three attempts passes and no shutdown was requested before
      one of them. */
  lemma ExhaustedIff(env: nat -> Attempt, known: bool)
    ensures VerdictFrom(env, known, 1).Exhausted? <==> forall j: nat :: 1 <= j <= 3 ==> !env(j).shutdown && !Passes(env(j), known)
  {
    assert VerdictFrom(env, known, 3).Exhausted? <==> !env(3).shutdown && !Passes(env(3), known);
    assert VerdictFrom(env, known, 2).Exhausted? <==> !env(2).shutdown && !Passes(env(2), known) && VerdictFrom(env, known, 3).Exhausted?;
    assert VerdictFrom(env, known, 1).Exhausted? <==> !env(1).shutdown && !Passes(env(1), known) && VerdictFrom(env, known, 2).Exhausted?;
  }

  lemma FirstPassLater(env: nat -> Attempt, known: bool, k: nat, i: nat)
    requires !env(k).shutdown && !Passes(env(k), known)
    ensures FirstPass(env, known, k + 1, i) <==> FirstPass(env, known, k, i)
  {
    if FirstPass(env, known, k + 1, i) {
      forall j: nat | k <= j <= i ensures !env(j).shutdown { if j > k { assert k + 1 <= j; } }
      forall j: nat | k <= j < i ensures !Passes(env(j), known) { if j > k { assert k + 1 <= j; } }
    }
  }

  /** The task after a failed attempt: the next one, or the recording of the failure. */
  predicate FailedOnce(t: Task, t': Task)
    requires t.Running?
  {
    && t'.Running? && t'.version == t.version
    && (if t.attempt >= MAX_ATTEMPTS then t'.stage.AwaitingFailure? else t'.stage.Beginning? && t'.attempt == t.attempt + 1)
  }

  // ---------------------------------------------------------------- the store

  class CompletionLatch {
    var nodes: Nodes
    var cacheVersion: Option<Version>
    var cache: set<DataType>

    constructor (stored: Nodes)
      ensures nodes == stored && cacheVersion == None && cache == {}
    {
      nodes, cacheVersion, cache := stored, None, {};
    }

    /** The in-memory and durable state of s. */
    ghost predicate Holds(s: State)
      reads this
    {
      nodes == s.nodes && cacheVersion == s.cacheVersion && cache == s.cache
    }

    method LoadSignals(v: Version, answers: bool) returns (signals: Option<set<DataType>>)
      ensures signals == if answers then Some(SignalsOf(nodes, v)) else None
    {
      if !answers { return None; }
      signals := Some(if v in nodes then nodes[v].signals else {});
    }

    method PersistSignals(v: Version, signals: set<DataType>, fate: Fate, now: nat) returns (ok: bool)
      modifies this`nodes
      ensures ok == fate.Landed?
      ensures nodes == if fate.Lost? then old(nodes) else Latch.PersistSignals(old(nodes), v, signals, now)
    {
      ok := fate.Landed?;
      if !fate.Lost? {
        var node := if v in nodes then nodes[v] else Completion({}, now, None, NoStatus, None, None);
        nodes := nodes[v := node.(signals := node.signals + signals)];
      }
    }

    /** _record_extraction_signal: commit one signal, then publish the cache. Its outcome is the
        state machine's locked section for the handler that called it. */
    method RecordSignal(v: Version, t: DataType, loads: bool, fate: Fate, now: nat, ghost s: State, ghost id: MessageId, ghost bury: bool)
      returns (signals: Option<set<DataType>>)
      requires Holds(s) && s.now == now && AcquireEnabled(s, id) && s.desk.handlers[id].marker == Marker(v, t)
      modifies this
      ensures Holds(LockedSection(s, id, loads, fate, bury))
      ensures LockedSection(s, id, loads, fate, bury).lock.Free?
      ensures signals.Some? <==> id in LockedSection(s, id, loads, fate, bury).desk.handlers
      ensures signals.Some? ==> AtPhase(LockedSection(s, id, loads, fate, bury).desk, id, Recorded(signals.value))
      ensures signals.Some? ==> v in nodes && t in signals.value && signals.value <= nodes[v].signals && cacheVersion == Some(v) && cache == signals.value
    {
      ghost var s' := LockedSection(s, id, loads, fate, bury);
      if Unread(s, v, loads) { UnreadSection(s, id, Marker(v, t), loads, fate, bury); }
      else { ReadSection(s, id, Marker(v, t), loads, fate, bury); }
      var changedVersion := cacheVersion != Some(v);
      var persisted := cache;
      if changedVersion {
        var loaded := LoadSignals(v, loads);
        if loaded.None? { return None; }
        persisted := loaded.value;
      }
      var candidate := persisted + {t};
      var ok := PersistSignals(v, candidate, fate, now);
      if !ok { return None; }
      cache, cacheVersion := candidate, Some(v);
      return Some(candidate);
    }

    method StampSuccess(v: Version, fate: Fate, now: nat) returns (ok: bool)
      modifies this`nodes
      ensures nodes == if fate.Lost? then old(nodes) else Latch.StampSuccess(old(nodes), v, now)
      ensures ok == (fate.Landed? && v in old(nodes))
    {
      ok := fate.Landed? && v in nodes;
      if !fate.Lost? && v in nodes {
        var node := nodes[v];
        nodes := nodes[v := node.(maintainedAt := if node.maintainedAt.Some? then node.maintainedAt else Some(now),
                                  status := Succeeded, error := None, statsVersion := Some(STATS_VERSION))];
      }
    }

    method RecordFailure(v: Version, fate: Fate, error: string)
      modifies this`nodes
      ensures nodes == if fate.Lost? then old(nodes) else Latch.RecordFailure(old(nodes), v, error)
    {
      if !fate.Lost? && v in nodes && nodes[v].maintainedAt.None? {
        var kept := if |error| <= ERROR_MAX_CHARS then error else error[..ERROR_MAX_CHARS];
        nodes := nodes[v := nodes[v].(status := Failed, error := Some(kept))];
      }
    }

    /** The five steps of one attempt: a failing one is counted and the rest still run. */
    method RunSteps(v: Version, steps: nat -> bool, ghost s: State) returns (failed: nat, ghost s': State)
      requires Holds(s) && SweepEnabled(s) && s.task.version == v && s.history[s.task.log].results == [] && s.lock.Free?
      ensures Holds(s') && s'.lock.Free? && s'.now == s.now
      ensures failed == 0 <==> EveryStep(steps)
      ensures failed == 0 ==> s'.task == s.task.(stage := AwaitingStamp)
      ensures failed != 0 ==> s'.task == AttemptFailed(s.task)
    {
      failed := 0;
      s' := s;
      ghost var log := s.task.log;
      for i: nat := 0 to STEPS
        invariant Holds(s') && s'.lock.Free? && s'.now == s.now
        invariant failed == 0 <==> forall j: nat :: j < i ==> steps(j)
        invariant log < |s'.history|
        invariant |s'.history[log].results| == i && forall j: nat :: j < i ==> s'.history[log].results[j] == steps(j)
        invariant i < STEPS ==> s'.task == s.task
        invariant i == STEPS ==> s'.task == if failed == 0 then s.task.(stage := AwaitingStamp) else AttemptFailed(s.task)
      {
        if !steps(i) { failed := failed + 1; }
        ghost var before := s'.history[log].results;
        s' := DoTask(s', SweepStep(steps(i)));
        assert AllTrue(before + [steps(i)]) <==> failed == 0 by {
          if failed == 0 {
            forall j | 0 <= j < |before + [steps(i)]| ensures (before + [steps(i)])[j] { }
          } else if steps(i) {
            var j: nat :| j < i && !steps(j);
            assert !(before + [steps(i)])[j];
          } else {
            assert !(before + [steps(i)])[i];
          }
        }
      }
    }

    /** One attempt: drain, then every step, then the stamp. */
    method RunAttempt(v: Version, a: Attempt, now: nat, ghost s: State) returns (ok: bool, ghost s': State)
      requires Holds(s) && s.lock.Free? && s.now == now && TaskIn(s, Beginning) && s.task.version == v && !a.shutdown
      modifies this`nodes
      ensures Holds(s') && s'.lock.Free? && s'.now == now
      ensures ok == Passes(a, v in old(nodes))
      ensures v in nodes <==> v in old(nodes)
      ensures ok ==> s'.task.NoTask? && Maintained(nodes, v)
      ensures !ok ==> FailedOnce(s.task, s'.task)
    {
      s' := DoTask(s, Begin(false));
      s' := DoTask(s', Drain(a.drains));
      if !a.drains { return false, s'; }
      var failed;
      failed, s' := RunSteps(v, a.steps, s');
      if failed != 0 { return false, s'; }
      ok := StampSuccess(v, a.stamp, now);
      s' := StampSection(s', a.stamp);
    }

    /** After the last attempt: record the failure, and free the slot. */
    method GiveUp(v: Version, failFate: Fate, error: string, ghost s: State) returns (ghost s': State)
      requires Holds(s) && s.lock.Free? && TaskIn(s, AwaitingFailure) && s.task.version == v
      modifies this`nodes
      ensures Holds(s') && s'.lock.Free? && s'.task.NoTask?
      ensures nodes == if failFate.Lost? then old(nodes) else Latch.RecordFailure(old(nodes), v, error)
    {
      RecordFailure(v, failFate, error);
      s' := FailSection(s, failFate, error);
    }

    /** _run_post_import_maintenance_attempts: retry, and after the last attempt record the
        failure. The final state is the state machine's with the slot free again. */
    method RunMaintenance(v: Version, env: nat -> Attempt, failFate: Fate, error: string, now: nat, ghost s: State) returns (ok: bool, ghost s': State)
      requires Holds(s) && s.lock.Free? && s.now == now && s.task == Running(v, 1, Beginning, 0)
      modifies this`nodes
      ensures Holds(s') && s'.lock.Free? && s'.task.NoTask?
      ensures ok <==> VerdictFrom(env, v in old(nodes), 1).Finished?
      ensures ok ==> Maintained(nodes, v)
      ensures VerdictFrom(env, v in old(nodes), 1).Exhausted? && failFate.Landed? && v in nodes ==>
        nodes[v].maintainedAt.Some? || nodes[v].status == Failed
    {
      s' := s;
      ghost var known := v in nodes;
      for attempt: nat := 1 to MAX_ATTEMPTS + 1
        invariant Holds(s') && s'.lock.Free? && s'.now == now
        invariant v in nodes <==> known
        invariant attempt <= MAX_ATTEMPTS
          ==> TaskIn(s', Beginning) && s'.task.version == v && s'.task.attempt == attempt && VerdictFrom(env, known, 1) == VerdictFrom(env, known, attempt)
        invariant attempt <= MAX_ATTEMPTS
      {
        var a := env(attempt);
        if a.shutdown {
          s' := DoTask(s', Begin(true));
          return false, s';
        }
        var passed;
        passed, s' := RunAttempt(v, a, now, s');
        if passed { return true, s'; }
        if attempt == MAX_ATTEMPTS {
          s' := GiveUp(v, failFate, error, s');
          return false, s';
        }
      }
      ok := false;
    }
  }
}
