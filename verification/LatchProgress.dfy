/** What a maintenance or refresh task achieves: an attempt in which nothing fails stamps the
    version, a failed one is tried again, and the third failure is recorded instead. */
module LatchProgress {
  import opened Common
  import opened Latch
  import T = LatchTheorems

  function OneTask(s: State, t: TaskStep): State { Do(s, OnTask(t)) }

  /** The first k steps of a sweep with these results. */
  function Swept(s: State, results: seq<bool>, k: nat): State
    requires k <= |results|
  {
    if k == 0 then s else OneTask(Swept(s, results, k - 1), SweepStep(results[k - 1]))
  }

  /** An attempt whose drain succeeds and whose five steps end like this. */
  function Attempted(s: State, results: seq<bool>): State {
    Swept(OneTask(OneTask(s, Begin(false)), Drain(true)), results, |results|)
  }

  predicate Succeeds(results: seq<bool>) {
    forall i :: 0 <= i < |results| ==> results[i]
  }

  predicate SameElse(s: State, s': State) {
    s'.nodes == s.nodes && s'.lock == s.lock && s'.now == s.now && s'.desk == s.desk && s'.refresh == s.refresh
  }

  lemma DrainedAttempt(s: State)
    requires TaskIn(s, Beginning)
    ensures var s' := OneTask(OneTask(s, Begin(false)), Drain(true));
      && SameElse(s, s') && s'.task == s.task.(stage := Sweeping, log := |s.history|)
      && |s'.history| == |s.history| + 1 && s'.history[|s.history|] == AttemptLog(s.task.version, true, [])
  {
  }

  /** What a failed attempt leaves: another one, or after the third the record of the failure. */
  function TriedAgain(t: Task): Task
    requires t.Running?
  {
    if t.attempt < 3 then Running(t.version, t.attempt + 1, Beginning, t.log) else Running(t.version, t.attempt, AwaitingFailure, t.log)
  }

  /** The task is sweeping, with k of these results in its log; the fifth result decides. */
  predicate SweptSoFar(s: State, s': State, results: seq<bool>, k: nat) {
    && SameElse(s, s') && s.task.Running? && |s'.history| == |s.history| && s.task.log < |s.history| && k <= |results|
    && s'.history[s.task.log].results == results[..k]
    && s'.task == if k < 5 then s.task else if Succeeds(results) then s.task.(stage := AwaitingStamp) else TriedAgain(s.task)
  }

  lemma OneMoreSwept(s: State, before: State, results: seq<bool>, k: nat)
    requires TaskIn(s, Sweeping) && |results| == 5 && k < 5 && SweptSoFar(s, before, results, k)
    ensures SweptSoFar(s, OneTask(before, SweepStep(results[k])), results, k + 1)
  {
    assert results[..k + 1] == results[..k] + [results[k]];
    assert AllTrue(results[..k + 1]) <==> forall i :: 0 <= i < k + 1 ==> results[i];
  }

  lemma {:induction false} SweepsOn(s: State, results: seq<bool>, k: nat)
    requires TaskIn(s, Sweeping) && s.task.log < |s.history| && s.history[s.task.log].results == [] && |results| == 5 && k <= 5
    ensures SweptSoFar(s, Swept(s, results, k), results, k)
  {
    if k > 0 {
      SweepsOn(s, results, k - 1);
      OneMoreSwept(s, Swept(s, results, k - 1), results, k - 1);
    }
  }

  /** Five steps that all succeed lead to the stamp, any other five to another attempt or, for the
      third, to the record of the failure. */
  lemma AttemptLeads(s: State, results: seq<bool>)
    requires TaskIn(s, Beginning) && |results| == 5
    ensures var s', t := Attempted(s, results), s.task.(log := |s.history|);
      SameElse(s, s') && s'.task == if Succeeds(results) then t.(stage := AwaitingStamp) else TriedAgain(t)
  {
    DrainedAttempt(s);
    SweepsOn(OneTask(OneTask(s, Begin(false)), Drain(true)), results, 5);
  }

  /** A drain that fails costs the attempt, with no step run. */
  lemma FailedDrainLeads(s: State)
    requires TaskIn(s, Beginning)
    ensures var s' := OneTask(OneTask(s, Begin(false)), Drain(false));
      SameElse(s, s') && s'.task == TriedAgain(s.task.(log := |s.history|)) && s'.history == s.history + [AttemptLog(s.task.version, false, [])]
  {
  }

  // ---------------------------------------------------------------- success

  function Stamped(s: State, results: seq<bool>): State {
    OneTask(OneTask(Attempted(s, results), AcquireForTask), Stamp(Landed))
  }

  /** From any state at the start of an attempt, whichever it is: five successes and a landed write
      leave the node stamped now, or with its earlier stamp, as succeeded and up to date, with its
      signals kept; the slot is free and no other node changed. */
  lemma UndisturbedAttemptStamps(s: State)
    requires TaskIn(s, Beginning) && s.lock.Free? && s.task.version in s.nodes
    ensures var v, s' := s.task.version, Stamped(s, [true, true, true, true, true]);
      && s'.task.NoTask? && s'.lock.Free? && v in s'.nodes
      && (forall u :: u != v ==> (u in s'.nodes <==> u in s.nodes) && (u in s.nodes ==> s'.nodes[u] == s.nodes[u]))
      && s'.nodes[v] == Completion(s.nodes[v].signals, s.nodes[v].createdAt,
                                   if s.nodes[v].maintainedAt.Some? then s.nodes[v].maintainedAt else Some(s.now), Succeeded, None, Some(1))
  {
    AttemptLeads(s, [true, true, true, true, true]);
  }

  // ---------------------------------------------------------------- failure

  function GaveUp(s: State, error: string): State {
    OneTask(OneTask(s, AcquireForTask), Fail(Landed, error))
  }

  function Tried(s: State, a: seq<bool>, b: seq<bool>, c: seq<bool>): State {
    Attempted(Attempted(Attempted(s, a), b), c)
  }

  predicate FailedSweep(results: seq<bool>) {
    |results| == 5 && !Succeeds(results)
  }

  lemma ThreeFailuresLead(s: State, a: seq<bool>, b: seq<bool>, c: seq<bool>)
    requires TaskIn(s, Beginning) && s.task.attempt == 1 && FailedSweep(a) && FailedSweep(b) && FailedSweep(c)
    ensures var s' := Tried(s, a, b, c);
      SameElse(s, s') && TaskIn(s', AwaitingFailure) && s'.task.version == s.task.version
  {
    AttemptLeads(s, a);
    AttemptLeads(Attempted(s, a), b);
    AttemptLeads(Attempted(Attempted(s, a), b), c);
  }

  /** Three attempts, each with some failing step, end the task: the failure is recorded with at most
      500 characters of its message, unless the version has been stamped, and it is not stamped. */
  lemma ThreeFailuresAreRecorded(s: State, a: seq<bool>, b: seq<bool>, c: seq<bool>, error: string)
    requires TaskIn(s, Beginning) && s.task.attempt == 1 && s.lock.Free? && FailedSweep(a) && FailedSweep(b) && FailedSweep(c)
    ensures var v, s' := s.task.version, GaveUp(Tried(s, a, b, c), error);
      && s'.task.NoTask? && s'.lock.Free?
      && (forall u :: u != v ==> (u in s'.nodes <==> u in s.nodes) && (u in s.nodes ==> s'.nodes[u] == s.nodes[u]))
      && (v in s.nodes <==> v in s'.nodes)
      && (v in s.nodes && s.nodes[v].maintainedAt.Some? ==> s'.nodes[v] == s.nodes[v])
      && (v in s.nodes && s.nodes[v].maintainedAt.None? ==>
            s'.nodes[v] == s.nodes[v].(status := Failed, error := Some(if |error| <= 500 then error else error[..500])))
  {
    ThreeFailuresLead(s, a, b, c);
  }

  // ---------------------------------------------------------------- the statistics refresh

  function Refreshed(s: State, labels: bool, artists: bool): State {
    OneTask(OneTask(s, RefreshStep(labels)), RefreshStep(artists))
  }

  predicate RefreshStarts(s: State) {
    s.refresh.Refreshing? && s.refresh.stage == RefreshSweeping(0, false)
  }

  /** A refresh sweeps labels and artists. If both succeed the stamp comes next; otherwise it is
      tried again, three times in all, and then dropped with nothing written. */
  lemma RefreshLeads(s: State, labels: bool, artists: bool)
    requires RefreshStarts(s)
    ensures var s' := Refreshed(s, labels, artists);
      && s'.nodes == s.nodes && s'.task == s.task && s'.lock == s.lock
      && s'.refresh ==
           if labels && artists then s.refresh.(stage := AwaitingStatsStamp)
           else if s.refresh.attempt < 3 then Refreshing(s.refresh.version, s.refresh.attempt + 1, RefreshSweeping(0, false))
           else NoRefresh
  {
  }

  /** And the stamp says the statistics are of the current version, changing nothing else. */
  lemma RefreshStamps(s: State)
    requires RefreshStarts(s) && s.lock.Free? && s.refresh.version in s.nodes
    ensures var v, s' := s.refresh.version, OneTask(OneTask(Refreshed(s, true, true), AcquireForRefresh), StampStatsVersion(Landed));
      && s'.refresh.NoRefresh? && s'.lock.Free? && s'.task == s.task
      && s'.nodes == s.nodes[v := s.nodes[v].(statsVersion := Some(1))]
  {
    RefreshLeads(s, true, true);
  }

  // ---------------------------------------------------------------- starting a refresh

  function Read(s: State, newest: Version): State { Do(s, OnHost(ResumeRead(newest, true))) }

  /** A newest node needs a refresh: complete and stamped, but with statistics of another version. */
  predicate NeedsRefresh(nodes: Nodes, v: Version) {
    && v in nodes && (forall t: DataType :: t in nodes[v].signals)
    && nodes[v].maintainedAt.Some? && nodes[v].statsVersion != Some(1)
  }

  predicate Newest(nodes: Nodes, v: Version) {
    v in nodes && forall u :: u in nodes ==> nodes[u].createdAt <= nodes[v].createdAt
  }

  function FourReads(s: State, v: Version): State {
    Read(Read(Read(Read(s, v), v), v), v)
  }

  lemma AllTypes(nodes: Nodes, v: Version)
    ensures Complete(nodes, v) <==> v in nodes && forall t: DataType :: t in nodes[v].signals
  {
    if Complete(nodes, v) {
      forall t: DataType ensures t in SignalsOf(nodes, v) {
        match t case Artists => case Labels => case Masters => case Releases =>
      }
    }
  }

  lemma FirstReads(s: State, v: Version)
    requires s.up && s.resumer == RefreshLatest && Newest(s.nodes, v)
    ensures var s' := Read(Read(s, v), v);
      s' == s.(resumer := if Complete(s.nodes, v) then RefreshMaintained(v) else Off)
  {
    assert Read(s, v) == s.(resumer := RefreshSignals(v));
  }

  lemma LastReads(s: State, v: Version)
    requires s.up && s.resumer == RefreshMaintained(v) && v in s.nodes && !s.task.Running? && !s.refresh.Refreshing?
    ensures var s' := Read(Read(s, v), v);
      s' == s.(resumer := Off, refresh :=
        if s.nodes[v].maintainedAt.Some? && s.nodes[v].statsVersion != Some(1) then Refreshing(v, 1, RefreshSweeping(0, false)) else s.refresh)
  {
    assert Read(s, v) == s.(resumer := if s.nodes[v].maintainedAt.Some? then RefreshStats(v) else Off);
  }

  lemma OffReadsNothing(s: State, v: Version)
    requires s.resumer.Off?
    ensures Read(Read(s, v), v) == s
  {
  }

  /** When the startup reads all succeed with both slots free, they start a refresh of the newest
      version if it needs one, and nothing otherwise. */
  lemma StartupRefreshesIff(s: State, v: Version)
    requires s.up && s.resumer == RefreshLatest && Newest(s.nodes, v) && !s.task.Running? && !s.refresh.Refreshing?
    ensures FourReads(s, v) == s.(resumer := Off,
              refresh := if NeedsRefresh(s.nodes, v) then Refreshing(v, 1, RefreshSweeping(0, false)) else s.refresh)
  {
    AllTypes(s.nodes, v);
    FirstReads(s, v);
    var s2 := Read(Read(s, v), v);
    if Complete(s.nodes, v) { LastReads(s2, v); } else { OffReadsNothing(s2, v); }
  }

  // ---------------------------------------------------------------- one marker

  function OneMarker(s: State, m: MarkerStep): State { Do(s, OnMarker(m)) }

  /** Delivery, flush, and the locked section, none of them failing. */
  function Recording(s: State, id: MessageId): State {
    OneMarker(OneMarker(OneMarker(OneMarker(Do(s, OnHost(DeliverMarker(id))), Flush(id, true, false)), Acquire(id)), Load(id, true, false)), Persist(id, Landed, false))
  }

  /** The rest of the handler, and its trigger. */
  function Concluding(s: State, id: MessageId): State {
    OneMarker(OneMarker(OneMarker(OneMarker(s, Decide(id)), Check(id, true, false)), Ack(id, true, false)), Trigger(id))
  }

  /** What the handler adds its own type to: the cache if it is of this version, else what it reads. */
  function KnownBefore(s: State, v: Version): set<DataType> {
    if s.cacheVersion == Some(v) then s.cache else SignalsOf(s.nodes, v)
  }

  function Entered(s: State, id: MessageId): State {
    OneMarker(OneMarker(Do(s, OnHost(DeliverMarker(id))), Flush(id, true, false)), Acquire(id))
  }

  lemma EntersLatch(s: State, id: MessageId)
    requires s.up && s.lock.Free? && id in s.desk.queued && id in s.desk.published
    ensures var m, s' := s.desk.published[id], Entered(s, id);
      && s'.nodes == s.nodes && s'.now == s.now && s'.task == s.task && s'.refresh == s.refresh && AtPhase(s'.desk, id, InSection)
      && s'.desk.handlers[id].marker == m && s'.desk.triggers == s.desk.triggers && s'.desk.acked == s.desk.acked
      && s'.lock == if s.cacheVersion == Some(m.version) then Writing(id, s.cache + {m.dataType}) else Reading(id)
  {
  }

  lemma LeavesLatch(s: State, id: MessageId, c: set<DataType>)
    requires AtPhase(s.desk, id, InSection)
    requires var m := s.desk.handlers[id].marker;
      s.lock == Writing(id, c) || (s.lock == Reading(id) && c == SignalsOf(s.nodes, m.version) + {m.dataType})
    ensures var m, s' := s.desk.handlers[id].marker, OneMarker(OneMarker(s, Load(id, true, false)), Persist(id, Landed, false));
      && s'.nodes == PersistSignals(s.nodes, m.version, c, s.now) && s'.lock.Free? && s'.task == s.task && s'.refresh == s.refresh
      && AtPhase(s'.desk, id, Recorded(c)) && s'.desk.handlers[id].marker == m
      && s'.desk.triggers == s.desk.triggers && s'.desk.acked == s.desk.acked && s'.cache == c && s'.cacheVersion == Some(m.version)
  {
  }

  /** A marker that meets no failure adds its type to the stored signals of its version, and its
      handler knows them: nothing else is stored. */
  lemma MarkerIsRecorded(s: State, id: MessageId)
    requires s.up && s.lock.Free? && id in s.desk.queued && id in s.desk.published
    requires KnownBefore(s, s.desk.published[id].version) <= SignalsOf(s.nodes, s.desk.published[id].version)
    ensures var m, s' := s.desk.published[id], Recording(s, id);
      && m.version in s'.nodes && s'.nodes[m.version].signals == SignalsOf(s.nodes, m.version) + {m.dataType}
      && (m.version in s.nodes ==> s'.nodes == s.nodes[m.version := s.nodes[m.version].(signals := s'.nodes[m.version].signals)])
      && (m.version !in s.nodes ==> s'.nodes == s.nodes[m.version := Completion({m.dataType}, s.now, None, NoStatus, None, None)])
      && AtPhase(s'.desk, id, Recorded(KnownBefore(s, m.version) + {m.dataType})) && s'.desk.handlers[id].marker == m && s'.lock.Free?
  {
    var m := s.desk.published[id];
    PersistAdds(s.nodes, m.version, KnownBefore(s, m.version), m.dataType, s.now);
    EntersLatch(s, id);
    LeavesLatch(Entered(s, id), id, KnownBefore(s, s.desk.published[id].version) + {s.desk.published[id].dataType});
  }

  lemma PersistAdds(nodes: Nodes, v: Version, known: set<DataType>, t: DataType, now: nat)
    requires known <= SignalsOf(nodes, v)
    ensures var nodes' := PersistSignals(nodes, v, known + {t}, now);
      && v in nodes' && nodes'[v].signals == SignalsOf(nodes, v) + {t}
      && (v in nodes ==> nodes' == nodes[v := nodes[v].(signals := nodes'[v].signals)])
      && (v !in nodes ==> nodes' == nodes[v := Completion({t}, now, None, NoStatus, None, None)])
  {
    if v in nodes {
      assert nodes[v].signals + (known + {t}) == SignalsOf(nodes, v) + {t};
    } else {
      assert {} + (known + {t}) == {t};
      assert SignalsOf(nodes, v) + {t} == {t};
    }
  }

  /** A handler that knows all four types of a version not yet stamped acks its marker and starts the
      pass, if the slot is free; any other only acks. */
  lemma HandlerConcludes(s: State, id: MessageId, c: set<DataType>)
    requires AtPhase(s.desk, id, Recorded(c)) && id !in s.desk.triggers
    ensures var v, s' := s.desk.handlers[id].marker.version, Concluding(s, id);
      && id in s'.desk.acked && id !in s'.desk.handlers && s'.desk.triggers == s.desk.triggers && s'.nodes == s.nodes
      && s'.task == if (forall t: DataType :: t in c) && !Maintained(s.nodes, v) && !s.task.Running? then Running(v, 1, Beginning, 0) else s.task
  {
    KnowsAll(c);
    var s1 := OneMarker(OneMarker(s, Decide(id)), Check(id, true, false));
    var v := s.desk.handlers[id].marker.version;
    assert s1.nodes == s.nodes && s1.task == s.task && s1.desk.triggers == s.desk.triggers && s1.desk.handlers.Keys == s.desk.handlers.Keys;
    assert s1.desk.handlers[id] == Handler(s.desk.handlers[id].marker, Acking((forall t: DataType :: t in c) && !Maintained(s.nodes, v)));
    AcksAndTriggers(s1, id);
  }

  lemma KnowsAll(c: set<DataType>)
    ensures DATA_TYPES <= c <==> forall t: DataType :: t in c
  {
    if DATA_TYPES <= c {
      forall t: DataType ensures t in c {
        match t case Artists => case Labels => case Masters => case Releases =>
      }
    }
  }

  lemma AcksAndTriggers(s: State, id: MessageId)
    requires id in s.desk.handlers && s.desk.handlers[id].phase.Acking? && id !in s.desk.triggers
    ensures var v, s' := s.desk.handlers[id].marker.version, OneMarker(OneMarker(s, Ack(id, true, false)), Trigger(id));
      && id in s'.desk.acked && id !in s'.desk.handlers && s'.desk.triggers == s.desk.triggers && s'.nodes == s.nodes
      && s'.task == if s.desk.handlers[id].phase.trigger && !s.task.Running? then Running(v, 1, Beginning, 0) else s.task
  {
    if s.desk.handlers[id].phase.trigger {
      assert s.desk.triggers[id := s.desk.handlers[id].marker.version] - {id} == s.desk.triggers;
    }
  }

  /** The requirement on the cache holds in every run. */
  lemma CacheIsKnown(steps: seq<Step>, v: Version)
    ensures KnownBefore(Execute(steps), v) <= SignalsOf(Execute(steps).nodes, v)
  {
    T.CacheMatchesDurableSignals(steps);
  }
}
