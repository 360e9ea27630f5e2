/** What holds in every run of the completion latch, over all interleavings, failed or
    ambiguous writes, crashes and restarts. */
module LatchTheorems {
  import opened Common
  import opened Latch

  // ---------------------------------------------------------------- invariants

  /** Every published marker is in exactly one place: queued, in a handler, acked or dead. */
  ghost predicate Conserved(d: Desk) {
    && d.queued !! d.handlers.Keys !! d.acked !! d.dead
    && d.published.Keys == d.queued + d.handlers.Keys + d.acked + d.dead
    && (forall id :: id in d.handlers ==> d.handlers[id].marker == d.published[id])
    && (forall id :: id in d.triggers ==> id in d.acked && d.triggers[id] == d.published[id].version)
  }

  predicate Signalled(nodes: Nodes, m: Marker) {
    m.dataType in SignalsOf(nodes, m.version)
  }

  /** What a handler's position in the code says about the durable signals. */
  predicate PhaseHolds(nodes: Nodes, h: Handler) {
    match h.phase
    case Recorded(c) => h.marker.dataType in c && c <= SignalsOf(nodes, h.marker.version)
    case Checking => Complete(nodes, h.marker.version) && Signalled(nodes, h.marker)
    case Acking(trigger) => Signalled(nodes, h.marker) && (trigger ==> Complete(nodes, h.marker.version))
    case _ => true
  }

  /** Acked markers, handlers and pending triggers all rest on durable signals. */
  ghost predicate DeskSound(nodes: Nodes, d: Desk) {
    && (forall id :: id in d.acked ==> id in d.published && Signalled(nodes, d.published[id]))
    && (forall id :: id in d.handlers ==> PhaseHolds(nodes, d.handlers[id]))
    && (forall id :: id in d.triggers ==> Complete(nodes, d.triggers[id]))
  }

  /** The marker's signal has been committed and its handler knows it. */
  predicate HasLanded(d: Desk, id: MessageId) {
    || id in d.acked
    || (id in d.handlers && (d.handlers[id].phase.Recorded? || d.handlers[id].phase.Checking? || d.handlers[id].phase.Acking?))
  }

  /** Every marker of version v that has landed is in the set. */
  ghost predicate HoldsLanded(d: Desk, v: Version, signals: set<DataType>) {
    forall id :: id in d.published && d.published[id].version == v && HasLanded(d, id) ==> d.published[id].dataType in signals
  }

  /** The cache holds exactly what it may: no more than the durable signals of its own version,
      and no less than what has landed for it. */
  ghost predicate CacheSound(nodes: Nodes, d: Desk, version: Option<Version>, cache: set<DataType>) {
    version.Some? ==> cache <= SignalsOf(nodes, version.value) && HoldsLanded(d, version.value, cache)
  }

  predicate Candidate(nodes: Nodes, m: Marker, c: set<DataType>) {
    m.dataType in c && c <= SignalsOf(nodes, m.version) + {m.dataType}
  }

  /** The candidate about to be written is the landed signals plus its own. */
  ghost predicate LockSound(nodes: Nodes, d: Desk, lock: Lock) {
    && (lock.Reading? || lock.Writing? ==> AtPhase(d, lock.id, InSection))
    && (lock.Writing? ==> Candidate(nodes, d.handlers[lock.id].marker, lock.candidate))
    && (lock.Writing? ==> HoldsLanded(d, d.handlers[lock.id].marker.version, lock.candidate))
  }

  /** The marker is not acked, and if its signal landed its handler still has to look at a
      complete set, or has seen it unstamped and holds the trigger. */
  predicate StillToNotice(d: Desk, id: MessageId) {
    && id !in d.acked
    && (id in d.handlers ==> match d.handlers[id].phase
                             case Recorded(c) => DATA_TYPES <= c
                             case Checking => true
                             case Acking(trigger) => trigger
                             case _ => true)
  }

  /** Some data type of the version has no marker past that point. */
  ghost predicate Outstanding(d: Desk, v: Version, t: DataType) {
    forall id :: id in d.published && d.published[id] == Marker(v, t) ==> StillToNotice(d, id)
  }

  ghost predicate Awaiting(d: Desk, v: Version) {
    exists t :: Outstanding(d, v, t)
  }

  /** The versions whose completion was answered: by a trigger, or by the stamp itself. */
  function Answered(nodes: Nodes, triggered: set<Version>): set<Version> {
    triggered + set v | v in nodes && nodes[v].maintainedAt.Some?
  }

  /** A version not answered yet still awaits one of its data types. */
  ghost predicate NoneMissed(d: Desk, answered: set<Version>) {
    forall v :: v !in answered ==> Awaiting(d, v)
  }

  predicate Success(log: AttemptLog, v: Version) {
    log.version == v && log.drained && |log.results| == STEPS && AllTrue(log.results)
  }

  predicate InProgress(log: AttemptLog, v: Version) {
    log.version == v && log.drained && |log.results| < STEPS
  }

  /** The running task is for a complete version, and its log matches how far it has come. */
  predicate TaskSound(nodes: Nodes, history: seq<AttemptLog>, t: Task) {
    t.Running? ==>
      && Complete(nodes, t.version)
      && (t.stage.Draining? ==> LogOpen(history, t) && history[t.log] == AttemptLog(t.version, false, []))
      && (t.stage.Sweeping? ==> LogOpen(history, t) && InProgress(history[t.log], t.version))
      && (t.stage.AwaitingStamp? ==> LogOpen(history, t) && Success(history[t.log], t.version))
  }

  /** No sweep step ever ran in an attempt whose drain failed. */
  predicate DrainedFirst(history: seq<AttemptLog>) {
    forall i :: 0 <= i < |history| ==> (history[i].results != [] ==> history[i].drained)
  }

  predicate ResumeSound(nodes: Nodes, r: Resumer, f: Refresh) {
    && (r.AskMaintained? ==> Complete(nodes, r.v))
    && (r.RefreshMaintained? ==> Complete(nodes, r.v))
    && (r.RefreshStats? ==> Maintained(nodes, r.v))
    && (f.Refreshing? ==> Maintained(nodes, f.version))
  }

  ghost predicate HasSuccess(history: seq<AttemptLog>, v: Version) {
    exists i :: 0 <= i < |history| && Success(history[i], v)
  }

  /** A stamped node is complete, carries no failure, and had one fully successful attempt;
      nothing else carries a stats version or a success. */
  ghost predicate NodeSound(history: seq<AttemptLog>, v: Version, n: Completion) {
    && (n.maintainedAt.Some? ==> DATA_TYPES <= n.signals && n.status.Succeeded? && HasSuccess(history, v))
    && (n.status.Succeeded? ==> n.maintainedAt.Some?)
    && (n.statsVersion.Some? ==> n.maintainedAt.Some?)
    && (n.error.Some? ==> n.status.Failed? && |n.error.value| <= ERROR_MAX_CHARS)
  }

  ghost predicate NodesSound(nodes: Nodes, history: seq<AttemptLog>) {
    forall v :: v in nodes ==> NodeSound(history, v, nodes[v])
  }

  ghost predicate Inv(s: State) {
    && Conserved(s.desk)
    && DeskSound(s.nodes, s.desk)
    && CacheSound(s.nodes, s.desk, s.cacheVersion, s.cache)
    && LockSound(s.nodes, s.desk, s.lock)
    && NoneMissed(s.desk, Answered(s.nodes, s.triggered))
    && (forall v :: v in s.triggered ==> Complete(s.nodes, v))
    && TaskSound(s.nodes, s.history, s.task)
    && DrainedFirst(s.history)
    && ResumeSound(s.nodes, s.resumer, s.refresh)
    && NodesSound(s.nodes, s.history)
  }

  // ---------------------------------------------------------------- durable growth

  /** Each of the service's data types has a durable signal of the version. */
  ghost predicate AllSignalled(nodes: Nodes, v: Version) {
    forall t: DataType :: t in SignalsOf(nodes, v)
  }

  /** The constant the code compares with holds every data type. */
  lemma CompleteIsAllSignalled(nodes: Nodes, v: Version)
    ensures Complete(nodes, v) <==> AllSignalled(nodes, v)
  {
    forall t: DataType ensures t in DATA_TYPES {
      match t
      case Artists =>
      case Labels =>
      case Masters =>
      case Releases =>
    }
  }

  /** Durable nodes only grow: signals accumulate and a stamp, once written, never moves. */
  ghost predicate NodesGrow(a: Nodes, b: Nodes) {
    forall v :: v in a ==>
      && v in b
      && a[v].signals <= b[v].signals
      && a[v].createdAt == b[v].createdAt
      && (a[v].maintainedAt.Some? ==> b[v].maintainedAt == a[v].maintainedAt)
  }

  lemma SignalsGrow(a: Nodes, b: Nodes, v: Version)
    requires NodesGrow(a, b)
    ensures SignalsOf(a, v) <= SignalsOf(b, v)
    ensures Complete(a, v) ==> Complete(b, v)
    ensures Maintained(a, v) ==> Maintained(b, v)
  {
  }

  /** Everything that rests on the durable nodes still rests on grown ones. */
  lemma GrowthKeeps(s: State, nodes: Nodes)
    requires Inv(s) && NodesGrow(s.nodes, nodes)
    ensures DeskSound(nodes, s.desk)
    ensures CacheSound(nodes, s.desk, s.cacheVersion, s.cache)
    ensures LockSound(nodes, s.desk, s.lock)
    ensures TaskSound(nodes, s.history, s.task)
    ensures ResumeSound(nodes, s.resumer, s.refresh)
    ensures forall v :: v in s.triggered ==> Complete(nodes, v)
    ensures NoneMissed(s.desk, Answered(nodes, s.triggered))
  {
    forall v ensures SignalsOf(s.nodes, v) <= SignalsOf(nodes, v) && (Maintained(s.nodes, v) ==> Maintained(nodes, v)) {
      SignalsGrow(s.nodes, nodes, v);
    }
  }

  // ---------------------------------------------------------------- the desk

  lemma PublishKeeps(d: Desk, id: MessageId, m: Marker)
    requires Conserved(d) && id !in d.published
    ensures Conserved(Publish(d, id, m))
    ensures forall i :: HasLanded(Publish(d, id, m), i) == HasLanded(d, i)
    ensures StillToNotice(Publish(d, id, m), id)
  {
  }

  lemma DeliverKeeps(d: Desk, id: MessageId)
    requires Conserved(d) && id in d.queued
    ensures Conserved(Deliver(d, id))
    ensures forall i :: HasLanded(Deliver(d, id), i) == HasLanded(d, i)
    ensures forall i :: StillToNotice(d, i) ==> StillToNotice(Deliver(d, id), i)
  {
  }

  lemma ReturnKeeps(d: Desk, id: MessageId, bury: bool)
    requires Conserved(d) && id in d.handlers
    ensures Conserved(Return(d, id, bury))
    ensures forall i :: HasLanded(Return(d, id, bury), i) ==> HasLanded(d, i)
    ensures forall i :: StillToNotice(d, i) ==> StillToNotice(Return(d, id, bury), i)
  {
  }

  lemma AbandonKeeps(d: Desk)
    requires Conserved(d)
    ensures Conserved(Abandon(d))
    ensures forall i :: HasLanded(Abandon(d), i) ==> HasLanded(d, i)
    ensures forall i :: StillToNotice(d, i) ==> StillToNotice(Abandon(d), i)
  {
  }

  lemma SettleKeeps(d: Desk, id: MessageId)
    requires Conserved(d) && id in d.handlers && d.handlers[id].phase.Acking?
    ensures Conserved(Settle(d, id))
    ensures forall i :: HasLanded(Settle(d, id), i) == HasLanded(d, i)
    ensures forall i :: i != id && StillToNotice(d, i) ==> StillToNotice(Settle(d, id), i)
  {
  }

  lemma SetPhaseKeeps(d: Desk, id: MessageId, phase: Phase)
    requires Conserved(d) && id in d.handlers
    ensures Conserved(SetPhase(d, id, phase))
    ensures forall i :: i != id ==> HasLanded(SetPhase(d, id, phase), i) == HasLanded(d, i)
    ensures forall i :: i != id && StillToNotice(d, i) ==> StillToNotice(SetPhase(d, id, phase), i)
  {
  }

  /** A desk that lets go of deliveries without any new landing keeps every claim about it. */
  lemma FewerLandedKeeps(nodes: Nodes, d: Desk, d': Desk, answered: set<Version>, version: Option<Version>, cache: set<DataType>)
    requires CacheSound(nodes, d, version, cache) && NoneMissed(d, answered)
    requires d'.published == d.published
    requires forall i :: HasLanded(d', i) ==> HasLanded(d, i)
    requires forall i :: StillToNotice(d, i) ==> StillToNotice(d', i)
    ensures CacheSound(nodes, d', version, cache) && NoneMissed(d', answered)
  {
    forall v | v !in answered ensures Awaiting(d', v) {
      var t :| Outstanding(d, v, t);
      assert Outstanding(d', v, t);
    }
  }

  // ---------------------------------------------------------------- marker steps

  /** A step that only rearranges the desk, landing nothing and leaving the section alone. */
  lemma DeskStepKeeps(s: State, d: Desk)
    requires Inv(s) && Conserved(d) && DeskSound(s.nodes, d)
    requires d.published == s.desk.published
    requires forall i :: HasLanded(d, i) ==> HasLanded(s.desk, i)
    requires forall i :: StillToNotice(s.desk, i) ==> StillToNotice(d, i)
    requires forall i :: AtPhase(s.desk, i, InSection) ==> AtPhase(d, i, InSection)
    ensures Inv(s.(desk := d))
  {
    FewerLandedKeeps(s.nodes, s.desk, d, Answered(s.nodes, s.triggered), s.cacheVersion, s.cache);
  }

  lemma PublishStep(s: State, id: MessageId, m: Marker)
    requires Inv(s) && id !in s.desk.published
    ensures Inv(s.(desk := Publish(s.desk, id, m)))
  {
    PublishKeeps(s.desk, id, m);
    assert !HasLanded(Publish(s.desk, id, m), id);
    PublishLeavesAwaiting(s.desk, id, m, Answered(s.nodes, s.triggered));
  }

  lemma PublishLeavesAwaiting(desk: Desk, id: MessageId, m: Marker, answered: set<Version>)
    requires Conserved(desk) && id !in desk.published && NoneMissed(desk, answered)
    ensures NoneMissed(Publish(desk, id, m), answered)
  {
    var d := Publish(desk, id, m);
    assert forall i :: i != id && StillToNotice(desk, i) ==> StillToNotice(d, i);
    forall v | v !in answered ensures Awaiting(d, v) {
      var t :| Outstanding(desk, v, t);
      assert Outstanding(d, v, t);
    }
  }

  lemma DeliverStep(s: State, id: MessageId)
    requires Inv(s) && id in s.desk.queued
    ensures Inv(s.(desk := Deliver(s.desk, id)))
  {
    DeliverKeeps(s.desk, id);
    DeskStepKeeps(s, Deliver(s.desk, id));
  }

  lemma ReturnStep(s: State, id: MessageId, bury: bool)
    requires Inv(s) && id in s.desk.handlers && s.desk.handlers[id].phase != InSection
    ensures Inv(s.(desk := Return(s.desk, id, bury)))
  {
    ReturnKeeps(s.desk, id, bury);
    DeskStepKeeps(s, Return(s.desk, id, bury));
  }

  /** The lock holder gives up: the section is left and the delivery goes back. */
  lemma ReturnFromSection(s: State, id: MessageId, bury: bool)
    requires Inv(s) && id in s.desk.handlers
    ensures Inv(s.(desk := Return(s.desk, id, bury), lock := Free))
  {
    ReturnKeeps(s.desk, id, bury);
    FewerLandedKeeps(s.nodes, s.desk, Return(s.desk, id, bury), Answered(s.nodes, s.triggered), s.cacheVersion, s.cache);
  }

  lemma FlushStep(s: State, id: MessageId, ok: bool, bury: bool)
    requires Inv(s) && FlushEnabled(s, id)
    ensures Inv(DoFlush(s, id, ok, bury))
  {
    if ok {
      SetPhaseKeeps(s.desk, id, AwaitingLock);
      DeskStepKeeps(s, SetPhase(s.desk, id, AwaitingLock));
    } else {
      ReturnStep(s, id, bury);
    }
  }

  lemma AcquireStep(s: State, id: MessageId)
    requires Inv(s) && AcquireEnabled(s, id)
    ensures Inv(DoAcquire(s, id))
  {
    SetPhaseKeeps(s.desk, id, InSection);
    DeskStepKeeps(s, SetPhase(s.desk, id, InSection));
  }

  lemma LoadStep(s: State, id: MessageId, ok: bool, bury: bool)
    requires Inv(s) && LoadEnabled(s, id)
    ensures Inv(DoLoad(s, id, ok, bury))
  {
    if ok {
      DurableHoldsLanded(s.nodes, s.desk, s.desk.handlers[id].marker.version);
    } else {
      ReturnFromSection(s, id, bury);
    }
  }

  /** Reading the durable node misses nothing that has landed. */
  lemma DurableHoldsLanded(nodes: Nodes, d: Desk, v: Version)
    requires Conserved(d) && DeskSound(nodes, d)
    ensures HoldsLanded(d, v, SignalsOf(nodes, v))
  {
    forall id | id in d.published && d.published[id].version == v && HasLanded(d, id)
      ensures d.published[id].dataType in SignalsOf(nodes, v)
    {
      if id in d.handlers { assert PhaseHolds(nodes, d.handlers[id]); }
    }
  }

  lemma PersistGrows(nodes: Nodes, v: Version, c: set<DataType>, now: nat)
    ensures NodesGrow(nodes, PersistSignals(nodes, v, c, now))
    ensures SignalsOf(PersistSignals(nodes, v, c, now), v) == SignalsOf(nodes, v) + c
  {
  }

  lemma PersistKeepsNodes(nodes: Nodes, history: seq<AttemptLog>, v: Version, c: set<DataType>, now: nat)
    requires NodesSound(nodes, history)
    ensures NodesSound(PersistSignals(nodes, v, c, now), history)
  {
  }

  /** A commit whatever its report: the nodes grow, everything else stands. */
  lemma CommitKeeps(s: State, id: MessageId)
    requires Inv(s) && PersistEnabled(s, id)
    ensures Inv(s.(nodes := PersistSignals(s.nodes, s.desk.handlers[id].marker.version, s.lock.candidate, s.now)))
  {
    var v, c := s.desk.handlers[id].marker.version, s.lock.candidate;
    PersistGrows(s.nodes, v, c, s.now);
    PersistKeepsNodes(s.nodes, s.history, v, c, s.now);
    GrowthKeeps(s, PersistSignals(s.nodes, v, c, s.now));
  }

  /** The moment a signal lands: the cache takes the candidate and nothing is missed. */
  lemma LandingKeeps(s: State, id: MessageId)
    requires Inv(s) && PersistEnabled(s, id)
    requires s.lock.candidate <= SignalsOf(s.nodes, s.desk.handlers[id].marker.version)
    ensures var m, c := s.desk.handlers[id].marker, s.lock.candidate;
      Inv(s.(lock := Free, desk := SetPhase(s.desk, id, Recorded(c)), cache := c, cacheVersion := Some(m.version)))
  {
    var m, c := s.desk.handlers[id].marker, s.lock.candidate;
    var d := SetPhase(s.desk, id, Recorded(c));
    SetPhaseKeeps(s.desk, id, Recorded(c));
    forall v | v !in Answered(s.nodes, s.triggered) ensures Awaiting(d, v) {
      var t :| Outstanding(s.desk, v, t);
      if v == m.version && t == m.dataType && !(DATA_TYPES <= c) {
        var u :| u in DATA_TYPES && u !in c;
        NotLandedIsOutstanding(s.desk, v, u, c);
        assert Outstanding(d, v, u);
      } else {
        assert Outstanding(d, v, t);
      }
    }
  }

  /** A data type missing from a set that holds everything landed has no marker past it. */
  lemma NotLandedIsOutstanding(d: Desk, v: Version, t: DataType, c: set<DataType>)
    requires Conserved(d) && HoldsLanded(d, v, c) && t !in c
    ensures Outstanding(d, v, t)
  {
    forall id | id in d.published && d.published[id] == Marker(v, t) ensures StillToNotice(d, id) {
      assert !HasLanded(d, id);
    }
  }

  lemma PersistStep(s: State, id: MessageId, fate: Fate, bury: bool)
    requires Inv(s) && PersistEnabled(s, id)
    ensures Inv(DoPersist(s, id, fate, bury))
  {
    var v, c := s.desk.handlers[id].marker.version, s.lock.candidate;
    var s1 := s.(nodes := PersistSignals(s.nodes, v, c, s.now));
    CommitKeeps(s, id);
    PersistGrows(s.nodes, v, c, s.now);
    match fate
    case Landed => LandingKeeps(s1, id);
    case Lost => ReturnFromSection(s, id, bury);
    case Ambiguous => ReturnFromSection(s1, id, bury);
  }

  lemma DecideStep(s: State, id: MessageId)
    requires Inv(s) && DecideEnabled(s, id)
    ensures Inv(DoDecide(s, id))
  {
    var h := s.desk.handlers[id];
    assert PhaseHolds(s.nodes, h);
    DecideNotices(s, id);
    MoveOnKeeps(s, id, if DATA_TYPES <= h.phase.signals then Checking else Acking(false));
  }

  /** A landed handler moving to a later phase that its signals justify. */
  lemma MoveOnKeeps(s: State, id: MessageId, phase: Phase)
    requires Inv(s) && DecideEnabled(s, id) && (phase.Checking? || phase.Acking?)
    requires PhaseHolds(s.nodes, s.desk.handlers[id].(phase := phase))
    requires NoneMissed(SetPhase(s.desk, id, phase), Answered(s.nodes, s.triggered))
    ensures Inv(s.(desk := SetPhase(s.desk, id, phase)))
  {
    SetPhaseKeeps(s.desk, id, phase);
    PhaseKeepsDesk(s.nodes, s.desk, id, phase);
    LandedClaimsKept(s, SetPhase(s.desk, id, phase));
  }

  lemma PhaseKeepsDesk(nodes: Nodes, d: Desk, id: MessageId, phase: Phase)
    requires DeskSound(nodes, d) && id in d.handlers && PhaseHolds(nodes, d.handlers[id].(phase := phase))
    ensures DeskSound(nodes, SetPhase(d, id, phase))
  {
  }

  lemma LandedClaimsKept(s: State, d: Desk)
    requires Inv(s) && d.published == s.desk.published
    requires forall i :: HasLanded(d, i) == HasLanded(s.desk, i)
    requires forall i :: AtPhase(s.desk, i, InSection) ==> AtPhase(d, i, InSection) && d.handlers[i] == s.desk.handlers[i]
    ensures CacheSound(s.nodes, d, s.cacheVersion, s.cache) && LockSound(s.nodes, d, s.lock)
  {
  }

  /** A handler that moves on still has the complete set to look at, or was not the one awaited. */
  lemma DecideNotices(s: State, id: MessageId)
    requires Inv(s) && DecideEnabled(s, id)
    ensures NoneMissed(DoDecide(s, id).desk, Answered(s.nodes, s.triggered))
  {
    var h, s' := s.desk.handlers[id], DoDecide(s, id);
    SetPhaseKeeps(s.desk, id, s'.desk.handlers[id].phase);
    forall v | v !in Answered(s.nodes, s.triggered) ensures Awaiting(s'.desk, v) {
      var t :| Outstanding(s.desk, v, t);
      assert h.marker == Marker(v, t) ==> StillToNotice(s.desk, id);
      assert Outstanding(s'.desk, v, t);
    }
  }

  lemma CheckStep(s: State, id: MessageId, ok: bool, bury: bool)
    requires Inv(s) && CheckEnabled(s, id)
    ensures Inv(DoCheck(s, id, ok, bury))
  {
    if ok {
      assert PhaseHolds(s.nodes, s.desk.handlers[id]);
      CheckNotices(s, id);
      CheckedKeeps(s, id, Acking(!Maintained(s.nodes, s.desk.handlers[id].marker.version)));
    } else {
      ReturnStep(s, id, bury);
    }
  }

  lemma CheckedKeeps(s: State, id: MessageId, phase: Phase)
    requires Inv(s) && CheckEnabled(s, id) && phase.Acking? && PhaseHolds(s.nodes, s.desk.handlers[id].(phase := phase))
    requires NoneMissed(SetPhase(s.desk, id, phase), Answered(s.nodes, s.triggered))
    ensures Inv(s.(desk := SetPhase(s.desk, id, phase)))
  {
    SetPhaseKeeps(s.desk, id, phase);
    PhaseKeepsDesk(s.nodes, s.desk, id, phase);
    LandedClaimsKept(s, SetPhase(s.desk, id, phase));
  }

  /** A handler that finds no stamp keeps its trigger in hand; one that finds it was answered. */
  lemma CheckNotices(s: State, id: MessageId)
    requires Inv(s) && CheckEnabled(s, id)
    ensures NoneMissed(SetPhase(s.desk, id, Acking(!Maintained(s.nodes, s.desk.handlers[id].marker.version))), Answered(s.nodes, s.triggered))
  {
    var h := s.desk.handlers[id];
    var d := SetPhase(s.desk, id, Acking(!Maintained(s.nodes, h.marker.version)));
    SetPhaseKeeps(s.desk, id, d.handlers[id].phase);
    forall v | v !in Answered(s.nodes, s.triggered) ensures Awaiting(d, v) {
      var t :| Outstanding(s.desk, v, t);
      assert h.marker.version == v ==> !Maintained(s.nodes, v);
      assert Outstanding(d, v, t);
    }
  }

  /** Settling a delivery answers its version if it held the trigger; otherwise it was not the one
      awaited. */
  lemma SettleNotices(s: State, id: MessageId, triggered: set<Version>)
    requires Inv(s) && AckEnabled(s, id)
    requires triggered == if s.desk.handlers[id].phase.trigger then s.triggered + {s.desk.handlers[id].marker.version} else s.triggered
    ensures NoneMissed(Settle(s.desk, id), Answered(s.nodes, triggered))
  {
    var h, d := s.desk.handlers[id], Settle(s.desk, id);
    SettleKeeps(s.desk, id);
    forall v | v !in Answered(s.nodes, triggered) ensures Awaiting(d, v) {
      assert v !in Answered(s.nodes, s.triggered);
      var t :| Outstanding(s.desk, v, t);
      assert h.marker == Marker(v, t) ==> StillToNotice(s.desk, id);
      assert Outstanding(d, v, t);
    }
  }

  lemma SettledDesk(s: State, id: MessageId)
    requires Inv(s) && AckEnabled(s, id)
    ensures DeskSound(s.nodes, Settle(s.desk, id)) && Conserved(Settle(s.desk, id))
  {
    SettleKeeps(s.desk, id);
    assert PhaseHolds(s.nodes, s.desk.handlers[id]);
  }

  lemma AckStep(s: State, id: MessageId, ok: bool, bury: bool)
    requires Inv(s) && AckEnabled(s, id)
    ensures Inv(DoAck(s, id, ok, bury))
  {
    if ok {
      SettleKeeps(s.desk, id);
      SettledDesk(s, id);
      assert PhaseHolds(s.nodes, s.desk.handlers[id]);
      SettleNotices(s, id, DoAck(s, id, ok, bury).triggered);
      LandedClaimsKept(s, Settle(s.desk, id));
    } else {
      ReturnStep(s, id, bury);
    }
  }

  lemma StartKeeps(s: State, v: Version)
    requires Inv(s) && Complete(s.nodes, v)
    ensures Inv(StartMaintenance(s, v))
  {
  }

  lemma TriggerStep(s: State, id: MessageId)
    requires Inv(s) && id in s.desk.triggers
    ensures Inv(DoTrigger(s, id))
  {
    var d := s.desk.(triggers := s.desk.triggers - {id});
    DeskStepKeeps(s, d);
    StartKeeps(s.(desk := d), s.desk.triggers[id]);
  }

  // ---------------------------------------------------------------- maintenance steps

  /** Logs only gain results, so a success stays a success. */
  lemma SuccessKept(nodes: Nodes, a: seq<AttemptLog>, b: seq<AttemptLog>)
    requires NodesSound(nodes, a) && |a| <= |b|
    requires forall i :: 0 <= i < |a| && |a[i].results| == STEPS ==> b[i] == a[i]
    ensures NodesSound(nodes, b)
  {
    forall v | v in nodes && nodes[v].maintainedAt.Some? ensures HasSuccess(b, v) {
      var i :| 0 <= i < |a| && Success(a[i], v);
      assert Success(b[i], v);
    }
  }

  lemma BeginStep(s: State, shutdown: bool)
    requires Inv(s) && TaskIn(s, Beginning)
    ensures Inv(DoBegin(s, shutdown))
  {
    if !shutdown { SuccessKept(s.nodes, s.history, s.history + [AttemptLog(s.task.version, false, [])]); }
  }

  lemma DrainStep(s: State, ok: bool)
    requires Inv(s) && DrainEnabled(s)
    ensures Inv(DoDrain(s, ok))
  {
    if ok { SuccessKept(s.nodes, s.history, DoDrain(s, ok).history); }
  }

  /** Only the task and its history moved. */
  lemma TaskMoves(s: State, s': State)
    requires Inv(s) && s' == s.(history := s'.history, task := s'.task)
    requires TaskSound(s.nodes, s'.history, s'.task) && DrainedFirst(s'.history) && NodesSound(s.nodes, s'.history)
    ensures Inv(s')
  {
  }

  lemma SweepStepTask(s: State, ok: bool, s': State)
    requires SweepEnabled(s) && s' == DoSweepStep(s, ok) && TaskSound(s.nodes, s.history, s.task) && DrainedFirst(s.history)
    ensures TaskSound(s.nodes, s'.history, s'.task) && DrainedFirst(s'.history)
    ensures s' == s.(history := s'.history, task := s'.task)
  {
  }

  lemma SweepStepKeeps(s: State, ok: bool)
    requires Inv(s) && SweepEnabled(s)
    ensures Inv(DoSweepStep(s, ok))
  {
    SweepStepTask(s, ok, DoSweepStep(s, ok));
    SuccessKept(s.nodes, s.history, DoSweepStep(s, ok).history);
    TaskMoves(s, DoSweepStep(s, ok));
  }

  lemma StampStep(s: State, fate: Fate)
    requires Inv(s) && StampEnabled(s)
    ensures Inv(DoStamp(s, fate))
  {
    var v := s.task.version;
    var nodes := StampSuccess(s.nodes, v, s.now);
    assert NodesGrow(s.nodes, nodes);
    GrowthKeeps(s, nodes);
    assert HasSuccess(s.history, v) by { assert Success(s.history[s.task.log], v); }
    assert NodesSound(nodes, s.history);
  }

  lemma FailStep(s: State, fate: Fate, error: string)
    requires Inv(s) && FailEnabled(s)
    ensures Inv(DoFail(s, fate, error))
  {
    var nodes := RecordFailure(s.nodes, s.task.version, error);
    assert NodesGrow(s.nodes, nodes);
    GrowthKeeps(s, nodes);
    assert NodesSound(nodes, s.history);
  }

  lemma StampStatsStep(s: State, fate: Fate)
    requires Inv(s) && StampStatsEnabled(s)
    ensures Inv(DoStampStats(s, fate))
  {
    var nodes := StampStats(s.nodes, s.refresh.version);
    assert NodesGrow(s.nodes, nodes);
    GrowthKeeps(s, nodes);
    assert NodesSound(nodes, s.history);
  }

  lemma ResumeStep(s: State, newest: Version, ok: bool)
    requires Inv(s) && ResumeEnabled(s, newest)
    ensures Inv(DoResume(s, newest, ok))
  {
    if s.resumer.AskMaintained? { StartKeeps(s.(resumer := Off), s.resumer.v); }
  }

  lemma CrashStep(s: State)
    requires Inv(s)
    ensures Inv(DoCrash(s))
  {
    AbandonKeeps(s.desk);
    FewerLandedKeeps(s.nodes, s.desk, Abandon(s.desk), Answered(s.nodes, s.triggered), None, {});
  }

  // ---------------------------------------------------------------- every run

  lemma MarkerStepKeepsInv(s: State, step: MarkerStep)
    requires Inv(s)
    ensures Inv(DoMarker(s, step))
  {
    match step
    case Flush(id, ok, bury) => if FlushEnabled(s, id) { FlushStep(s, id, ok, bury); }
    case Acquire(id) => if AcquireEnabled(s, id) { AcquireStep(s, id); }
    case Load(id, ok, bury) => if LoadEnabled(s, id) { LoadStep(s, id, ok, bury); }
    case Persist(id, fate, bury) => if PersistEnabled(s, id) { PersistStep(s, id, fate, bury); }
    case Decide(id) => if DecideEnabled(s, id) { DecideStep(s, id); }
    case Check(id, ok, bury) => if CheckEnabled(s, id) { CheckStep(s, id, ok, bury); }
    case Ack(id, ok, bury) => if AckEnabled(s, id) { AckStep(s, id, ok, bury); }
    case Trigger(id) => if id in s.desk.triggers { TriggerStep(s, id); }
  }

  /** Taking the lock for a stamp, or moving the refresh on, touches none of the claims. */
  lemma QuietTaskStepKeepsInv(s: State, step: TaskStep)
    requires Inv(s) && (step.AcquireForTask? || step.RefreshStep? || step.RefreshStop? || step.AcquireForRefresh?)
    ensures Inv(DoTask(s, step))
  {
    var s' := DoTask(s, step);
    assert s' == s.(lock := s'.lock, refresh := s'.refresh);
    assert s'.lock == s.lock || !(s'.lock.Reading? || s'.lock.Writing?);
    assert s'.refresh.Refreshing? ==> s.refresh.Refreshing? && s'.refresh.version == s.refresh.version;
  }

  lemma TaskStepKeepsInv(s: State, step: TaskStep)
    requires Inv(s)
    ensures Inv(DoTask(s, step))
  {
    match step
    case Begin(shutdown) => if TaskIn(s, Beginning) { BeginStep(s, shutdown); }
    case Drain(ok) => if DrainEnabled(s) { DrainStep(s, ok); }
    case SweepStep(ok) => if SweepEnabled(s) { SweepStepKeeps(s, ok); }
    case Stamp(fate) => if StampEnabled(s) { StampStep(s, fate); }
    case Fail(fate, error) => if FailEnabled(s) { FailStep(s, fate, error); }
    case StampStatsVersion(fate) => if StampStatsEnabled(s) { StampStatsStep(s, fate); }
    case _ => QuietTaskStepKeepsInv(s, step);
  }

  lemma HostStepKeepsInv(s: State, step: HostStep)
    requires Inv(s)
    ensures Inv(DoHost(s, step))
  {
    match step
    case Tick =>
    case Boot =>
    case PublishMarker(id, m) => if id !in s.desk.published { PublishStep(s, id, m); }
    case DeliverMarker(id) => if s.up && id in s.desk.queued { DeliverStep(s, id); }
    case Crash => CrashStep(s);
    case ResumeRead(v, ok) => if ResumeEnabled(s, v) { ResumeStep(s, v, ok); }
  }

  lemma {:induction false} EveryRunKeepsInv(steps: seq<Step>)
    ensures Inv(Execute(steps))
  {
    if steps == [] {
      forall v ensures Awaiting(EMPTY.desk, v) {
        assert Outstanding(EMPTY.desk, v, Artists);
      }
    } else {
      EveryRunKeepsInv(steps[..|steps| - 1]);
      var s := Execute(steps[..|steps| - 1]);
      match steps[|steps| - 1]
      case OnMarker(m) => MarkerStepKeepsInv(s, m);
      case OnTask(t) => TaskStepKeepsInv(s, t);
      case OnHost(h) => HostStepKeepsInv(s, h);
    }
  }

  // ---------------------------------------------------------------- growth along a run

  ghost predicate Grows(s: State, s': State) {
    && NodesGrow(s.nodes, s'.nodes)
    && s.desk.acked <= s'.desk.acked
    && s.desk.published.Keys <= s'.desk.published.Keys
    && (forall id :: id in s.desk.published ==> s'.desk.published[id] == s.desk.published[id])
    && s.triggered <= s'.triggered
  }

  lemma PersistStepGrows(s: State, id: MessageId, fate: Fate, bury: bool)
    requires PersistEnabled(s, id)
    ensures Grows(s, DoPersist(s, id, fate, bury))
  {
    PersistGrows(s.nodes, s.desk.handlers[id].marker.version, s.lock.candidate, s.now);
  }

  lemma EarlyStepGrows(s: State, step: MarkerStep)
    requires step.Flush? || step.Acquire? || step.Load?
    ensures Grows(s, DoMarker(s, step))
  {
  }

  lemma LateStepGrows(s: State, step: MarkerStep)
    requires step.Decide? || step.Check? || step.Ack? || step.Trigger?
    ensures Grows(s, DoMarker(s, step))
  {
  }

  lemma MarkerStepGrows(s: State, step: MarkerStep)
    ensures Grows(s, DoMarker(s, step))
  {
    match step
    case Persist(id, fate, bury) => { if PersistEnabled(s, id) { PersistStepGrows(s, id, fate, bury); } }
    case Flush(_, _, _) => { EarlyStepGrows(s, step); }
    case Acquire(_) => { EarlyStepGrows(s, step); }
    case Load(_, _, _) => { EarlyStepGrows(s, step); }
    case _ => { LateStepGrows(s, step); }
  }

  lemma StampsGrow(nodes: Nodes, v: Version, now: nat, error: string)
    ensures NodesGrow(nodes, StampSuccess(nodes, v, now)) && NodesGrow(nodes, RecordFailure(nodes, v, error)) && NodesGrow(nodes, StampStats(nodes, v))
  {
  }

  lemma StampGrows(s: State, fate: Fate)
    requires StampEnabled(s)
    ensures Grows(s, DoStamp(s, fate))
  {
    StampsGrow(s.nodes, s.task.version, s.now, "");
  }

  lemma FailGrows(s: State, fate: Fate, error: string)
    requires FailEnabled(s)
    ensures Grows(s, DoFail(s, fate, error))
  {
    StampsGrow(s.nodes, s.task.version, s.now, error);
  }

  lemma StampStatsGrows(s: State, fate: Fate)
    requires StampStatsEnabled(s)
    ensures Grows(s, DoStampStats(s, fate))
  {
    StampsGrow(s.nodes, s.refresh.version, s.now, "");
  }

  /** A step that writes no node and leaves the broker's view alone. */
  lemma SameNodesGrow(s: State, s': State)
    requires s'.nodes == s.nodes && s'.desk == s.desk && s'.triggered == s.triggered
    ensures Grows(s, s')
  {
  }

  lemma TaskStepGrows(s: State, step: TaskStep)
    ensures Grows(s, DoTask(s, step))
  {
    match step
    case Stamp(fate) => { if StampEnabled(s) { StampGrows(s, fate); } }
    case Fail(fate, error) => { if FailEnabled(s) { FailGrows(s, fate, error); } }
    case StampStatsVersion(fate) => { if StampStatsEnabled(s) { StampStatsGrows(s, fate); } }
    case _ => { SameNodesGrow(s, DoTask(s, step)); }
  }

  lemma HostStepGrows(s: State, step: HostStep)
    ensures Grows(s, DoHost(s, step))
  {
  }

  lemma StepGrows(s: State, step: Step)
    ensures Grows(s, Do(s, step))
  {
    match step
    case OnMarker(m) => MarkerStepGrows(s, m);
    case OnTask(t) => TaskStepGrows(s, t);
    case OnHost(h) => HostStepGrows(s, h);
  }

  lemma GrowsTransitive(a: State, b: State, c: State)
    requires Grows(a, b) && Grows(b, c)
    ensures Grows(a, c)
  {
  }

  lemma ExecuteOne(steps: seq<Step>, step: Step)
    ensures Execute(steps + [step]) == Do(Execute(steps), step)
  {
    assert (steps + [step])[..|steps|] == steps;
  }

  lemma {:induction false} RunGrows(steps: seq<Step>, more: seq<Step>)
    ensures Grows(Execute(steps), Execute(steps + more))
    decreases |more|
  {
    if more == [] {
      assert steps + more == steps;
    } else {
      var front, last := more[..|more| - 1], more[|more| - 1];
      RunGrows(steps, front);
      assert steps + more == steps + front + [last];
      ExecuteOne(steps + front, last);
      StepGrows(Execute(steps + front), last);
      GrowsTransitive(Execute(steps), Execute(steps + front), Execute(steps + more));
    }
  }

  // ---------------------------------------------------------------- main results

  /** An acked marker is in its version's durable signals, now and after anything else happens:
      interleaved versions, failed or ambiguous writes, crashes and restarts. */
  lemma AckedSignalStaysDurable(steps: seq<Step>, more: seq<Step>, id: MessageId)
    requires id in Execute(steps).desk.acked
    ensures id in Execute(steps).desk.published && id in Execute(steps + more).desk.acked
    ensures Signalled(Execute(steps + more).nodes, Execute(steps).desk.published[id])
  {
    EveryRunKeepsInv(steps);
    EveryRunKeepsInv(steps + more);
    RunGrows(steps, more);
  }

  /** The cache never claims a signal its own version's node does not hold, and never lacks one
      that a handler of that version has committed. */
  lemma CacheMatchesDurableSignals(steps: seq<Step>)
    ensures var s := Execute(steps);
      s.cacheVersion.Some? ==> s.cache <= SignalsOf(s.nodes, s.cacheVersion.value) && HoldsLanded(s.desk, s.cacheVersion.value, s.cache)
  {
    EveryRunKeepsInv(steps);
  }

  /** No marker is lost or duplicated: each is queued, in one handler, acked or dead-lettered. */
  lemma MarkersAreConserved(steps: seq<Step>)
    ensures var d := Execute(steps).desk;
      && d.queued !! d.handlers.Keys !! d.acked !! d.dead
      && d.published.Keys == d.queued + d.handlers.Keys + d.acked + d.dead
  {
    EveryRunKeepsInv(steps);
  }

  ghost predicate TypeAcked(d: Desk, v: Version, t: DataType) {
    exists id :: id in d.acked && id in d.published && d.published[id] == Marker(v, t)
  }

  ghost predicate AllAcked(d: Desk, v: Version) {
    forall t: DataType :: TypeAcked(d, v, t)
  }

  /** Once all four types of a version are acked, its last handler acked with a trigger in hand, or
      the version is stamped: the lock lets no two last signals each miss the other, across
      version switches and restarts. */
  lemma CompletionIsNeverMissed(steps: seq<Step>, v: Version)
    requires AllAcked(Execute(steps).desk, v)
    ensures v in Execute(steps).triggered || Maintained(Execute(steps).nodes, v)
    ensures AllSignalled(Execute(steps).nodes, v)
  {
    EveryRunKeepsInv(steps);
    var s := Execute(steps);
    if v !in Answered(s.nodes, s.triggered) { AwaitingIsNotAllAcked(s.desk, v); }
    forall t: DataType ensures t in SignalsOf(s.nodes, v) {
      assert TypeAcked(s.desk, v, t);
      var id :| id in s.desk.acked && id in s.desk.published && s.desk.published[id] == Marker(v, t);
      assert Signalled(s.nodes, s.desk.published[id]);
    }
  }

  lemma AwaitingIsNotAllAcked(d: Desk, v: Version)
    requires Awaiting(d, v)
    ensures !AllAcked(d, v)
  {
    var t :| Outstanding(d, v, t);
    assert forall id :: id in d.published && d.published[id] == Marker(v, t) ==> StillToNotice(d, id);
    assert !TypeAcked(d, v, t);
  }

  /** Maintenance is only ever triggered, and only ever runs, for a version each of whose data types
      has its own durable signal. */
  lemma MaintenanceRunsOnlyWhenComplete(steps: seq<Step>)
    ensures var s := Execute(steps);
      && (s.task.Running? ==> AllSignalled(s.nodes, s.task.version))
      && (forall id :: id in s.desk.triggers ==> AllSignalled(s.nodes, s.desk.triggers[id]))
      && (forall v :: v in s.triggered ==> AllSignalled(s.nodes, v))
  {
    EveryRunKeepsInv(steps);
    forall v ensures Complete(Execute(steps).nodes, v) <==> AllSignalled(Execute(steps).nodes, v) {
      CompleteIsAllSignalled(Execute(steps).nodes, v);
    }
  }

  // ---------------------------------------------------------------- no second pass

  /** The version is stamped, and nothing on its way could start or go on with a pass for it. */
  ghost predicate AtRest(s: State, v: Version) {
    && Maintained(s.nodes, v)
    && (forall id :: id in s.desk.handlers && s.desk.handlers[id].marker.version == v ==> s.desk.handlers[id].phase != Acking(true))
    && (forall id :: id in s.desk.triggers ==> s.desk.triggers[id] != v)
    && !(s.task.Running? && s.task.version == v)
  }

  /** Deliveries may end or move on, as long as none takes up a trigger for the version. */
  lemma DeskKeepsRest(s: State, s': State, v: Version)
    requires AtRest(s, v) && Maintained(s'.nodes, v) && s'.task == s.task
    requires forall id :: id in s'.desk.triggers ==> s'.desk.triggers[id] != v
    requires forall id :: id in s'.desk.handlers && s'.desk.handlers[id].phase == Acking(true) ==>
      s'.desk.handlers[id].marker.version != v
    ensures AtRest(s', v)
  {
  }

  lemma AckKeepsRest(s: State, id: MessageId, ok: bool, bury: bool, v: Version)
    requires AtRest(s, v) && AckEnabled(s, id)
    ensures AtRest(DoAck(s, id, ok, bury), v)
  {
    DeskKeepsRest(s, DoAck(s, id, ok, bury), v);
  }

  lemma CheckKeepsRest(s: State, id: MessageId, ok: bool, bury: bool, v: Version)
    requires AtRest(s, v) && CheckEnabled(s, id)
    ensures AtRest(DoCheck(s, id, ok, bury), v)
  {
    DeskKeepsRest(s, DoCheck(s, id, ok, bury), v);
  }

  lemma EarlyKeepsRest(s: State, m: MarkerStep, v: Version)
    requires AtRest(s, v) && (m.Flush? || m.Acquire? || m.Load?)
    ensures AtRest(DoMarker(s, m), v)
  {
    DeskKeepsRest(s, DoMarker(s, m), v);
  }

  lemma PersistKeepsRest(s: State, id: MessageId, fate: Fate, bury: bool, v: Version)
    requires AtRest(s, v) && PersistEnabled(s, id)
    ensures AtRest(DoPersist(s, id, fate, bury), v)
  {
    PersistStepGrows(s, id, fate, bury);
    SignalsGrow(s.nodes, DoPersist(s, id, fate, bury).nodes, v);
    DeskKeepsRest(s, DoPersist(s, id, fate, bury), v);
  }

  lemma DecideKeepsRest(s: State, id: MessageId, v: Version)
    requires AtRest(s, v) && DecideEnabled(s, id)
    ensures AtRest(DoDecide(s, id), v)
  {
    DeskKeepsRest(s, DoDecide(s, id), v);
  }

  lemma TriggerKeepsRest(s: State, id: MessageId, v: Version)
    requires AtRest(s, v) && id in s.desk.triggers
    ensures AtRest(DoTrigger(s, id), v)
  {
  }

  lemma MarkerKeepsRest(s: State, m: MarkerStep, v: Version)
    requires AtRest(s, v)
    ensures AtRest(DoMarker(s, m), v)
  {
    match m
    case Ack(id, ok, bury) => { if AckEnabled(s, id) { AckKeepsRest(s, id, ok, bury, v); } }
    case Check(id, ok, bury) => { if CheckEnabled(s, id) { CheckKeepsRest(s, id, ok, bury, v); } }
    case Trigger(id) => { if id in s.desk.triggers { TriggerKeepsRest(s, id, v); } }
    case Persist(id, fate, bury) => { if PersistEnabled(s, id) { PersistKeepsRest(s, id, fate, bury, v); } }
    case Decide(id) => { if DecideEnabled(s, id) { DecideKeepsRest(s, id, v); } }
    case _ => { EarlyKeepsRest(s, m, v); }
  }

  lemma TaskGoesOnOnly(s: State, t: TaskStep)
    ensures DoTask(s, t).desk == s.desk
    ensures DoTask(s, t).task.Running? ==> s.task.Running? && DoTask(s, t).task.version == s.task.version
  {
  }

  lemma TaskKeepsRest(s: State, t: TaskStep, v: Version)
    requires AtRest(s, v)
    ensures AtRest(DoTask(s, t), v)
  {
    TaskStepGrows(s, t);
    TaskGoesOnOnly(s, t);
    SignalsGrow(s.nodes, DoTask(s, t).nodes, v);
  }

  lemma HostKeepsRest(s: State, h: HostStep, v: Version)
    requires AtRest(s, v)
    ensures AtRest(DoHost(s, h), v)
  {
  }

  /** A stamped version is never swept again: whatever is redelivered, published, crashes or
      restarts afterwards, no pass for it is triggered or started. */
  lemma {:induction false} StampedVersionIsNotSweptAgain(steps: seq<Step>, more: seq<Step>, v: Version)
    requires AtRest(Execute(steps), v)
    ensures AtRest(Execute(steps + more), v)
    decreases |more|
  {
    if more == [] {
      assert steps + more == steps;
    } else {
      var front, last := more[..|more| - 1], more[|more| - 1];
      StampedVersionIsNotSweptAgain(steps, front, v);
      assert steps + more == steps + front + [last];
      ExecuteOne(steps + front, last);
      match last
      case OnMarker(m) => MarkerKeepsRest(Execute(steps + front), m, v);
      case OnTask(t) => TaskKeepsRest(Execute(steps + front), t, v);
      case OnHost(h) => HostKeepsRest(Execute(steps + front), h, v);
    }
  }

  /** And every restart leaves a stamped version at rest. */
  lemma RestartLeavesStampedAtRest(steps: seq<Step>, v: Version)
    requires Maintained(Execute(steps).nodes, v)
    ensures AtRest(Execute(steps + [OnHost(Crash)]), v)
  {
    ExecuteOne(steps, OnHost(Crash));
  }

  /** The stamp is written once and never moves. */
  lemma StampIsWriteOnce(steps: seq<Step>, more: seq<Step>, v: Version)
    requires Maintained(Execute(steps).nodes, v)
    ensures v in Execute(steps + more).nodes
    ensures Execute(steps + more).nodes[v].maintainedAt == Execute(steps).nodes[v].maintainedAt
  {
    RunGrows(steps, more);
  }

  predicate StepDone(log: AttemptLog, step: MaintenanceStep) {
    exists i :: 0 <= i < |log.results| && StepAt(i) == step && log.results[i]
  }

  /** An attempt of this version that drained and completed each of the steps. */
  ghost predicate FullSuccess(log: AttemptLog, v: Version) {
    log.version == v && log.drained && forall step: MaintenanceStep :: StepDone(log, step)
  }

  ghost predicate HadFullSuccess(history: seq<AttemptLog>, v: Version) {
    exists i :: 0 <= i < |history| && FullSuccess(history[i], v)
  }

  lemma SuccessIsFull(log: AttemptLog, v: Version)
    requires Success(log, v)
    ensures FullSuccess(log, v)
  {
    forall step: MaintenanceStep ensures StepDone(log, step) {
      var i: nat := match step
        case StubCleanup => 0
        case SentinelMasterCleanup => 1
        case GenreStyleLabelStats => 2
        case ArtistStats => 3
        case PersonCreditCounts => 4;
      assert StepAt(i) == step && log.results[i];
    }
  }

  /** A stamp means a durable signal of each data type and one attempt in which the drain and every
      step succeeded; a stamped node carries neither a failure nor an error, a stats version never
      appears without a stamp, and an error text is at most 500 characters. */
  lemma StampMeansOneFullSuccess(steps: seq<Step>, v: Version)
    requires v in Execute(steps).nodes
    ensures var s := Execute(steps); var n := s.nodes[v];
      && (n.maintainedAt.Some? ==> AllSignalled(s.nodes, v) && n.status.Succeeded? && n.error.None? && HadFullSuccess(s.history, v))
      && (n.error.Some? ==> n.status.Failed? && |n.error.value| <= 500)
      && (n.statsVersion.Some? ==> n.maintainedAt.Some?)
      && (n.status.Failed? ==> n.maintainedAt.None? && n.statsVersion.None?)
  {
    EveryRunKeepsInv(steps);
    var s := Execute(steps);
    assert NodeSound(s.history, v, s.nodes[v]);
    CompleteIsAllSignalled(s.nodes, v);
    if s.nodes[v].maintainedAt.Some? {
      var i :| 0 <= i < |s.history| && Success(s.history[i], v);
      SuccessIsFull(s.history[i], v);
    }
  }

  /** No sweep step runs in an attempt whose drain failed. */
  lemma NoSweepWithoutDrain(steps: seq<Step>, i: nat)
    requires i < |Execute(steps).history| && Execute(steps).history[i].results != []
    ensures Execute(steps).history[i].drained
  {
    EveryRunKeepsInv(steps);
  }
}
