/** The completion latch and post-import maintenance as one state machine: durable completion
    nodes, the broker's markers, the process-local cache behind its lock, any number of
    concurrent marker handlers, the detached maintenance and refresh tasks, and crashes. */
module Latch {
  import opened Common

  datatype DataType = Artists | Labels | Masters | Releases

  const DATA_TYPES: set<DataType> := {Artists, Labels, Masters, Releases}
  const MAX_ATTEMPTS: nat := 3
  const STATS_VERSION: nat := 1
  const ERROR_MAX_CHARS: nat := 500

  const STEPS: nat := 5

  /** label_stats and artist_stats. */
  const REFRESH_STEPS: nat := 2

  type Version = string

  // ---------------------------------------------------------------- durable nodes

  datatype Status = NoStatus | Succeeded | Failed

  datatype Completion = Completion(signals: set<DataType>, createdAt: nat, maintainedAt: Option<nat>,
                                   status: Status, error: Option<string>, statsVersion: Option<nat>)

  type Nodes = map<Version, Completion>

  function SignalsOf(nodes: Nodes, v: Version): set<DataType> {
    if v in nodes then nodes[v].signals else {}
  }

  predicate Complete(nodes: Nodes, v: Version) {
    DATA_TYPES <= SignalsOf(nodes, v)
  }

  predicate Maintained(nodes: Nodes, v: Version) {
    v in nodes && nodes[v].maintainedAt.Some?
  }

  predicate IsNewest(nodes: Nodes, v: Version) {
    v in nodes && forall u :: u in nodes ==> nodes[u].createdAt <= nodes[v].createdAt
  }

  /** MERGE the node and union the signals into the stored ones. */
  function PersistSignals(nodes: Nodes, v: Version, signals: set<DataType>, now: nat): Nodes {
    var node := if v in nodes then nodes[v] else Completion({}, now, None, NoStatus, None, None);
    nodes[v := node.(signals := node.signals + signals)]
  }

  /** The first stamp wins; an earlier error is cleared. */
  function StampSuccess(nodes: Nodes, v: Version, now: nat): Nodes {
    if v !in nodes then nodes else
      var node := nodes[v];
      nodes[v := node.(maintainedAt := if node.maintainedAt.Some? then node.maintainedAt else Some(now),
                       status := Succeeded, error := None, statsVersion := Some(STATS_VERSION))]
  }

  /** A stamped node is left untouched. */
  function RecordFailure(nodes: Nodes, v: Version, error: string): Nodes {
    if v !in nodes || nodes[v].maintainedAt.Some? then nodes else
      nodes[v := nodes[v].(status := Failed, error := Some(if |error| <= ERROR_MAX_CHARS then error else error[..ERROR_MAX_CHARS]))]
  }

  function StampStats(nodes: Nodes, v: Version): Nodes {
    if v !in nodes then nodes else nodes[v := nodes[v].(statsVersion := Some(STATS_VERSION))]
  }

  // ---------------------------------------------------------------- markers and handlers

  datatype Marker = Marker(version: Version, dataType: DataType)

  type MessageId = nat

  /** Where one delivered marker is in check_file_completion, between two awaits. */
  datatype Phase =
    | Flushing
    | AwaitingLock
    | InSection
    | Recorded(signals: set<DataType>)
    | Checking
    | Acking(trigger: bool)

  datatype Handler = Handler(marker: Marker, phase: Phase)

  /** The broker's view of the markers and this process's handlers of them. A trigger is a
      handler whose delivery is acked but which has not yet started maintenance. */
  datatype Desk = Desk(published: map<MessageId, Marker>, queued: set<MessageId>, acked: set<MessageId>, dead: set<MessageId>,
                       handlers: map<MessageId, Handler>, triggers: map<MessageId, Version>)

  predicate AtPhase(d: Desk, id: MessageId, phase: Phase) {
    id in d.handlers && d.handlers[id].phase == phase
  }

  function SetPhase(d: Desk, id: MessageId, phase: Phase): Desk
    requires id in d.handlers
  {
    d.(handlers := d.handlers[id := d.handlers[id].(phase := phase)])
  }

  function Publish(d: Desk, id: MessageId, m: Marker): Desk {
    d.(published := d.published[id := m], queued := d.queued + {id})
  }

  function Deliver(d: Desk, id: MessageId): Desk
    requires id in d.published
  {
    d.(queued := d.queued - {id}, handlers := d.handlers[id := Handler(d.published[id], Flushing)])
  }

  /** The handler gives its delivery back: to the queue, or to the dead letters once spent. */
  function Return(d: Desk, id: MessageId, bury: bool): Desk {
    d.(handlers := d.handlers - {id},
       queued := if bury then d.queued else d.queued + {id},
       dead := if bury then d.dead + {id} else d.dead)
  }

  function Settle(d: Desk, id: MessageId): Desk
    requires id in d.handlers && d.handlers[id].phase.Acking?
  {
    var h := d.handlers[id];
    d.(handlers := d.handlers - {id}, acked := d.acked + {id},
       triggers := if h.phase.trigger then d.triggers[id := h.marker.version] else d.triggers)
  }

  /** A crash redelivers whatever was not acked and forgets every handler. */
  function Abandon(d: Desk): Desk {
    d.(queued := d.queued + d.handlers.Keys, handlers := map[], triggers := map[])
  }

  // ---------------------------------------------------------------- process state

  /** extraction_latch_lock, with what its holder is doing. */
  datatype Lock =
    | Free
    | Reading(id: MessageId)
    | Writing(id: MessageId, candidate: set<DataType>)
    | StampingSuccess
    | RecordingFailure
    | StampingStats

  datatype Stage = Beginning | Draining | Sweeping | AwaitingStamp | AwaitingFailure

  /** The single maintenance slot; `log` names its current attempt in the history. */
  datatype Task = NoTask | Running(version: Version, attempt: nat, stage: Stage, log: nat)

  datatype RefreshStage = RefreshSweeping(done: nat, failed: bool) | AwaitingStatsStamp

  datatype Refresh = NoRefresh | Refreshing(version: Version, attempt: nat, stage: RefreshStage)

  /** The startup checks, one durable read per state. */
  datatype Resumer =
    | Off
    | AskLatest | AskSignals(v: Version) | AskMaintained(v: Version)
    | RefreshLatest | RefreshSignals(v: Version) | RefreshMaintained(v: Version) | RefreshStats(v: Version)

  /** The steps of a pass, in the order an attempt runs them. */
  datatype MaintenanceStep = StubCleanup | SentinelMasterCleanup | GenreStyleLabelStats | ArtistStats | PersonCreditCounts

  function StepAt(i: nat): MaintenanceStep {
    match i
    case 0 => StubCleanup
    case 1 => SentinelMasterCleanup
    case 2 => GenreStyleLabelStats
    case 3 => ArtistStats
    case _ => PersonCreditCounts
  }

  /** What one maintenance attempt did: whether its drain succeeded and each step's result. */
  datatype AttemptLog = AttemptLog(version: Version, drained: bool, results: seq<bool>)

  /** `triggered` remembers the versions whose last handler acked with a trigger in hand; it only
      serves to state that no completion goes unanswered. */
  datatype State = State(
    nodes: Nodes, now: nat, desk: Desk, up: bool,
    cacheVersion: Option<Version>, cache: set<DataType>, lock: Lock,
    task: Task, refresh: Refresh, resumer: Resumer,
    history: seq<AttemptLog>, triggered: set<Version>)

  const EMPTY := State(map[], 0, Desk(map[], {}, {}, {}, map[], map[]), false, None, {}, Free, NoTask, NoRefresh, Off, [], {})

  /** A durable write lands, is lost, or lands while the writer sees a failure. */
  datatype Fate = Landed | Lost | Ambiguous

  // ---------------------------------------------------------------- marker steps

  predicate FlushEnabled(s: State, id: MessageId) {
    AtPhase(s.desk, id, Flushing)
  }

  function DoFlush(s: State, id: MessageId, ok: bool, bury: bool): State
    requires FlushEnabled(s, id)
  {
    s.(desk := if ok then SetPhase(s.desk, id, AwaitingLock) else Return(s.desk, id, bury))
  }

  predicate AcquireEnabled(s: State, id: MessageId) {
    AtPhase(s.desk, id, AwaitingLock) && s.lock.Free?
  }

  /** Enter the latch: the cache serves its own version, any other version is read first. */
  function DoAcquire(s: State, id: MessageId): State
    requires AcquireEnabled(s, id)
  {
    var m := s.desk.handlers[id].marker;
    s.(desk := SetPhase(s.desk, id, InSection),
       lock := if s.cacheVersion == Some(m.version) then Writing(id, s.cache + {m.dataType}) else Reading(id))
  }

  predicate LoadEnabled(s: State, id: MessageId) {
    s.lock == Reading(id) && AtPhase(s.desk, id, InSection)
  }

  function DoLoad(s: State, id: MessageId, ok: bool, bury: bool): State
    requires LoadEnabled(s, id)
  {
    var m := s.desk.handlers[id].marker;
    if ok then s.(lock := Writing(id, SignalsOf(s.nodes, m.version) + {m.dataType}))
    else s.(lock := Free, desk := Return(s.desk, id, bury))
  }

  predicate PersistEnabled(s: State, id: MessageId) {
    s.lock.Writing? && s.lock.id == id && AtPhase(s.desk, id, InSection)
  }

  /** Commit the candidate, then publish it as the cache; a failed write publishes nothing. */
  function DoPersist(s: State, id: MessageId, fate: Fate, bury: bool): State
    requires PersistEnabled(s, id)
  {
    var v := s.desk.handlers[id].marker.version;
    var c := s.lock.candidate;
    var nodes := if fate.Lost? then s.nodes else PersistSignals(s.nodes, v, c, s.now);
    if fate.Landed? then
      s.(nodes := nodes, lock := Free, desk := SetPhase(s.desk, id, Recorded(c)), cache := c, cacheVersion := Some(v))
    else
      s.(nodes := nodes, lock := Free, desk := Return(s.desk, id, bury))
  }

  predicate DecideEnabled(s: State, id: MessageId) {
    id in s.desk.handlers && s.desk.handlers[id].phase.Recorded?
  }

  function DoDecide(s: State, id: MessageId): State
    requires DecideEnabled(s, id)
  {
    var h := s.desk.handlers[id];
    if DATA_TYPES <= h.phase.signals then s.(desk := SetPhase(s.desk, id, Checking))
    else s.(desk := SetPhase(s.desk, id, Acking(false)))
  }

  predicate CheckEnabled(s: State, id: MessageId) {
    AtPhase(s.desk, id, Checking)
  }

  function DoCheck(s: State, id: MessageId, ok: bool, bury: bool): State
    requires CheckEnabled(s, id)
  {
    var v := s.desk.handlers[id].marker.version;
    s.(desk := if ok then SetPhase(s.desk, id, Acking(!Maintained(s.nodes, v))) else Return(s.desk, id, bury))
  }

  predicate AckEnabled(s: State, id: MessageId) {
    id in s.desk.handlers && s.desk.handlers[id].phase.Acking?
  }

  function DoAck(s: State, id: MessageId, ok: bool, bury: bool): State
    requires AckEnabled(s, id)
  {
    var h := s.desk.handlers[id];
    if ok then s.(desk := Settle(s.desk, id), triggered := if h.phase.trigger then s.triggered + {h.marker.version} else s.triggered)
    else s.(desk := Return(s.desk, id, bury))
  }

  function DoTrigger(s: State, id: MessageId): State
    requires id in s.desk.triggers
  {
    StartMaintenance(s.(desk := s.desk.(triggers := s.desk.triggers - {id})), s.desk.triggers[id])
  }

  // ---------------------------------------------------------------- maintenance steps

  /** start_post_import_maintenance: dropped while one runs; otherwise it displaces a refresh. */
  function StartMaintenance(s: State, v: Version): State {
    if s.task.Running? then s else
      s.(task := Running(v, 1, Beginning, 0), refresh := NoRefresh, lock := if s.lock.StampingStats? then Free else s.lock)
  }

  /** An attempt that did not succeed: try again, or after the last one record the failure. */
  function AttemptFailed(t: Task): Task
    requires t.Running?
  {
    if t.attempt >= MAX_ATTEMPTS then t.(stage := AwaitingFailure) else t.(attempt := t.attempt + 1, stage := Beginning)
  }

  predicate TaskIn(s: State, stage: Stage) {
    s.task.Running? && s.task.stage == stage
  }

  predicate LogOpen(history: seq<AttemptLog>, t: Task) {
    t.Running? && t.log < |history|
  }

  predicate AllTrue(results: seq<bool>) {
    forall i :: 0 <= i < |results| ==> results[i]
  }

  function DoBegin(s: State, shutdown: bool): State
    requires TaskIn(s, Beginning)
  {
    if shutdown then s.(task := NoTask)
    else s.(task := s.task.(stage := Draining, log := |s.history|), history := s.history + [AttemptLog(s.task.version, false, [])])
  }

  predicate DrainEnabled(s: State) {
    TaskIn(s, Draining) && LogOpen(s.history, s.task)
  }

  /** Nothing below may run unless every batch queue has drained. */
  function DoDrain(s: State, ok: bool): State
    requires DrainEnabled(s)
  {
    if ok then s.(task := s.task.(stage := Sweeping), history := s.history[s.task.log := s.history[s.task.log].(drained := true)])
    else s.(task := AttemptFailed(s.task))
  }

  predicate SweepEnabled(s: State) {
    TaskIn(s, Sweeping) && LogOpen(s.history, s.task)
  }

  /** A failing step does not skip the rest, but the stamp needs every one of them. */
  function DoSweepStep(s: State, ok: bool): State
    requires SweepEnabled(s)
  {
    var results := s.history[s.task.log].results + [ok];
    var history := s.history[s.task.log := s.history[s.task.log].(results := results)];
    if |results| < STEPS then s.(history := history)
    else if AllTrue(results) then s.(history := history, task := s.task.(stage := AwaitingStamp))
    else s.(history := history, task := AttemptFailed(s.task))
  }

  predicate AcquireForTaskEnabled(s: State) {
    s.lock.Free? && (TaskIn(s, AwaitingStamp) || TaskIn(s, AwaitingFailure))
  }

  function DoAcquireForTask(s: State): State
    requires AcquireForTaskEnabled(s)
  {
    s.(lock := if s.task.stage.AwaitingStamp? then StampingSuccess else RecordingFailure)
  }

  predicate StampEnabled(s: State) {
    s.lock.StampingSuccess? && TaskIn(s, AwaitingStamp)
  }

  /** A stamp that cannot be confirmed fails the attempt, so it is retried. */
  function DoStamp(s: State, fate: Fate): State
    requires StampEnabled(s)
  {
    s.(lock := Free,
       nodes := if fate.Lost? then s.nodes else StampSuccess(s.nodes, s.task.version, s.now),
       task := if fate.Landed? && s.task.version in s.nodes then NoTask else AttemptFailed(s.task))
  }

  predicate FailEnabled(s: State) {
    s.lock.RecordingFailure? && TaskIn(s, AwaitingFailure)
  }

  function DoFail(s: State, fate: Fate, error: string): State
    requires FailEnabled(s)
  {
    s.(lock := Free, task := NoTask, nodes := if fate.Lost? then s.nodes else RecordFailure(s.nodes, s.task.version, error))
  }

  // ---------------------------------------------------------------- refresh and startup steps

  predicate RefreshSweepEnabled(s: State) {
    s.refresh.Refreshing? && s.refresh.stage.RefreshSweeping?
  }

  function DoRefreshStep(s: State, ok: bool): State
    requires RefreshSweepEnabled(s)
  {
    var RefreshSweeping(done, failed) := s.refresh.stage;
    var bad := failed || !ok;
    if done + 1 < REFRESH_STEPS then s.(refresh := s.refresh.(stage := RefreshSweeping(done + 1, bad)))
    else if !bad then s.(refresh := s.refresh.(stage := AwaitingStatsStamp))
    else if s.refresh.attempt >= MAX_ATTEMPTS then s.(refresh := NoRefresh)
    else s.(refresh := s.refresh.(attempt := s.refresh.attempt + 1, stage := RefreshSweeping(0, false)))
  }

  predicate AcquireForRefreshEnabled(s: State) {
    s.lock.Free? && s.refresh.Refreshing? && s.refresh.stage.AwaitingStatsStamp?
  }

  predicate StampStatsEnabled(s: State) {
    s.lock.StampingStats? && s.refresh.Refreshing? && s.refresh.stage.AwaitingStatsStamp?
  }

  function DoStampStats(s: State, fate: Fate): State
    requires StampStatsEnabled(s)
  {
    s.(lock := Free, refresh := NoRefresh, nodes := if fate.Lost? then s.nodes else StampStats(s.nodes, s.refresh.version))
  }

  /** start_stats_refresh: only when neither task is running. */
  function StartRefresh(s: State, v: Version): State {
    if s.task.Running? || s.refresh.Refreshing? then s else s.(refresh := Refreshing(v, 1, RefreshSweeping(0, false)))
  }

  predicate ResumeEnabled(s: State, newest: Version) {
    s.up && !s.resumer.Off? && (s.resumer.AskLatest? || s.resumer.RefreshLatest? ==> s.nodes == map[] || IsNewest(s.nodes, newest))
  }

  /** resume_pending_maintenance, then resume_stats_refresh if it started nothing. */
  function DoResume(s: State, newest: Version, ok: bool): State
    requires ResumeEnabled(s, newest)
  {
    match s.resumer
    case Off => s
    case AskLatest => s.(resumer := if ok && s.nodes != map[] then AskSignals(newest) else RefreshLatest)
    case AskSignals(v) => s.(resumer := if ok && Complete(s.nodes, v) then AskMaintained(v) else RefreshLatest)
    case AskMaintained(v) =>
      if ok && !Maintained(s.nodes, v) then StartMaintenance(s.(resumer := Off), v) else s.(resumer := RefreshLatest)
    case RefreshLatest => s.(resumer := if ok && s.nodes != map[] then RefreshSignals(newest) else Off)
    case RefreshSignals(v) => s.(resumer := if ok && Complete(s.nodes, v) then RefreshMaintained(v) else Off)
    case RefreshMaintained(v) => s.(resumer := if ok && Maintained(s.nodes, v) then RefreshStats(v) else Off)
    case RefreshStats(v) =>
      if ok && !(v in s.nodes && s.nodes[v].statsVersion == Some(STATS_VERSION)) then StartRefresh(s.(resumer := Off), v)
      else s.(resumer := Off)
  }

  /** A crash loses everything process-local. */
  function DoCrash(s: State): State {
    s.(up := false, desk := Abandon(s.desk), cacheVersion := None, cache := {}, lock := Free,
       task := NoTask, refresh := NoRefresh, resumer := Off)
  }

  // ---------------------------------------------------------------- runs

  /** The progress of one delivered marker. */
  datatype MarkerStep =
    | Flush(id: MessageId, ok: bool, bury: bool)
    | Acquire(id: MessageId)
    | Load(id: MessageId, ok: bool, bury: bool)
    | Persist(id: MessageId, fate: Fate, bury: bool)
    | Decide(id: MessageId)
    | Check(id: MessageId, ok: bool, bury: bool)
    | Ack(id: MessageId, ok: bool, bury: bool)
    | Trigger(id: MessageId)

  /** The progress of the maintenance and refresh tasks. */
  datatype TaskStep =
    | Begin(shutdown: bool)
    | Drain(ok: bool)
    | SweepStep(ok: bool)
    | AcquireForTask
    | Stamp(fate: Fate)
    | Fail(fate: Fate, error: string)
    | RefreshStep(ok: bool)
    | RefreshStop
    | AcquireForRefresh
    | StampStatsVersion(fate: Fate)

  /** The clock, the broker, crashes and startup. */
  datatype HostStep =
    | Tick
    | PublishMarker(id: MessageId, marker: Marker)
    | DeliverMarker(id: MessageId)
    | Crash
    | Boot
    | ResumeRead(newest: Version, ok: bool)

  datatype Step = OnMarker(m: MarkerStep) | OnTask(t: TaskStep) | OnHost(h: HostStep)

  // A step whose guard does not hold does nothing.

  function DoMarker(s: State, step: MarkerStep): State {
    match step
    case Flush(id, ok, bury) => if FlushEnabled(s, id) then DoFlush(s, id, ok, bury) else s
    case Acquire(id) => if AcquireEnabled(s, id) then DoAcquire(s, id) else s
    case Load(id, ok, bury) => if LoadEnabled(s, id) then DoLoad(s, id, ok, bury) else s
    case Persist(id, fate, bury) => if PersistEnabled(s, id) then DoPersist(s, id, fate, bury) else s
    case Decide(id) => if DecideEnabled(s, id) then DoDecide(s, id) else s
    case Check(id, ok, bury) => if CheckEnabled(s, id) then DoCheck(s, id, ok, bury) else s
    case Ack(id, ok, bury) => if AckEnabled(s, id) then DoAck(s, id, ok, bury) else s
    case Trigger(id) => if id in s.desk.triggers then DoTrigger(s, id) else s
  }

  function DoTask(s: State, step: TaskStep): State {
    match step
    case Begin(shutdown) => if TaskIn(s, Beginning) then DoBegin(s, shutdown) else s
    case Drain(ok) => if DrainEnabled(s) then DoDrain(s, ok) else s
    case SweepStep(ok) => if SweepEnabled(s) then DoSweepStep(s, ok) else s
    case AcquireForTask => if AcquireForTaskEnabled(s) then DoAcquireForTask(s) else s
    case Stamp(fate) => if StampEnabled(s) then DoStamp(s, fate) else s
    case Fail(fate, error) => if FailEnabled(s) then DoFail(s, fate, error) else s
    case RefreshStep(ok) => if RefreshSweepEnabled(s) then DoRefreshStep(s, ok) else s
    case RefreshStop => if RefreshSweepEnabled(s) then s.(refresh := NoRefresh) else s
    case AcquireForRefresh => if AcquireForRefreshEnabled(s) then s.(lock := StampingStats) else s
    case StampStatsVersion(fate) => if StampStatsEnabled(s) then DoStampStats(s, fate) else s
  }

  function DoHost(s: State, step: HostStep): State {
    match step
    case Tick => s.(now := s.now + 1)
    case PublishMarker(id, m) => if id !in s.desk.published then s.(desk := Publish(s.desk, id, m)) else s
    case DeliverMarker(id) => if s.up && id in s.desk.queued && id in s.desk.published then s.(desk := Deliver(s.desk, id)) else s
    case Crash => DoCrash(s)
    case Boot => if !s.up then s.(up := true, resumer := AskLatest) else s
    case ResumeRead(v, ok) => if ResumeEnabled(s, v) then DoResume(s, v, ok) else s
  }

  function Do(s: State, step: Step): State {
    match step
    case OnMarker(m) => DoMarker(s, m)
    case OnTask(t) => DoTask(s, t)
    case OnHost(h) => DoHost(s, h)
  }

  /** The state after a whole run from an empty database. */
  function Execute(steps: seq<Step>): State {
    if steps == [] then EMPTY else Do(Execute(steps[..|steps| - 1]), steps[|steps| - 1])
  }
}
