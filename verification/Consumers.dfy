/** The consumer table: cancels, teardown, recovery and resubscription interleaved at their
    awaits, against the subscriptions the broker really holds. */
module Consumers {
  import opened Common
  import L = Latch

  type DataType = L.DataType
  type OpId = nat

  // ---------------------------------------------------------------- state

  /** A cancel request in flight for a registration. A timed one runs in a grace timer's task; once
      that task is cancelled the request can only end interrupted. */
  datatype Cancel = Cancel(t: DataType, reg: nat, timed: bool, stopped: bool)

  /** Whose task runs a teardown. */
  datatype Owner = Timer | Recoverer | Shutdown

  /** A teardown in flight: had it any transport, and which handle it is closing. */
  datatype Closer =
    | ClosingChannel(had: bool, target: nat, owner: Owner)
    | ClosingConnection(had: bool, target: nat, owner: Owner)

  /** The one task that registers consumers: startup first, then the periodic checker. */
  datatype Registrar =
    | Idle
    | Closing(op: OpId, reconnects: bool)
    | Connecting
    | Probing(temp: nat)
    | Registering(on: nat)
    | Stopped

  /** A registration: its type and the connection it was made on. */
  datatype Reg = Reg(t: DataType, on: nat)

  /** `tags`, `gauge`, `conn`, `chan` and `recovery` are the process globals. `live`, `regs` and
      `open` are the broker's truth: which registrations still deliver, all that were ever made,
      and the connections not closed. */
  datatype State = State(
    tags: map<DataType, nat>, gauge: int, conn: Option<nat>, chan: Option<nat>, recovery: bool,
    cancels: map<OpId, Cancel>, closers: map<OpId, Closer>, registrar: Registrar,
    live: set<nat>, regs: map<nat, Reg>, open: set<nat>, nextReg: nat, nextConn: nat)

  /** Connected, and about to register the first consumers. */
  const START := State(map[], 0, Some(0), Some(0), false, map[], map[], Registering(0), {}, map[], {0}, 0, 1)

  // ---------------------------------------------------------------- cancels

  datatype CancelOutcome = CancelOk | Interrupted | Failed

  datatype CancelStep =
    | BeginCancel(op: OpId, t: DataType, queue: bool, timed: bool)
    | EndCancel(op: OpId, outcome: CancelOutcome)
    | StopTimer(op: OpId)

  /** A CancelOk can only come over an open connection, and before the answer to any later
      consume on the same channel. */
  predicate CanConfirm(s: State, c: Cancel) {
    && c.reg in s.regs && s.regs[c.reg].on in s.open
    && (c.t in s.tags && s.tags[c.t] in s.regs && s.regs[s.tags[c.t]].on == s.regs[c.reg].on ==> s.tags[c.t] <= c.reg)
  }

  /** The consumer tag is the same text for every registration of a type, so a confirmed cancel
      removes whatever the table holds for the type. */
  function DoEndCancel(s: State, op: OpId, outcome: CancelOutcome): State
    requires op in s.cancels
  {
    var c := s.cancels[op];
    var done := s.(cancels := s.cancels - {op});
    if !outcome.CancelOk? || c.stopped then done.(recovery := true)
    else if !CanConfirm(s, c) then s
    else if c.t in s.tags then done.(tags := s.tags - {c.t}, gauge := s.gauge - 1, live := s.live - {c.reg})
    else done.(live := s.live - {c.reg})
  }

  function StoppedCancel(c: Cancel): Cancel {
    if c.timed then c.(stopped := true) else c
  }

  function DoCancel(s: State, step: CancelStep): State {
    match step
    case BeginCancel(op, t, queue, timed) =>
      if op in s.cancels || t !in s.tags then s
      else if !queue then s.(recovery := true)
      else s.(cancels := s.cancels[op := Cancel(t, s.tags[t], timed, false)])
    case EndCancel(op, outcome) => if op in s.cancels then DoEndCancel(s, op, outcome) else s
    case StopTimer(op) => if op in s.cancels then s.(cancels := s.cancels[op := StoppedCancel(s.cancels[op])]) else s
  }

  // ---------------------------------------------------------------- teardown

  datatype CloseStep =
    | BeginClose(op: OpId, owner: Owner)
    | EndChannelClose(op: OpId, ok: bool, timedOut: bool)
    | EndConnectionClose(op: OpId, ok: bool)
    | DropClose(op: OpId)

  /** The registrations left when a connection or its channel goes. */
  function LiveOff(s: State, c: nat): set<nat> {
    set r | r in s.live && !(r in s.regs && s.regs[r].on == c)
  }

  /** The tail of a teardown: a lingering channel asks for recovery; otherwise the table is
      cleared if there was a transport to close. */
  function CloseTail(s: State, had: bool): State {
    if s.chan.Some? then s.(recovery := true)
    else if !had then s
    else s.(tags := map[], gauge := s.gauge - |s.tags|)
  }

  function AfterChannel(s: State, op: OpId, had: bool, owner: Owner): State {
    if s.conn.Some? then s.(closers := s.closers[op := ClosingConnection(had, s.conn.value, owner)])
    else CloseTail(s.(closers := s.closers - {op}), had)
  }

  function DoBeginClose(s: State, op: OpId, owner: Owner): State {
    var had := s.chan.Some? || s.conn.Some?;
    if s.chan.Some? then s.(closers := s.closers[op := ClosingChannel(had, s.chan.value, owner)])
    else AfterChannel(s, op, had, owner)
  }

  function DoEndChannelClose(s: State, op: OpId, ok: bool, timedOut: bool): State
    requires op in s.closers
  {
    var c := s.closers[op];
    if timedOut then s.(closers := s.closers - {op}, recovery := true)
    else if ok then AfterChannel(s.(chan := None, live := LiveOff(s, c.target)), op, c.had, c.owner)
    else AfterChannel(s, op, c.had, c.owner)
  }

  /** Whatever handles the globals hold by now are dropped. */
  function DoEndConnectionClose(s: State, op: OpId, ok: bool): State
    requires op in s.closers
  {
    var c := s.closers[op];
    var done := s.(closers := s.closers - {op});
    if !ok then done.(recovery := true)
    else CloseTail(done.(conn := None, chan := None, open := s.open - {c.target}, live := LiveOff(s, c.target)), c.had)
  }

  /** A timer may tear down at any time, the final shutdown once the checker has stopped. A timer's
      teardown ends without effect when its task is cancelled. */
  function DoClose(s: State, step: CloseStep): State {
    match step
    case BeginClose(op, owner) =>
      if op in s.closers || owner.Recoverer? || (owner.Shutdown? && !s.registrar.Stopped?) then s else DoBeginClose(s, op, owner)
    case EndChannelClose(op, ok, timedOut) => if op in s.closers && s.closers[op].ClosingChannel? then DoEndChannelClose(s, op, ok, timedOut) else s
    case EndConnectionClose(op, ok) => if op in s.closers && s.closers[op].ClosingConnection? then DoEndConnectionClose(s, op, ok) else s
    case DropClose(op) => if op in s.closers && s.closers[op].owner.Timer? then s.(closers := s.closers - {op}) else s
  }

  // ---------------------------------------------------------------- recovery

  datatype RecoverStep =
    | BeginRecovery(op: OpId)
    | Proceed
    | Connected(ok: bool)
    | NothingQueued
    | Adopt
    | RecoveryFailed(op: OpId)
    | Register(t: DataType, on: nat)
    | Registered
    | Stop

  function Untimed(closers: map<OpId, Closer>): map<OpId, Closer> {
    map op | op in closers && !closers[op].owner.Timer? :: closers[op]
  }

  /** With both handles gone: cancel every pending timer, withdraw the request, reconnect. */
  function Reconnect(s: State): State {
    s.(recovery := false, registrar := Connecting, closers := Untimed(s.closers),
       cancels := map op | op in s.cancels :: StoppedCancel(s.cancels[op]))
  }

  function DoRegister(s: State, t: DataType, on: nat): State {
    s.(tags := s.tags[t := s.nextReg], gauge := s.gauge + 1, live := s.live + {s.nextReg},
       regs := s.regs[s.nextReg := Reg(t, on)], nextReg := s.nextReg + 1)
  }

  /** During startup and recovery on the new connection; otherwise a parked marker's queue on the
      current one. */
  predicate CanRegister(s: State, t: DataType, on: nat) {
    && t !in s.tags && on in s.open
    && (s.registrar == Registering(on) || (s.registrar.Idle? && s.conn == Some(on)))
  }

  function Holding(s: State, on: nat): State {
    s.(conn := Some(on), chan := Some(on))
  }

  /** A failed recovery keeps the handles for the teardown that follows it. */
  function FailRecovery(s: State, on: nat, op: OpId): State {
    DoBeginClose(Holding(s, on).(registrar := Closing(op, false), recovery := true), op, Recoverer)
  }

  function DoRecover(s: State, step: RecoverStep): State {
    match step
    case BeginRecovery(op) =>
      if !s.registrar.Idle? || op in s.closers then s
      else if s.conn.Some? || s.chan.Some? then DoBeginClose(s.(registrar := Closing(op, true)), op, Recoverer)
      else Reconnect(s)
    case Proceed =>
      if !s.registrar.Closing? || s.registrar.op in s.closers then s
      else if s.registrar.reconnects && s.conn.None? && s.chan.None? then Reconnect(s)
      else s.(registrar := Idle)
    case Connected(ok) =>
      if !s.registrar.Connecting? then s
      else if !ok then s.(recovery := true, registrar := Idle)
      else s.(registrar := Probing(s.nextConn), open := s.open + {s.nextConn}, nextConn := s.nextConn + 1)
    case NothingQueued => if s.registrar.Probing? then s.(registrar := Idle, open := s.open - {s.registrar.temp}) else s
    case Adopt => if s.registrar.Probing? then Holding(s, s.registrar.temp).(registrar := Registering(s.registrar.temp)) else s
    case RecoveryFailed(op) =>
      if op in s.closers then s
      else if s.registrar.Probing? then FailRecovery(s, s.registrar.temp, op)
      else if s.registrar.Registering? then FailRecovery(s, s.registrar.on, op)
      else s
    case Register(t, on) => if CanRegister(s, t, on) then DoRegister(s, t, on) else s
    case Registered => if s.registrar.Registering? then s.(registrar := Idle) else s
    case Stop =>
      if s.registrar.Closing? then s.(registrar := Stopped, closers := s.closers - {s.registrar.op}) else s.(registrar := Stopped)
  }

  // ---------------------------------------------------------------- the broker

  /** A channel or connection may go at any time, closed by a waiter that is gone or lost. */
  datatype BrokerStep = LoseChannel(on: nat) | LoseConnection(on: nat)

  function DoBroker(s: State, step: BrokerStep): State {
    match step
    case LoseChannel(c) => s.(live := LiveOff(s, c))
    case LoseConnection(c) => s.(live := LiveOff(s, c), open := s.open - {c})
  }

  // ---------------------------------------------------------------- runs

  datatype Step = OnCancel(c: CancelStep) | OnClose(k: CloseStep) | OnRecover(r: RecoverStep) | OnBroker(b: BrokerStep)

  function Do(s: State, step: Step): State {
    match step
    case OnCancel(c) => DoCancel(s, c)
    case OnClose(k) => DoClose(s, k)
    case OnRecover(r) => DoRecover(s, r)
    case OnBroker(b) => DoBroker(s, b)
  }

  function Run(steps: seq<Step>): State {
    if steps == [] then START else Do(Run(steps[..|steps| - 1]), steps[|steps| - 1])
  }

  // ---------------------------------------------------------------- what every step does

  lemma RemoveOne(m: map<DataType, nat>, t: DataType)
    requires t in m
    ensures |m - {t}| == |m| - 1
  {
    assert (m - {t}).Keys == m.Keys - {t};
    assert |m - {t}| == |(m - {t}).Keys| && |m| == |m.Keys|;
  }

  lemma AddOne(m: map<DataType, nat>, t: DataType, r: nat)
    requires t !in m
    ensures |m[t := r]| == |m| + 1
  {
    assert m[t := r] - {t} == m;
    RemoveOne(m[t := r], t);
  }

  predicate SameTable(s: State, s': State) {
    s'.tags == s.tags && s'.gauge == s.gauge
  }

  /** A teardown step keeps a recovery request, and either leaves the table and the gauge alone
      or, if it had a transport and both handles are gone, clears both. */
  predicate Closed(s: State, s': State, had: bool) {
    && (s.recovery ==> s'.recovery)
    && (SameTable(s, s') || (had && s'.conn.None? && s'.chan.None? && s'.tags == map[] && s'.gauge == s.gauge - |s.tags|))
  }

  lemma AfterChannelCloses(s: State, op: OpId, had: bool, owner: Owner)
    ensures Closed(s, AfterChannel(s, op, had, owner), had)
  {
    var s0 := s.(closers := s.closers - {op});
    if s.conn.None? { assert AfterChannel(s, op, had, owner) == CloseTail(s0, had); }
  }

  lemma BeginCloses(s: State, op: OpId, owner: Owner)
    ensures Closed(s, DoBeginClose(s, op, owner), false)
  {
    if s.chan.None? { AfterChannelCloses(s, op, s.conn.Some?, owner); }
  }

  lemma ChannelCloses(s: State, op: OpId, ok: bool, timedOut: bool)
    requires op in s.closers
    ensures Closed(s, DoEndChannelClose(s, op, ok, timedOut), s.closers[op].had)
  {
    var c := s.closers[op];
    if ok && !timedOut {
      var s0 := s.(chan := None, live := LiveOff(s, c.target));
      AfterChannelCloses(s0, op, c.had, c.owner);
      assert DoEndChannelClose(s, op, ok, timedOut) == AfterChannel(s0, op, c.had, c.owner);
    } else {
      AfterChannelCloses(s, op, c.had, c.owner);
    }
  }

  lemma ConnectionCloses(s: State, op: OpId, ok: bool)
    requires op in s.closers
    ensures Closed(s, DoEndConnectionClose(s, op, ok), s.closers[op].had)
  {
  }

  function HadTransport(s: State, k: CloseStep): bool {
    (k.EndChannelClose? || k.EndConnectionClose?) && k.op in s.closers && s.closers[k.op].had
  }

  lemma CloseStepCloses(s: State, k: CloseStep)
    ensures Closed(s, DoClose(s, k), HadTransport(s, k))
  {
    match k
    case BeginClose(op, owner) => { BeginCloses(s, op, owner); }
    case EndChannelClose(op, ok, timedOut) => { if op in s.closers { ChannelCloses(s, op, ok, timedOut); } }
    case EndConnectionClose(op, ok) => { if op in s.closers { ConnectionCloses(s, op, ok); } }
    case DropClose(op) => {}
  }

  /** A cancel step changes the table only by removing the type of a confirmed cancel. */
  predicate Cancelled(s: State, s': State, step: CancelStep) {
    && (s.recovery ==> s'.recovery)
    && (SameTable(s, s')
        || (step.EndCancel? && step.outcome.CancelOk? && step.op in s.cancels && !s.cancels[step.op].stopped && s.cancels[step.op].t in s.tags
            && s'.tags == s.tags - {s.cancels[step.op].t} && s'.gauge == s.gauge - 1))
  }

  lemma CancelStepCancels(s: State, step: CancelStep)
    ensures Cancelled(s, DoCancel(s, step), step)
  {
    if step.EndCancel? && step.op in s.cancels { assert DoCancel(s, step) == DoEndCancel(s, step.op, step.outcome); }
  }

  /** The step starts reconnecting: the one way a request is withdrawn. */
  predicate Reconnects(s: State, step: RecoverStep) {
    (step.BeginRecovery? || step.Proceed?) && !s.registrar.Connecting? && DoRecover(s, step).registrar.Connecting?
  }

  /** A recovery step changes the table only by adding a type it lacked, and withdraws a request
      only with both handles gone. */
  predicate Recovered(s: State, s': State, step: RecoverStep) {
    && (s.recovery ==> s'.recovery || (Reconnects(s, step) && s.conn.None? && s.chan.None?))
    && (SameTable(s, s') || (step.Register? && step.t !in s.tags && s'.tags == s.tags[step.t := s.nextReg] && s'.gauge == s.gauge + 1))
  }

  lemma BeginRecovers(s: State, op: OpId)
    ensures Recovered(s, DoRecover(s, BeginRecovery(op)), BeginRecovery(op))
  {
    if s.registrar.Idle? && op !in s.closers && (s.conn.Some? || s.chan.Some?) {
      BeginCloses(s.(registrar := Closing(op, true)), op, Recoverer);
    }
  }

  lemma FailureRecovers(s: State, op: OpId)
    ensures Recovered(s, DoRecover(s, RecoveryFailed(op)), RecoveryFailed(op))
    ensures op !in s.closers && (s.registrar.Probing? || s.registrar.Registering?) ==> DoRecover(s, RecoveryFailed(op)).recovery
  {
    if s.registrar.Probing? || s.registrar.Registering? {
      var on := if s.registrar.Probing? then s.registrar.temp else s.registrar.on;
      BeginCloses(Holding(s, on).(registrar := Closing(op, false), recovery := true), op, Recoverer);
    }
  }

  lemma RecoverStepRecovers(s: State, step: RecoverStep)
    ensures Recovered(s, DoRecover(s, step), step)
  {
    match step
    case BeginRecovery(op) => { BeginRecovers(s, op); }
    case RecoveryFailed(op) => { FailureRecovers(s, op); }
    case _ => {}
  }

  lemma StepKeepsGauge(s: State, step: Step)
    requires s.gauge == |s.tags|
    ensures Do(s, step).gauge == |Do(s, step).tags|
  {
    match step
    case OnCancel(c) => {
      CancelStepCancels(s, c);
      if c.EndCancel? && c.op in s.cancels && s.cancels[c.op].t in s.tags { RemoveOne(s.tags, s.cancels[c.op].t); }
    }
    case OnClose(k) => { CloseStepCloses(s, k); }
    case OnRecover(r) => {
      RecoverStepRecovers(s, r);
      if r.Register? && r.t !in s.tags { AddOne(s.tags, r.t, s.nextReg); }
    }
    case OnBroker(b) => {}
  }

  /** In every interleaving the gauge equals the number of tags. */
  lemma {:induction false} GaugeIsTableSize(steps: seq<Step>)
    ensures Run(steps).gauge == |Run(steps).tags|
  {
    if steps != [] {
      GaugeIsTableSize(steps[..|steps| - 1]);
      StepKeepsGauge(Run(steps[..|steps| - 1]), steps[|steps| - 1]);
    }
  }

  /** The step confirms a cancel of this type. */
  predicate ConfirmsCancel(s: State, step: Step, t: DataType) {
    && step.OnCancel? && step.c.EndCancel? && step.c.outcome.CancelOk?
    && step.c.op in s.cancels && s.cancels[step.c.op].t == t && !s.cancels[step.c.op].stopped && CanConfirm(s, s.cancels[step.c.op])
  }

  /** The wait this step ends is the teardown's, and it ended in time. */
  predicate EndsWait(s: State, k: CloseStep) {
    match k
    case EndChannelClose(op, _, timedOut) => op in s.closers && s.closers[op].ClosingChannel? && !timedOut
    case EndConnectionClose(op, ok) => op in s.closers && s.closers[op].ClosingConnection? && ok
    case _ => false
  }

  /** The step ends a teardown that had a transport, with both handles gone. */
  predicate ConfirmsTeardown(s: State, step: Step) {
    step.OnClose? && EndsWait(s, step.k) && s.closers[step.k.op].had && Do(s, step).conn.None? && Do(s, step).chan.None?
  }

  lemma AfterChannelClears(s: State, op: OpId, had: bool, owner: Owner, t: DataType)
    requires t in s.tags
    ensures var s' := AfterChannel(s, op, had, owner);
      t !in s'.tags <==> had && s'.conn.None? && s'.chan.None?
  {
  }

  lemma BeginCloseKeepsTags(s: State, op: OpId, owner: Owner)
    ensures DoBeginClose(s, op, owner).tags == s.tags
  {
    BeginCloses(s, op, owner);
  }

  lemma CloseStepClears(s: State, k: CloseStep, t: DataType)
    requires t in s.tags
    ensures t !in DoClose(s, k).tags <==> ConfirmsTeardown(s, OnClose(k))
  {
    match k
    case BeginClose(op, owner) => { BeginCloseKeepsTags(s, op, owner); }
    case EndChannelClose(op, ok, timedOut) => {
      if EndsWait(s, k) {
        var c := s.closers[op];
        AfterChannelClears(if ok then s.(chan := None, live := LiveOff(s, c.target)) else s, op, c.had, c.owner, t);
      }
    }
    case EndConnectionClose(op, ok) => {}
    case DropClose(op) => {}
  }

  /** A tag leaves the table exactly on a CancelOk for its type or on a confirmed teardown. */
  lemma TagsLeaveOnConfirmationOnly(s: State, step: Step, t: DataType)
    requires t in s.tags
    ensures t !in Do(s, step).tags <==> ConfirmsCancel(s, step, t) || ConfirmsTeardown(s, step)
  {
    match step
    case OnCancel(c) => { CancelStepCancels(s, c); }
    case OnClose(k) => { CloseStepClears(s, k, t); }
    case OnRecover(r) => { RecoverStepRecovers(s, r); }
    case OnBroker(b) => {}
  }

  /** The request is withdrawn only once both transport handles are gone. */
  lemma RecoveryClearedOnlyWithoutHandles(s: State, step: Step)
    requires s.recovery && !Do(s, step).recovery
    ensures step.OnRecover? && Reconnects(s, step.r) && s.conn.None? && s.chan.None?
  {
    match step
    case OnCancel(c) => { CancelStepCancels(s, c); }
    case OnClose(k) => { CloseStepCloses(s, k); }
    case OnRecover(r) => { RecoverStepRecovers(s, r); }
    case OnBroker(b) => {}
  }

  // ---------------------------------------------------------------- requests over runs

  /** A cancel that ends without a CancelOk or has no queue to ask. */
  predicate UnconfirmedCancel(s: State, c: CancelStep) {
    match c
    case EndCancel(op, outcome) => op in s.cancels && (!outcome.CancelOk? || s.cancels[op].stopped)
    case BeginCancel(op, t, queue, _) => op !in s.cancels && t in s.tags && !queue
    case StopTimer(_) => false
  }

  predicate FailedTeardown(s: State, k: CloseStep) {
    match k
    case EndChannelClose(op, _, timedOut) => op in s.closers && s.closers[op].ClosingChannel? && timedOut
    case EndConnectionClose(op, ok) => op in s.closers && s.closers[op].ClosingConnection? && !ok
    case _ => false
  }

  predicate FailedRecovery(s: State, r: RecoverStep) {
    || (r == Connected(false) && s.registrar.Connecting?)
    || (r.RecoveryFailed? && r.op !in s.closers && (s.registrar.Probing? || s.registrar.Registering?))
  }

  predicate GoesWrong(s: State, step: Step) {
    || (step.OnCancel? && UnconfirmedCancel(s, step.c))
    || (step.OnClose? && FailedTeardown(s, step.k))
    || (step.OnRecover? && FailedRecovery(s, step.r))
  }

  lemma FailureAsksForRecovery(s: State, step: Step)
    requires GoesWrong(s, step)
    ensures Do(s, step).recovery && Do(s, step).tags == s.tags
  {
    match step
    case OnCancel(c) => {}
    case OnClose(k) => {}
    case OnRecover(r) => {
      RecoverStepRecovers(s, r);
      if r.RecoveryFailed? { FailureRecovers(s, r.op); }
    }
  }

  predicate Withdraws(s: State, step: Step) {
    step.OnRecover? && Reconnects(s, step.r)
  }

  lemma OneMoreStep(steps: seq<Step>, m: nat)
    requires m < |steps|
    ensures Run(steps[..m + 1]) == Do(Run(steps[..m]), steps[m])
  {
    assert steps[..m + 1][..m] == steps[..m];
  }

  /** Over every run: from an unconfirmed cancel, a failed teardown or a failed recovery on, the
      request for recovery stands until a step that reconnects, which finds both handles gone. */
  lemma {:induction false} RequestStandsUntilReconnect(steps: seq<Step>, k: nat, m: nat)
    requires k < m <= |steps| && GoesWrong(Run(steps[..k]), steps[k])
    requires forall j :: k < j < m ==> !Withdraws(Run(steps[..j]), steps[j])
    ensures Run(steps[..m]).recovery
  {
    OneMoreStep(steps, m - 1);
    if m - 1 == k {
      FailureAsksForRecovery(Run(steps[..k]), steps[k]);
    } else {
      RequestStandsUntilReconnect(steps, k, m - 1);
      if !Run(steps[..m]).recovery { RecoveryClearedOnlyWithoutHandles(Run(steps[..m - 1]), steps[m - 1]); }
    }
  }

  /** And over every run a tag stays until a CancelOk for its type or a confirmed teardown. */
  lemma {:induction false} TagStaysUntilConfirmation(steps: seq<Step>, k: nat, m: nat, t: DataType)
    requires k <= m <= |steps| && t in Run(steps[..k]).tags
    requires forall j :: k <= j < m ==> !ConfirmsCancel(Run(steps[..j]), steps[j], t) && !ConfirmsTeardown(Run(steps[..j]), steps[j])
    ensures t in Run(steps[..m]).tags
  {
    if k < m {
      OneMoreStep(steps, m - 1);
      TagStaysUntilConfirmation(steps, k, m - 1, t);
      TagsLeaveOnConfirmationOnly(Run(steps[..m - 1]), steps[m - 1], t);
    }
  }
}
