/** The consumer table tells the truth: in every run, every subscription the broker still holds is
    the table's entry for its type. */
module ConsumerTruth {
  import opened Common
  import opened Consumers

  /** Every live registration is the table's entry for its type. */
  ghost predicate Truthful(s: State) {
    forall r :: r in s.live ==> r in s.regs && s.regs[r].t in s.tags && s.tags[s.regs[r].t] == r
  }

  // ---------------------------------------------------------------- the invariant

  /** While the recovery connects, both handles are gone; while it registers, its connection is
      the one held, unless a teardown closed it. */
  ghost predicate HandlesAgree(s: State) {
    && (s.chan.Some? ==> s.conn == s.chan)
    && (s.registrar.Connecting? || s.registrar.Probing? ==> s.conn.None? && s.chan.None?)
    && (s.registrar.Registering? && s.conn.Some? ==> s.conn == Some(s.registrar.on))
    && (s.registrar.Registering? && s.registrar.on in s.open ==> s.conn.Some?)
  }

  predicate Below(c: Option<nat>, n: nat) {
    c.Some? ==> c.value < n
  }

  ghost predicate Numbered(s: State) {
    && Below(s.conn, s.nextConn)
    && (s.registrar.Probing? ==> s.registrar.temp < s.nextConn)
    && (s.registrar.Registering? ==> s.registrar.on < s.nextConn)
    && (forall r :: r in s.regs ==> r < s.nextReg && s.regs[r].on < s.nextConn && s.registrar != Probing(s.regs[r].on))
  }

  /** A connection consumers were registered on is closed, or the one held. */
  ghost predicate OneOpen(s: State) {
    forall r :: r in s.regs && s.regs[r].on in s.open ==> s.conn == Some(s.regs[r].on)
  }

  ghost predicate LiveHere(s: State) {
    forall r :: r in s.live ==> r in s.regs && s.conn == Some(s.regs[r].on)
  }

  ghost predicate TagsKnown(s: State) {
    forall t :: t in s.tags ==> s.tags[t] in s.regs && s.regs[s.tags[t]].t == t
  }

  ghost predicate CancelsKnown(s: State) {
    forall op :: op in s.cancels ==>
      var c := s.cancels[op]; c.reg in s.regs && s.regs[c.reg].t == c.t && (c.t in s.tags ==> c.reg <= s.tags[c.t])
  }

  /** Teardowns close the connection held, and none is in flight while the recovery connects: its
      own has ended, the timers' were cancelled, and a new one finds nothing to close. */
  ghost predicate ClosersAim(s: State) {
    && (forall op :: op in s.closers && s.conn.Some? ==> s.closers[op].target == s.conn.value)
    && (forall op :: op in s.closers && s.registrar.Registering? ==> s.closers[op].target == s.registrar.on)
    && (s.registrar.Connecting? || s.registrar.Probing? ==> s.closers == map[])
  }

  ghost predicate Owned(s: State) {
    forall op :: op in s.closers ==>
      && (s.closers[op].owner.Recoverer? ==> s.registrar.Closing? && s.registrar.op == op)
      && (s.closers[op].owner.Shutdown? ==> s.registrar.Stopped?)
  }

  /** The half about handles, connections and teardowns, and the half about the table. */
  ghost predicate TransportInv(s: State) {
    HandlesAgree(s) && Numbered(s) && OneOpen(s) && LiveHere(s) && ClosersAim(s) && Owned(s)
  }

  ghost predicate TableInv(s: State) {
    TagsKnown(s) && CancelsKnown(s) && Truthful(s)
  }

  ghost predicate Inv(s: State) {
    TransportInv(s) && TableInv(s)
  }

  lemma SameTransport(s: State, s': State)
    requires TransportInv(s) && s'.conn == s.conn && s'.chan == s.chan && s'.closers == s.closers && s'.registrar == s.registrar
    requires s'.regs == s.regs && s'.open <= s.open && s'.nextReg == s.nextReg && s'.nextConn == s.nextConn && s'.live <= s.live
    ensures TransportInv(s')
  {
  }

  lemma SameEntries(s: State, s': State)
    requires TableInv(s) && s'.tags == s.tags && s'.cancels == s.cancels && s'.regs == s.regs && s'.live <= s.live
    ensures TableInv(s')
  {
  }

  // ---------------------------------------------------------------- cancels

  /** A confirmed cancel removes the very registration it cancelled, or a dead one. */
  lemma ConfirmedCancelIsTheTableEntry(s: State, op: OpId)
    requires Inv(s) && op in s.cancels && CanConfirm(s, s.cancels[op]) && s.cancels[op].t in s.tags
    ensures s.tags[s.cancels[op].t] == s.cancels[op].reg || s.tags[s.cancels[op].t] !in s.live
  {
    var c := s.cancels[op];
    assert s.conn == Some(s.regs[c.reg].on);
  }

  lemma BeginCancelKeepsInv(s: State, op: OpId, t: DataType, queue: bool, timed: bool)
    requires Inv(s)
    ensures Inv(DoCancel(s, BeginCancel(op, t, queue, timed)))
  {
    SameTransport(s, DoCancel(s, BeginCancel(op, t, queue, timed)));
  }

  lemma UnconfirmedKeepsInv(s: State, op: OpId)
    requires Inv(s) && op in s.cancels
    ensures Inv(s.(cancels := s.cancels - {op}, recovery := true))
  {
    SameTransport(s, s.(cancels := s.cancels - {op}, recovery := true));
  }

  lemma ConfirmedKeepsTable(s: State, op: OpId, c: Cancel)
    requires Inv(s) && op in s.cancels && c == s.cancels[op] && CanConfirm(s, c)
    ensures TableInv(s.(cancels := s.cancels - {op}, tags := s.tags - {c.t}, gauge := s.gauge - 1, live := s.live - {c.reg}))
    ensures c.t !in s.tags ==> TableInv(s.(cancels := s.cancels - {op}, live := s.live - {c.reg}))
  {
    if c.t in s.tags { ConfirmedCancelIsTheTableEntry(s, op); }
  }

  lemma EndCancelKeepsInv(s: State, op: OpId, outcome: CancelOutcome)
    requires Inv(s) && op in s.cancels
    ensures Inv(DoEndCancel(s, op, outcome))
  {
    var c := s.cancels[op];
    if !outcome.CancelOk? || c.stopped {
      UnconfirmedKeepsInv(s, op);
    } else if CanConfirm(s, c) {
      ConfirmedKeepsTable(s, op, c);
      SameTransport(s, DoEndCancel(s, op, outcome));
    }
  }

  lemma StopTimerKeepsInv(s: State, op: OpId)
    requires Inv(s)
    ensures Inv(DoCancel(s, StopTimer(op)))
  {
    SameTransport(s, DoCancel(s, StopTimer(op)));
  }

  lemma CancelKeepsInv(s: State, step: CancelStep)
    requires Inv(s)
    ensures Inv(DoCancel(s, step))
  {
    match step
    case BeginCancel(op, t, queue, timed) => { BeginCancelKeepsInv(s, op, t, queue, timed); }
    case EndCancel(op, outcome) => { if op in s.cancels { EndCancelKeepsInv(s, op, outcome); } }
    case StopTimer(op) => { StopTimerKeepsInv(s, op); }
  }

  // ---------------------------------------------------------------- teardown

  lemma TailKeepsInv(s: State, had: bool)
    requires Inv(s) && s.conn.None?
    ensures Inv(CloseTail(s, had))
  {
    assert forall r :: r !in s.live;
  }

  predicate MayOwn(s: State, op: OpId, owner: Owner) {
    match owner
    case Timer => true
    case Recoverer => s.registrar.Closing? && s.registrar.op == op
    case Shutdown => s.registrar.Stopped?
  }

  lemma AfterChannelKeepsInv(s: State, op: OpId, had: bool, owner: Owner)
    requires Inv(s) && MayOwn(s, op, owner)
    ensures Inv(AfterChannel(s, op, had, owner))
  {
    if s.conn.None? { TailKeepsInv(s.(closers := s.closers - {op}), had); }
  }

  lemma BeginCloseKeepsInv(s: State, op: OpId, owner: Owner)
    requires Inv(s) && MayOwn(s, op, owner)
    ensures Inv(DoBeginClose(s, op, owner))
  {
    if s.chan.None? { AfterChannelKeepsInv(s, op, s.conn.Some?, owner); }
  }

  /** With every teardown aimed at the connection held, closing it ends every subscription. */
  lemma NothingLiveOff(s: State, op: OpId)
    requires Inv(s) && op in s.closers
    ensures LiveOff(s, s.closers[op].target) == {}
  {
    assert forall r :: r !in LiveOff(s, s.closers[op].target);
  }

  lemma ChannelCloseKeepsInv(s: State, op: OpId, ok: bool, timedOut: bool)
    requires Inv(s) && op in s.closers
    ensures Inv(DoEndChannelClose(s, op, ok, timedOut))
  {
    var c := s.closers[op];
    NothingLiveOff(s, op);
    if ok && !timedOut {
      AfterChannelKeepsInv(s.(chan := None, live := LiveOff(s, c.target)), op, c.had, c.owner);
    } else if !timedOut {
      AfterChannelKeepsInv(s, op, c.had, c.owner);
    }
  }

  lemma ConnectionGoneKeepsInv(s: State, op: OpId)
    requires Inv(s) && op in s.closers && LiveOff(s, s.closers[op].target) == {}
    ensures Inv(s.(closers := s.closers - {op}, conn := None, chan := None, open := s.open - {s.closers[op].target}, live := {}))
  {
  }

  lemma ConnectionCloseKeepsInv(s: State, op: OpId, ok: bool)
    requires Inv(s) && op in s.closers
    ensures Inv(DoEndConnectionClose(s, op, ok))
  {
    var c := s.closers[op];
    NothingLiveOff(s, op);
    if ok {
      ConnectionGoneKeepsInv(s, op);
      TailKeepsInv(s.(closers := s.closers - {op}, conn := None, chan := None, open := s.open - {c.target}, live := {}), c.had);
    }
  }

  lemma CloseKeepsInv(s: State, k: CloseStep)
    requires Inv(s)
    ensures Inv(DoClose(s, k))
  {
    match k
    case BeginClose(op, owner) => { if DoClose(s, k) != s { BeginCloseKeepsInv(s, op, owner); } }
    case EndChannelClose(op, ok, timedOut) => { if op in s.closers { ChannelCloseKeepsInv(s, op, ok, timedOut); } }
    case EndConnectionClose(op, ok) => { if op in s.closers { ConnectionCloseKeepsInv(s, op, ok); } }
    case DropClose(op) => {}
  }

  // ---------------------------------------------------------------- recovery

  /** Cancelling the timers leaves no teardown: the recovery's own has ended. */
  lemma ReconnectKeepsInv(s: State)
    requires Inv(s) && s.conn.None? && s.chan.None?
    requires s.registrar.Idle? || (s.registrar.Closing? && s.registrar.op !in s.closers)
    ensures Inv(Reconnect(s))
  {
    assert Untimed(s.closers) == map[];
    var s' := Reconnect(s);
    forall op | op in s'.cancels
      ensures s'.cancels[op].reg in s'.regs && s'.regs[s'.cancels[op].reg].t == s'.cancels[op].t
      ensures s'.cancels[op].t in s'.tags ==> s'.cancels[op].reg <= s'.tags[s'.cancels[op].t]
    {
      assert op in s.cancels;
    }
  }

  lemma BeginRecoveryKeepsInv(s: State, op: OpId)
    requires Inv(s)
    ensures Inv(DoRecover(s, BeginRecovery(op)))
  {
    if s.registrar.Idle? && op !in s.closers {
      if s.conn.Some? || s.chan.Some? {
        ClaimKeepsInv(s, op);
        BeginCloseKeepsInv(s.(registrar := Closing(op, true)), op, Recoverer);
      } else {
        ReconnectKeepsInv(s);
      }
    }
  }

  lemma ClaimKeepsInv(s: State, op: OpId)
    requires Inv(s) && s.registrar.Idle?
    ensures Inv(s.(registrar := Closing(op, true)))
  {
  }

  /** Installing the recovery's own connection: nothing else is open, so nothing else delivers,
      and no teardown is in flight that could mistake it for another. */
  lemma AdoptKeepsInv(s: State, on: nat)
    requires Inv(s) && s.registrar == Probing(on)
    ensures Inv(Holding(s, on).(registrar := Registering(on)))
  {
    assert forall r :: r !in s.live;
  }

  lemma FailHoldsInv(s: State, on: nat, op: OpId)
    requires Inv(s) && (s.registrar == Probing(on) || s.registrar == Registering(on))
    ensures Inv(Holding(s, on).(registrar := Closing(op, false), recovery := true))
  {
    if s.conn.None? { assert forall r :: r !in s.live; }
  }

  lemma FailureKeepsInv(s: State, on: nat, op: OpId)
    requires Inv(s) && (s.registrar == Probing(on) || s.registrar == Registering(on))
    ensures Inv(FailRecovery(s, on, op))
  {
    FailHoldsInv(s, on, op);
    BeginCloseKeepsInv(Holding(s, on).(registrar := Closing(op, false), recovery := true), op, Recoverer);
  }

  lemma RegisterKeepsInv(s: State, t: DataType, on: nat)
    requires Inv(s) && CanRegister(s, t, on)
    ensures Inv(DoRegister(s, t, on))
  {
    assert s.conn == Some(on);
    RegisterKeepsTable(s, t, on);
    assert TransportInv(DoRegister(s, t, on));
  }

  lemma RegisterKeepsTable(s: State, t: DataType, on: nat)
    requires TableInv(s) && t !in s.tags && forall r :: r in s.regs ==> r < s.nextReg
    ensures TableInv(DoRegister(s, t, on))
  {
  }

  /** A change of the registrar's stage alone, with no new teardown. */
  lemma StageKeepsInv(s: State, s': State)
    requires Inv(s) && s' == s.(registrar := s'.registrar, closers := s'.closers, recovery := s'.recovery)
    requires s'.registrar.Idle? || s'.registrar.Stopped?
    requires forall op :: op in s'.closers ==> op in s.closers && s'.closers[op] == s.closers[op]
    requires forall op :: op in s'.closers ==> !s.closers[op].owner.Recoverer? && (s.closers[op].owner.Shutdown? ==> s'.registrar.Stopped?)
    ensures Inv(s')
  {
    SameEntries(s, s');
  }

  lemma ProceedKeepsInv(s: State)
    requires Inv(s)
    ensures Inv(DoRecover(s, Proceed))
  {
    if s.registrar.Closing? && s.registrar.op !in s.closers {
      if s.registrar.reconnects && s.conn.None? && s.chan.None? { ReconnectKeepsInv(s); } else { StageKeepsInv(s, s.(registrar := Idle)); }
    }
  }

  lemma ConnectedKeepsInv(s: State, ok: bool)
    requires Inv(s)
    ensures Inv(DoRecover(s, Connected(ok)))
  {
    SameEntries(s, DoRecover(s, Connected(ok)));
  }

  lemma NothingQueuedKeepsInv(s: State)
    requires Inv(s)
    ensures Inv(DoRecover(s, NothingQueued))
  {
    SameEntries(s, DoRecover(s, NothingQueued));
  }

  lemma RegisteredKeepsInv(s: State)
    requires Inv(s)
    ensures Inv(DoRecover(s, Registered))
  {
    if s.registrar.Registering? { StageKeepsInv(s, s.(registrar := Idle)); }
  }

  lemma StopKeepsInv(s: State)
    requires Inv(s)
    ensures Inv(DoRecover(s, Stop))
  {
    StageKeepsInv(s, DoRecover(s, Stop));
  }

  lemma RecoverKeepsInv(s: State, r: RecoverStep)
    requires Inv(s)
    ensures Inv(DoRecover(s, r))
  {
    match r
    case BeginRecovery(op) => { BeginRecoveryKeepsInv(s, op); }
    case Proceed => { ProceedKeepsInv(s); }
    case Connected(ok) => { ConnectedKeepsInv(s, ok); }
    case NothingQueued => { NothingQueuedKeepsInv(s); }
    case Adopt => { if s.registrar.Probing? { AdoptKeepsInv(s, s.registrar.temp); } }
    case RecoveryFailed(op) => {
      if op !in s.closers && s.registrar.Probing? { FailureKeepsInv(s, s.registrar.temp, op); }
      if op !in s.closers && s.registrar.Registering? { FailureKeepsInv(s, s.registrar.on, op); }
    }
    case Register(t, on) => { if CanRegister(s, t, on) { RegisterKeepsInv(s, t, on); } }
    case Registered => { RegisteredKeepsInv(s); }
    case Stop => { StopKeepsInv(s); }
  }

  lemma BrokerKeepsInv(s: State, b: BrokerStep)
    requires Inv(s)
    ensures Inv(DoBroker(s, b))
  {
    SameTransport(s, DoBroker(s, b));
  }

  // ---------------------------------------------------------------- main results

  lemma {:induction false} EveryRunKeepsInv(steps: seq<Step>)
    ensures Inv(Run(steps))
  {
    if steps != [] {
      EveryRunKeepsInv(steps[..|steps| - 1]);
      var s := Run(steps[..|steps| - 1]);
      match steps[|steps| - 1]
      case OnCancel(c) => { CancelKeepsInv(s, c); }
      case OnClose(k) => { CloseKeepsInv(s, k); }
      case OnRecover(r) => { RecoverKeepsInv(s, r); }
      case OnBroker(b) => { BrokerKeepsInv(s, b); }
    }
  }

  /** In every interleaving a subscription that still delivers is the table's entry for its type,
      on the connection the process holds: a confirmed teardown never drops the tag of one. */
  lemma LiveSubscriptionsAreTabled(steps: seq<Step>, r: nat)
    requires r in Run(steps).live
    ensures var s := Run(steps);
      && r in s.regs && s.regs[r].t in s.tags && s.tags[s.regs[r].t] == r
      && s.conn == Some(s.regs[r].on)
  {
    EveryRunKeepsInv(steps);
  }

  /** No teardown outlives a reconnect: whenever one is in flight and a connection is held, that
      is the connection it closes. */
  lemma TeardownsAimAtTheHeldConnection(steps: seq<Step>, op: OpId)
    requires op in Run(steps).closers
    ensures var s := Run(steps);
      && !s.registrar.Connecting? && !s.registrar.Probing?
      && (s.conn.Some? ==> s.closers[op].target == s.conn.value)
  {
    EveryRunKeepsInv(steps);
  }
}
