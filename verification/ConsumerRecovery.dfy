/** What teardown, recovery and cancels achieve when nothing goes wrong, from any reachable state. */
module ConsumerRecovery {
  import opened Common
  import opened Consumers
  import T = ConsumerTruth

  /** The state after the first k of some further steps. */
  function After(s: State, steps: seq<Step>, k: nat): State
    requires k <= |steps|
  {
    if k == 0 then s else Do(After(s, steps, k - 1), steps[k - 1])
  }

  // ---------------------------------------------------------------- cancels

  /** A confirmed cancel takes its type off the table and its registration off the broker, and
      leaves every other type and registration as it was. */
  lemma ConfirmedCancelEnds(s: State, op: OpId)
    requires op in s.cancels && !s.cancels[op].stopped && CanConfirm(s, s.cancels[op]) && s.cancels[op].t in s.tags
    ensures var s', c := Do(s, OnCancel(EndCancel(op, CancelOk))), s.cancels[op];
      && c.t !in s'.tags && c.reg !in s'.live && op !in s'.cancels && s'.gauge == s.gauge - 1 && s'.recovery == s.recovery
      && (forall t :: t in s.tags && t != c.t ==> t in s'.tags && s'.tags[t] == s.tags[t])
      && (forall r :: r in s.live && r != c.reg ==> r in s'.live)
  {
  }

  // ---------------------------------------------------------------- teardown

  /** A teardown whose channel and connection both close. */
  function Teardown(op: OpId): seq<Step> {
    [OnClose(BeginClose(op, Timer)), OnClose(EndChannelClose(op, true, false)), OnClose(EndConnectionClose(op, true))]
  }

  lemma ClosesChannel(s: State, op: OpId, on: nat)
    requires s.conn == Some(on) && s.chan == Some(on) && op !in s.closers
    ensures var s' := Do(Do(s, OnClose(BeginClose(op, Timer))), OnClose(EndChannelClose(op, true, false)));
      && s'.tags == s.tags && s'.gauge == s.gauge && s'.conn == Some(on) && s'.chan.None? && s'.live == LiveOff(s, on) && s'.open == s.open
      && s'.regs == s.regs && op in s'.closers && s'.closers[op] == ClosingConnection(true, on, Timer)
  {
  }

  /** From any reachable state with a connection, it leaves no tag, no handle, no subscription, and
      that connection closed. */
  lemma TeardownLeavesNothing(steps: seq<Step>, op: OpId, on: nat)
    requires Run(steps).conn == Some(on) && Run(steps).chan == Some(on) && op !in Run(steps).closers
    ensures var s' := After(Run(steps), Teardown(op), 3);
      s'.tags == map[] && s'.gauge == 0 && s'.conn.None? && s'.chan.None? && s'.live == {} && on !in s'.open
  {
    var s := Run(steps);
    GaugeIsTableSize(steps);
    forall r ensures r !in LiveOff(s, on) {
      if r in s.live { T.LiveSubscriptionsAreTabled(steps, r); }
    }
    ClosesChannel(s, op, on);
    var s1 := After(s, Teardown(op), 1);
    var s2 := After(s, Teardown(op), 2);
    assert s1 == Do(After(s, Teardown(op), 0), Teardown(op)[0]);
  }

  // ---------------------------------------------------------------- recovery

  /** With no handle left, the recovery connects, adopts the connection and registers one consumer
      for each type that has messages waiting. */
  function Opening(op: OpId): seq<Step> {
    [OnRecover(BeginRecovery(op)), OnRecover(Connected(true)), OnRecover(Adopt)]
  }

  lemma OpensConnection(s: State, op: OpId)
    requires s.registrar.Idle? && s.conn.None? && s.chan.None? && op !in s.closers
    ensures var s' := After(s, Opening(op), 3);
      && s'.conn == Some(s.nextConn) && s'.chan == Some(s.nextConn) && s'.registrar == Registering(s.nextConn) && !s'.recovery
      && s'.tags == s.tags && s'.live == s.live && s'.open == s.open + {s.nextConn}
  {
    var s1 := After(s, Opening(op), 1);
    assert s1 == Do(After(s, Opening(op), 0), Opening(op)[0]);
    var s2 := After(s, Opening(op), 2);
    assert s2 == Do(s1, Opening(op)[1]);
    assert After(s, Opening(op), 3) == Do(s2, Opening(op)[2]);
  }

  predicate Distinct(ts: seq<DataType>) {
    forall i, j :: 0 <= i < j < |ts| ==> ts[i] != ts[j]
  }

  /** The consumers of these types, one after the other. */
  function Consumed(s: State, ts: seq<DataType>, on: nat, k: nat): State
    requires k <= |ts|
  {
    if k == 0 then s else Do(Consumed(s, ts, on, k - 1), OnRecover(Register(ts[k - 1], on)))
  }

  predicate Delivers(s: State, t: DataType, on: nat) {
    t in s.tags && s.tags[t] in s.live && s.tags[t] in s.regs && s.regs[s.tags[t]] == Reg(t, on)
  }

  /** The registrar is registering on this connection, and the tags are numbered below the next. */
  predicate Ready(s: State, on: nat) {
    s.registrar == Registering(on) && on in s.open && s.conn == Some(on) && !s.recovery && forall t :: t in s.tags ==> s.tags[t] < s.nextReg
  }

  predicate Among(ts: seq<DataType>, k: nat, t: DataType) {
    exists i :: 0 <= i < k && i < |ts| && ts[i] == t
  }

  predicate AllDeliver(s: State, ts: seq<DataType>, k: nat, on: nat) {
    forall i :: 0 <= i < k && i < |ts| ==> Delivers(s, ts[i], on)
  }

  lemma {:induction false} ConsumersRegister(s: State, ts: seq<DataType>, on: nat, k: nat)
    requires k <= |ts| && Distinct(ts) && Ready(s, on) && forall i :: 0 <= i < |ts| ==> ts[i] !in s.tags
    ensures var s' := Consumed(s, ts, on, k);
      Ready(s', on) && (forall t :: t in s'.tags <==> t in s.tags || Among(ts, k, t)) && AllDeliver(s', ts, k, on)
  {
    if k > 0 {
      ConsumersRegister(s, ts, on, k - 1);
      var before, t := Consumed(s, ts, on, k - 1), ts[k - 1];
      assert !Among(ts, k - 1, t);
      OneMoreRegisters(before, t, on);
      OneMoreDelivers(before, Do(before, OnRecover(Register(t, on))), ts, k, on);
      assert forall u :: Among(ts, k, u) <==> Among(ts, k - 1, u) || u == t;
    }
  }

  lemma OneMoreDelivers(s: State, s': State, ts: seq<DataType>, k: nat, on: nat)
    requires 0 < k <= |ts| && Distinct(ts) && AllDeliver(s, ts, k - 1, on) && Delivers(s', ts[k - 1], on)
    requires forall u :: u != ts[k - 1] && Delivers(s, u, on) ==> Delivers(s', u, on)
    ensures AllDeliver(s', ts, k, on)
  {
  }

  lemma OneMoreRegisters(s: State, t: DataType, on: nat)
    requires Ready(s, on) && t !in s.tags
    ensures var s' := Do(s, OnRecover(Register(t, on)));
      && Ready(s', on) && (forall u :: u in s'.tags <==> u in s.tags || u == t)
      && Delivers(s', t, on) && forall u :: u != t && Delivers(s, u, on) ==> Delivers(s', u, on)
  {
  }

  lemma ThenAllRegistered(s: State, ts: seq<DataType>, on: nat)
    requires Distinct(ts) && Ready(s, on) && forall i :: 0 <= i < |ts| ==> ts[i] !in s.tags
    ensures var s' := Do(Consumed(s, ts, on, |ts|), OnRecover(Registered));
      && s'.registrar.Idle? && !s'.recovery && s'.conn == Some(on)
      && (forall t :: t in s'.tags <==> t in s.tags || t in ts)
      && forall i :: 0 <= i < |ts| ==> Delivers(s', ts[i], on)
  {
    ConsumersRegister(s, ts, on, |ts|);
    assert forall t :: Among(ts, |ts|, t) <==> t in ts;
    var s1 := Consumed(s, ts, on, |ts|);
    assert AllDeliver(s1, ts, |ts|, on);
    assert Do(s1, OnRecover(Registered)) == s1.(registrar := Idle);
  }

  lemma TagNumbers(steps: seq<Step>)
    ensures forall t :: t in Run(steps).tags ==> Run(steps).tags[t] < Run(steps).nextReg
  {
    T.EveryRunKeepsInv(steps);
  }

  /** From any reachable state with no handle left and an idle registrar, a recovery in which nothing
      fails ends with the request withdrawn, a new connection held, and every type it was to consume
      on the table and delivering on that connection. */
  lemma RecoveryRestores(steps: seq<Step>, op: OpId, ts: seq<DataType>)
    requires Run(steps).registrar.Idle? && Run(steps).conn.None? && Run(steps).chan.None? && op !in Run(steps).closers
    requires Distinct(ts) && forall i :: 0 <= i < |ts| ==> ts[i] !in Run(steps).tags
    ensures var s, on := Run(steps), Run(steps).nextConn;
      var s' := Do(Consumed(After(s, Opening(op), 3), ts, on, |ts|), OnRecover(Registered));
      && s'.registrar.Idle? && !s'.recovery && s'.conn == Some(on)
      && (forall t :: t in s'.tags <==> t in s.tags || t in ts)
      && forall i :: 0 <= i < |ts| ==> Delivers(s', ts[i], on)
  {
    TagNumbers(steps);
    Restores(Run(steps), op, ts);
  }

  lemma Restores(s: State, op: OpId, ts: seq<DataType>)
    requires s.registrar.Idle? && s.conn.None? && s.chan.None? && op !in s.closers
    requires Distinct(ts) && (forall i :: 0 <= i < |ts| ==> ts[i] !in s.tags) && forall t :: t in s.tags ==> s.tags[t] < s.nextReg
    ensures var s' := Do(Consumed(After(s, Opening(op), 3), ts, s.nextConn, |ts|), OnRecover(Registered));
      && s'.registrar.Idle? && !s'.recovery && s'.conn == Some(s.nextConn)
      && (forall t :: t in s'.tags <==> t in s.tags || t in ts)
      && forall i :: 0 <= i < |ts| ==> Delivers(s', ts[i], s.nextConn)
  {
    OpensConnection(s, op);
    OpeningKeepsNumbers(s, op);
    ThenAllRegistered(After(s, Opening(op), 3), ts, s.nextConn);
  }

  lemma OpeningKeepsNumbers(s: State, op: OpId)
    requires s.registrar.Idle? && s.conn.None? && s.chan.None? && op !in s.closers
    ensures After(s, Opening(op), 3).nextReg == s.nextReg
  {
    var s1 := After(s, Opening(op), 1);
    assert s1 == Do(After(s, Opening(op), 0), Opening(op)[0]);
    var s2 := After(s, Opening(op), 2);
    assert s2 == Do(s1, Opening(op)[1]);
    assert After(s, Opening(op), 3) == Do(s2, Opening(op)[2]);
  }
}
