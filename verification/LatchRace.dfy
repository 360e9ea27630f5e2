/** A restart in which an older version takes the slot: the run that shows why the last startup
    read starts the newest version's pass only when the slot is free. */
module LatchRace {
  import opened Common
  import opened Latch
  import opened LatchTheorems
  import opened LatchResume

  // ---------------------------------------------------------------- running lists of steps

  function After(s: State, steps: seq<Step>, k: nat): State
    requires k <= |steps|
  {
    if k == 0 then s else Do(After(s, steps, k - 1), steps[k - 1])
  }

  lemma {:induction false} ExecuteInParts(a: seq<Step>, b: seq<Step>, k: nat)
    requires k <= |b|
    ensures Execute(a + b[..k]) == After(Execute(a), b, k)
  {
    if k == 0 {
      assert a + b[..0] == a;
    } else {
      ExecuteInParts(a, b, k - 1);
      ExecuteOne(a + b[..k - 1], b[k - 1]);
      assert a + b[..k - 1] + [b[k - 1]] == a + b[..k];
    }
  }

  lemma ExecuteJoined(a: seq<Step>, b: seq<Step>)
    ensures Execute(a + b) == After(Execute(a), b, |b|)
  {
    ExecuteInParts(a, b, |b|);
    assert b[..|b|] == b;
  }

  // ---------------------------------------------------------------- one marker, handled alone

  function Handling(id: MessageId, ackOk: bool): seq<Step> {
    [OnHost(DeliverMarker(id)), OnMarker(Flush(id, true, false)), OnMarker(Acquire(id)), OnMarker(Load(id, true, false)),
     OnMarker(Persist(id, Landed, false)), OnMarker(Decide(id)), OnMarker(Check(id, true, false)), OnMarker(Ack(id, ackOk, false))]
  }

  /** The signals the marker's section commits. */
  function Committed(s: State, m: Marker): set<DataType> {
    (if s.cacheVersion == Some(m.version) then s.cache else SignalsOf(s.nodes, m.version)) + {m.dataType}
  }

  /** The state when its handler is done: committed, and acknowledged or given back. */
  function Handled(s: State, id: MessageId, m: Marker, ackOk: bool): State {
    var c := Committed(s, m);
    var nodes := PersistSignals(s.nodes, m.version, c, s.now);
    var full := DATA_TYPES <= c;
    s.(nodes := nodes, cache := c, cacheVersion := Some(m.version),
       triggered := if ackOk && full && !Maintained(nodes, m.version) then s.triggered + {m.version} else s.triggered,
       desk := if !ackOk then s.desk else
         s.desk.(queued := s.desk.queued - {id}, acked := s.desk.acked + {id},
                 triggers := if full && !Maintained(nodes, m.version) then s.desk.triggers[id := m.version] else s.desk.triggers))
  }

  predicate Waiting(s: State, id: MessageId, m: Marker) {
    && s.up && s.lock.Free? && s.desk.handlers == map[]
    && id in s.desk.queued && id in s.desk.published && s.desk.published[id] == m
  }

  function InHand(s: State, id: MessageId, m: Marker, phase: Phase): State {
    s.(desk := s.desk.(queued := s.desk.queued - {id}, handlers := map[id := Handler(m, phase)]))
  }

  lemma Entering(s: State, id: MessageId, m: Marker, ackOk: bool)
    requires Waiting(s, id, m)
    ensures After(s, Handling(id, ackOk), 4) == InHand(s, id, m, InSection).(lock := Writing(id, Committed(s, m)))
  {
    var steps := Handling(id, ackOk);
    assert After(s, steps, 1) == InHand(s, id, m, Flushing);
    assert After(s, steps, 2) == InHand(s, id, m, AwaitingLock);
    var entered := After(s, steps, 3);
    assert entered == InHand(s, id, m, InSection).(lock := if s.cacheVersion == Some(m.version) then Writing(id, Committed(s, m)) else Reading(id));
    assert After(s, steps, 4) == Do(entered, steps[3]);
  }

  lemma Committing(s: State, id: MessageId, m: Marker, ackOk: bool)
    requires Waiting(s, id, m)
    ensures var c := Committed(s, m);
      After(s, Handling(id, ackOk), 5) == InHand(s, id, m, Recorded(c)).(nodes := PersistSignals(s.nodes, m.version, c, s.now), cache := c, cacheVersion := Some(m.version))
  {
    Entering(s, id, m, ackOk);
    var steps := Handling(id, ackOk);
    assert After(s, steps, 5) == Do(After(s, steps, 4), steps[4]);
  }

  lemma Settling(s: State, d: State, id: MessageId, m: Marker, c: set<DataType>, steps: seq<Step>, ackOk: bool)
    requires Waiting(s, id, m) && d == InHand(s, id, m, Recorded(c)).(nodes := d.nodes, cache := d.cache, cacheVersion := d.cacheVersion)
    requires steps == [OnMarker(Decide(id)), OnMarker(Check(id, true, false)), OnMarker(Ack(id, ackOk, false))]
    ensures After(d, steps, 3) ==
      s.(nodes := d.nodes, cache := d.cache, cacheVersion := d.cacheVersion,
         triggered := if ackOk && DATA_TYPES <= c && !Maintained(d.nodes, m.version) then s.triggered + {m.version} else s.triggered,
         desk := if !ackOk then s.desk else
           s.desk.(queued := s.desk.queued - {id}, acked := s.desk.acked + {id},
                   triggers := if DATA_TYPES <= c && !Maintained(d.nodes, m.version) then s.desk.triggers[id := m.version] else s.desk.triggers))
  {
    var due := DATA_TYPES <= c && !Maintained(d.nodes, m.version);
    var checked := InHand(s, id, m, Acking(due)).(nodes := d.nodes, cache := d.cache, cacheVersion := d.cacheVersion);
    Deciding(s, d, id, m, c, steps, checked);
    assert After(d, steps, 3) == Do(checked, steps[2]);
    assert s.desk.queued - {id} + {id} == s.desk.queued;
  }

  lemma Deciding(s: State, d: State, id: MessageId, m: Marker, c: set<DataType>, steps: seq<Step>, checked: State)
    requires Waiting(s, id, m) && d == InHand(s, id, m, Recorded(c)).(nodes := d.nodes, cache := d.cache, cacheVersion := d.cacheVersion)
    requires |steps| == 3 && steps[0] == OnMarker(Decide(id)) && steps[1] == OnMarker(Check(id, true, false))
    requires checked == InHand(s, id, m, Acking(DATA_TYPES <= c && !Maintained(d.nodes, m.version)))
                          .(nodes := d.nodes, cache := d.cache, cacheVersion := d.cacheVersion)
    ensures After(d, steps, 2) == checked
  {
    assert After(d, steps, 1) == DoDecide(d, id);
    if DATA_TYPES <= c { CheckingComplete(d, id, m); } else { NothingToCheck(d, id, m); }
    assert After(d, steps, 2) == Do(DoDecide(d, id), steps[1]);
  }

  lemma CheckingComplete(d: State, id: MessageId, m: Marker)
    requires d.desk.handlers.Keys == {id} && d.desk.handlers[id].marker == m && d.desk.handlers[id].phase.Recorded?
    requires DATA_TYPES <= d.desk.handlers[id].phase.signals
    ensures Do(DoDecide(d, id), OnMarker(Check(id, true, false)))
         == d.(desk := d.desk.(handlers := map[id := Handler(m, Acking(!Maintained(d.nodes, m.version)))]))
  {
    assert DoDecide(d, id) == d.(desk := d.desk.(handlers := map[id := Handler(m, Checking)]));
  }

  lemma NothingToCheck(d: State, id: MessageId, m: Marker)
    requires d.desk.handlers.Keys == {id} && d.desk.handlers[id].marker == m && d.desk.handlers[id].phase.Recorded?
    requires !(DATA_TYPES <= d.desk.handlers[id].phase.signals)
    ensures Do(DoDecide(d, id), OnMarker(Check(id, true, false))) == d.(desk := d.desk.(handlers := map[id := Handler(m, Acking(false))]))
  {
    assert DoDecide(d, id) == d.(desk := d.desk.(handlers := map[id := Handler(m, Acking(false))]));
  }

  lemma {:induction false} AfterInParts(s: State, a: seq<Step>, b: seq<Step>, k: nat)
    requires k <= |b|
    ensures After(s, a + b, |a| + k) == After(After(s, a, |a|), b, k)
  {
    if k == 0 { AfterPrefix(s, a, b, |a|); } else { AfterInParts(s, a, b, k - 1); }
  }

  lemma {:induction false} AfterPrefix(s: State, a: seq<Step>, b: seq<Step>, k: nat)
    requires k <= |a|
    ensures After(s, a + b, k) == After(s, a, k)
  {
    if k > 0 { AfterPrefix(s, a, b, k - 1); }
  }

  lemma HandledAlone(s: State, id: MessageId, m: Marker, ackOk: bool)
    requires Waiting(s, id, m)
    ensures After(s, Handling(id, ackOk), 8) == Handled(s, id, m, ackOk)
  {
    var steps := Handling(id, ackOk);
    Committing(s, id, m, ackOk);
    assert steps == steps[..5] + steps[5..];
    AfterPrefix(s, steps[..5], steps[5..], 5);
    AfterInParts(s, steps[..5], steps[5..], 3);
    Settling(s, After(s, steps, 5), id, m, Committed(s, m), steps[5..], ackOk);
  }

  // ---------------------------------------------------------------- the first process

  function TypeAt(i: nat): DataType {
    if i == 0 then Artists else if i == 1 then Labels else if i == 2 then Masters else Releases
  }

  function FirstTypes(k: nat): set<DataType> {
    set i | 0 <= i < k && i < 4 :: TypeAt(i)
  }

  const MARKERS: nat := 8

  const OLD := "u"
  const NEW := "v"

  /** Markers 0 to 3 are the older version's, 4 to 7 the newer one's. */
  function MarkerAt(i: nat): Marker {
    if i < 4 then Marker(OLD, TypeAt(i)) else Marker(NEW, TypeAt(i - 4))
  }

  function Node(k: nat, createdAt: nat): Completion {
    Completion(FirstTypes(k), createdAt, None, NoStatus, None, None)
  }

  function PublishedTo(n: nat): map<MessageId, Marker> {
    map i: nat | i < n :: MarkerAt(i)
  }

  /** Every marker up to n was acknowledged but the older version's last, given back to the queue. */
  function AckedTo(n: nat): set<MessageId> {
    PublishedTo(n).Keys - {3}
  }

  function NodesAt(n: nat): Nodes {
    if n == 0 then map[] else if n <= 4 then map[OLD := Node(n, 0)] else map[OLD := Node(4, 0), NEW := Node(n - 4, 1)]
  }

  /** The first process once it has handled the first n markers. */
  function FirstLife(n: nat): State {
    EMPTY.(nodes := NodesAt(n),
           now := if n <= 4 then 0 else 1,
           desk := Desk(PublishedTo(n), if n < 4 then {} else {3}, AckedTo(n), {}, map[], if n == 8 then map[7 := NEW] else map[]),
           up := true, resumer := AskLatest,
           cacheVersion := if n == 0 then None else if n <= 4 then Some(OLD) else Some(NEW),
           cache := if n <= 4 then FirstTypes(n) else FirstTypes(n - 4),
           triggered := if n == 8 then {NEW} else {})
  }

  function Published(s: State, id: MessageId, m: Marker): State {
    s.(desk := Publish(s.desk, id, m))
  }

  lemma OneMoreType(k: nat)
    requires k < 4
    ensures FirstTypes(k) + {TypeAt(k)} == FirstTypes(k + 1)
    ensures DATA_TYPES <= FirstTypes(k + 1) <==> k == 3
  {
    assert FirstTypes(k + 1) == FirstTypes(k) + {TypeAt(k)};
    assert k == 3 ==> TypeAt(0) in FirstTypes(4) && TypeAt(1) in FirstTypes(4) && TypeAt(2) in FirstTypes(4) && TypeAt(3) in FirstTypes(4);
    assert k < 3 ==> Releases !in FirstTypes(k + 1);
  }

  lemma OneMorePublished(n: nat)
    ensures PublishedTo(n)[n := MarkerAt(n)] == PublishedTo(n + 1) && n !in PublishedTo(n)
    ensures n != 3 ==> AckedTo(n) + {n} == AckedTo(n + 1)
    ensures AckedTo(4) == AckedTo(3)
  {
  }

  /** What the first process has just before it handles marker n: the clock ticks between the two
      versions. */
  function Before(n: nat): State {
    if n == 4 then FirstLife(4).(now := 1) else FirstLife(n)
  }

  lemma HandlesOld(n: nat)
    requires n < 4
    ensures Handled(Published(FirstLife(n), n, MarkerAt(n)), n, MarkerAt(n), n != 3) == FirstLife(n + 1)
  {
    OneMoreType(n);
    OneMorePublished(n);
    var s := Published(FirstLife(n), n, MarkerAt(n));
    assert Committed(s, MarkerAt(n)) == FirstTypes(n + 1);
    assert PersistSignals(s.nodes, OLD, FirstTypes(n + 1), 0) == map[OLD := Node(n + 1, 0)];
    assert s.desk.queued == {n};
  }

  lemma NewCommits(n: nat, s: State)
    requires 4 <= n < 8 && s == Published(Before(n), n, MarkerAt(n))
    ensures Committed(s, MarkerAt(n)) == FirstTypes(n - 3)
    ensures PersistSignals(s.nodes, NEW, FirstTypes(n - 3), 1) == map[OLD := Node(4, 0), NEW := Node(n - 3, 1)]
    ensures s.desk.queued - {n} == {3}
  {
    OneMoreType(n - 4);
    assert FirstTypes(0) == {};
    assert FirstTypes(n - 4) + FirstTypes(n - 3) == FirstTypes(n - 3);
  }

  lemma HandlesNew(n: nat)
    requires 4 <= n < 8
    ensures Handled(Published(Before(n), n, MarkerAt(n)), n, MarkerAt(n), true) == FirstLife(n + 1)
  {
    var s := Published(Before(n), n, MarkerAt(n));
    HandledSignals(n, s);
    HandledDesk(n, s);
  }

  lemma HandledSignals(n: nat, s: State)
    requires 4 <= n < 8 && s == Published(Before(n), n, MarkerAt(n))
    ensures var done := Handled(s, n, MarkerAt(n), true);
      done.nodes == FirstLife(n + 1).nodes && done.cache == FirstLife(n + 1).cache && done.triggered == FirstLife(n + 1).triggered
  {
    OneMoreType(n - 4);
    NewCommits(n, s);
  }

  lemma HandledDesk(n: nat, s: State)
    requires 4 <= n < 8 && s == Published(Before(n), n, MarkerAt(n))
    ensures Handled(s, n, MarkerAt(n), true).desk == FirstLife(n + 1).desk
  {
    OneMoreType(n - 4);
    OneMorePublished(n);
    NewCommits(n, s);
  }

  function MarkSteps(id: MessageId, m: Marker, ackOk: bool): seq<Step> {
    [OnHost(PublishMarker(id, m))] + Handling(id, ackOk)
  }

  lemma MarkedAlone(s: State, id: MessageId, m: Marker, ackOk: bool)
    requires s.up && s.lock.Free? && s.desk.handlers == map[] && id !in s.desk.published
    ensures After(s, MarkSteps(id, m, ackOk), 9) == Handled(Published(s, id, m), id, m, ackOk)
  {
    var first := [OnHost(PublishMarker(id, m))];
    PublishedAlone(s, id, m, first);
    AfterPrefix(s, first, Handling(id, ackOk), 1);
    AfterInParts(s, first, Handling(id, ackOk), 8);
    HandledAlone(Published(s, id, m), id, m, ackOk);
  }

  lemma PublishedAlone(s: State, id: MessageId, m: Marker, first: seq<Step>)
    requires id !in s.desk.published && first == [OnHost(PublishMarker(id, m))]
    ensures After(s, first, 1) == Published(s, id, m)
  {
    assert After(s, first, 0) == s;
  }

  /** The steps of the first process up to n markers. */
  function FirstSteps(n: nat): seq<Step>
    decreases n, 0
  {
    if n == 0 then [OnHost(Boot)]
    else Ticked(n - 1) + MarkSteps(n - 1, MarkerAt(n - 1), n - 1 != 3)
  }

  lemma NoneYet()
    ensures Execute(FirstSteps(0)) == FirstLife(0)
  {
    ExecuteOne([], OnHost(Boot));
    assert [] + [OnHost(Boot)] == [OnHost(Boot)];
    assert FirstTypes(0) == {} && PublishedTo(0) == map[] && AckedTo(0) == {};
  }

  /** The clock ticks before the first marker of the newer version. */
  function Ticked(n: nat): seq<Step>
    decreases n, 1
  {
    FirstSteps(n) + if n == 4 then [OnHost(Tick)] else []
  }

  lemma TickedReaches(n: nat)
    requires Execute(FirstSteps(n)) == FirstLife(n)
    ensures Execute(Ticked(n)) == Before(n)
  {
    if n == 4 { ExecuteOne(FirstSteps(4), OnHost(Tick)); } else { assert Ticked(n) == FirstSteps(n); }
  }

  lemma MarkerReaches(n: nat, ticked: seq<Step>)
    requires n < 8 && Execute(ticked) == Before(n)
    ensures Execute(ticked + MarkSteps(n, MarkerAt(n), n != 3)) == FirstLife(n + 1)
  {
    ExecuteJoined(ticked, MarkSteps(n, MarkerAt(n), n != 3));
    OneMorePublished(n);
    MarkedAlone(Before(n), n, MarkerAt(n), n != 3);
    if n < 4 { HandlesOld(n); } else { HandlesNew(n); }
  }

  lemma {:induction false} FirstStepsReach(n: nat)
    requires n <= 8
    ensures Execute(FirstSteps(n)) == FirstLife(n)
  {
    if n == 0 {
      NoneYet();
    } else {
      FirstStepsReach(n - 1);
      TickedReaches(n - 1);
      MarkerReaches(n - 1, Ticked(n - 1));
    }
  }

  // ---------------------------------------------------------------- the restart

  /** The older version's last marker is redelivered and handled while the new process starts; its
      handler starts maintenance between the second and the third startup read. */
  const BETWEEN := Handling(3, true) + READS

  function SecondLife(): State {
    DoCrash(FirstLife(8)).(up := true, resumer := AskLatest)
  }

  function Redelivered(): State {
    Handled(SecondLife(), 3, MarkerAt(3), true)
  }

  lemma RedeliveredIs()
    ensures var s := Redelivered();
      s == SecondLife().(nodes := s.nodes, cache := s.cache, cacheVersion := Some(OLD), triggered := s.triggered,
                         desk := s.desk)
      && s.desk.triggers == map[3 := OLD]
      && IsNewest(s.nodes, NEW) && Complete(s.nodes, NEW) && !Maintained(s.nodes, NEW) && !Maintained(s.nodes, OLD)
  {
    OneMoreType(3);
    var s := SecondLife();
    assert s.nodes == map[OLD := Node(4, 0), NEW := Node(4, 1)];
    assert Committed(s, MarkerAt(3)) == FirstTypes(4) + {Releases};
  }

  lemma AllNewAcked()
    ensures AllAcked(FirstLife(8).desk, NEW)
  {
    forall t: DataType ensures TypeAcked(FirstLife(8).desk, NEW, t) {
      var id: nat := if t.Artists? then 4 else if t.Labels? then 5 else if t.Masters? then 6 else 7;
      assert id in FirstLife(8).desk.acked && FirstLife(8).desk.published[id] == Marker(NEW, t);
    }
  }

  const READS: seq<Step> := [OnHost(ResumeRead(NEW, true)), OnHost(ResumeRead(NEW, true)), OnMarker(Trigger(3))]

  lemma RedeliveryReaches()
    ensures After(SecondLife(), BETWEEN, 8) == Redelivered()
  {
    AfterPrefix(SecondLife(), Handling(3, true), READS, 8);
    HandledAlone(SecondLife(), 3, MarkerAt(3), true);
  }

  lemma ReadsReach(s: State)
    requires s.up && s.resumer == AskLatest && s.task.NoTask? && s.desk.triggers == map[3 := OLD]
    requires IsNewest(s.nodes, NEW) && Complete(s.nodes, NEW)
    ensures After(s, READS, 1) == s.(resumer := AskSignals(NEW))
    ensures After(s, READS, 2) == s.(resumer := AskMaintained(NEW))
    ensures After(s, READS, 3) == DoTrigger(s.(resumer := AskMaintained(NEW)), 3)
    ensures After(s, READS, 3).task == Running(OLD, 1, Beginning, 0)
  {
    assert After(s, READS, 1) == Do(s, READS[0]) == s.(resumer := AskSignals(NEW));
    assert After(s, READS, 2) == Do(s.(resumer := AskSignals(NEW)), READS[1]);
    assert After(s, READS, 3) == Do(s.(resumer := AskMaintained(NEW)), READS[2]);
  }

  /** The states between and after the reads. */
  lemma BetweenStates()
    ensures After(SecondLife(), BETWEEN, 8) == Redelivered()
    ensures After(SecondLife(), BETWEEN, 9) == Redelivered().(resumer := AskSignals(NEW))
    ensures After(SecondLife(), BETWEEN, 11) == Do(Redelivered().(resumer := AskMaintained(NEW)), OnMarker(Trigger(3)))
    ensures After(SecondLife(), BETWEEN, 11).task == Running(OLD, 1, Beginning, 0)
  {
    RedeliveredIs();
    RedeliveryReaches();
    ReadsReach(Redelivered());
    AfterPrefix(SecondLife(), Handling(3, true), READS, 8);
    AfterInParts(SecondLife(), Handling(3, true), READS, 1);
    AfterInParts(SecondLife(), Handling(3, true), READS, 3);
  }

  /** The run after the restart, from any first run that ends in the same state. */
  lemma RestartReaches(pre: seq<Step>, between: seq<Step>, k: nat)
    requires Execute(pre) == FirstLife(8) && k <= |between|
    ensures Execute(Booted(pre) + between[..k]) == After(SecondLife(), between, k)
  {
    JustBooted(pre);
    ExecuteInParts(Booted(pre), between, k);
  }

  lemma ReadIsAnswered(pre: seq<Step>, k: nat)
    requires Execute(pre) == FirstLife(8) && (k == 8 || k == 9)
    ensures ResumeEnabled(Execute(Booted(pre) + BETWEEN[..k]), NEW)
  {
    RestartReaches(pre, BETWEEN, k);
    BetweenStates();
    RedeliveredIs();
  }

  lemma OnlyReads(k: nat)
    requires k < |BETWEEN|
    ensures BETWEEN[k] != OnHost(Crash)
    ensures IsRead(BETWEEN[k]) ==> (k == 8 || k == 9) && BETWEEN[k] == OnHost(ResumeRead(NEW, true))
  {
    if k < 8 { assert BETWEEN[k] == Handling(3, true)[k]; } else { assert BETWEEN[k] == READS[k - 8]; }
  }

  lemma BetweenIsUndisturbed(pre: seq<Step>)
    requires Execute(pre) == FirstLife(8)
    ensures Undisturbed(pre, BETWEEN, NEW)
  {
    forall k | 0 <= k < |BETWEEN|
      ensures BETWEEN[k] != OnHost(Crash)
      ensures IsRead(BETWEEN[k]) ==> BETWEEN[k] == OnHost(ResumeRead(NEW, true)) && ResumeEnabled(Execute(Booted(pre) + BETWEEN[..k]), NEW)
    {
      OnlyReads(k);
      if IsRead(BETWEEN[k]) { ReadIsAnswered(pre, k); }
    }
  }

  lemma TwoReads()
    ensures Reads(BETWEEN, 11) == 2
  {
    HandlingReadsNothing(8);
    assert Reads(BETWEEN, 9) == 1 && Reads(BETWEEN, 10) == 2;
  }

  lemma {:induction false} HandlingReadsNothing(k: nat)
    requires k <= 8
    ensures Reads(BETWEEN, k) == 0
  {
    if k > 0 {
      HandlingReadsNothing(k - 1);
      assert BETWEEN[k - 1] == Handling(3, true)[k - 1];
    }
  }

  lemma TriggerTakesSlot(s: State)
    requires s.task.NoTask? && s.desk.triggers == map[3 := OLD]
    ensures var s' := Do(s, OnMarker(Trigger(3)));
      s'.task == Running(OLD, 1, Beginning, 0) && s'.nodes == s.nodes && s'.up == s.up && s'.resumer == s.resumer
  {
  }

  /** Just before the last read. */
  lemma SlotIsTaken(pre: seq<Step>)
    requires Execute(pre) == FirstLife(8)
    ensures var s := Execute(Booted(pre) + BETWEEN);
      s.task == Running(OLD, 1, Beginning, 0) && s.up && s.resumer == AskMaintained(NEW) && NEW in s.nodes && !Maintained(s.nodes, NEW)
  {
    RestartReaches(pre, BETWEEN, 11);
    assert BETWEEN[..11] == BETWEEN;
    BetweenStates();
    RedeliveredIs();
    TriggerTakesSlot(Redelivered().(resumer := AskMaintained(NEW)));
  }

  /** All three startup reads succeed and find the newest version complete, acknowledged and
      unstamped; yet the pass that runs is the older version's, and nothing is left to start the
      newer one's but another restart. The run is FirstSteps(MARKERS), a crash and a boot, BETWEEN, and
      the last read. */
  lemma LateTriggerTakesTheSlot(pre: seq<Step>)
    requires pre == FirstSteps(MARKERS)
    ensures AllAcked(Execute(pre).desk, NEW) && Undisturbed(pre, BETWEEN, NEW) && Reads(BETWEEN, |BETWEEN|) == 2
    ensures !Maintained(Execute(Booted(pre) + BETWEEN).nodes, NEW)
    ensures var s := Execute(ReadLast(pre, BETWEEN, NEW));
      s.task == Running(OLD, 1, Beginning, 0) && s.resumer == Off && NEW in s.nodes && !Maintained(s.nodes, NEW)
  {
    FirstStepsReach(MARKERS);
    AllNewAcked();
    BetweenIsUndisturbed(pre);
    TwoReads();
    SlotIsTaken(pre);
    ExecuteOne(Booted(pre) + BETWEEN, OnHost(ResumeRead(NEW, true)));
    LastReadStarts(Execute(Booted(pre) + BETWEEN), NEW);
  }
}
