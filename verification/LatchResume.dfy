/** Restarts: what the startup reads of a new process start, whatever the consumers, which are
    subscribed already, do between them. */
module LatchResume {
  import opened Common
  import opened Latch
  import opened LatchTheorems

  // ---------------------------------------------------------------- a startup

  /** The run up to a crash and the start of the next process. */
  function Booted(pre: seq<Step>): seq<Step> {
    pre + [OnHost(Crash), OnHost(Boot)]
  }

  predicate IsRead(step: Step) {
    step.OnHost? && step.h.ResumeRead?
  }

  function Reads(more: seq<Step>, k: nat): nat
    requires k <= |more|
  {
    if k == 0 then 0 else Reads(more, k - 1) + if IsRead(more[k - 1]) then 1 else 0
  }

  /** The process keeps running, and every startup read in it succeeds and finds v: any steps of
      the broker, the handlers and the tasks may fall before, between and after the reads. */
  ghost predicate Undisturbed(pre: seq<Step>, more: seq<Step>, v: Version) {
    forall k :: 0 <= k < |more| ==>
      && more[k] != OnHost(Crash)
      && (IsRead(more[k]) ==> more[k] == OnHost(ResumeRead(v, true)) && ResumeEnabled(Execute(Booted(pre) + more[..k]), v))
  }

  lemma OneMore(pre: seq<Step>, more: seq<Step>, k: nat)
    requires k < |more|
    ensures Execute(Booted(pre) + more[..k + 1]) == Do(Execute(Booted(pre) + more[..k]), more[k])
  {
    ExecuteOne(Booted(pre) + more[..k], more[k]);
    assert Booted(pre) + more[..k] + [more[k]] == Booted(pre) + more[..k + 1];
  }

  lemma JustBooted(pre: seq<Step>)
    ensures Execute(Booted(pre)) == DoCrash(Execute(pre)).(up := true, resumer := AskLatest)
  {
    ExecuteOne(pre, OnHost(Crash));
    ExecuteOne(pre + [OnHost(Crash)], OnHost(Boot));
    assert pre + [OnHost(Crash)] + [OnHost(Boot)] == Booted(pre);
  }

  // ---------------------------------------------------------------- how far the reads are

  /** The question after so many answers about v. */
  function Question(v: Version, asked: nat): Resumer {
    if asked == 0 then AskLatest else if asked == 1 then AskSignals(v) else AskMaintained(v)
  }

  lemma OtherStepsAskNothing(s: State, step: Step)
    requires !IsRead(step) && step != OnHost(Crash) && s.up
    ensures Do(s, step).resumer == s.resumer && Do(s, step).up
  {
    match step
    case OnMarker(m) => MarkerAsksNothing(s, m);
    case OnTask(t) => TaskAsksNothing(s, t);
    case OnHost(h) =>
  }

  lemma MarkerAsksNothing(s: State, m: MarkerStep)
    ensures DoMarker(s, m).resumer == s.resumer && DoMarker(s, m).up == s.up
  {
  }

  lemma TaskAsksNothing(s: State, t: TaskStep)
    ensures DoTask(s, t).resumer == s.resumer && DoTask(s, t).up == s.up
  {
  }

  /** The first two answers only move the question on. */
  lemma EarlyReadStartsNothing(s: State, v: Version, asked: nat)
    requires asked < 2 && s.resumer == Question(v, asked) && ResumeEnabled(s, v) && Complete(s.nodes, v)
    ensures DoHost(s, ResumeRead(v, true)) == s.(resumer := Question(v, asked + 1))
  {
  }

  // ---------------------------------------------------------------- who holds the slot

  /** The marker was acknowledged by this process, not by one before it. */
  predicate AckedSince(acked: set<MessageId>, d: Desk, id: MessageId, v: Version) {
    id in d.acked && id !in acked && id in d.published && d.published[id].version == v
  }

  /** Whatever runs or waits to run was triggered by a marker this process acknowledged. */
  ghost predicate SlotSince(acked: set<MessageId>, s: State) {
    && acked <= s.desk.acked
    && (forall id :: id in s.desk.triggers ==> AckedSince(acked, s.desk, id, s.desk.triggers[id]))
    && (s.task.Running? ==> exists id :: AckedSince(acked, s.desk, id, s.task.version))
  }

  lemma SlotCarriesOver(acked: set<MessageId>, s: State, s': State)
    requires SlotSince(acked, s) && Grows(s, s')
    requires forall id :: id in s'.desk.triggers ==> id in s.desk.triggers && s'.desk.triggers[id] == s.desk.triggers[id]
    requires s'.task.Running? ==> s.task.Running? && s'.task.version == s.task.version
    ensures SlotSince(acked, s')
  {
    if s'.task.Running? {
      var id :| AckedSince(acked, s.desk, id, s.task.version);
      assert AckedSince(acked, s'.desk, id, s'.task.version);
    }
  }

  lemma AckKeepsSlot(acked: set<MessageId>, s: State, id: MessageId)
    requires Inv(s) && SlotSince(acked, s) && AckEnabled(s, id)
    ensures SlotSince(acked, DoAck(s, id, true, false))
  {
    var s' := DoAck(s, id, true, false);
    assert id !in s.desk.acked && s.desk.handlers[id].marker == s.desk.published[id];
    forall j | j in s'.desk.triggers ensures AckedSince(acked, s'.desk, j, s'.desk.triggers[j]) {
      if j in s.desk.triggers && j != id { assert AckedSince(acked, s.desk, j, s.desk.triggers[j]); }
    }
    if s'.task.Running? {
      var j :| AckedSince(acked, s.desk, j, s.task.version);
      assert AckedSince(acked, s'.desk, j, s'.task.version);
    }
  }

  lemma TriggerKeepsSlot(acked: set<MessageId>, s: State, id: MessageId)
    requires SlotSince(acked, s) && id in s.desk.triggers
    ensures SlotSince(acked, DoTrigger(s, id))
  {
    var s' := DoTrigger(s, id);
    assert AckedSince(acked, s.desk, id, s.desk.triggers[id]);
    if s.task.Running? {
      var j :| AckedSince(acked, s.desk, j, s.task.version);
      assert AckedSince(acked, s'.desk, j, s'.task.version);
    } else {
      assert AckedSince(acked, s'.desk, id, s'.task.version);
    }
  }

  lemma PlainMarkerStep(s: State, m: MarkerStep)
    requires !m.Trigger? && !(m.Ack? && m.ok)
    ensures DoMarker(s, m).desk.triggers == s.desk.triggers && DoMarker(s, m).task == s.task
  {
  }

  lemma MarkerKeepsSlot(acked: set<MessageId>, s: State, m: MarkerStep)
    requires Inv(s) && SlotSince(acked, s)
    ensures SlotSince(acked, DoMarker(s, m))
  {
    if m.Trigger? {
      if m.id in s.desk.triggers { TriggerKeepsSlot(acked, s, m.id); }
    } else if m.Ack? && m.ok {
      if AckEnabled(s, m.id) { AckKeepsSlot(acked, s, m.id); }
    } else {
      PlainMarkerStep(s, m);
      MarkerStepGrows(s, m);
      SlotCarriesOver(acked, s, DoMarker(s, m));
    }
  }

  lemma TaskKeepsSlot(acked: set<MessageId>, s: State, t: TaskStep)
    requires SlotSince(acked, s)
    ensures SlotSince(acked, DoTask(s, t))
  {
    TaskGoesOnOnly(s, t);
    TaskStepGrows(s, t);
    SlotCarriesOver(acked, s, DoTask(s, t));
  }

  lemma HostKeepsSlot(acked: set<MessageId>, s: State, h: HostStep)
    requires SlotSince(acked, s) && !h.Crash? && !h.ResumeRead?
    ensures SlotSince(acked, DoHost(s, h))
  {
    HostStepGrows(s, h);
    SlotCarriesOver(acked, s, DoHost(s, h));
  }

  // ---------------------------------------------------------------- the run between the reads

  /** What holds of the startup after each of its steps. */
  ghost predicate Underway(pre: seq<Step>, v: Version, asked: nat, s: State) {
    && s.up && s.resumer == Question(v, asked)
    && AllAcked(s.desk, v) && Complete(s.nodes, v)
    && SlotSince(Execute(pre).desk.acked, s)
  }

  lemma AckedStaysAcked(s: State, s': State, v: Version)
    requires Grows(s, s') && AllAcked(s.desk, v)
    ensures AllAcked(s'.desk, v)
  {
    forall t: DataType ensures TypeAcked(s'.desk, v, t) {
      assert TypeAcked(s.desk, v, t);
      var id :| id in s.desk.acked && id in s.desk.published && s.desk.published[id] == Marker(v, t);
      assert id in s'.desk.acked && s'.desk.published[id] == Marker(v, t);
    }
  }

  lemma CompleteStays(s: State, s': State, v: Version)
    requires Grows(s, s') && Complete(s.nodes, v)
    ensures Complete(s'.nodes, v)
  {
    SignalsGrow(s.nodes, s'.nodes, v);
  }

  lemma StepKeepsUnderway(pre: seq<Step>, v: Version, asked: nat, s: State, step: Step)
    requires Inv(s) && Underway(pre, v, asked, s) && step != OnHost(Crash) && !IsRead(step)
    ensures Underway(pre, v, asked, Do(s, step))
  {
    OtherStepsAskNothing(s, step);
    StepGrows(s, step);
    AckedStaysAcked(s, Do(s, step), v);
    CompleteStays(s, Do(s, step), v);
    match step
    case OnMarker(m) => MarkerKeepsSlot(Execute(pre).desk.acked, s, m);
    case OnTask(t) => TaskKeepsSlot(Execute(pre).desk.acked, s, t);
    case OnHost(h) => HostKeepsSlot(Execute(pre).desk.acked, s, h);
  }

  lemma {:induction false} StartupIsUnderway(pre: seq<Step>, more: seq<Step>, v: Version, k: nat)
    requires AllAcked(Execute(pre).desk, v) && Undisturbed(pre, more, v) && k <= |more| && Reads(more, k) <= 2
    ensures Underway(pre, v, Reads(more, k), Execute(Booted(pre) + more[..k]))
  {
    if k == 0 {
      CompletionIsNeverMissed(pre, v);
      CompleteIsAllSignalled(Execute(pre).nodes, v);
      JustBooted(pre);
      assert Booted(pre) + more[..0] == Booted(pre);
      AckedStaysAcked(Execute(pre), Execute(Booted(pre)), v);
    } else {
      StartupIsUnderway(pre, more, v, k - 1);
      OneMore(pre, more, k - 1);
      var s := Execute(Booted(pre) + more[..k - 1]);
      EveryRunKeepsInv(Booted(pre) + more[..k - 1]);
      if IsRead(more[k - 1]) {
        EarlyReadStartsNothing(s, v, Reads(more, k - 1));
      } else {
        StepKeepsUnderway(pre, v, Reads(more, k - 1), s, more[k - 1]);
      }
    }
  }

  // ---------------------------------------------------------------- main results

  /** The run of a startup whose third successful read is its last step. */
  function ReadLast(pre: seq<Step>, more: seq<Step>, v: Version): seq<Step> {
    Booted(pre) + more + [OnHost(ResumeRead(v, true))]
  }

  /** A version whose four markers are all acknowledged and that has no stamp, restarted: the
      three startup reads succeed and find it, and anything else may happen between them. The last
      read starts its pass if and only if the single-flight slot is free. If it is taken, the pass
      in it goes on, triggered by a marker this very process acknowledged; the version stays
      complete, acknowledged and unstamped, so the next restart asks for it again. */
  lemma RestartStartsPendingPass(pre: seq<Step>, more: seq<Step>, v: Version)
    requires AllAcked(Execute(pre).desk, v) && Undisturbed(pre, more, v) && Reads(more, |more|) == 2
    requires !Maintained(Execute(Booted(pre) + more).nodes, v)
    ensures var s, s' := Execute(Booted(pre) + more), Execute(ReadLast(pre, more, v));
      && (s.task.NoTask? ==> s'.task == Running(v, 1, Beginning, 0))
      && (s.task.Running? ==> s'.task == s.task && exists id :: AckedSince(Execute(pre).desk.acked, s.desk, id, s.task.version))
      && (s'.task.version == v <==> s.task.NoTask? || s.task.version == v)
    ensures var s' := Execute(ReadLast(pre, more, v));
      AllAcked(s'.desk, v) && AllSignalled(s'.nodes, v) && !Maintained(s'.nodes, v)
  {
    StartupIsUnderway(pre, more, v, |more|);
    assert more[..|more|] == more;
    ExecuteOne(Booted(pre) + more, OnHost(ResumeRead(v, true)));
    LastReadStarts(Execute(Booted(pre) + more), v);
    CompleteIsAllSignalled(Execute(Booted(pre) + more).nodes, v);
  }

  lemma LastReadStarts(s: State, v: Version)
    requires s.up && s.resumer == AskMaintained(v) && !Maintained(s.nodes, v)
    ensures Do(s, OnHost(ResumeRead(v, true))) == StartMaintenance(s.(resumer := Off), v)
  {
  }

  /** In particular, if no handler starts maintenance while the startup reads go on, the pending
      pass is started, whatever became of its original trigger. */
  lemma QuietRestartStartsPendingPass(pre: seq<Step>, more: seq<Step>, v: Version)
    requires AllAcked(Execute(pre).desk, v) && Undisturbed(pre, more, v) && Reads(more, |more|) == 2
    requires !Maintained(Execute(Booted(pre) + more).nodes, v)
    requires forall k :: 0 <= k < |more| ==> !(more[k].OnMarker? && more[k].m.Trigger?)
    ensures Execute(ReadLast(pre, more, v)).task == Running(v, 1, Beginning, 0)
  {
    SlotStaysFree(pre, more, v, |more|);
    assert more[..|more|] == more;
    RestartStartsPendingPass(pre, more, v);
  }

  lemma {:induction false} SlotStaysFree(pre: seq<Step>, more: seq<Step>, v: Version, k: nat)
    requires AllAcked(Execute(pre).desk, v) && Undisturbed(pre, more, v) && k <= |more| && Reads(more, k) <= 2
    requires forall j :: 0 <= j < |more| ==> !(more[j].OnMarker? && more[j].m.Trigger?)
    ensures Execute(Booted(pre) + more[..k]).task.NoTask?
  {
    if k == 0 {
      JustBooted(pre);
      assert Booted(pre) + more[..0] == Booted(pre);
    } else {
      SlotStaysFree(pre, more, v, k - 1);
      StartupIsUnderway(pre, more, v, k - 1);
      OneMore(pre, more, k - 1);
      StepLeavesSlot(pre, v, Reads(more, k - 1), Execute(Booted(pre) + more[..k - 1]), more[k - 1]);
    }
  }

  lemma StepLeavesSlot(pre: seq<Step>, v: Version, asked: nat, s: State, step: Step)
    requires Underway(pre, v, asked, s) && s.task.NoTask? && !(step.OnMarker? && step.m.Trigger?)
    requires IsRead(step) ==> asked < 2 && step == OnHost(ResumeRead(v, true)) && ResumeEnabled(s, v)
    ensures Do(s, step).task.NoTask?
  {
    match step
    case OnMarker(m) => MarkerLeavesSlot(s, m);
    case OnTask(t) => TaskGoesOnOnly(s, t);
    case OnHost(h) => if IsRead(step) { EarlyReadStartsNothing(s, v, asked); }
  }

  lemma MarkerLeavesSlot(s: State, m: MarkerStep)
    requires !m.Trigger?
    ensures DoMarker(s, m).task == s.task
  {
  }
}
