/**
 When the finalizer goes, over all runs of the machine protocol: with stale
 reads, conflicting writes, crashes and any number of deletion passes
 (internal/controller/xomachine_reconcile.go:490-570).
 */
module MachineFinalizer {
  import opened Options
  import opened VmAdoption
  import opened MachineProtocol
  import opened MachineSafety
  import opened MachineRuns
  import opened MachineTheorems

  // ---------------------------------------------------------------------------
  // The invariant of one machine
  // ---------------------------------------------------------------------------

  /** Nothing stands in the way of forgetting this version of the object. */
  predicate Cleared(m: Machine, obj: Obj) {
    obj.providerId.None? || m.skipped || obj.providerId.value in m.accepted
  }

  predicate PastEnsure(w: Worker) {
    w.Busy? && !w.pc.Ensure? && !w.pc.EnsureReread? && !w.pc.EnsureAgain?
  }

  predicate Dropping(w: Worker) {
    w.Busy? && w.pc.DropFinalizer?
  }

  /** The finalizer is there before anything is provisioned, and only a cleared object loses it. */
  ghost predicate FinalizerOk(m: Machine) {
    && |m.versions| > 0
    && (PastEnsure(m.worker) ==> m.gone || Last(m).finalizer)
    && (forall i :: 0 <= i < |m.versions| && m.versions[i].finalizer ==> m.gone || Last(m).finalizer)
    && (!m.gone && !Last(m).finalizer ==> Last(m).providerId.None?)
    && (m.gone ==> Cleared(m, Last(m)))
    && (Dropping(m.worker) && !m.gone ==> Cleared(m, m.worker.obj))
    && (m.accepted != {} ==> Last(m).providerId.Some?)
  }

  /** A write on the persisted version keeps the finalizer, or drops it from a cleared object that is being deleted. */
  predicate PlanKeeps(m: Machine, plan: Plan) {
    && (Current(m) ==> plan.next.finalizer || (plan.next.deleting && Cleared(m, plan.next) && plan.onOk.Idle?))
    && !Dropping(plan.onOk) && !Dropping(plan.onConflict)
    && (PastEnsure(plan.onConflict) ==> PastEnsure(m.worker))
  }

  /** The optimistic lock at work: what an accepted write is based on is what is persisted. */
  lemma CurrentIsLast(m: Machine)
    requires MachineOk(m) && Current(m)
    ensures m.worker.obj == Last(m)
  {
  }

  lemma PlanOfKeeps(m: Machine, change: Change)
    requires MachineOk(m) && FinalizerOk(m) && m.worker.Busy? && PlanOf(m, m.worker, change).Some?
    ensures PlanKeeps(m, PlanOf(m, m.worker, change).value)
  {
    if Current(m) {
      CurrentIsLast(m);
    }
  }

  lemma WriteKeepsFinalizer(m: Machine, plan: Plan, answer: Answer, m': Machine)
    requires MachineOk(m) && FinalizerOk(m) && m.worker.Busy? && PlanKeeps(m, plan) && PlanGrows(m, plan)
    requires Writes(m, plan.next, answer, plan.onOk, plan.onConflict, m')
    ensures FinalizerOk(m')
  {
    if Current(m) {
      CurrentIsLast(m);
    }
  }

  lemma ExternalKeepsFinalizer(m: Machine, delete: bool, m': Machine)
    requires FinalizerOk(m) && LocalStep(m, External(delete), m')
    ensures FinalizerOk(m')
  {
  }

  lemma ReadKeepsFinalizer(m: Machine, action: Action, m': Machine)
    requires MachineOk(m) && FinalizerOk(m) && LocalStep(m, action, m')
    requires !action.Write? && !action.External?
    ensures FinalizerOk(m')
  {
  }

  lemma LocalStepKeepsFinalizer(m: Machine, action: Action, m': Machine)
    requires MachineOk(m) && FinalizerOk(m) && LocalStep(m, action, m')
    ensures FinalizerOk(m')
  {
    match action
    case Write(change, answer) =>
      PlanOfKeeps(m, change);
      PlanOfGrows(m, change);
      WriteKeepsFinalizer(m, PlanOf(m, m.worker, change).value, answer, m');
    case External(delete) => ExternalKeepsFinalizer(m, delete, m');
    case _ => ReadKeepsFinalizer(m, action, m');
  }

  lemma DeleteKeepsFinalizer(m: Machine, answer: DeleteAnswer)
    requires MachineOk(m) && FinalizerOk(m) && m.worker.Busy? && m.worker.pc.DeleteVm?
    ensures FinalizerOk(AfterDelete(m, answer))
  {
    assert Grows(m.versions[m.worker.rv], Last(m));
  }

  lemma XoStepKeepsFinalizer(s: State, uid: Uid, action: XoAction, s': State)
    requires uid in s.machines && MachineOk(s.machines[uid]) && FinalizerOk(s.machines[uid])
    requires XoStep(s, uid, action, s')
    ensures s'.machines.Keys == s.machines.Keys && FinalizerOk(s'.machines[uid])
    ensures forall u <- s.machines :: u != uid ==> s'.machines[u] == s.machines[u]
  {
    match action
    case DeleteCall(removed, answer) => DeleteKeepsFinalizer(s.machines[uid], answer);
    case _ =>
  }

  // ---------------------------------------------------------------------------
  // All runs
  // ---------------------------------------------------------------------------

  ghost predicate FinalizersOk(s: State) {
    forall u <- s.machines :: FinalizerOk(s.machines[u])
  }

  lemma LocalKeepsFinalizers(s: State, uid: Uid, action: Action, s': State)
    requires Inv(s) && FinalizersOk(s) && NextStep(s, Local(uid, action), s')
    ensures FinalizersOk(s')
  {
    assert Joined(s, uid);
    LocalStepKeepsFinalizer(s.machines[uid], action, s'.machines[uid]);
  }

  lemma XoKeepsFinalizers(s: State, uid: Uid, action: XoAction, s': State)
    requires Inv(s) && FinalizersOk(s) && uid in s.machines && XoStep(s, uid, action, s')
    ensures FinalizersOk(s')
  {
    assert Joined(s, uid);
    XoStepKeepsFinalizer(s, uid, action, s');
  }

  lemma StepKeepsFinalizers(s: State, step: Step, s': State)
    requires Inv(s) && FinalizersOk(s) && NextStep(s, step, s')
    ensures FinalizersOk(s')
  {
    match step
    case Local(uid, action) => LocalKeepsFinalizers(s, uid, action, s');
    case Xo(uid, action) => XoKeepsFinalizers(s, uid, action, s');
    case NewMachine(uid) =>
    case Others =>
  }

  lemma NextKeepsFinalizers(s: State, s': State)
    requires Inv(s) && FinalizersOk(s) && Next(s, s')
    ensures FinalizersOk(s')
  {
    var step :| NextStep(s, step, s');
    StepKeepsFinalizers(s, step, s');
  }

  lemma RunStepKeepsFinalizers(trace: seq<State>, i: nat)
    requires Run(trace) && i + 1 < |trace| && FinalizersOk(trace[i])
    ensures FinalizersOk(trace[i + 1])
  {
    RunInv(trace, i);
    assert Next(trace[i], trace[i + 1]);
    NextKeepsFinalizers(trace[i], trace[i + 1]);
  }

  lemma {:induction false} RunFinalizers(trace: seq<State>, i: nat)
    requires Run(trace) && i < |trace|
    ensures FinalizersOk(trace[i])
  {
    if i > 0 {
      RunFinalizers(trace, i - 1);
      RunStepKeepsFinalizers(trace, i - 1);
    }
  }

  // ---------------------------------------------------------------------------
  // What the history fields stand for
  // ---------------------------------------------------------------------------

  /** In step k a delete of v for the machine is answered with anything but an error that stops the deletion. */
  ghost predicate Answered(trace: seq<State>, k: nat, uid: Uid, v: VmId, removed: bool, answer: DeleteAnswer) {
    && k + 1 < |trace| && uid in trace[k].machines && answer != Refused
    && DeleteStep(trace[k], uid, removed, answer, trace[k + 1])
    && trace[k].machines[uid].worker.pc.vm == v
  }

  /** In step k a deletion goes on without a usable providerID or without a client. */
  ghost predicate LetThrough(trace: seq<State>, k: nat, uid: Uid) {
    && k + 1 < |trace| && uid in trace[k].machines && uid in trace[k + 1].machines
    && LocalStep(trace[k].machines[uid], SkipVm, trace[k + 1].machines[uid])
  }

  /** Except for the bare-task quirk, the VM is not there when the answer arrives. */
  lemma AnsweredIsGone(trace: seq<State>, k: nat, uid: Uid, v: VmId, removed: bool, answer: DeleteAnswer)
    requires Answered(trace, k, uid, v, removed, answer)
    ensures answer == Quirk || v !in trace[k + 1].vms
  {
  }

  /** In step k a delete of v for the machine is accepted. */
  ghost predicate AnsweredAt(trace: seq<State>, k: nat, uid: Uid, v: VmId) {
    exists removed, answer :: Answered(trace, k, uid, v, removed, answer)
  }

  predicate BusyWith(s: State, uid: Uid) {
    uid in s.machines && s.machines[uid].worker.Busy?
  }

  /** From after step k up to state l the worker was never idle: it is the same pass. */
  predicate SamePass(trace: seq<State>, uid: Uid, k: nat, l: nat)
    requires l < |trace|
  {
    forall x :: k < x <= l ==> BusyWith(trace[x], uid)
  }

  /** The pass that is under way in state l was let through. */
  ghost predicate PassLetThrough(trace: seq<State>, l: nat, uid: Uid)
    requires l < |trace|
  {
    exists k: nat :: k < l && LetThrough(trace, k, uid) && SamePass(trace, uid, k, l)
  }

  /** The pass of this machine was let through, and is not over. */
  predicate Excused(m: Machine) {
    m.skipped && !m.gone && m.worker.Busy?
  }

  function Before(s: State, uid: Uid): Machine {
    if uid in s.machines then s.machines[uid] else NEW_MACHINE
  }

  /** A step that leaves a machine excused found it so, or lets its deletion through. */
  lemma LocalStepExcuses(m: Machine, action: Action, m': Machine)
    requires LocalStep(m, action, m') && Excused(m')
    ensures Excused(m) || action == SkipVm
  {
  }

  /** A write that leaves no finalizer is the one of a deletion, and keeps the providerID. */
  lemma PlanDrops(m: Machine, change: Change)
    requires FinalizerOk(m) && m.worker.Busy? && PlanOf(m, m.worker, change).Some?
    requires !m.gone && m.worker.obj == Last(m) && !PlanOf(m, m.worker, change).value.next.finalizer
    ensures Dropping(m.worker) && PlanOf(m, m.worker, change).value.next.providerId == Last(m).providerId
  {
  }

  lemma WriteDrops(m: Machine, change: Change, answer: Answer, m': Machine)
    requires MachineOk(m) && FinalizerOk(m) && LocalStep(m, Write(change, answer), m') && !m.gone && m'.gone
    ensures |m'.versions| > 0 && Last(m').providerId == Last(m).providerId
    ensures Dropping(m.worker) && Cleared(m, Last(m))
  {
    CurrentIsLast(m);
    PlanDrops(m, change);
  }

  /** Only an object without a VM, or a pass that drops the finalizer of a cleared object, makes a machine gone. */
  lemma LocalStepDrops(m: Machine, action: Action, m': Machine)
    requires MachineOk(m) && FinalizerOk(m) && LocalStep(m, action, m') && !m.gone && m'.gone
    ensures |m'.versions| > 0 && Last(m').providerId == Last(m).providerId
    ensures Last(m).providerId.None? || (Dropping(m.worker) && Cleared(m, Last(m)))
  {
    match action
    case Write(change, answer) => WriteDrops(m, change, answer, m');
    case _ =>
  }

  lemma LocalStepStaysGone(m: Machine, action: Action, m': Machine)
    requires LocalStep(m, action, m') && m.gone
    ensures m'.gone && m'.versions == m.versions
  {
  }

  /** In step k the machine goes. */
  predicate DroppedAt(trace: seq<State>, k: nat, uid: Uid) {
    && k + 1 < |trace| && uid in trace[k].machines && !trace[k].machines[uid].gone
    && uid in trace[k + 1].machines && trace[k + 1].machines[uid].gone
  }

  /** What step k does to the history of one machine. */
  ghost predicate RecordedAt(trace: seq<State>, uid: Uid, k: nat)
    requires k + 1 < |trace|
  {
    uid in trace[k + 1].machines ==>
      var (before, after) := (Before(trace[k], uid), trace[k + 1].machines[uid]);
      && (forall v <- after.accepted :: v in before.accepted || AnsweredAt(trace, k, uid, v))
      && (Excused(after) ==> (uid in trace[k].machines && Excused(before)) || LetThrough(trace, k, uid))
      && (after.gone ==> (before.gone && after.versions == before.versions) || DroppedFor(trace, k, uid))
  }

  /** It goes without a VM, or in a pass that may drop the finalizer. */
  ghost predicate DroppedFor(trace: seq<State>, k: nat, uid: Uid) {
    && DroppedAt(trace, k, uid)
    && var (m, m') := (trace[k].machines[uid], trace[k + 1].machines[uid]);
       && |m.versions| > 0 && |m'.versions| > 0 && Last(m').providerId == Last(m).providerId
       && (Last(m).providerId.None? || (Dropping(m.worker) && Cleared(m, Last(m))))
  }

  ghost predicate Recorded(trace: seq<State>, uid: Uid) {
    && |trace| > 0 && uid !in trace[0].machines
    && forall k :: 0 <= k < |trace| - 1 ==> RecordedAt(trace, uid, k)
  }

  /** A step on another machine, or of others, changes nothing here. */
  lemma OtherStep(s: State, step: Step, s': State, uid: Uid)
    requires NextStep(s, step, s') && uid in s'.machines
    requires step.Others? || step.uid != uid
    ensures uid in s.machines && s'.machines[uid] == s.machines[uid]
  {
  }

  lemma LocalIsRecorded(trace: seq<State>, uid: Uid, k: nat, action: Action)
    requires k + 1 < |trace| && uid in trace[k].machines && uid in trace[k + 1].machines
    requires MachineOk(trace[k].machines[uid]) && FinalizerOk(trace[k].machines[uid])
    requires LocalStep(trace[k].machines[uid], action, trace[k + 1].machines[uid])
    ensures RecordedAt(trace, uid, k)
  {
    var m, m' := trace[k].machines[uid], trace[k + 1].machines[uid];
    assert m'.accepted == m.accepted;
    if Excused(m') {
      LocalStepExcuses(m, action, m');
    }
    if m.gone {
      LocalStepStaysGone(m, action, m');
    } else if m'.gone {
      LocalStepDrops(m, action, m');
    }
  }

  lemma XoIsRecorded(trace: seq<State>, uid: Uid, k: nat, action: XoAction)
    requires k + 1 < |trace| && uid in trace[k].machines && XoStep(trace[k], uid, action, trace[k + 1])
    ensures RecordedAt(trace, uid, k)
  {
    if action.DeleteCall? && action.answer != Refused {
      assert Answered(trace, k, uid, trace[k].machines[uid].worker.pc.vm, action.removed, action.answer);
    }
  }

  lemma StepIsRecorded(trace: seq<State>, uid: Uid, k: nat, step: Step)
    requires k + 1 < |trace| && Inv(trace[k]) && FinalizersOk(trace[k]) && NextStep(trace[k], step, trace[k + 1])
    ensures RecordedAt(trace, uid, k)
  {
    if uid in trace[k + 1].machines {
      if step.Others? || step.uid != uid {
        OtherStep(trace[k], step, trace[k + 1], uid);
      } else if step.Local? {
        assert Joined(trace[k], uid);
        LocalIsRecorded(trace, uid, k, step.action);
      } else if step.Xo? {
        XoIsRecorded(trace, uid, k, step.xoAction);
      }
    }
  }

  lemma RunIsRecorded(trace: seq<State>, uid: Uid)
    requires Run(trace)
    ensures Recorded(trace, uid)
  {
    forall k | 0 <= k < |trace| - 1 ensures RecordedAt(trace, uid, k) {
      RunInv(trace, k);
      RunFinalizers(trace, k);
      assert Next(trace[k], trace[k + 1]);
      var step :| NextStep(trace[k], step, trace[k + 1]);
      StepIsRecorded(trace, uid, k, step);
    }
  }

  lemma {:induction false} AcceptedWasAnswered(trace: seq<State>, i: nat, uid: Uid, v: VmId) returns (k: nat)
    requires Recorded(trace, uid) && i < |trace| && uid in trace[i].machines && v in trace[i].machines[uid].accepted
    ensures k < i && AnsweredAt(trace, k, uid, v)
  {
    assert RecordedAt(trace, uid, i - 1);
    if AnsweredAt(trace, i - 1, uid, v) {
      k := i - 1;
    } else {
      k := AcceptedWasAnswered(trace, i - 1, uid, v);
    }
  }

  lemma {:induction false} ExcusedInPass(trace: seq<State>, i: nat, uid: Uid)
    requires Recorded(trace, uid) && i < |trace| && uid in trace[i].machines && Excused(trace[i].machines[uid])
    ensures PassLetThrough(trace, i, uid)
  {
    assert RecordedAt(trace, uid, i - 1) && BusyWith(trace[i], uid);
    if LetThrough(trace, i - 1, uid) {
      assert SamePass(trace, uid, i - 1, i);
    } else {
      ExcusedInPass(trace, i - 1, uid);
      var k: nat :| k < i - 1 && LetThrough(trace, k, uid) && SamePass(trace, uid, k, i - 1);
      assert SamePass(trace, uid, k, i);
    }
  }

  /** The step in which a machine went. */
  lemma {:induction false} WhenGone(trace: seq<State>, i: nat, uid: Uid) returns (d: nat)
    requires Recorded(trace, uid) && i < |trace| && uid in trace[i].machines && trace[i].machines[uid].gone
    ensures d < i && DroppedFor(trace, d, uid) && trace[i].machines[uid].versions == trace[d + 1].machines[uid].versions
  {
    assert RecordedAt(trace, uid, i - 1);
    if DroppedFor(trace, i - 1, uid) {
      d := i - 1;
    } else {
      d := WhenGone(trace, i - 1, uid);
    }
  }

  // ---------------------------------------------------------------------------
  // Theorems
  // ---------------------------------------------------------------------------

  /** Why the finalizer went in step d although the object recorded v. */
  ghost predicate MayDrop(trace: seq<State>, d: nat, uid: Uid, v: VmId)
    requires d < |trace|
  {
    || (exists k: nat :: k < d && AnsweredAt(trace, k, uid, v))
    || PassLetThrough(trace, d, uid)
  }

  /**
   The finalizer goes last: if a machine is gone and its object recorded a VM,
   then before the step in which it went a delete of that VM was answered with
   success, a 404 or the quirk, or that very pass had been let through.
   */
  lemma FinalizerGoesLast(trace: seq<State>, i: nat, uid: Uid)
    requires Run(trace) && i < |trace| && uid in trace[i].machines && trace[i].machines[uid].gone
    ensures |trace[i].machines[uid].versions| > 0
    ensures var id := Persisted(trace[i], uid).providerId;
            id.Some? ==> exists d: nat :: d < i && DroppedAt(trace, d, uid) && MayDrop(trace, d, uid, id.value)
  {
    RunIsRecorded(trace, uid);
    var d := WhenGone(trace, i, uid);
    var m := trace[d].machines[uid];
    if Last(m).providerId.Some? {
      var v := Last(m).providerId.value;
      if m.skipped {
        ExcusedInPass(trace, d, uid);
      } else {
        var k := AcceptedWasAnswered(trace, d, uid, v);
      }
      assert MayDrop(trace, d, uid, v);
    }
  }

  /**
   When deletion leaves nothing behind: if the pass that dropped the finalizer was
   not let through and at most one VM was ever made, the delete of every VM of a
   machine that is gone was accepted, exactly when the object recorded a VM or
   there never was one.
   */
  lemma DeletionLeavesNothing(trace: seq<State>, i: nat, uid: Uid)
    requires Run(trace) && i < |trace| && uid in trace[i].machines && trace[i].machines[uid].gone
    requires !trace[i].machines[uid].skipped && |Made(trace[i].born, uid)| <= 1
    ensures |trace[i].machines[uid].versions| > 0
    ensures var made := Made(trace[i].born, uid);
            made <= trace[i].machines[uid].accepted <==> made == {} || Persisted(trace[i], uid).providerId.Some?
  {
    RunFinalizers(trace, i);
    RunInv(trace, i);
    var m, made := trace[i].machines[uid], Made(trace[i].born, uid);
    assert FinalizerOk(m) && Joined(trace[i], uid);
    SmallSet(made);
    assert OwnIds(Last(m), made);
  }
}
