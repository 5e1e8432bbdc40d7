/**
 Exactly when a machine gets a second VM, and exactly when a recorded providerID
 is replaced (internal/controller/xomachine/vm_ops.go:65-101 and 531-566).
 */
module MachineDuplicates {
  import opened Options
  import opened VmAdoption
  import opened MachineProtocol
  import opened MachineSafety
  import opened MachineRuns
  import opened MachineTheorems

  // ---------------------------------------------------------------------------
  // A second VM
  // ---------------------------------------------------------------------------

  /** The lookup had failed although there is a VM already, and the create that follows takes effect. */
  ghost predicate Duplicates(s: State, s': State, uid: Uid) {
    && uid in s.machines && Made(s.born, uid) != {}
    && s.machines[uid].worker.Busy? && s.machines[uid].worker.pc == Create(true)
    && exists v, answered :: CreateStep(s, uid, Some(v), answered, s')
  }

  ghost predicate DuplicatedAt(trace: seq<State>, k: nat, uid: Uid) {
    k + 1 < |trace| && Duplicates(trace[k], trace[k + 1], uid)
  }

  lemma OthersMakeNone(s: State, s': State, uid: Uid)
    requires BirthsOk(s) && XoChanges(s, s') && uid in s.machines
    ensures Made(s'.born, uid) == Made(s.born, uid)
  {
    MarkerInjective(uid, uid);
  }

  lemma OtherCreate(s: State, owner: Uid, action: XoAction, s': State, uid: Uid)
    requires BirthsOk(s) && uid in s.machines && owner in s.machines && XoStep(s, owner, action, s')
    requires owner != uid || !action.CreateVm? || action.applied.None?
    ensures Made(s'.born, uid) == Made(s.born, uid)
  {
    if action.CreateVm? && action.applied.Some? {
      MadeAfterCreate(s.born, owner, action.applied.value, s.machines[owner].worker.obj.vmName, uid);
    }
  }

  /** Only a create for the machine itself makes a VM for it. */
  lemma MadeByCreate(s: State, step: Step, s': State, uid: Uid)
    requires BirthsOk(s) && NextStep(s, step, s') && uid in s.machines
    requires !(step.Xo? && step.uid == uid && step.xoAction.CreateVm? && step.xoAction.applied.Some?)
    ensures Made(s'.born, uid) == Made(s.born, uid)
  {
    match step
    case Xo(owner, action) => OtherCreate(s, owner, action, s', uid);
    case Others => OthersMakeNone(s, s', uid);
    case _ =>
  }

  /** That create makes a second VM exactly when the lookup had failed although there was a first. */
  lemma SecondByCreate(s: State, uid: Uid, v: VmId, answered: bool, s': State)
    requires Inv(s) && uid in s.machines && CreateStep(s, uid, Some(v), answered, s')
    ensures Made(s'.born, uid) == Made(s.born, uid) + {v} && v !in Made(s.born, uid)
    ensures Made(s.born, uid) != {} ==> Duplicates(s, s', uid)
  {
    assert Joined(s, uid);
    MadeAfterCreate(s.born, uid, v, s.machines[uid].worker.obj.vmName, uid);
  }

  /** What a step can do to the number of VMs. */
  ghost predicate CountedAt(trace: seq<State>, uid: Uid, k: nat)
    requires k + 1 < |trace|
  {
    uid in trace[k + 1].machines ==>
      var before := if uid in trace[k].machines then Made(trace[k].born, uid) else {};
      var after := Made(trace[k + 1].born, uid);
      |after| >= 2 <==> |before| >= 2 || DuplicatedAt(trace, k, uid)
  }

  lemma GrownByOne(made: set<VmId>, v: VmId)
    requires v !in made
    ensures |made + {v}| >= 2 <==> made != {}
  {
    assert |made + {v}| == |made| + 1;
  }

  lemma CreateIsCounted(s: State, uid: Uid, v: VmId, answered: bool, s': State)
    requires Inv(s) && uid in s.machines && CreateStep(s, uid, Some(v), answered, s')
    ensures |Made(s'.born, uid)| >= 2 <==> |Made(s.born, uid)| >= 2 || Duplicates(s, s', uid)
  {
    SecondByCreate(s, uid, v, answered, s');
    GrownByOne(Made(s.born, uid), v);
  }

  lemma StepIsCounted(trace: seq<State>, uid: Uid, k: nat, step: Step)
    requires k + 1 < |trace| && Inv(trace[k]) && NextStep(trace[k], step, trace[k + 1])
    ensures CountedAt(trace, uid, k)
  {
    var s, s' := trace[k], trace[k + 1];
    if uid !in s.machines {
      if uid in s'.machines {
        NothingMadeYet(s, uid);
      }
    } else if step.Xo? && step.uid == uid && step.xoAction.CreateVm? && step.xoAction.applied.Some? {
      CreateIsCounted(s, uid, step.xoAction.applied.value, step.xoAction.answered, s');
    } else {
      MadeByCreate(s, step, s', uid);
      NotDuplicated(s, s', uid);
    }
  }

  /** Where nothing is made nothing is duplicated. */
  lemma NotDuplicated(s: State, s': State, uid: Uid)
    requires Inv(s) && uid in s.machines && Made(s'.born, uid) == Made(s.born, uid)
    ensures !Duplicates(s, s', uid)
  {
    forall v, answered | CreateStep(s, uid, Some(v), answered, s') ensures false {
      SecondByCreate(s, uid, v, answered, s');
    }
  }

  ghost predicate Counted(trace: seq<State>, uid: Uid) {
    && |trace| > 0 && uid !in trace[0].machines
    && (forall k :: 0 <= k < |trace| - 1 ==> CountedAt(trace, uid, k))
    && (forall k :: 0 <= k < |trace| - 1 ==> (uid in trace[k].machines ==> uid in trace[k + 1].machines))
  }

  lemma RunIsCounted(trace: seq<State>, uid: Uid)
    requires Run(trace)
    ensures Counted(trace, uid)
  {
    RunIsGrowing(trace, uid);
    forall k | 0 <= k < |trace| - 1
      ensures CountedAt(trace, uid, k) && (uid in trace[k].machines ==> uid in trace[k + 1].machines)
    {
      assert LaterAt(trace, uid, k);
      RunInv(trace, k);
      assert Next(trace[k], trace[k + 1]);
      var step :| NextStep(trace[k], step, trace[k + 1]);
      StepIsCounted(trace, uid, k, step);
    }
  }

  lemma {:induction false} CountedIsExact(trace: seq<State>, i: nat, uid: Uid)
    requires Counted(trace, uid) && i < |trace| && uid in trace[i].machines
    ensures |Made(trace[i].born, uid)| >= 2 <==> exists k: nat :: k < i && DuplicatedAt(trace, k, uid)
  {
    assert CountedAt(trace, uid, i - 1);
    if uid in trace[i - 1].machines {
      CountedIsExact(trace, i - 1, uid);
    } else {
      forall k: nat | k < i ensures !DuplicatedAt(trace, k, uid) {
        NotThereBefore(trace, k, i - 1, uid);
      }
    }
  }

  lemma {:induction false} NotThereBefore(trace: seq<State>, k: nat, i: nat, uid: Uid)
    requires Counted(trace, uid) && k <= i < |trace| && uid !in trace[i].machines
    ensures uid !in trace[k].machines
    decreases i - k
  {
    if k < i {
      NotThereBefore(trace, k, i - 1, uid);
    }
  }

  /**
   A second VM is made for a machine exactly when, at some step, there was one
   already, the lookup had failed and the create took effect.
   */
  lemma SecondVmExactly(trace: seq<State>, i: nat, uid: Uid)
    requires Run(trace) && i < |trace| && uid in trace[i].machines
    ensures |Made(trace[i].born, uid)| >= 2 <==> exists k: nat :: k < i && DuplicatedAt(trace, k, uid)
  {
    RunIsCounted(trace, uid);
    CountedIsExact(trace, i, uid);
  }

  /** So a recorded providerID names the same VM for ever after, unless such a step came before. */
  lemma ProviderIdStays(trace: seq<State>, i: nat, j: nat, uid: Uid)
    requires Run(trace) && i <= j < |trace| && uid in trace[i].machines
    requires IdAt(trace, i, uid).Some? && forall k: nat :: k < j ==> !DuplicatedAt(trace, k, uid)
    ensures IdAt(trace, j, uid) == IdAt(trace, i, uid)
  {
    HistoryGrows(trace, i, j, uid);
    SecondVmExactly(trace, j, uid);
    ProviderIdNeverChanges(trace, i, j, uid);
  }

  // ---------------------------------------------------------------------------
  // Another providerID
  // ---------------------------------------------------------------------------

  /** The providerID that is persisted, if there is one. */
  function IdAt(trace: seq<State>, k: nat, uid: Uid): Option<VmId>
    requires k < |trace|
  {
    if uid in trace[k].machines && |trace[k].machines[uid].versions| > 0 then Persisted(trace[k], uid).providerId
    else None
  }

  /** A worker that holds one VM writes its ID, and is not refused, where another one is recorded. */
  predicate Overwrites(m: Machine, m': Machine) {
    && |m.versions| > 0 && Last(m).providerId.Some?
    && m.worker.Busy? && (m.worker.pc.SaveStatus? || m.worker.pc.SaveStatusAgain?)
    && m.worker.pc.vm != Last(m).providerId.value
    && (LocalStep(m, Write(SaveProviderId, Ok), m') || LocalStep(m, Write(SaveProviderId, Lost), m'))
  }

  predicate OverwrittenAt(trace: seq<State>, k: nat, uid: Uid) {
    && k + 1 < |trace| && uid in trace[k].machines && uid in trace[k + 1].machines
    && Overwrites(trace[k].machines[uid], trace[k + 1].machines[uid])
  }

  lemma OverwriteChangesId(m: Machine, m': Machine)
    requires MachineOk(m) && Overwrites(m, m')
    ensures |m'.versions| > 0 && Last(m').providerId != Last(m).providerId
  {
  }

  lemma PlanChangesId(m: Machine, change: Change)
    requires m.worker.Busy? && PlanOf(m, m.worker, change).Some?
    ensures PlanOf(m, m.worker, change).value.next.providerId == m.worker.obj.providerId
         || (change.SaveProviderId? && (m.worker.pc.SaveStatus? || m.worker.pc.SaveStatusAgain?)
             && PlanOf(m, m.worker, change).value.next.providerId == Some(m.worker.pc.vm))
  {
  }

  lemma WriteChangesId(m: Machine, change: Change, answer: Answer, m': Machine)
    requires MachineOk(m) && LocalStep(m, Write(change, answer), m') && Last(m).providerId.Some?
    ensures |m'.versions| > 0
    ensures Last(m').providerId == Last(m).providerId || Overwrites(m, m')
  {
    PlanChangesId(m, change);
  }

  lemma LocalChangesId(m: Machine, action: Action, m': Machine)
    requires MachineOk(m) && LocalStep(m, action, m') && Last(m).providerId.Some?
    ensures |m'.versions| > 0
    ensures Last(m').providerId == Last(m).providerId || Overwrites(m, m')
  {
    match action
    case Write(change, answer) => WriteChangesId(m, change, answer, m');
    case _ =>
  }

  lemma XoKeepsVersions(s: State, owner: Uid, action: XoAction, s': State, uid: Uid)
    requires owner in s.machines && XoStep(s, owner, action, s') && uid in s.machines
    ensures uid in s'.machines && s'.machines[uid].versions == s.machines[uid].versions
  {
  }

  ghost predicate ReplacedAt(trace: seq<State>, uid: Uid, k: nat)
    requires k + 1 < |trace|
  {
    IdAt(trace, k, uid).Some? ==> (IdAt(trace, k + 1, uid) != IdAt(trace, k, uid) <==> OverwrittenAt(trace, k, uid))
  }

  lemma StepChangesId(s: State, step: Step, s': State, uid: Uid)
    requires NextStep(s, step, s') && uid in s.machines && MachineOk(s.machines[uid])
    requires Last(s.machines[uid]).providerId.Some?
    ensures uid in s'.machines && |s'.machines[uid].versions| > 0
    ensures Last(s'.machines[uid]).providerId == Last(s.machines[uid]).providerId
         || Overwrites(s.machines[uid], s'.machines[uid])
  {
    match step
    case Local(owner, action) =>
      if owner == uid {
        LocalChangesId(s.machines[uid], action, s'.machines[uid]);
      }
    case Xo(owner, action) => XoKeepsVersions(s, owner, action, s', uid);
    case _ =>
  }

  lemma StepReplaces(trace: seq<State>, uid: Uid, k: nat, step: Step)
    requires k + 1 < |trace| && Inv(trace[k]) && NextStep(trace[k], step, trace[k + 1])
    ensures ReplacedAt(trace, uid, k)
  {
    if IdAt(trace, k, uid).Some? {
      assert Joined(trace[k], uid);
      StepChangesId(trace[k], step, trace[k + 1], uid);
      if OverwrittenAt(trace, k, uid) {
        OverwriteChangesId(trace[k].machines[uid], trace[k + 1].machines[uid]);
      }
    }
  }

  ghost predicate Replaced(trace: seq<State>, uid: Uid) {
    forall k :: 0 <= k < |trace| - 1 ==> ReplacedAt(trace, uid, k)
  }

  lemma RunIsReplaced(trace: seq<State>, uid: Uid)
    requires Run(trace)
    ensures Replaced(trace, uid)
  {
    forall k | 0 <= k < |trace| - 1 ensures ReplacedAt(trace, uid, k) {
      RunInv(trace, k);
      assert Next(trace[k], trace[k + 1]);
      var step :| NextStep(trace[k], step, trace[k + 1]);
      StepReplaces(trace, uid, k, step);
    }
  }

  lemma {:induction false} NotReplaced(trace: seq<State>, i: nat, j: nat, uid: Uid)
    requires Replaced(trace, uid) && i <= j < |trace| && IdAt(trace, i, uid).Some?
    requires forall k: nat :: i <= k < j ==> !OverwrittenAt(trace, k, uid)
    ensures IdAt(trace, j, uid) == IdAt(trace, i, uid)
    decreases j - i
  {
    if i < j {
      NotReplaced(trace, i, j - 1, uid);
      assert ReplacedAt(trace, uid, j - 1);
    }
  }

  /** A recorded providerID changes exactly when a save that holds another VM is accepted over it. */
  lemma ProviderIdChangesExactly(trace: seq<State>, i: nat, j: nat, uid: Uid)
    requires Run(trace) && i <= j < |trace| && IdAt(trace, i, uid).Some?
    ensures (exists l: nat :: i <= l <= j && IdAt(trace, l, uid) != IdAt(trace, i, uid))
        <==> (exists k: nat :: i <= k < j && OverwrittenAt(trace, k, uid))
  {
    RunIsReplaced(trace, uid);
    if k: nat :| i <= k < j && OverwrittenAt(trace, k, uid) {
      assert ReplacedAt(trace, uid, k);
    } else {
      forall l: nat | i <= l <= j ensures IdAt(trace, l, uid) == IdAt(trace, i, uid) {
        NotReplaced(trace, i, l, uid);
      }
    }
  }
}
