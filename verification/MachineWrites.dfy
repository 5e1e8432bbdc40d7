/**
 What every call of a worker does: what an accepted write persists, where the
 worker goes next, what others may do, and where recorded addresses come from.
 */
module MachineWrites {
  import opened Options
  import opened Strings
  import opened VmAdoption
  import opened MachineProtocol
  import opened MachineSafety
  import opened MachineRuns
  import opened MachineTheorems
  import opened VmAddress

  // ---------------------------------------------------------------------------
  // Writes
  // ---------------------------------------------------------------------------

  predicate Accepted(answer: Answer) {
    answer == Ok || answer == Lost
  }

  /** Only a write on the newest version is accepted, and it adds one version. */
  lemma AcceptedIsCurrent(m: Machine, change: Change, answer: Answer, m': Machine)
    requires MachineOk(m) && LocalStep(m, Write(change, answer), m') && Accepted(answer)
    ensures m.worker.Busy? && !m.gone && m.worker.rv + 1 == |m.versions| && m.worker.obj == Last(m)
    ensures |m'.versions| == |m.versions| + 1 && m'.versions[..|m.versions|] == m.versions
    ensures m'.gone <==> Last(m').deleting && !Last(m').finalizer
  {
  }

  /** saveProviderID writes the ID of its VM, to the spec and then to the status, on a retry as well. */
  lemma AcceptedSave(m: Machine, answer: Answer, m': Machine)
    requires MachineOk(m) && LocalStep(m, Write(SaveProviderId, answer), m') && Accepted(answer)
    ensures |m'.versions| > 0
    ensures var (before, after, pc) := (Last(m), Last(m'), m.worker.pc);
            match pc
            case SaveSpec(vm) => after == before.(specProviderId := Some(vm))
            case SaveSpecAgain(vm) => after == before.(specProviderId := Some(vm))
            case SaveStatus(vm) => after == before.(providerId := Some(vm))
            case SaveStatusAgain(vm) => after == before.(providerId := Some(vm))
            case _ => false
  {
  }

  /** Any other write changes what it is named after, and nothing else. */
  lemma AcceptedWrite(m: Machine, change: Change, answer: Answer, m': Machine)
    requires MachineOk(m) && LocalStep(m, Write(change, answer), m') && Accepted(answer) && !change.SaveProviderId?
    ensures |m'.versions| > 0
    ensures var (before, after, pc) := (Last(m), Last(m'), m.worker.pc);
            match change
            case Note(_) => after == before
            case AddFinalizer => (pc.Ensure? || pc.EnsureAgain?) && after == before.(finalizer := true)
            case RecordName(name) =>
              pc.Provision? && before.vmName == "" && name != "" && after == before.(vmName := name)
            case SetReady(address) =>
              && pc.Await? && !before.ready && address != ""
              && after == before.(ready := true, provisioned := true, addresses := [NodeAddress(InternalIP, address)])
            case RefreshAddress(address) =>
              && pc.Refresh? && after == before.(addresses := after.addresses)
              && (address == "" ==> after.addresses == before.addresses)
              && (address != "" ==> NodeAddress(InternalIP, address) in after.addresses)
            case RemoveFinalizer => pc.DropFinalizer? && before.deleting && after == before.(finalizer := false)
            case SaveProviderId => true
  {
    match change
    case RefreshAddress(address) => WithNodeAddressProperties(m.worker.obj.addresses, address);
    case _ =>
  }

  /** Where the worker goes after an answered write: it holds what the API server has. */
  lemma AfterOk(m: Machine, change: Change, m': Machine)
    requires MachineOk(m) && LocalStep(m, Write(change, Ok), m')
    ensures |m'.versions| > 0
    ensures var next := pc => Busy(pc, Last(m'), |m.versions|);
            match m.worker.pc
            case Ensure => m'.worker == next(Provision)
            case EnsureAgain => m'.worker == next(Provision)
            case SaveSpec(vm) => m'.worker == next(SaveStatus(vm))
            case SaveSpecAgain(vm) => m'.worker == next(SaveStatus(vm))
            case SaveStatus(vm) => m'.worker == if Last(m).ready then Idle else next(Await(vm))
            case SaveStatusAgain(vm) => m'.worker == if Last(m).ready then Idle else next(Await(vm))
            case DropFinalizer => m'.worker == Idle
            case pc =>
              m'.worker == if change.RecordName? then next(Lookup)
                           else if change == Note(true) && (pc.Provision? || pc.Refresh?) then next(pc)
                           else Idle
  {
  }

  /** An accepted write with a lost answer is accepted; a failed one changes nothing. Both end the reconcile. */
  lemma AfterLoss(m: Machine, change: Change, answer: Answer, m': Machine, accepted: Machine)
    requires LocalStep(m, Write(change, answer), m') && LocalStep(m, Write(change, Ok), accepted)
    requires answer == Lost || answer == Answer.Failed
    ensures m' == (if answer == Lost then accepted else m).(worker := Idle)
  {
  }

  /** Every answer is possible that fits: a conflict exactly for a write on an old version. */
  lemma AnyAnswer(m: Machine, change: Change, answer: Answer, m': Machine, other: Answer)
    requires LocalStep(m, Write(change, answer), m')
    ensures (exists m'' :: LocalStep(m, Write(change, other), m'')) <==>
              other == Answer.Failed || (other == Conflict <==> m.gone || m.worker.rv + 1 != |m.versions|)
  {
    var plan := PlanOf(m, m.worker, change).value;
    assert LocalStep(m, Write(change, Answer.Failed), m.(worker := Idle));
    if Current(m) {
      assert LocalStep(m, Write(change, Ok), Accept(m, plan.next, plan.onOk));
      assert LocalStep(m, Write(change, Lost), Accept(m, plan.next, Idle));
    } else {
      assert LocalStep(m, Write(change, Conflict), m.(worker := plan.onConflict));
    }
  }

  /** An idle worker may read any version not older than the last one it has read. */
  lemma AnyRead(m: Machine, k: nat)
    requires m.worker.Idle? && m.seen <= k < |m.versions|
    ensures exists m' :: LocalStep(m, Read(k), m')
  {
    assert LocalStep(m, Read(k), m.(seen := k, worker := Dispatch(m.versions[k], k), skipped := m.gone && m.skipped));
  }

  /** A worker may stop before any of its calls, by an error or a crash. */
  lemma AnyStop(m: Machine)
    requires m.worker.Busy?
    ensures LocalStep(m, Stop, m.(worker := Idle))
  {
  }

  /** Others write what is not modelled, or mark the object for deletion, without anybody's worker noticing. */
  lemma OthersWrite(m: Machine, delete: bool, m': Machine)
    requires |m.versions| > 0 && LocalStep(m, External(delete), m')
    ensures |m'.versions| == |m.versions| + 1 && m'.versions[..|m.versions|] == m.versions && m'.worker == m.worker
    ensures Last(m') == if delete then Last(m).(deleting := true) else Last(m)
    ensures !m.gone && (m'.gone <==> Last(m').deleting && !Last(m').finalizer)
  {
  }

  /** A conflict changes nothing; the finalizer and both halves of the providerID are tried once more. */
  lemma AfterConflict(m: Machine, change: Change, m': Machine)
    requires LocalStep(m, Write(change, Conflict), m')
    ensures m.worker.Busy? && (m.gone || m.worker.rv + 1 != |m.versions|)
    ensures var w := m.worker;
            m' == m.(worker :=
              match w.pc
              case Ensure => w.(pc := EnsureReread)
              case SaveSpec(vm) => w.(pc := SaveSpecReread(vm))
              case SaveStatus(vm) => w.(pc := SaveStatusReread(vm))
              case _ => Idle)
  {
  }

  /** After the read that follows a conflict the same VM is saved; a finalizer that is there is not added again. */
  lemma AfterReadAgain(m: Machine, k: nat, m': Machine)
    requires LocalStep(m, Reread(k), m')
    ensures m.worker.Busy? && m.seen <= k < |m.versions| && m'.seen == k && m'.versions == m.versions
    ensures m'.worker == Busy(
                match m.worker.pc
                case SaveSpecReread(vm) => SaveSpecAgain(vm)
                case SaveStatusReread(vm) => SaveStatusAgain(vm)
                case _ => if m.versions[k].finalizer then Provision else EnsureAgain,
              m.versions[k], k)
  {
  }

  /** Where a reconcile starts: deletion comes first, and only with this provider's finalizer. */
  lemma ReadStarts(m: Machine, k: nat, m': Machine)
    requires LocalStep(m, Read(k), m')
    ensures m.seen <= k < |m.versions| && m'.seen == k && m'.versions == m.versions
    ensures var obj := m.versions[k];
            m'.worker == if obj.deleting && !obj.finalizer then Idle
                         else if obj.deleting && obj.providerId.Some? then Busy(DeleteVm(obj.providerId.value), obj, k)
                         else if obj.deleting then Busy(DropFinalizer, obj, k)
                         else if obj.finalizer then Busy(Provision, obj, k)
                         else Busy(Ensure, obj, k)
  {
  }

  /** A machine with a providerID never looks for a VM or creates one; without one, only with its name recorded. */
  lemma PathChosen(m: Machine, m': Machine)
    requires LocalStep(m, Choose, m')
    ensures m.worker.Busy? && m'.versions == m.versions
    ensures var obj := m.worker.obj;
            if obj.providerId.None? then obj.vmName != "" && m'.worker == m.worker.(pc := Lookup)
            else m'.worker == m.worker.(pc := if obj.ready then Refresh else Await(obj.providerId.value))
  {
  }

  // ---------------------------------------------------------------------------
  // Xen Orchestra
  // ---------------------------------------------------------------------------

  /** The filter of a lookup matches any part of the name; the answer holds those VMs, and other ones at will. */
  lemma AccurateExactly(list: seq<VmRecord>, vms: map<VmId, Vm>, name: string)
    ensures Accurate(list, vms, name) <==>
              && (forall r <- list :: r.id in vms && vms[r.id].name == r.name && vms[r.id].description == r.description)
              && (forall v <- vms :: (exists a, b :: vms[v].name == a + name + b) ==> exists r <- list :: r.id == v)
  {
    forall v | v in vms ensures Contains(vms[v].name, name) <==> exists a, b :: vms[v].name == a + name + b {
      ContainsExactly(vms[v].name, name);
    }
  }

  /**
   An answered lookup adopts a listed VM with the name and the marker. When there is none, it is followed by a
   create, unless one was tried before.
   */
  lemma LookupDoes(s: State, uid: Uid, list: seq<VmRecord>, s': State)
    requires uid in s.machines && uid != "" && ListStep(s, uid, list, s')
    ensures uid in s'.machines && s.machines[uid].worker.Busy?
    ensures var (before, after) := (s.machines[uid].worker, s'.machines[uid].worker);
            var own := (r: VmRecord) =>
              r.description == "vates-capi-machine:" + uid && (before.obj.vmName == "" || r.name == before.obj.vmName);
            && (before.pc.Lookup? || before.pc.Recover?)
            && if forall r <- list :: !own(r)
               then after == if before.pc.Lookup? then before.(pc := Create(false)) else Idle
               else exists r <- list :: own(r) && after == before.(pc := SaveSpec(r.id))
  {
    MarkerIsLiteral(uid);
  }

  /** A lookup may fail; then a create follows that is blind, unless one was tried before. */
  lemma LookupMayFail(s: State, uid: Uid)
    requires uid in s.machines && s.machines[uid].worker.Busy?
    requires s.machines[uid].worker.pc.Lookup? || s.machines[uid].worker.pc.Recover?
    ensures var (m, w) := (s.machines[uid], s.machines[uid].worker);
            var next := if w.pc.Lookup? then w.(pc := Create(true)) else Idle;
            forall s' :: ListFailsStep(s, uid, s') <==> s' == s.(machines := s.machines[uid := m.(worker := next)])
  {
  }

  /** A create asks for the recorded name and the marker; an answered one goes on with the VM it made. */
  lemma CreateDoes(s: State, uid: Uid, applied: Option<VmId>, answered: bool, s': State)
    requires uid in s.machines && uid != "" && CreateStep(s, uid, applied, answered, s')
    ensures uid in s'.machines && s'.machines[uid].worker.Busy?
    ensures var vm := Vm(s.machines[uid].worker.obj.vmName, "vates-capi-machine:" + uid);
            && s'.vms == (if applied.Some? then s.vms[applied.value := vm] else s.vms)
            && s'.machines[uid].worker.pc == if answered then SaveSpec(applied.value) else Recover
  {
    MarkerIsLiteral(uid);
  }

  /** It may take effect with any new ID, answered or not, or fail without an effect. */
  lemma AnyCreate(s: State, uid: Uid, applied: Option<VmId>, answered: bool)
    requires uid in s.machines && s.machines[uid].worker.Busy? && s.machines[uid].worker.pc.Create?
    ensures (exists s' :: CreateStep(s, uid, applied, answered, s')) <==>
              (applied.None? && !answered) || (applied.Some? && applied.value !in s.born)
  {
    if (applied.None? && !answered) || (applied.Some? && applied.value !in s.born) {
      var vm := Vm(s.machines[uid].worker.obj.vmName, Marker(uid));
      var s' := State(s.machines[uid := AfterCreate(s.machines[uid], applied, answered)],
                      if applied.Some? then s.vms[applied.value := vm] else s.vms,
                      if applied.Some? then s.born[applied.value := vm] else s.born,
                      s.calls + [CreateCall(uid, vm.name, vm.description)]);
      assert CreateStep(s, uid, applied, answered, s');
    }
  }

  /** A delete may remove the VM whatever the answer; all answers but other errors let the deletion go on. */
  lemma AnyDelete(s: State, uid: Uid, removed: bool, answer: DeleteAnswer)
    requires uid in s.machines && s.machines[uid].worker.Busy? && s.machines[uid].worker.pc.DeleteVm?
    requires answer == Deleted ==> removed
    requires answer == NotFound ==> s.machines[uid].worker.pc.vm !in s.vms
    ensures var (m, w) := (s.machines[uid], s.machines[uid].worker);
            var m' := if answer == Refused then m.(worker := Idle)
                      else m.(worker := w.(pc := DropFinalizer), accepted := m.accepted + {w.pc.vm});
            forall s' :: DeleteStep(s, uid, removed, answer, s') <==>
                           s' == s.(vms := if removed then s.vms - {w.pc.vm} else s.vms,
                                    machines := s.machines[uid := m'])
  {
  }

  /** Others may create VMs with any name, a machine's own included. */
  lemma OthersMayCreate(s: State, v: VmId, vm: Vm)
    requires BirthsOk(s) && v !in s.born && !IsMarker(vm.description)
    ensures XoChanges(s, s.(vms := s.vms[v := vm], born := s.born[v := vm]))
  {
    assert forall u <- s.machines :: v !in Made(s.born, u);
  }

  /** They may edit or remove any VM that was not made for a machine. */
  lemma OthersMayEdit(s: State, v: VmId, edited: Option<Vm>)
    requires BirthsOk(s) && v in s.vms && !IsMarker(s.born[v].description)
    requires edited.Some? ==> !IsMarker(edited.value.description)
    ensures XoChanges(s, s.(vms := if edited.Some? then s.vms[v := edited.value] else s.vms - {v}))
  {
    forall u | u in s.machines ensures Marker(u) != s.born[v].description {
      MarkerInjective(u, u);
    }
  }

  /** And a VM of a machine whose worker has read the providerID, or the deletion and is idle, or that is unknown. */
  lemma OthersMayTouchOwn(s: State, v: VmId, uid: Uid, edited: Option<Vm>)
    requires BirthsOk(s) && v in s.vms && s.born[v].description == Marker(uid)
    requires uid in s.machines ==>
               var m := s.machines[uid];
               && m.seen < |m.versions|
               && (m.versions[m.seen].providerId.Some? || (m.versions[m.seen].deleting && m.worker.Idle?))
    requires edited.Some? ==> !IsMarker(edited.value.description) || edited.value.description == Marker(uid)
    ensures XoChanges(s, s.(vms := if edited.Some? then s.vms[v := edited.value] else s.vms - {v}))
  {
    forall u | u in s.machines && Marker(u) == s.born[v].description ensures u == uid {
      MarkerInjective(u, uid);
    }
  }

  // ---------------------------------------------------------------------------
  // Where addresses come from
  // ---------------------------------------------------------------------------

  /** In step k the address is given to an accepted write that makes the machine ready or refreshes it. */
  ghost predicate GivenAt(trace: seq<State>, k: nat, uid: Uid, address: string) {
    && k + 1 < |trace| && uid in trace[k].machines && uid in trace[k + 1].machines
    && Given(trace[k].machines[uid], address, trace[k + 1].machines[uid])
  }

  ghost predicate Given(m: Machine, address: string, m': Machine) {
    exists answer: Answer :: Accepted(answer)
      && (LocalStep(m, Write(SetReady(address), answer), m')
          || LocalStep(m, Write(RefreshAddress(address), answer), m'))
  }

  ghost predicate Records(m: Machine, a: NodeAddress) {
    exists n :: 0 <= n < |m.versions| && a in m.versions[n].addresses
  }

  lemma OnlyTheNewAddress(addresses: seq<NodeAddress>, address: string, a: NodeAddress)
    requires a in WithNodeAddress(addresses, address)
    ensures a in addresses || a == NodeAddress(InternalIP, address)
  {
  }

  lemma WriteRecords(m: Machine, change: Change, answer: Answer, m': Machine, a: NodeAddress)
    requires MachineOk(m) && LocalStep(m, Write(change, answer), m') && Accepted(answer) && a in Last(m').addresses
    ensures a in Last(m).addresses || (a.kind == InternalIP && Given(m, a.address, m'))
  {
    if change.RefreshAddress? {
      OnlyTheNewAddress(m.worker.obj.addresses, change.address, a);
      assert a in Last(m).addresses || (a.address == change.address && Given(m, change.address, m'));
    } else if change.SetReady? {
      AcceptedWrite(m, change, answer, m');
      assert a.address == change.address && Given(m, change.address, m');
    } else if change.SaveProviderId? {
      AcceptedSave(m, answer, m');
    } else {
      AcceptedWrite(m, change, answer, m');
    }
  }

  lemma LocalRecords(m: Machine, action: Action, m': Machine, a: NodeAddress)
    requires MachineOk(m) && LocalStep(m, action, m') && Records(m', a)
    ensures Records(m, a) || (a.kind == InternalIP && Given(m, a.address, m'))
  {
    var n :| 0 <= n < |m'.versions| && a in m'.versions[n].addresses;
    if n < |m.versions| {
      assert m'.versions[n] == m.versions[n];
    } else if action.Write? {
      WriteRecords(m, action.change, action.answer, m', a);
    } else {
      assert action.External?;
      OthersWrite(m, action.delete, m');
      assert m'.versions[n] == Last(m');
    }
  }

  /** What a machine records after step k, it recorded before, or it was given in step k. */
  ghost predicate AddressesAt(trace: seq<State>, uid: Uid, k: nat)
    requires k + 1 < |trace|
  {
    forall a :: uid in trace[k + 1].machines && Records(trace[k + 1].machines[uid], a) ==>
      || (uid in trace[k].machines && Records(trace[k].machines[uid], a))
      || (a.kind == InternalIP && GivenAt(trace, k, uid, a.address))
  }

  lemma StepAddresses(trace: seq<State>, uid: Uid, k: nat, step: Step)
    requires k + 1 < |trace| && Inv(trace[k]) && NextStep(trace[k], step, trace[k + 1])
    ensures AddressesAt(trace, uid, k)
  {
    forall a | uid in trace[k + 1].machines && Records(trace[k + 1].machines[uid], a)
      ensures (uid in trace[k].machines && Records(trace[k].machines[uid], a))
           || (a.kind == InternalIP && GivenAt(trace, k, uid, a.address))
    {
      StepAddress(trace, uid, k, step, a);
    }
  }

  lemma StepAddress(trace: seq<State>, uid: Uid, k: nat, step: Step, a: NodeAddress)
    requires k + 1 < |trace| && Inv(trace[k]) && NextStep(trace[k], step, trace[k + 1])
    requires uid in trace[k + 1].machines && Records(trace[k + 1].machines[uid], a)
    ensures (uid in trace[k].machines && Records(trace[k].machines[uid], a))
         || (a.kind == InternalIP && GivenAt(trace, k, uid, a.address))
  {
    if step.Local? && step.uid == uid {
      assert Joined(trace[k], uid);
      LocalRecords(trace[k].machines[uid], step.action, trace[k + 1].machines[uid], a);
    } else {
      OtherVersions(trace[k], step, trace[k + 1], uid);
    }
  }

  lemma OtherVersions(s: State, step: Step, s': State, uid: Uid)
    requires NextStep(s, step, s') && uid in s'.machines && !(step.Local? && step.uid == uid)
    ensures s'.machines[uid].versions == if uid in s.machines then s.machines[uid].versions else [NEW_OBJECT]
  {
    match step
    case Xo(owner, action) => XoVersions(s, owner, action, s', uid);
    case _ =>
  }

  lemma XoVersions(s: State, owner: Uid, action: XoAction, s': State, uid: Uid)
    requires owner in s.machines && XoStep(s, owner, action, s') && uid in s'.machines
    ensures uid in s.machines && s'.machines[uid].versions == s.machines[uid].versions
  {
  }

  ghost predicate Traced(trace: seq<State>, uid: Uid) {
    && |trace| > 0 && uid !in trace[0].machines
    && forall k :: 0 <= k < |trace| - 1 ==> AddressesAt(trace, uid, k)
  }

  lemma RunIsTraced(trace: seq<State>, uid: Uid)
    requires Run(trace)
    ensures Traced(trace, uid)
  {
    forall k | 0 <= k < |trace| - 1 ensures AddressesAt(trace, uid, k) {
      RunInv(trace, k);
      assert Next(trace[k], trace[k + 1]);
      var step :| NextStep(trace[k], step, trace[k + 1]);
      StepAddresses(trace, uid, k, step);
    }
  }

  lemma {:induction false} TracedAddress(trace: seq<State>, i: nat, uid: Uid, a: NodeAddress)
    requires Traced(trace, uid) && i < |trace| && uid in trace[i].machines && Records(trace[i].machines[uid], a)
    ensures a.kind == InternalIP && exists k: nat :: k < i && GivenAt(trace, k, uid, a.address)
  {
    assert AddressesAt(trace, uid, i - 1);
    if uid in trace[i - 1].machines && Records(trace[i - 1].machines[uid], a) {
      TracedAddress(trace, i - 1, uid, a);
    }
  }

  /** Every address in any version of an object is an InternalIP that was given to an accepted write before. */
  lemma AddressWasGiven(trace: seq<State>, i: nat, uid: Uid, n: nat, a: NodeAddress)
    requires Run(trace) && i < |trace| && uid in trace[i].machines
    requires n < |trace[i].machines[uid].versions| && a in trace[i].machines[uid].versions[n].addresses
    ensures a.kind == InternalIP && exists k: nat :: k < i && GivenAt(trace, k, uid, a.address)
  {
    RunIsTraced(trace, uid);
    TracedAddress(trace, i, uid, a);
  }
}
