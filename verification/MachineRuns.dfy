/** The invariant of the machine protocol, kept by every step and so true in every state of every run. */
module MachineRuns {
  import opened Options
  import opened Strings
  import opened VmAdoption
  import opened MachineProtocol
  import opened MachineSafety

  // ---------------------------------------------------------------------------
  // The invariant
  // ---------------------------------------------------------------------------

  ghost predicate CallOk(s: State, c: CreateCall) {
    && c.uid in s.machines && |s.machines[c.uid].versions| > 0
    && c.name != "" && c.name == Last(s.machines[c.uid]).vmName
    && c.description == Marker(c.uid)
  }

  /** Markers are only found on VMs created for a known machine. */
  ghost predicate BirthsOk(s: State) {
    && s.vms.Keys <= s.born.Keys
    && (forall v <- s.vms :: IsMarker(s.vms[v].description) ==> s.born[v].description == s.vms[v].description)
    && (forall v <- s.born :: IsMarker(s.born[v].description) ==>
          exists u <- s.machines :: s.born[v].description == Marker(u))
    && "" !in s.machines
  }

  ghost predicate Joined(s: State, uid: Uid)
    requires uid in s.machines
  {
    var m := s.machines[uid];
    MachineOk(m) && LinkOk(s.vms, Made(s.born, uid), uid, m)
  }

  ghost predicate Inv(s: State) {
    && BirthsOk(s)
    && (forall u <- s.machines :: Joined(s, u))
    && (forall c <- s.calls :: CallOk(s, c))
  }

  lemma InitInv(s: State)
    requires Init(s)
    ensures Inv(s)
  {
  }

  /** A step that changes only one machine object. */
  lemma LocalInv(s: State, uid: Uid, action: Action, s': State)
    requires Inv(s) && NextStep(s, Local(uid, action), s')
    ensures Inv(s')
  {
    var m, m' := s.machines[uid], s'.machines[uid];
    LocalStepKeepsMachine(m, action, m');
    LocalStepKeepsLink(s.vms, Made(s.born, uid), uid, m, action, m');
    forall u | u in s'.machines ensures Joined(s', u) {
      if u != uid {
        assert Joined(s, u) && s'.machines[u] == s.machines[u];
      }
    }
    NameStays(m, action, m');
    forall c | c in s'.calls ensures CallOk(s', c) {
      assert CallOk(s, c);
    }
  }

  /** A recorded VM name survives every step on the object. */
  lemma NameStays(m: Machine, action: Action, m': Machine)
    requires MachineOk(m) && LocalStep(m, action, m') && MachineOk(m')
    ensures m.versions <= m'.versions && |m'.versions| > 0
    ensures Grows(Last(m), Last(m'))
  {
    assert m.versions <= m'.versions;
    assert m'.versions[|m.versions| - 1] == Last(m);
  }

  /** A machine whose VMs are not touched by a change in Xen Orchestra. */
  lemma LinkFrame(vms: map<VmId, Vm>, vms': map<VmId, Vm>, made: set<VmId>, uid: Uid, m: Machine)
    requires m.seen < |m.versions| && LinkOk(vms, made, uid, m)
    requires !Settled(m) ==> forall v <- made :: v in vms ==> v in vms' && vms'[v] == vms[v]
    ensures LinkOk(vms', made, uid, m)
  {
  }

  lemma ContainsSelf(s: string)
    ensures Contains(s, s)
  {
    assert s[0..|s|] == s && PartAt(s, s, 0);
  }

  /** While a machine looks for its VM, it is not settled, and has the persisted name in hand. */
  lemma LookingUnsettled(m: Machine)
    requires MachineOk(m) && m.worker.Busy? && m.worker.pc.Lookup?
    ensures !Settled(m) && Last(m).vmName == m.worker.obj.vmName != ""
  {
  }

  /** So an accurate listing shows every VM ever made for it. */
  lemma MadeIsListed(vms: map<VmId, Vm>, made: set<VmId>, uid: Uid, m: Machine, list: seq<VmRecord>, v: VmId)
    requires MachineOk(m) && LinkOk(vms, made, uid, m) && m.worker.Busy? && m.worker.pc.Lookup?
    requires uid != "" && v in made && Accurate(list, vms, m.worker.obj.vmName)
    ensures exists r <- list :: Adoptable(r, m.worker.obj.vmName, Marker(uid))
  {
    LookingUnsettled(m);
    var name := m.worker.obj.vmName;
    assert vms[v] == Vm(name, Marker(uid));
    ContainsSelf(name);
    var r :| r in list && r.id == v;
    assert Adoptable(r, name, Marker(uid));
  }

  /** And a listing without an adoptable VM means that none was ever made. */
  lemma NothingMade(vms: map<VmId, Vm>, made: set<VmId>, uid: Uid, m: Machine, list: seq<VmRecord>)
    requires MachineOk(m) && LinkOk(vms, made, uid, m) && m.worker.Busy? && m.worker.pc.Lookup?
    requires uid != "" && Accurate(list, vms, m.worker.obj.vmName)
    requires FirstAdoptable(list, m.worker.obj.vmName, Marker(uid)).None?
    ensures made == {}
  {
    forall v | v in made ensures false {
      MadeIsListed(vms, made, uid, m, list, v);
    }
  }

  /** A VM found by its marker was made for the machine. */
  lemma FoundIsOwn(s: State, uid: Uid, list: seq<VmRecord>, name: string)
    requires BirthsOk(s) && uid != "" && Accurate(list, s.vms, name)
    requires FirstAdoptable(list, name, Marker(uid)).Some?
    ensures FirstAdoptable(list, name, Marker(uid)).value.id in Made(s.born, uid)
  {
    MarkerInjective(uid, uid);
    assert FirstAdoptable(list, name, Marker(uid)).value in list;
  }

  /** What a listing leads to is a consistent worker that holds one of the machine's own VMs. */
  lemma ListKeepsJoined(s: State, uid: Uid, list: seq<VmRecord>, s': State)
    requires BirthsOk(s) && uid in s.machines && Joined(s, uid) && ListStep(s, uid, list, s')
    ensures Joined(s', uid)
  {
    var m, m' := s.machines[uid], s'.machines[uid];
    var made, name := Made(s.born, uid), m.worker.obj.vmName;
    NameOfLast(m);
    if FirstAdoptable(list, name, Marker(uid)).Some? {
      FoundIsOwn(s, uid, list, name);
    } else if m.worker.pc.Lookup? {
      NothingMade(s.vms, made, uid, m, list);
    }
    WorkerKeepsLink(s.vms, made, uid, m, m'.worker, m');
  }

  lemma ListInv(s: State, uid: Uid, list: seq<VmRecord>, s': State)
    requires Inv(s) && uid in s.machines && ListStep(s, uid, list, s')
    ensures Inv(s')
  {
    assert Joined(s, uid);
    ListKeepsJoined(s, uid, list, s');
    OneMachineChanged(s, uid, s');
  }

  lemma NameOfLast(m: Machine)
    requires MachineOk(m) && m.worker.Busy?
    ensures m.worker.obj.vmName != "" ==> Last(m).vmName == m.worker.obj.vmName
  {
  }

  /** Xen Orchestra is as before, and so is every machine but one. */
  lemma OneMachineChanged(s: State, uid: Uid, s': State)
    requires Inv(s) && uid in s.machines && uid in s'.machines
    requires s' == s.(machines := s.machines[uid := s'.machines[uid]])
    requires Joined(s', uid)
    requires Last(s.machines[uid]).vmName == Last(s'.machines[uid]).vmName
    ensures Inv(s')
  {
    forall u | u in s'.machines ensures Joined(s', u) {
      if u != uid {
        assert Joined(s, u);
      }
    }
    forall c | c in s'.calls ensures CallOk(s', c) {
      assert CallOk(s, c);
    }
  }

  lemma ListFailsKeepsJoined(s: State, uid: Uid, s': State)
    requires uid in s.machines && Joined(s, uid) && ListFailsStep(s, uid, s')
    ensures uid in s'.machines && Joined(s', uid)
  {
    var m, m' := s.machines[uid], s'.machines[uid];
    WorkerKeepsLink(s.vms, Made(s.born, uid), uid, m, m'.worker, m');
  }

  lemma ListFailsInv(s: State, uid: Uid, s': State)
    requires Inv(s) && uid in s.machines && ListFailsStep(s, uid, s')
    ensures Inv(s')
  {
    assert Joined(s, uid);
    ListFailsKeepsJoined(s, uid, s');
    OneMachineChanged(s, uid, s');
  }

  /** A machine that is about to create, or to look again after a create, is not settled. */
  lemma CreatingUnsettled(m: Machine)
    requires MachineOk(m) && m.worker.Busy? && (m.worker.pc.Create? || m.worker.pc.Recover?)
    ensures !Settled(m) && Last(m).vmName == m.worker.obj.vmName != ""
  {
  }

  /** The VMs made for a machine after a create for `owner`. */
  lemma MadeAfterCreate(born: map<VmId, Vm>, owner: Uid, vm: VmId, name: string, uid: Uid)
    requires vm !in born && owner != "" && uid != ""
    ensures Made(born[vm := Vm(name, Marker(owner))], uid) == Made(born, uid) + if uid == owner then {vm} else {}
  {
    MarkerInjective(owner, uid);
  }

  /** A create with an effect: the machine gets one more VM, and a second one only after a blind create. */
  lemma CreateKeepsLink(vms: map<VmId, Vm>, made: set<VmId>, uid: Uid, m: Machine, vm: VmId, answered: bool)
    requires MachineOk(m) && LinkOk(vms, made, uid, m) && m.worker.Busy? && m.worker.pc.Create? && vm !in made
    ensures var m' := AfterCreate(m, Some(vm), answered);
            MachineOk(m') && LinkOk(vms[vm := Vm(m.worker.obj.vmName, Marker(uid))], made + {vm}, uid, m')
  {
  }

  lemma CreateKeepsOwn(s: State, uid: Uid, vm: VmId, answered: bool, s': State)
    requires uid in s.machines && uid != "" && Joined(s, uid) && CreateStep(s, uid, Some(vm), answered, s')
    ensures uid in s'.machines && Joined(s', uid)
  {
    var m := s.machines[uid];
    CreateKeepsLink(s.vms, Made(s.born, uid), uid, m, vm, answered);
    MadeAfterCreate(s.born, uid, vm, m.worker.obj.vmName, uid);
  }

  lemma CreateKeepsOther(s: State, uid: Uid, vm: VmId, answered: bool, s': State, u: Uid)
    requires uid in s.machines && uid != "" && CreateStep(s, uid, Some(vm), answered, s')
    requires u in s.machines && u != uid && u != "" && Joined(s, u)
    ensures u in s'.machines && Joined(s', u)
  {
    MadeAfterCreate(s.born, uid, vm, s.machines[uid].worker.obj.vmName, u);
    LinkFrame(s.vms, s'.vms, Made(s.born, u), u, s.machines[u]);
  }

  lemma CreateKeepsBirths(s: State, uid: Uid, vm: VmId, answered: bool, s': State)
    requires Inv(s) && uid in s.machines && CreateStep(s, uid, Some(vm), answered, s')
    ensures BirthsOk(s')
  {
    forall v | v in s'.born && IsMarker(s'.born[v].description)
      ensures exists u <- s'.machines :: s'.born[v].description == Marker(u)
    {
      if v != vm {
        var u :| u in s.machines && s.born[v].description == Marker(u);
        assert u in s'.machines;
      } else {
        assert uid in s'.machines;
      }
    }
  }

  lemma CreateKeepsCalls(s: State, uid: Uid, applied: Option<VmId>, answered: bool, s': State)
    requires Inv(s) && uid in s.machines && CreateStep(s, uid, applied, answered, s')
    ensures forall c <- s'.calls :: CallOk(s', c)
  {
    assert Joined(s, uid);
    CreatingUnsettled(s.machines[uid]);
    forall c | c in s'.calls ensures CallOk(s', c) {
      if c in s.calls {
        assert CallOk(s, c);
      }
    }
  }

  /** A create without an effect. */
  lemma NoCreateKeepsLink(vms: map<VmId, Vm>, made: set<VmId>, uid: Uid, m: Machine)
    requires MachineOk(m) && LinkOk(vms, made, uid, m) && m.worker.Busy? && m.worker.pc.Create?
    ensures MachineOk(AfterCreate(m, None, false)) && LinkOk(vms, made, uid, AfterCreate(m, None, false))
  {
  }

  lemma CreateInv(s: State, uid: Uid, applied: Option<VmId>, answered: bool, s': State)
    requires Inv(s) && uid in s.machines && CreateStep(s, uid, applied, answered, s')
    ensures Inv(s')
  {
    CreateKeepsCalls(s, uid, applied, answered, s');
    if applied.Some? {
      CreateKeepsBirths(s, uid, applied.value, answered, s');
    }
    forall u | u in s'.machines ensures Joined(s', u) {
      assert Joined(s, u);
      if applied.None? {
        if u == uid {
          NoCreateKeepsLink(s.vms, Made(s.born, u), u, s.machines[u]);
        }
      } else if u == uid {
        CreateKeepsOwn(s, uid, applied.value, answered, s');
      } else {
        CreateKeepsOther(s, uid, applied.value, answered, s', u);
      }
    }
  }

  lemma DeleteKeepsOwn(s: State, uid: Uid, removed: bool, answer: DeleteAnswer, s': State)
    requires uid in s.machines && Joined(s, uid) && DeleteStep(s, uid, removed, answer, s')
    ensures uid in s'.machines && Joined(s', uid)
  {
    var m, m' := s.machines[uid], s'.machines[uid];
    assert m.worker.obj == m.versions[m.seen] && Settled(m);
    WorkerKeepsLink(s.vms, Made(s.born, uid), uid, m, m'.worker, m');
    LinkFrame(s.vms, s'.vms, Made(s.born, uid), uid, m');
  }

  lemma DeletesOwn(s: State, uid: Uid, u: Uid)
    requires uid in s.machines && uid != "" && u != "" && u != uid && Joined(s, uid)
    requires s.machines[uid].worker.Busy? && s.machines[uid].worker.pc.DeleteVm?
    ensures s.machines[uid].worker.pc.vm !in Made(s.born, u)
  {
    MarkerInjective(u, uid);
  }

  lemma DeleteKeepsOther(s: State, uid: Uid, removed: bool, answer: DeleteAnswer, s': State, u: Uid)
    requires uid in s.machines && uid != "" && Joined(s, uid) && DeleteStep(s, uid, removed, answer, s')
    requires u in s.machines && u != uid && u != "" && Joined(s, u)
    ensures u in s'.machines && Joined(s', u)
  {
    DeletesOwn(s, uid, u);
    LinkFrame(s.vms, s'.vms, Made(s.born, u), u, s.machines[u]);
  }

  /** Deleting a machine's VM leaves the other machines' VMs alone, and the machine itself is settled. */
  lemma DeleteInv(s: State, uid: Uid, removed: bool, answer: DeleteAnswer, s': State)
    requires Inv(s) && uid in s.machines && DeleteStep(s, uid, removed, answer, s')
    ensures Inv(s')
  {
    assert Joined(s, uid);
    forall u | u in s'.machines ensures Joined(s', u) {
      assert Joined(s, u);
      if u == uid {
        DeleteKeepsOwn(s, uid, removed, answer, s');
      } else {
        DeleteKeepsOther(s, uid, removed, answer, s', u);
      }
    }
    forall c | c in s'.calls ensures CallOk(s', c) {
      assert CallOk(s, c);
    }
  }

  lemma OthersInv(s: State, s': State)
    requires Inv(s) && XoChanges(s, s')
    ensures Inv(s')
  {
    forall u | u in s'.machines ensures Joined(s', u) {
      assert Joined(s, u);
      MarkerInjective(u, u);
      assert Made(s'.born, u) == Made(s.born, u);
      LinkFrame(s.vms, s'.vms, Made(s.born, u), u, s.machines[u]);
    }
    forall c | c in s'.calls ensures CallOk(s', c) {
      assert CallOk(s, c);
    }
  }

  /** A marker that no known machine has is on no VM yet. */
  lemma NothingMadeYet(s: State, uid: Uid)
    requires BirthsOk(s) && uid != "" && uid !in s.machines
    ensures Made(s.born, uid) == {}
  {
  }

  lemma NewMachineKeepsBirths(s: State, uid: Uid, s': State)
    requires BirthsOk(s) && NextStep(s, NewMachine(uid), s')
    ensures BirthsOk(s')
  {
  }

  lemma NewMachineInv(s: State, uid: Uid, s': State)
    requires Inv(s) && NextStep(s, NewMachine(uid), s')
    ensures Inv(s')
  {
    NothingMadeYet(s, uid);
    NewMachineKeepsBirths(s, uid, s');
    forall u | u in s'.machines ensures Joined(s', u) {
      if u != uid {
        assert Joined(s, u);
      }
    }
    forall c | c in s'.calls ensures CallOk(s', c) {
      assert CallOk(s, c);
    }
  }

  lemma StepInv(s: State, step: Step, s': State)
    requires Inv(s) && NextStep(s, step, s')
    ensures Inv(s')
  {
    match step
    case Local(uid, action) => LocalInv(s, uid, action, s');
    case Xo(uid, List(list)) => ListInv(s, uid, list, s');
    case Xo(uid, ListFails) => ListFailsInv(s, uid, s');
    case Xo(uid, CreateVm(applied, answered)) => CreateInv(s, uid, applied, answered, s');
    case Xo(uid, DeleteCall(removed, answer)) => DeleteInv(s, uid, removed, answer, s');
    case NewMachine(uid) => NewMachineInv(s, uid, s');
    case Others => OthersInv(s, s');
  }

  /** Every state of every run satisfies the invariant. */
  lemma {:induction false} RunInv(trace: seq<State>, i: nat)
    requires Run(trace) && i < |trace|
    ensures Inv(trace[i])
  {
    if i == 0 {
      InitInv(trace[0]);
    } else {
      RunInv(trace, i - 1);
      assert Next(trace[i - 1], trace[i - 1 + 1]);
      var step :| NextStep(trace[i - 1], step, trace[i]);
      StepInv(trace[i - 1], step, trace[i]);
    }
  }
}
