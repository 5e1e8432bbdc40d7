/**
 The promises of the machine protocol, over all runs: crashes between any two
 calls, creates that succeed and answer an error, lost or conflicting writes,
 stale reads, other users of Xen Orchestra and of the API server.
 */
module MachineTheorems {
  import opened Options
  import opened VmAdoption
  import opened MachineProtocol
  import opened MachineSafety
  import opened MachineRuns
  import VmAddress

  // ---------------------------------------------------------------------------
  // Histories only grow
  // ---------------------------------------------------------------------------

  ghost predicate Later(s: State, s': State, uid: Uid)
    requires uid in s.machines
  {
    && uid in s'.machines
    && s.machines[uid].versions <= s'.machines[uid].versions
    && s.machines[uid].blind <= s'.machines[uid].blind
    && s.born.Keys <= s'.born.Keys && (forall v <- s.born :: s'.born[v] == s.born[v])
  }

  lemma LocalStepIsLater(m: Machine, action: Action, m': Machine)
    requires LocalStep(m, action, m')
    ensures m.versions <= m'.versions && m.blind == m'.blind
  {
  }

  lemma XoStepIsLater(s: State, owner: Uid, action: XoAction, s': State, uid: Uid)
    requires owner in s.machines && XoStep(s, owner, action, s') && uid in s.machines
    ensures Later(s, s', uid)
  {
  }

  lemma StepIsLater(s: State, step: Step, s': State, uid: Uid)
    requires NextStep(s, step, s') && uid in s.machines
    ensures Later(s, s', uid)
  {
    match step
    case Local(owner, action) => LocalStepIsLater(s.machines[owner], action, s'.machines[owner]);
    case Xo(owner, action) => XoStepIsLater(s, owner, action, s', uid);
    case _ =>
  }

  lemma RunStepIsLater(trace: seq<State>, k: nat, uid: Uid)
    requires Run(trace) && k + 1 < |trace| && uid in trace[k].machines
    ensures Later(trace[k], trace[k + 1], uid)
  {
    assert Next(trace[k], trace[k + 1]);
    var step :| NextStep(trace[k], step, trace[k + 1]);
    StepIsLater(trace[k], step, trace[k + 1], uid);
  }

  lemma LaterTransitive(s: State, t: State, u: State, uid: Uid)
    requires uid in s.machines && Later(s, t, uid) && Later(t, u, uid)
    ensures Later(s, u, uid)
  {
  }

  ghost predicate LaterAt(trace: seq<State>, uid: Uid, k: nat)
    requires k + 1 < |trace|
  {
    uid in trace[k].machines ==> Later(trace[k], trace[k + 1], uid)
  }

  ghost predicate Growing(trace: seq<State>, uid: Uid) {
    forall k :: 0 <= k < |trace| - 1 ==> LaterAt(trace, uid, k)
  }

  lemma RunIsGrowing(trace: seq<State>, uid: Uid)
    requires Run(trace)
    ensures Growing(trace, uid)
  {
    forall k | 0 <= k < |trace| - 1 ensures LaterAt(trace, uid, k) {
      if uid in trace[k].machines {
        RunStepIsLater(trace, k, uid);
      }
    }
  }

  lemma {:induction false} GrowingIsLater(trace: seq<State>, i: nat, j: nat, uid: Uid)
    requires Growing(trace, uid) && i <= j < |trace| && uid in trace[i].machines
    ensures Later(trace[i], trace[j], uid)
    decreases j - i
  {
    if i < j {
      GrowingIsLater(trace, i, j - 1, uid);
      assert LaterAt(trace, uid, j - 1);
      LaterTransitive(trace[i], trace[j - 1], trace[j], uid);
    }
  }

  lemma HistoryGrows(trace: seq<State>, i: nat, j: nat, uid: Uid)
    requires Run(trace) && i <= j < |trace| && uid in trace[i].machines
    ensures Later(trace[i], trace[j], uid)
  {
    RunIsGrowing(trace, uid);
    GrowingIsLater(trace, i, j, uid);
  }

  /** The object as the API server has it. */
  function Persisted(s: State, uid: Uid): Obj
    requires uid in s.machines && |s.machines[uid].versions| > 0
  {
    Last(s.machines[uid])
  }

  // ---------------------------------------------------------------------------
  // VMs
  // ---------------------------------------------------------------------------

  /** The VMs that carry a machine's marker now. */
  ghost function Carriers(s: State, uid: Uid): set<VmId> {
    set v | v in s.vms && s.vms[v].description == Marker(uid)
  }

  /**
   At most one VM ever carries a machine's marker, plus one for every create that
   was issued although the adoption lookup had failed.
   */
  lemma AtMostOneVm(trace: seq<State>, i: nat, uid: Uid)
    requires Run(trace) && i < |trace| && uid in trace[i].machines
    ensures |Made(trace[i].born, uid)| <= 1 + trace[i].machines[uid].blind
    ensures Carriers(trace[i], uid) <= Made(trace[i].born, uid)
    ensures trace[i].machines[uid].blind == 0 ==>
              forall v, w :: v in Made(trace[i].born, uid) && w in Made(trace[i].born, uid) ==> v == w
  {
    RunInv(trace, i);
    assert Joined(trace[i], uid);
    MarkerInjective(uid, uid);
    if trace[i].machines[uid].blind == 0 {
      SmallSet(Made(trace[i].born, uid));
    }
  }

  lemma SmallSet(s: set<VmId>)
    requires |s| <= 1
    ensures forall v, w :: v in s && w in s ==> v == w
  {
    forall v, w | v in s && w in s ensures v == w {
      assert |s - {v}| == 0;
      assert s == (s - {v}) + {v};
    }
  }

  /** A recorded providerID names the same VM for ever after, unless a second VM was made. */
  lemma ProviderIdNeverChanges(trace: seq<State>, i: nat, j: nat, uid: Uid)
    requires Run(trace) && i <= j < |trace| && uid in trace[i].machines && uid in trace[j].machines
    requires |trace[i].machines[uid].versions| > 0 && |trace[j].machines[uid].versions| > 0
    requires Persisted(trace[i], uid).providerId.Some? && |Made(trace[j].born, uid)| <= 1
    ensures Persisted(trace[j], uid).providerId == Persisted(trace[i], uid).providerId
  {
    HistoryGrows(trace, i, j, uid);
    RunInv(trace, j);
    assert Joined(trace[j], uid);
    var m, n := trace[i].machines[uid], trace[j].machines[uid];
    assert n.versions[|m.versions| - 1] == Last(m);
    assert Grows(n.versions[|m.versions| - 1], Last(n));
    assert OwnIds(n.versions[|m.versions| - 1], Made(trace[j].born, uid)) && OwnIds(Last(n), Made(trace[j].born, uid));
    SmallSet(Made(trace[j].born, uid));
  }

  /** Every VM a machine records was created with that machine's own marker, and no two machines record the same. */
  lemma RecordedVmIsOwn(trace: seq<State>, i: nat, uid: Uid, other: Uid)
    requires Run(trace) && i < |trace| && uid in trace[i].machines && other in trace[i].machines
    requires |trace[i].machines[uid].versions| > 0 && |trace[i].machines[other].versions| > 0
    requires Persisted(trace[i], uid).providerId.Some?
    ensures var v := Persisted(trace[i], uid).providerId.value;
            && v in trace[i].born && trace[i].born[v].description == Marker(uid)
            && (uid != other ==> Persisted(trace[i], other).providerId != Some(v))
  {
    RunInv(trace, i);
    var s := trace[i];
    assert Joined(s, uid) && Joined(s, other);
    assert OwnIds(Persisted(s, uid), Made(s.born, uid)) && OwnIds(Persisted(s, other), Made(s.born, other));
    MarkerInjective(uid, other);
  }

  // ---------------------------------------------------------------------------
  // Names
  // ---------------------------------------------------------------------------

  /** The VM name is written once. */
  lemma VmNameWriteOnce(trace: seq<State>, i: nat, j: nat, uid: Uid)
    requires Run(trace) && i <= j < |trace| && uid in trace[i].machines && uid in trace[j].machines
    requires |trace[i].machines[uid].versions| > 0 && |trace[j].machines[uid].versions| > 0
    requires Persisted(trace[i], uid).vmName != ""
    ensures Persisted(trace[j], uid).vmName == Persisted(trace[i], uid).vmName
  {
    HistoryGrows(trace, i, j, uid);
    RunInv(trace, j);
    assert Joined(trace[j], uid);
    var m, n := trace[i].machines[uid], trace[j].machines[uid];
    assert n.versions[|m.versions| - 1] == Last(m);
    assert Grows(n.versions[|m.versions| - 1], Last(n));
  }

  /** Only a create call is added to the calls. */
  lemma SentByCreate(s: State, step: Step, s': State, call: CreateCall)
    requires NextStep(s, step, s') && s'.calls == s.calls + [call]
    ensures step.Xo? && step.uid in s.machines && step.xoAction.CreateVm?
  {
    assert |s'.calls| == |s.calls| + 1;
  }

  lemma SentCall(s: State, uid: Uid, applied: Option<VmId>, answered: bool, s': State, call: CreateCall)
    requires Inv(s) && uid in s.machines && CreateStep(s, uid, applied, answered, s')
    requires s'.calls == s.calls + [call]
    ensures call.uid == uid && |s.machines[uid].versions| > 0
    ensures call.name == Persisted(s, uid).vmName != "" && call.description == Marker(uid)
  {
    assert Joined(s, uid);
    CreatingUnsettled(s.machines[uid]);
    assert s'.calls[|s.calls|] == call;
  }

  /** Every create that is sent carries the name that is already persisted, and the machine's marker. */
  lemma CreateCarriesRecordedName(trace: seq<State>, i: nat, call: CreateCall)
    requires Run(trace) && i + 1 < |trace| && trace[i + 1].calls == trace[i].calls + [call]
    ensures call.uid in trace[i].machines && |trace[i].machines[call.uid].versions| > 0
    ensures call.name == Persisted(trace[i], call.uid).vmName != ""
    ensures call.description == Marker(call.uid)
  {
    RunInv(trace, i);
    assert Next(trace[i], trace[i + 1]);
    var step :| NextStep(trace[i], step, trace[i + 1]);
    SentByCreate(trace[i], step, trace[i + 1], call);
    SentCall(trace[i], step.uid, step.xoAction.applied, step.xoAction.answered, trace[i + 1], call);
  }

  // ---------------------------------------------------------------------------
  // Readiness
  // ---------------------------------------------------------------------------

  /** An InternalIP is recorded, and no address is empty. */
  predicate HasAddress(obj: Obj) {
    && (exists a <- obj.addresses :: a.kind == VmAddress.InternalIP && a.address != "")
    && (forall a <- obj.addresses :: a.address != "")
  }

  /** A ready machine has its providerID in spec and status, is provisioned, has a usable address, and stays so. */
  lemma ReadyIsComplete(trace: seq<State>, i: nat, j: nat, uid: Uid)
    requires Run(trace) && i <= j < |trace| && uid in trace[i].machines && uid in trace[j].machines
    requires |trace[i].machines[uid].versions| > 0 && |trace[j].machines[uid].versions| > 0
    requires Persisted(trace[i], uid).ready
    ensures var obj := Persisted(trace[j], uid);
            obj.ready && obj.providerId.Some? && obj.specProviderId.Some? && obj.provisioned && HasAddress(obj)
  {
    HistoryGrows(trace, i, j, uid);
    RunInv(trace, j);
    assert Joined(trace[j], uid);
    var m, n := trace[i].machines[uid], trace[j].machines[uid];
    assert n.versions[|m.versions| - 1] == Last(m);
    assert Grows(n.versions[|m.versions| - 1], Last(n));
    assert Sound(Last(n));
  }

  /** So has every version of it that any reader may still see. */
  lemma AnyReadIsSound(trace: seq<State>, i: nat, uid: Uid, k: nat)
    requires Run(trace) && i < |trace| && uid in trace[i].machines && k < |trace[i].machines[uid].versions|
    ensures var obj := trace[i].machines[uid].versions[k];
            && Sound(obj)
            && (obj.providerId.Some? ==> obj.specProviderId.Some? && obj.vmName != "")
            && (obj.ready ==> obj.providerId.Some? && obj.provisioned && HasAddress(obj))
  {
    RunInv(trace, i);
    assert Joined(trace[i], uid);
  }

  /** Spec and status name the same VM, as long as no second one was made. */
  lemma IdsAgree(trace: seq<State>, i: nat, uid: Uid, k: nat)
    requires Run(trace) && i < |trace| && uid in trace[i].machines && k < |trace[i].machines[uid].versions|
    requires |Made(trace[i].born, uid)| <= 1
    ensures var obj := trace[i].machines[uid].versions[k];
            obj.providerId.Some? ==> obj.specProviderId == obj.providerId
  {
    AnyReadIsSound(trace, i, uid, k);
    RunInv(trace, i);
    assert Joined(trace[i], uid);
    assert OwnIds(trace[i].machines[uid].versions[k], Made(trace[i].born, uid));
    SmallSet(Made(trace[i].born, uid));
  }

  // ---------------------------------------------------------------------------
  // Why the lookup has to succeed
  // ---------------------------------------------------------------------------

  function World(m: Machine, count: nat): State {
    var vm := Vm("n", Marker("u"));
    var call := CreateCall("u", "n", Marker("u"));
    State(map["u" := m],
          if count == 0 then map[] else if count == 1 then map[1 := vm] else map[1 := vm, 2 := vm],
          if count == 0 then map[] else if count == 1 then map[1 := vm] else map[1 := vm, 2 := vm],
          if count == 0 then [] else if count == 1 then [call] else [call, call])
  }

  /** A run that ends in the given world. */
  ghost predicate Reaches(trace: seq<State>, m: Machine, count: nat) {
    Run(trace) && trace[|trace| - 1] == World(m, count)
  }

  lemma RunAppend(trace: seq<State>, step: Step, s: State) returns (trace': seq<State>)
    requires Run(trace) && NextStep(trace[|trace| - 1], step, s)
    ensures Run(trace') && trace <= trace' && trace'[|trace'| - 1] == s
  {
    trace' := trace + [s];
    forall i | 0 <= i < |trace'| - 1 ensures Next(trace'[i], trace'[i + 1]) {
      assert trace'[i] == trace[i];
      if i < |trace| - 1 {
        assert trace'[i + 1] == trace[i + 1];
      }
    }
  }

  lemma LocalAppend(trace: seq<State>, m: Machine, action: Action, m': Machine, count: nat) returns (trace': seq<State>)
    requires Reaches(trace, m, count) && LocalStep(m, action, m')
    ensures Reaches(trace', m', count) && trace <= trace'
  {
    var s := World(m, count);
    assert World(m', count) == s.(machines := s.machines["u" := m']);
    trace' := RunAppend(trace, Local("u", action), World(m', count));
  }

  lemma XoAppend(trace: seq<State>, m: Machine, count: nat, action: XoAction, m': Machine, count': nat)
    returns (trace': seq<State>)
    requires Reaches(trace, m, count) && XoStep(World(m, count), "u", action, World(m', count'))
    ensures Reaches(trace', m', count') && trace <= trace'
  {
    trace' := RunAppend(trace, Xo("u", action), World(m', count'));
  }

  const NAMED := NEW_OBJECT.(finalizer := true, vmName := "n")

  /** A machine whose VM name is recorded, after some more versions. */
  function Named(more: seq<Obj>, seen: nat, worker: Worker, blind: nat): Machine {
    NEW_MACHINE.(versions := [NEW_OBJECT, NEW_OBJECT.(finalizer := true), NAMED] + more,
                 seen := seen, worker := worker, blind := blind)
  }

  /** The finalizer and the VM name have just been recorded. */
  lemma NamedMachine() returns (trace: seq<State>)
    ensures Reaches(trace, Named([], 0, Busy(Lookup, NAMED, 2), 0), 0)
  {
    var finalized := NEW_OBJECT.(finalizer := true);
    var m1 := NEW_MACHINE;
    var m2 := m1.(worker := Busy(Ensure, NEW_OBJECT, 0));
    var m3 := m1.(versions := [NEW_OBJECT, finalized], worker := Busy(Provision, finalized, 1));
    trace := RunAppend([State(map[], map[], map[], [])], NewMachine("u"), World(m1, 0));
    trace := LocalAppend(trace, m1, Read(0), m2, 0);
    trace := LocalAppend(trace, m2, Write(AddFinalizer, Ok), m3, 0);
    trace := LocalAppend(trace, m3, Write(RecordName("n"), Ok), Named([], 0, Busy(Lookup, NAMED, 2), 0), 0);
  }

  /** The create takes effect, whether or not its answer says so. */
  lemma FirstCreate(answered: bool) returns (trace: seq<State>)
    ensures Reaches(trace, Named([], 0, Busy(if answered then SaveSpec(1) else Recover, NAMED, 2), 0), 1)
  {
    var m := Named([], 0, Busy(Lookup, NAMED, 2), 0);
    var m1 := Named([], 0, Busy(Create(false), NAMED, 2), 0);
    var m2 := Named([], 0, Busy(if answered then SaveSpec(1) else Recover, NAMED, 2), 0);
    trace := NamedMachine();
    trace := XoAppend(trace, m, 0, List([]), m1, 0);
    trace := XoAppend(trace, m1, 0, CreateVm(Some(1), answered), m2, 1);
  }

  /** It answers an error, and the VM is not found either. */
  lemma LostCreate() returns (trace: seq<State>)
    ensures Reaches(trace, Named([], 0, Idle, 0), 1)
  {
    trace := FirstCreate(false);
    trace := XoAppend(trace, Named([], 0, Busy(Recover, NAMED, 2), 0), 1, ListFails, Named([], 0, Idle, 0), 1);
  }

  /** A reconcile that reads the version with only the name, and whose lookup fails, creates a second VM. */
  lemma SecondCreate(start: seq<State>, more: seq<Obj>) returns (trace: seq<State>)
    requires Reaches(start, Named(more, 0, Idle, 0), 1)
    ensures Reaches(trace, Named(more, 2, Busy(SaveSpec(2), NAMED, 2), 1), 2) && start <= trace
  {
    var m := Named(more, 0, Idle, 0);
    var m1 := Named(more, 2, Busy(Provision, NAMED, 2), 0);
    var m2 := Named(more, 2, Busy(Lookup, NAMED, 2), 0);
    var m3 := Named(more, 2, Busy(Create(true), NAMED, 2), 0);
    trace := LocalAppend(start, m, Read(2), m1, 1);
    trace := LocalAppend(trace, m1, Choose, m2, 1);
    trace := XoAppend(trace, m2, 1, ListFails, m3, 1);
    trace := XoAppend(trace, m3, 1, CreateVm(Some(2), true), Named(more, 2, Busy(SaveSpec(2), NAMED, 2), 1), 2);
  }

  /** One failed lookup before a second create is enough for a second VM: the bound is met. */
  lemma BlindCreateDuplicates() returns (trace: seq<State>)
    ensures Run(trace)
    ensures var s := trace[|trace| - 1];
            "u" in s.machines && s.machines["u"].blind == 1 && Made(s.born, "u") == {1, 2} == Carriers(s, "u")
  {
    var start := LostCreate();
    trace := SecondCreate(start, []);
  }

  const SPEC_SAVED := NAMED.(specProviderId := Some(1))
  const STATUS_SAVED := SPEC_SAVED.(providerId := Some(1))

  /** The VM is recorded, and the answer to the last write is lost. */
  lemma LostRecord() returns (trace: seq<State>)
    ensures Reaches(trace, Named([SPEC_SAVED, STATUS_SAVED], 0, Idle, 0), 1)
  {
    var m := Named([], 0, Busy(SaveSpec(1), NAMED, 2), 0);
    var m1 := Named([SPEC_SAVED], 0, Busy(SaveStatus(1), SPEC_SAVED, 3), 0);
    trace := FirstCreate(true);
    trace := LocalAppend(trace, m, Write(SaveProviderId, Ok), m1, 1);
    trace := LocalAppend(trace, m1, Write(SaveProviderId, Lost), Named([SPEC_SAVED, STATUS_SAVED], 0, Idle, 0), 1);
  }

  /** The second create's write conflicts, and it reads again. */
  lemma ReadAgain(start: seq<State>) returns (trace: seq<State>)
    requires Reaches(start, Named([SPEC_SAVED, STATUS_SAVED], 2, Busy(SaveSpec(2), NAMED, 2), 1), 2)
    ensures Reaches(trace, Named([SPEC_SAVED, STATUS_SAVED], 4, Busy(SaveSpecAgain(2), STATUS_SAVED, 4), 1), 2)
    ensures start <= trace
  {
    var more := [SPEC_SAVED, STATUS_SAVED];
    var m0 := Named(more, 2, Busy(SaveSpec(2), NAMED, 2), 1);
    var m1 := Named(more, 2, Busy(SaveSpecReread(2), NAMED, 2), 1);
    trace := LocalAppend(start, m0, Write(SaveProviderId, Conflict), m1, 2);
    trace := LocalAppend(trace, m1, Reread(4), Named(more, 4, Busy(SaveSpecAgain(2), STATUS_SAVED, 4), 1), 2);
  }

  /** It writes what it has over what is there. */
  lemma Overwrite(start: seq<State>, more: seq<Obj>, obj: Obj) returns (trace: seq<State>, m: Machine)
    requires |more| == 2 && !obj.ready && obj.finalizer
    requires Reaches(start, Named(more, 4, Busy(SaveSpecAgain(2), obj, 4), 1), 2)
    ensures Reaches(trace, m, 2) && start <= trace
    ensures |m.versions| > 0 && m.blind == 1 && Last(m).providerId == Some(2)
  {
    var spec := obj.(specProviderId := Some(2));
    var status := spec.(providerId := Some(2));
    var m0 := Named(more, 4, Busy(SaveSpecAgain(2), obj, 4), 1);
    var m1 := Named(more + [spec], 4, Busy(SaveStatus(2), spec, 5), 1);
    m := Named(more + [spec, status], 4, Busy(Await(2), status, 6), 1);
    trace := LocalAppend(start, m0, Write(SaveProviderId, Ok), m1, 2);
    trace := LocalAppend(trace, m1, Write(SaveProviderId, Ok), m, 2);
  }

  /** After one create behind a failed lookup even a recorded providerID can be replaced. */
  lemma BlindCreateReplacesProviderId() returns (trace: seq<State>, i: nat)
    ensures Run(trace) && i < |trace| && "u" in trace[i].machines && "u" in trace[|trace| - 1].machines
    ensures |trace[i].machines["u"].versions| > 0 && Persisted(trace[i], "u").providerId == Some(1)
    ensures var m := trace[|trace| - 1].machines["u"];
            |m.versions| > 0 && m.blind == 1 && Last(m).providerId == Some(2)
  {
    var m: Machine;
    var start := LostRecord();
    var middle := SecondCreate(start, [SPEC_SAVED, STATUS_SAVED]);
    var again := ReadAgain(middle);
    trace, m := Overwrite(again, [SPEC_SAVED, STATUS_SAVED], STATUS_SAVED);
    i := |start| - 1;
    assert trace[i] == start[i];
    assert Last(Named([SPEC_SAVED, STATUS_SAVED], 0, Idle, 0)) == STATUS_SAVED;
  }

  /**
   Deletion promises nothing without a providerID: a machine deleted after a lost
   create is gone while its VM is still there, and nobody will look for it.
   */
  lemma DeletionCanOrphan() returns (trace: seq<State>)
    ensures Run(trace)
    ensures var s := trace[|trace| - 1];
            "u" in s.machines && s.machines["u"].gone && s.machines["u"].blind == 0 && Carriers(s, "u") == {1}
  {
    var doomed := NAMED.(deleting := true);
    var m := Named([], 0, Idle, 0);
    var m1 := Named([doomed], 0, Idle, 0);
    var m2 := Named([doomed], 3, Busy(DropFinalizer, doomed, 3), 0);
    var m3 := Named([doomed, doomed.(finalizer := false)], 3, Idle, 0).(gone := true);
    trace := LostCreate();
    trace := LocalAppend(trace, m, External(true), m1, 1);
    trace := LocalAppend(trace, m1, Read(3), m2, 1);
    trace := LocalAppend(trace, m2, Write(RemoveFinalizer, Ok), m3, 1);
  }
}
