/**
 What every run of the machine protocol keeps.
 */
module MachineSafety {
  import opened Options
  import opened VmAdoption
  import opened MachineProtocol
  import VmAddress

  // ---------------------------------------------------------------------------
  // One machine on its own
  // ---------------------------------------------------------------------------

  /** What is written once stays: the VM name, a providerID, readiness, deletion. */
  predicate Grows(a: Obj, b: Obj) {
    && (a.vmName != "" ==> b.vmName == a.vmName)
    && (a.providerId.Some? ==> b.providerId.Some?)
    && (a.specProviderId.Some? ==> b.specProviderId.Some?)
    && (a.ready ==> b.ready)
    && (a.deleting ==> b.deleting)
  }

  /** A ready machine has a providerID, is provisioned and has a usable address. */
  predicate Sound(obj: Obj) {
    && (obj.providerId.Some? ==> obj.vmName != "" && obj.specProviderId.Some?)
    && (obj.ready ==> obj.providerId.Some? && obj.provisioned && VmAddress.Usable(obj.addresses))
  }

  function Last(m: Machine): Obj
    requires |m.versions| > 0
  {
    m.versions[|m.versions| - 1]
  }

  predicate PcOk(m: Machine, pc: Pc, obj: Obj, rv: nat)
    requires |m.versions| > 0
  {
    match pc
    case Ensure => !obj.deleting && rv == m.seen
    case Lookup => obj.vmName != "" && obj.providerId.None?
    case Create(_) => obj.vmName != "" && obj.providerId.None?
    case Recover => obj.vmName != "" && obj.providerId.None?
    case SaveSpec(_) => Last(m).vmName != ""
    case SaveSpecReread(_) => Last(m).vmName != ""
    case SaveSpecAgain(_) => Last(m).vmName != ""
    case SaveStatus(_) => Last(m).vmName != "" && Last(m).specProviderId.Some?
    case SaveStatusReread(_) => Last(m).vmName != "" && Last(m).specProviderId.Some?
    case SaveStatusAgain(_) => Last(m).vmName != "" && Last(m).specProviderId.Some?
    case Await(_) => obj.providerId.Some?
    case Refresh => obj.ready
    case DeleteVm(vm) => obj.deleting && rv == m.seen && obj.providerId == Some(vm)
    case DropFinalizer => obj.deleting && rv == m.seen
    case _ => true
  }

  ghost predicate MachineOk(m: Machine) {
    && m.seen < |m.versions|
    && (forall i, j :: 0 <= i <= j < |m.versions| ==> Grows(m.versions[i], m.versions[j]))
    && (forall i :: 0 <= i < |m.versions| ==> Sound(m.versions[i]))
    && WorkerOk(m, m.worker)
  }

  predicate WorkerOk(m: Machine, w: Worker)
    requires m.seen < |m.versions|
  {
    w.Busy? ==>
      && m.seen <= w.rv < |m.versions|
      && w.obj == m.versions[w.rv]
      && PcOk(m, w.pc, w.obj, w.rv)
  }

  /** Appending a version that keeps what its predecessor wrote keeps it all. */
  lemma AppendVersion(m: Machine, next: Obj, w: Worker, m': Machine)
    requires MachineOk(m)
    requires Grows(Last(m), next) && Sound(next)
    requires m' == Accept(m, next, w) && WorkerOk(m', w)
    ensures MachineOk(m')
  {
  }

  /** A plan only grows the object, and leads to consistent workers. */
  predicate PlanGrows(m: Machine, plan: Plan)
    requires m.worker.Busy? && m.seen < |m.versions|
  {
    && Grows(m.worker.obj, plan.next)
    && (Current(m) ==> Sound(plan.next) && WorkerOk(Accept(m, plan.next, plan.onOk), plan.onOk))
    && WorkerOk(m.(worker := plan.onConflict), plan.onConflict)
  }

  lemma SaveSpecGrows(m: Machine, vm: VmId, onConflict: Worker)
    requires MachineOk(m) && m.worker.Busy? && Last(m).vmName != ""
    requires WorkerOk(m.(worker := onConflict), onConflict)
    ensures PlanGrows(m, PlanSaveSpec(m, m.worker, vm, onConflict))
  {
  }

  lemma SaveStatusGrows(m: Machine, vm: VmId, onConflict: Worker)
    requires MachineOk(m) && m.worker.Busy? && Last(m).vmName != "" && Last(m).specProviderId.Some?
    requires WorkerOk(m.(worker := onConflict), onConflict)
    ensures PlanGrows(m, PlanSaveStatus(m, m.worker, vm, onConflict))
  {
  }

  lemma PlanSaveGrows(m: Machine)
    requires MachineOk(m) && m.worker.Busy? && PlanSave(m, m.worker).Some?
    ensures PlanGrows(m, PlanSave(m, m.worker).value)
  {
    var w := m.worker;
    match w.pc
    case SaveSpec(vm) => SaveSpecGrows(m, vm, w.(pc := SaveSpecReread(vm)));
    case SaveSpecAgain(vm) => SaveSpecGrows(m, vm, Idle);
    case SaveStatus(vm) => SaveStatusGrows(m, vm, w.(pc := SaveStatusReread(vm)));
    case SaveStatusAgain(vm) => SaveStatusGrows(m, vm, Idle);
    case _ =>
  }

  lemma SetReadyGrows(m: Machine, address: string)
    requires MachineOk(m) && m.worker.Busy? && PlanOf(m, m.worker, SetReady(address)).Some?
    ensures PlanGrows(m, PlanOf(m, m.worker, SetReady(address)).value)
  {
    OneAddressIsUsable(address);
  }

  lemma RefreshAddressGrows(m: Machine, address: string)
    requires MachineOk(m) && m.worker.Busy? && PlanOf(m, m.worker, RefreshAddress(address)).Some?
    ensures PlanGrows(m, PlanOf(m, m.worker, RefreshAddress(address)).value)
  {
    VmAddress.WithNodeAddressProperties(m.worker.obj.addresses, address);
  }

  lemma OneAddressIsUsable(address: string)
    requires address != ""
    ensures VmAddress.Usable([VmAddress.NodeAddress(VmAddress.InternalIP, address)])
  {
    var a := VmAddress.NodeAddress(VmAddress.InternalIP, address);
    assert a in [a];
  }

  lemma PlanOfGrows(m: Machine, change: Change)
    requires MachineOk(m) && m.worker.Busy? && PlanOf(m, m.worker, change).Some?
    ensures PlanGrows(m, PlanOf(m, m.worker, change).value)
  {
    match change
    case SaveProviderId => PlanSaveGrows(m);
    case SetReady(address) => SetReadyGrows(m, address);
    case RefreshAddress(address) => RefreshAddressGrows(m, address);
    case _ =>
  }

  lemma WriteKeepsMachine(m: Machine, plan: Plan, answer: Answer, m': Machine)
    requires MachineOk(m) && m.worker.Busy? && PlanGrows(m, plan)
    requires Writes(m, plan.next, answer, plan.onOk, plan.onConflict, m')
    ensures MachineOk(m')
  {
    match answer
    case Ok => AppendVersion(m, plan.next, plan.onOk, m');
    case Lost => AppendVersion(m, plan.next, Idle, m');
    case Conflict =>
    case Failed =>
  }

  lemma WriteStepKeepsMachine(m: Machine, change: Change, answer: Answer, m': Machine)
    requires MachineOk(m) && LocalStep(m, Write(change, answer), m')
    ensures MachineOk(m')
  {
    PlanOfGrows(m, change);
    WriteKeepsMachine(m, PlanOf(m, m.worker, change).value, answer, m');
  }

  lemma ExternalKeepsMachine(m: Machine, delete: bool, m': Machine)
    requires MachineOk(m) && LocalStep(m, External(delete), m')
    ensures MachineOk(m')
  {
    assert m.worker.Busy? ==> m'.versions[m.worker.rv] == m.versions[m.worker.rv];
    AppendVersion(m, Last(m).(deleting := Last(m).deleting || delete), m.worker, m');
  }

  lemma RereadKeepsMachine(m: Machine, k: nat, m': Machine)
    requires MachineOk(m) && LocalStep(m, Reread(k), m')
    ensures MachineOk(m')
  {
    assert Grows(m.versions[k], Last(m));
  }

  lemma ReadKeepsMachine(m: Machine, k: nat, m': Machine)
    requires MachineOk(m) && LocalStep(m, Read(k), m')
    ensures MachineOk(m')
  {
  }

  /** Every step on the object keeps the machine consistent. */
  lemma LocalStepKeepsMachine(m: Machine, action: Action, m': Machine)
    requires MachineOk(m) && LocalStep(m, action, m')
    ensures MachineOk(m')
  {
    match action
    case Write(change, answer) => WriteStepKeepsMachine(m, change, answer, m');
    case External(delete) => ExternalKeepsMachine(m, delete, m');
    case Reread(k) => RereadKeepsMachine(m, k, m');
    case Read(k) => ReadKeepsMachine(m, k, m');
    case _ =>
  }

  // ---------------------------------------------------------------------------
  // A machine and its VMs
  // ---------------------------------------------------------------------------

  /** The VM a worker is busy with. */
  function Holds(pc: Pc): Option<VmId> {
    match pc
    case SaveSpec(vm) => Some(vm)
    case SaveSpecReread(vm) => Some(vm)
    case SaveSpecAgain(vm) => Some(vm)
    case SaveStatus(vm) => Some(vm)
    case SaveStatusReread(vm) => Some(vm)
    case SaveStatusAgain(vm) => Some(vm)
    case Await(vm) => Some(vm)
    case DeleteVm(vm) => Some(vm)
    case _ => None
  }

  predicate OwnIds(obj: Obj, made: set<VmId>) {
    && (obj.providerId.Some? ==> obj.providerId.value in made)
    && (obj.specProviderId.Some? ==> obj.specProviderId.value in made)
  }

  predicate WorkerLinkOk(w: Worker, made: set<VmId>) {
    w.Busy? ==>
      && (Holds(w.pc).Some? ==> Holds(w.pc).value in made)
      && (w.pc == Create(false) ==> made == {})
  }

  /** The machine's VMs are all there, under the recorded name and marker. */
  ghost predicate Intact(vms: map<VmId, Vm>, made: set<VmId>, name: string, marker: string) {
    forall v <- made :: v in vms && vms[v] == Vm(name, marker)
  }

  /** How the VMs ever made for a machine relate to what it records. */
  ghost predicate LinkOk(vms: map<VmId, Vm>, made: set<VmId>, uid: Uid, m: Machine)
    requires m.seen < |m.versions|
  {
    && (forall i :: 0 <= i < |m.versions| ==> OwnIds(m.versions[i], made))
    && WorkerLinkOk(m.worker, made)
    && (!Settled(m) ==> Intact(vms, made, Last(m).vmName, Marker(uid)))
    && |made| <= 1 + m.blind
    && (made != {} ==> Last(m).vmName != "")
  }

  /** The next worker does not start to provision a machine that is settled by its deletion. */
  predicate StaysSettled(m: Machine, w: Worker)
    requires m.seen < |m.versions|
  {
    Settled(m) ==> m.versions[m.seen].providerId.Some? || !Provisioning(w)
  }

  lemma AppendKeepsLink(vms: map<VmId, Vm>, made: set<VmId>, uid: Uid, m: Machine, next: Obj, w: Worker, m': Machine)
    requires MachineOk(m) && LinkOk(vms, made, uid, m) && m' == Accept(m, next, w)
    requires Grows(Last(m), next) && OwnIds(next, made) && WorkerLinkOk(w, made) && StaysSettled(m, w)
    ensures LinkOk(vms, made, uid, m')
  {
  }

  lemma WorkerKeepsLink(vms: map<VmId, Vm>, made: set<VmId>, uid: Uid, m: Machine, w: Worker, m': Machine)
    requires MachineOk(m) && LinkOk(vms, made, uid, m)
    requires m' == m.(worker := w, skipped := m'.skipped, accepted := m'.accepted)
    requires WorkerLinkOk(w, made) && StaysSettled(m, w)
    ensures LinkOk(vms, made, uid, m')
  {
  }

  /** A plan keeps to the machine's own VMs. */
  predicate PlanOwn(m: Machine, plan: Plan, made: set<VmId>)
    requires m.worker.Busy? && m.seen < |m.versions|
  {
    && OwnIds(plan.next, made)
    && WorkerLinkOk(plan.onOk, made) && WorkerLinkOk(plan.onConflict, made)
    && StaysSettled(m, plan.onOk) && StaysSettled(m, plan.onConflict)
  }

  lemma SaveOwn(m: Machine, made: set<VmId>, vm: VmId, onConflict: Worker)
    requires MachineOk(m) && m.worker.Busy? && OwnIds(m.worker.obj, made) && vm in made
    requires WorkerLinkOk(onConflict, made) && StaysSettled(m, onConflict)
    ensures PlanOwn(m, PlanSaveSpec(m, m.worker, vm, onConflict), made)
    ensures PlanOwn(m, PlanSaveStatus(m, m.worker, vm, onConflict), made)
  {
  }

  lemma PlanSaveOwn(m: Machine, made: set<VmId>)
    requires MachineOk(m) && m.worker.Busy? && PlanSave(m, m.worker).Some?
    requires OwnIds(m.worker.obj, made) && WorkerLinkOk(m.worker, made)
    ensures PlanOwn(m, PlanSave(m, m.worker).value, made)
  {
    var w := m.worker;
    match w.pc
    case SaveSpec(vm) => SaveOwn(m, made, vm, w.(pc := SaveSpecReread(vm)));
    case SaveSpecAgain(vm) => SaveOwn(m, made, vm, Idle);
    case SaveStatus(vm) => SaveOwn(m, made, vm, w.(pc := SaveStatusReread(vm)));
    case SaveStatusAgain(vm) => SaveOwn(m, made, vm, Idle);
    case _ =>
  }

  lemma PlanOfOwn(m: Machine, change: Change, made: set<VmId>)
    requires MachineOk(m) && m.worker.Busy? && PlanOf(m, m.worker, change).Some?
    requires OwnIds(m.worker.obj, made) && WorkerLinkOk(m.worker, made)
    ensures PlanOwn(m, PlanOf(m, m.worker, change).value, made)
  {
    match change
    case SaveProviderId => PlanSaveOwn(m, made);
    case _ =>
  }

  lemma WriteKeepsLink(vms: map<VmId, Vm>, made: set<VmId>, uid: Uid, m: Machine, plan: Plan, answer: Answer,
                       m': Machine)
    requires MachineOk(m) && LinkOk(vms, made, uid, m) && m.worker.Busy?
    requires PlanGrows(m, plan) && PlanOwn(m, plan, made)
    requires Writes(m, plan.next, answer, plan.onOk, plan.onConflict, m')
    ensures LinkOk(vms, made, uid, m')
  {
    match answer
    case Ok => AppendKeepsLink(vms, made, uid, m, plan.next, plan.onOk, m');
    case Lost => AppendKeepsLink(vms, made, uid, m, plan.next, Idle, m');
    case Conflict => WorkerKeepsLink(vms, made, uid, m, plan.onConflict, m');
    case Failed => WorkerKeepsLink(vms, made, uid, m, Idle, m');
  }

  lemma RereadKeepsLink(vms: map<VmId, Vm>, made: set<VmId>, uid: Uid, m: Machine, k: nat, w: Worker, m': Machine)
    requires MachineOk(m) && LinkOk(vms, made, uid, m) && m.seen <= k < |m.versions|
    requires m' == m.(seen := k, worker := w, skipped := m'.skipped) && WorkerLinkOk(w, made)
    requires Settled(m) ==> m.versions[m.seen].providerId.Some? || !Provisioning(w)
    ensures LinkOk(vms, made, uid, m')
  {
  }

  lemma WriteStepKeepsLink(vms: map<VmId, Vm>, made: set<VmId>, uid: Uid, m: Machine, change: Change, answer: Answer,
                           m': Machine)
    requires MachineOk(m) && LocalStep(m, Write(change, answer), m') && LinkOk(vms, made, uid, m)
    ensures LinkOk(vms, made, uid, m')
  {
    assert OwnIds(m.versions[m.worker.rv], made);
    PlanOfGrows(m, change);
    PlanOfOwn(m, change, made);
    WriteKeepsLink(vms, made, uid, m, PlanOf(m, m.worker, change).value, answer, m');
  }

  lemma WorkerStepKeepsLink(vms: map<VmId, Vm>, made: set<VmId>, uid: Uid, m: Machine, action: Action, m': Machine)
    requires MachineOk(m) && LocalStep(m, action, m') && LinkOk(vms, made, uid, m)
    requires action.Choose? || action.SkipVm? || action.Stop?
    ensures LinkOk(vms, made, uid, m')
  {
    assert OwnIds(m.versions[m.worker.rv], made);
    WorkerKeepsLink(vms, made, uid, m, m'.worker, m');
  }

  /** Every step on the object keeps what it records in line with its VMs. */
  lemma LocalStepKeepsLink(vms: map<VmId, Vm>, made: set<VmId>, uid: Uid, m: Machine, action: Action, m': Machine)
    requires MachineOk(m) && LocalStep(m, action, m') && LinkOk(vms, made, uid, m)
    ensures LinkOk(vms, made, uid, m')
  {
    match action
    case Write(change, answer) => WriteStepKeepsLink(vms, made, uid, m, change, answer, m');
    case Read(k) =>
      assert OwnIds(m.versions[k], made) && Grows(m.versions[m.seen], m.versions[k]);
      RereadKeepsLink(vms, made, uid, m, k, m'.worker, m');
    case Reread(k) => RereadKeepsLink(vms, made, uid, m, k, m'.worker, m');
    case External(delete) =>
      assert OwnIds(Last(m), made);
      AppendKeepsLink(vms, made, uid, m, Last(m).(deleting := Last(m).deleting || delete), m.worker, m');
    case _ => WorkerStepKeepsLink(vms, made, uid, m, action, m');
  }
}
