/**
 The lifecycle protocol of an XOMachine
 (internal/controller/xomachine_reconcile.go, internal/controller/xomachine/vm_ops.go).

 A state holds, for every machine, the whole version history of its object in
 the API server and the one worker that may be reconciling it, and for Xen
 Orchestra the VMs that exist and, for every VM there ever was, how it was born.
 One step is one remote call with its answer, or a move of somebody else. A
 worker may stop between any two calls.
 */
module MachineProtocol {
  import opened Options
  import opened Strings
  import opened VmAdoption
  import VmAddress

  type Uid = string

  datatype Vm = Vm(name: string, description: string)

  /** The fields of the object that the protocol reads or writes. */
  datatype Obj = Obj(
    deleting: bool, finalizer: bool, specProviderId: Option<VmId>,
    vmName: string, providerId: Option<VmId>, ready: bool, provisioned: bool,
    addresses: seq<VmAddress.NodeAddress>)

  const NEW_OBJECT := Obj(false, false, None, "", None, false, false, [])

  /** The next call of a worker. */
  datatype Pc =
    | Ensure | EnsureReread | EnsureAgain      // ensureFinalizer: xomachine_reconcile.go:194-216
    | Provision                                // reconcileNormal up to the choice of a path: 72-174
    | Lookup                                   // findAdoptableVM before the create: vm_ops.go:73
    | Create(blind: bool)                      // VM().Create: vm_ops.go:82; blind when the lookup had failed
    | Recover                                  // findAdoptableVM after a failed create: vm_ops.go:92
    | SaveSpec(vm: VmId) | SaveSpecReread(vm: VmId) | SaveSpecAgain(vm: VmId)        // vm_ops.go:533-548
    | SaveStatus(vm: VmId) | SaveStatusReread(vm: VmId) | SaveStatusAgain(vm: VmId)  // vm_ops.go:549-564
    | Await(vm: VmId)                          // WaitForVMReady, reconcileExistingVM
    | Refresh                                  // the Ready fast path: xomachine_reconcile.go:353-364
    | DeleteVm(vm: VmId) | DropFinalizer       // reconcileDelete: xomachine_reconcile.go:490-570

  /** A worker holds a copy of version rv of the object. */
  datatype Worker = Idle | Busy(pc: Pc, obj: Obj, rv: nat)

  /**
   One machine. `seen` is the newest version the cache has shown to the worker:
   reads may lag behind, but never behind an earlier read. The last three fields
   are history: `blind` counts the creates issued although the adoption lookup
   had failed, `skipped` tells whether the current pass (once the object is gone,
   the pass that dropped the finalizer) went on without a usable providerID or
   without a client, and `accepted` holds the VMs whose delete was answered with
   anything that lets the deletion go on.
   */
  datatype Machine = Machine(versions: seq<Obj>, gone: bool, seen: nat, worker: Worker,
                             blind: nat, skipped: bool, accepted: set<VmId>)

  const NEW_MACHINE := Machine([NEW_OBJECT], false, 0, Idle, 0, false, {})

  /** A create request that was sent to Xen Orchestra. */
  datatype CreateCall = CreateCall(uid: Uid, name: string, description: string)

  datatype State = State(
    machines: map<Uid, Machine>, vms: map<VmId, Vm>, born: map<VmId, Vm>, calls: seq<CreateCall>)

  // ---------------------------------------------------------------------------
  // Writes to the API server
  // ---------------------------------------------------------------------------

  /** Accepted; accepted with the answer lost; refused as stale; failed without effect. */
  datatype Answer = Ok | Lost | Conflict | Failed

  predicate Current(m: Machine) {
    m.worker.Busy? && !m.gone && m.worker.rv + 1 == |m.versions|
  }

  /** An object that is being deleted goes with its last finalizer. */
  function Accept(m: Machine, next: Obj, worker: Worker): Machine {
    m.(versions := m.versions + [next], gone := m.gone || (next.deleting && !next.finalizer), worker := worker)
  }

  /** A write of `next`, with what the worker does after success and after a conflict. */
  predicate Writes(m: Machine, next: Obj, answer: Answer, onOk: Worker, onConflict: Worker, m': Machine) {
    match answer
    case Ok => Current(m) && m' == Accept(m, next, onOk)
    case Lost => Current(m) && m' == Accept(m, next, Idle)
    case Conflict => !Current(m) && m' == m.(worker := onConflict)
    case Failed => m' == m.(worker := Idle)
  }

  /** The worker after an accepted write: it holds the object the server answered. */
  function Wrote(m: Machine, pc: Pc, next: Obj): Worker {
    Busy(pc, next, |m.versions|)
  }

  // ---------------------------------------------------------------------------
  // Steps of a worker that touch only its own object
  // ---------------------------------------------------------------------------

  /** What a worker writes to the object. */
  datatype Change =
    | Note(goOn: bool)
    | AddFinalizer
    | RecordName(name: string)
    | SaveProviderId
    | SetReady(address: string)
    | RefreshAddress(address: string)
    | RemoveFinalizer

  datatype Action =
    | Read(version: nat)
    | Reread(version: nat)
    | Choose
    | SkipVm
    | Stop
    | Write(change: Change, answer: Answer)
    | External(delete: bool)

  /** A write: the new object, and the worker after success and after a conflict. */
  datatype Plan = Plan(next: Obj, onOk: Worker, onConflict: Worker)

  /** Where a fresh reconcile starts: xomachine_controller.go:53-67. */
  function Dispatch(obj: Obj, rv: nat): Worker {
    if obj.deleting then
      if !obj.finalizer then Idle
      else if obj.providerId.Some? then Busy(DeleteVm(obj.providerId.value), obj, rv)
      else Busy(DropFinalizer, obj, rv)
    else Busy(if obj.finalizer then Provision else Ensure, obj, rv)
  }

  /** What follows the read after a conflict. */
  function AfterReread(pc: Pc, obj: Obj): Pc
    requires pc.EnsureReread? || pc.SaveSpecReread? || pc.SaveStatusReread?
  {
    match pc
    case EnsureReread => if obj.finalizer then Provision else EnsureAgain
    case SaveSpecReread(vm) => SaveSpecAgain(vm)
    case SaveStatusReread(vm) => SaveStatusAgain(vm)
  }

  /** The path taken once nothing is left to check, when it needs no write. */
  function ChoosePath(obj: Obj): Option<Pc> {
    if obj.providerId.Some? then Some(if obj.ready then Refresh else Await(obj.providerId.value))
    else if obj.vmName != "" then Some(Lookup)
    else None
  }

  function ReadyObj(obj: Obj, address: string): Obj {
    obj.(ready := true, provisioned := true,
         addresses := [VmAddress.NodeAddress(VmAddress.InternalIP, address)])
  }

  predicate CanNote(pc: Pc) {
    pc.Provision? || pc.Lookup? || pc.Recover? || pc.Await? || pc.Refresh?
  }

  /** The spec half of saveProviderID: vm_ops.go:533-548. */
  function PlanSaveSpec(m: Machine, w: Worker, vm: VmId, onConflict: Worker): Plan
    requires w.Busy?
  {
    var next := w.obj.(specProviderId := Some(vm));
    Plan(next, Wrote(m, SaveStatus(vm), next), onConflict)
  }

  /** The status half: vm_ops.go:549-564. */
  function PlanSaveStatus(m: Machine, w: Worker, vm: VmId, onConflict: Worker): Plan
    requires w.Busy?
  {
    var next := w.obj.(providerId := Some(vm));
    Plan(next, if next.ready then Idle else Wrote(m, Await(vm), next), onConflict)
  }

  /** saveProviderID: vm_ops.go:531-566. A conflict is retried once, on a fresh read. */
  function PlanSave(m: Machine, w: Worker): Option<Plan>
    requires w.Busy?
  {
    match w.pc
    case SaveSpec(vm) => Some(PlanSaveSpec(m, w, vm, w.(pc := SaveSpecReread(vm))))
    case SaveSpecAgain(vm) => Some(PlanSaveSpec(m, w, vm, Idle))
    case SaveStatus(vm) => Some(PlanSaveStatus(m, w, vm, w.(pc := SaveStatusReread(vm))))
    case SaveStatusAgain(vm) => Some(PlanSaveStatus(m, w, vm, Idle))
    case _ => None
  }

  /** The write a change stands for, when the worker is at a point where the code makes it. */
  function PlanOf(m: Machine, w: Worker, change: Change): Option<Plan>
    requires w.Busy?
  {
    match change
    case Note(goOn) =>
      // UpdateCondition: internal/controller/xomachine/status.go:17-20; most callers then return.
      if CanNote(w.pc) then
        Some(Plan(w.obj, if goOn && (w.pc.Provision? || w.pc.Refresh?) then Wrote(m, w.pc, w.obj) else Idle, Idle))
      else None
    case AddFinalizer =>
      var next := w.obj.(finalizer := true);
      if w.pc.Ensure? then Some(Plan(next, Wrote(m, Provision, next), w.(pc := EnsureReread)))
      else if w.pc.EnsureAgain? then Some(Plan(next, Wrote(m, Provision, next), Idle))
      else None
    case RecordName(name) =>
      // resolveVMName: xomachine_reconcile.go:260-277.
      var next := w.obj.(vmName := name);
      if w.pc.Provision? && ChoosePath(w.obj).None? && name != "" then Some(Plan(next, Wrote(m, Lookup, next), Idle))
      else None
    case SaveProviderId => PlanSave(m, w)
    case SetReady(address) =>
      // vm_ops.go:901-912 and xomachine_reconcile.go:475-485.
      if w.pc.Await? && !w.obj.ready && address != "" then Some(Plan(ReadyObj(w.obj, address), Idle, Idle)) else None
    case RefreshAddress(address) =>
      // refreshReadyMachine: xomachine_reconcile.go:407-436.
      if w.pc.Refresh? then
        Some(Plan(w.obj.(addresses := VmAddress.WithNodeAddress(w.obj.addresses, address)), Idle, Idle))
      else None
    case RemoveFinalizer =>
      if w.pc.DropFinalizer? then Some(Plan(w.obj.(finalizer := false), Idle, Idle)) else None
  }

  predicate LocalStep(m: Machine, action: Action, m': Machine) {
    var w := m.worker;
    match action
    case Read(k) =>
      && w.Idle? && m.seen <= k < |m.versions|
      && m' == m.(seen := k, worker := Dispatch(m.versions[k], k), skipped := m.gone && m.skipped)
    case Reread(k) =>
      && w.Busy? && (w.pc.EnsureReread? || w.pc.SaveSpecReread? || w.pc.SaveStatusReread?)
      && m.seen <= k < |m.versions|
      && m' == m.(seen := k, worker := Busy(AfterReread(w.pc, m.versions[k]), m.versions[k], k))
    case Choose =>
      && w.Busy? && w.pc.Provision? && ChoosePath(w.obj).Some?
      && m' == m.(worker := w.(pc := ChoosePath(w.obj).value))
    case SkipVm =>
      // No usable providerID or no credentials: xomachine_reconcile.go:498-518.
      w.Busy? && w.pc.DeleteVm? && m' == m.(worker := w.(pc := DropFinalizer), skipped := m.skipped || !m.gone)
    case Stop => w.Busy? && m' == m.(worker := Idle)
    case Write(change, answer) =>
      && w.Busy? && PlanOf(m, w, change).Some?
      && var plan := PlanOf(m, w, change).value;
         Writes(m, plan.next, answer, plan.onOk, plan.onConflict, m')
    case External(delete) =>
      // Others mark the object for deletion, or write what is not modelled here: labels, annotations, other conditions.
      && !m.gone && |m.versions| > 0
      && var last := m.versions[|m.versions| - 1];
         m' == Accept(m, last.(deleting := last.deleting || delete), w)
  }

  // ---------------------------------------------------------------------------
  // Steps that touch Xen Orchestra
  // ---------------------------------------------------------------------------

  /** A complete, correct answer to the name filter, which matches any part of the name. */
  ghost predicate Accurate(list: seq<VmRecord>, vms: map<VmId, Vm>, name: string) {
    && (forall r <- list :: r.id in vms && vms[r.id] == Vm(r.name, r.description))
    && (forall v <- vms :: Contains(vms[v].name, name) ==> exists r <- list :: r.id == v)
  }

  datatype XoAction =
    | List(list: seq<VmRecord>)
    | ListFails
    | CreateVm(applied: Option<VmId>, answered: bool)
    | DeleteCall(removed: bool, answer: DeleteAnswer)

  /** Success; a 404; the bare-task quirk, which the code takes for success; any other error. */
  datatype DeleteAnswer = Deleted | NotFound | Quirk | Refused

  /** The VMs that were ever created with the marker of a machine. */
  ghost function Made(born: map<VmId, Vm>, uid: Uid): set<VmId> {
    set v | v in born && born[v].description == Marker(uid)
  }

  /** The lookup is answered: adopt the VM found, else create, else give up. */
  ghost predicate ListStep(s: State, uid: Uid, list: seq<VmRecord>, s': State)
    requires uid in s.machines
  {
    var m := s.machines[uid];
    var w := m.worker;
    && w.Busy? && (w.pc.Lookup? || w.pc.Recover?)
    && Accurate(list, s.vms, w.obj.vmName)
    && var found := FirstAdoptable(list, w.obj.vmName, Marker(uid));
       var w' := if found.Some? then w.(pc := SaveSpec(found.value.id))
                 else if w.pc.Lookup? then w.(pc := Create(false)) else Idle;
       s' == s.(machines := s.machines[uid := m.(worker := w')])
  }

  /** The lookup fails: creation proceeds all the same (vm_ops.go:601-606). */
  ghost predicate ListFailsStep(s: State, uid: Uid, s': State)
    requires uid in s.machines
  {
    var m := s.machines[uid];
    var w := m.worker;
    && w.Busy? && (w.pc.Lookup? || w.pc.Recover?)
    && s' == s.(machines := s.machines[uid := m.(worker := if w.pc.Lookup? then w.(pc := Create(true)) else Idle)])
  }

  function AfterCreate(m: Machine, applied: Option<VmId>, answered: bool): Machine
    requires m.worker.Busy? && m.worker.pc.Create? && (answered ==> applied.Some?)
  {
    m.(worker := m.worker.(pc := if answered then SaveSpec(applied.value) else Recover),
       blind := m.blind + if m.worker.pc.blind then 1 else 0)
  }

  /**
   The create, with or without an effect. The answer names the VM, directly or
   through its bare task (internal/controller/xomachine/xo_compat.go:53-80), or it is an error.
   */
  ghost predicate CreateStep(s: State, uid: Uid, applied: Option<VmId>, answered: bool, s': State)
    requires uid in s.machines
  {
    var m := s.machines[uid];
    && m.worker.Busy? && m.worker.pc.Create? && (answered ==> applied.Some?)
    && (applied.Some? ==> applied.value !in s.born)
    && var vm := Vm(m.worker.obj.vmName, Marker(uid));
       && s'.machines == s.machines[uid := AfterCreate(m, applied, answered)]
       && s'.vms == (if applied.Some? then s.vms[applied.value := vm] else s.vms)
       && s'.born == (if applied.Some? then s.born[applied.value := vm] else s.born)
       && s'.calls == s.calls + [CreateCall(uid, vm.name, vm.description)]
  }

  function AfterDelete(m: Machine, answer: DeleteAnswer): Machine
    requires m.worker.Busy? && m.worker.pc.DeleteVm?
  {
    if answer == Refused then m.(worker := Idle)
    else m.(worker := m.worker.(pc := DropFinalizer), accepted := m.accepted + {m.worker.pc.vm})
  }

  /**
   VM().Delete: xomachine_reconcile.go:541-551. Success means that the VM was
   removed, and a 404 that it was not there. Stopping and detaching come before it.
   */
  ghost predicate DeleteStep(s: State, uid: Uid, removed: bool, answer: DeleteAnswer, s': State)
    requires uid in s.machines
  {
    var m := s.machines[uid];
    && m.worker.Busy? && m.worker.pc.DeleteVm?
    && (answer == Deleted ==> removed) && (answer == NotFound ==> m.worker.pc.vm !in s.vms)
    && s' == s.(vms := if removed then s.vms - {m.worker.pc.vm} else s.vms,
                machines := s.machines[uid := AfterDelete(m, answer)])
  }

  ghost predicate XoStep(s: State, uid: Uid, action: XoAction, s': State)
    requires uid in s.machines
  {
    match action
    case List(list) => ListStep(s, uid, list, s')
    case ListFails => ListFailsStep(s, uid, s')
    case CreateVm(applied, answered) => CreateStep(s, uid, applied, answered, s')
    case DeleteCall(removed, answer) => DeleteStep(s, uid, removed, answer, s')
  }

  // ---------------------------------------------------------------------------
  // Everybody else
  // ---------------------------------------------------------------------------

  predicate Provisioning(w: Worker) {
    w.Busy? && (w.pc.EnsureReread? || w.pc.EnsureAgain? || w.pc.Provision? || w.pc.Lookup? || w.pc.Create?
                || w.pc.Recover?)
  }

  /**
   The worker will not look for the machine's VM by name any more: it has read
   the object with its providerID, or in deletion while not provisioning.
   */
  predicate Settled(m: Machine)
    requires m.seen < |m.versions|
  {
    m.versions[m.seen].providerId.Some? || (m.versions[m.seen].deleting && !Provisioning(m.worker))
  }

  /**
   Others use Xen Orchestra too. They never write a marker of their own accord,
   and leave a machine's VM alone until the machine is settled.
   */
  ghost predicate XoChanges(s: State, s': State) {
    && s'.machines == s.machines && s'.calls == s.calls
    && s.born.Keys <= s'.born.Keys
    && (forall v <- s.born :: s'.born[v] == s.born[v])
    && (forall v <- s'.born :: v in s.born || !IsMarker(s'.born[v].description))
    && s'.vms.Keys <= s'.born.Keys
    && (forall v <- s'.vms :: IsMarker(s'.vms[v].description) ==> s'.born[v].description == s'.vms[v].description)
    && (forall u <- s.machines :: s.machines[u].seen < |s.machines[u].versions| && !Settled(s.machines[u]) ==>
          forall v <- Made(s.born, u) :: (v in s.vms <==> v in s'.vms) && (v in s.vms ==> s'.vms[v] == s.vms[v]))
  }

  datatype Step =
    | Local(uid: Uid, action: Action)
    | Xo(uid: Uid, xoAction: XoAction)
    | NewMachine(uid: Uid)
    | Others

  ghost predicate NextStep(s: State, step: Step, s': State) {
    match step
    case Local(uid, action) =>
      && uid in s.machines && uid in s'.machines
      && LocalStep(s.machines[uid], action, s'.machines[uid])
      && s' == s.(machines := s.machines[uid := s'.machines[uid]])
    case Xo(uid, action) => uid in s.machines && XoStep(s, uid, action, s')
    case NewMachine(uid) =>
      // UIDs are never empty and never used twice.
      && uid != "" && uid !in s.machines
      && s' == s.(machines := s.machines[uid := NEW_MACHINE])
    case Others => XoChanges(s, s')
  }

  ghost predicate Next(s: State, s': State) {
    exists step :: NextStep(s, step, s')
  }

  /** At first there are no machines, and nothing in Xen Orchestra carries a marker. */
  ghost predicate Init(s: State) {
    && s.machines == map[] && s.calls == []
    && s.vms.Keys <= s.born.Keys
    && (forall v <- s.born :: !IsMarker(s.born[v].description))
    && (forall v <- s.vms :: !IsMarker(s.vms[v].description))
  }

  /** A finite run. */
  ghost predicate Run(trace: seq<State>) {
    && |trace| > 0 && Init(trace[0])
    && forall i :: 0 <= i < |trace| - 1 ==> Next(trace[i], trace[i + 1])
  }
}
