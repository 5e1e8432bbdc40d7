/**
 Deleting the VM of a machine without its persistent volumes
 (internal/controller/xomachine_reconcile.go:490-570,
 internal/controller/xomachine/vm_ops.go:345-495).

 Xen Orchestra is an object whose calls answer as they like within their
 contracts: they may fail, or take effect and answer an error, and other users
 act between them. In a calm Xen Orchestra nothing fails and nobody interferes.
 */
module MachineDeletion {
  import opened Options
  import opened VmAdoption

  type VbdId = nat
  type VdiId = nat

  datatype PowerState = Running | Halted | Paused | Suspended

  /** The attachment of a disk (or of an empty drive) to a VM. */
  datatype Vbd = Vbd(vm: VmId, vdi: Option<VdiId>)

  /** NotFound is the 404 of the API and Unmarshal the bare-task quirk of old versions. */
  datatype Error = NotFound | Unmarshal(hasTask: bool) | Other

  datatype Result<+T> = Ok(value: T) | Err(error: Error)

  datatype TaskStatus = TaskSucceeded | TaskFailed | WaitFailed

  const VOLUME_TAG_PREFIX := "k8s:volumeId:"

  predicate IsVolumeTag(tag: string) {
    |tag| >= |VOLUME_TAG_PREFIX| && tag[..|VOLUME_TAG_PREFIX|] == VOLUME_TAG_PREFIX
  }

  /** Any text after the prefix will do. */
  lemma TagExactly(tag: string)
    ensures IsVolumeTag(tag) <==> exists id: string :: tag == "k8s:volumeId:" + id
  {
    if IsVolumeTag(tag) {
      assert tag == "k8s:volumeId:" + tag[|VOLUME_TAG_PREFIX|..];
    }
    forall id: string | tag == "k8s:volumeId:" + id ensures IsVolumeTag(tag) {
      assert tag[..|VOLUME_TAG_PREFIX|] == "k8s:volumeId:";
    }
  }

  /** What never changes: the tags of a disk, and what a VBD attaches to what. */
  datatype Inventory = Inventory(tags: VdiId -> seq<string>, vbd: VbdId -> Vbd) {

    /** A disk managed by the CSI driver. */
    predicate IsVolume(d: VdiId) {
      exists t <- tags(d) :: IsVolumeTag(t)
    }

    /** A disk with some tag of that form. */
    ghost predicate Tagged(d: VdiId) {
      exists id: string :: "k8s:volumeId:" + id in tags(d)
    }

    lemma VolumesAreTagged()
      ensures forall d :: IsVolume(d) <==> Tagged(d)
    {
      forall d ensures IsVolume(d) <==> Tagged(d) {
        if IsVolume(d) {
          var t :| t in tags(d) && IsVolumeTag(t);
          TagExactly(t);
          var id :| t == "k8s:volumeId:" + id;
        }
        if Tagged(d) {
          var id: string :| "k8s:volumeId:" + id in tags(d);
          TagExactly("k8s:volumeId:" + id);
        }
      }
    }

    predicate Attaches(b: VbdId, vm: VmId) {
      vbd(b).vm == vm && vbd(b).vdi.Some?
    }

    /** A VBD that attaches a persistent volume to the VM. */
    predicate AttachesVolume(b: VbdId, vm: VmId) {
      Attaches(b, vm) && IsVolume(vbd(b).vdi.value)
    }

    /** The disks that some VBDs attach to the VM. */
    function Disks(vbds: set<VbdId>, vm: VmId): set<VdiId> {
      set b | b in vbds && Attaches(b, vm) :: vbd(b).vdi.value
    }

    /** Those of the disks that are persistent volumes. */
    function VolumeDisks(vbds: set<VbdId>, vm: VmId): set<VdiId> {
      set d | d in Disks(vbds, vm) && IsVolume(d)
    }

    /** Those of the VBDs that attach a persistent volume to the VM. */
    function Volumes(vbds: set<VbdId>, vm: VmId): set<VbdId> {
      set b | b in vbds && AttachesVolume(b, vm)
    }
  }

  /** The VBDs that others created, one set for every deletion pass so far. */
  type Passes = p: seq<set<VbdId>> | |p| > 0 witness [{}]

  /** A VM that cannot release its disks. */
  predicate Stuck(vms: map<VmId, PowerState>, vm: VmId) {
    vm in vms && (vms[vm] == Paused || vms[vm] == Suspended)
  }

  /** The pass that was under way still is; others may have created more VBDs meanwhile. */
  twostate predicate SamePass(xo: XenOrchestra)
    reads xo
  {
    && |xo.raced| == |old(xo.raced)|
    && xo.raced[..|xo.raced| - 1] == old(xo.raced)[..|xo.raced| - 1]
    && old(xo.Raced()) <= xo.Raced()
  }

  class XenOrchestra {
    const calm: bool
    const inventory: Inventory
    var vms: map<VmId, PowerState>
    var vbds: set<VbdId>
    var disks: set<VdiId>
    ghost var detached: set<VbdId>    // removed by VBD().Delete
    ghost var destroyed: set<VdiId>   // removed by VM().Delete
    ghost var premature: bool         // some VM().Delete was issued for a VM with a volume still attached
    ghost var accepted: set<VmId>     // VMs whose delete was answered with success or the bare-task quirk
    ghost var targets: set<VmId>      // VMs for which a shutdown or a delete was issued
    ghost var rough: bool             // some shutdown was issued for a running VM with a volume still attached
    ghost var abrupt: bool            // some VM().Delete was issued for a VM that was not halted
    ghost var raced: Passes           // the VBDs that others created during each deletion pass
    ghost var refusals: nat           // how many reads and VBD removals were answered with an error other than a 404
    ghost var power: Option<Result<Option<PowerState>>>  // the last answers of the calls named like them
    ghost var shutdown: Option<Result<()>>
    ghost var task: Option<TaskStatus>
    ghost var deletion: Option<Result<()>>

    constructor (calm: bool, inventory: Inventory, vms: map<VmId, PowerState>, vbds: set<VbdId>, disks: set<VdiId>)
      ensures this.calm == calm && this.inventory == inventory
      ensures this.vms == vms && this.vbds == vbds && this.disks == disks
      ensures detached == {} && destroyed == {} && accepted == {} && targets == {}
      ensures !premature && !rough && !abrupt && raced == [{}]
    {
      this.calm, this.inventory, this.vms, this.vbds, this.disks := calm, inventory, vms, vbds, disks;
      detached, destroyed, accepted, targets := {}, {}, {}, {};
      premature, rough, abrupt, raced := false, false, false, [{}];
      refusals, power, shutdown, task, deletion := 0, None, None, None, None;
    }

    /** The persistent volumes attached to the VM. */
    function Volumes(vm: VmId): set<VbdId>
      reads this`vbds
    {
      inventory.Volumes(vbds, vm)
    }

    /** The VBDs that others created during the pass that is under way. */
    ghost function Raced(): set<VbdId>
      reads this`raced
    {
      raced[|raced| - 1]
    }

    /** The shutdown that was issued last is known to have been carried out. */
    ghost predicate Confirmed()
      reads this`shutdown, this`task
    {
      || (shutdown.Some? && shutdown.value.Ok? && task == Some(TaskSucceeded))
      || (shutdown == Some(Err(Unmarshal(true))) && task.Some? && task.value != WaitFailed)
    }

    /** An answer that stops a pass, if it is one to a read or to the removal of a VBD. */
    ghost predicate Refusal<T>(r: Result<T>) {
      r.Err? && r.error != NotFound
    }

    /** A new deletion pass. */
    ghost method Begin()
      modifies this`raced
      ensures raced == old(raced) + [{}]
    {
      raced := raced + [{}];
    }

    /** Whether the next call goes wrong. */
    method Fault() returns (fault: bool)
      ensures calm ==> !fault
    {
      fault := *;
      fault := fault && !calm;
    }

    /** Other users act: they may do anything but bring this VM back. What they attach is recorded. */
    method OthersAct(vm: VmId)
      modifies this`vms, this`vbds, this`disks, this`raced
      ensures calm ==> vms == old(vms) && vbds == old(vbds) && disks == old(disks) && raced == old(raced)
      ensures vm !in old(vms) ==> vm !in vms
      ensures SamePass(this)
      ensures vbds <= old(vbds) + Raced()
    {
      if !calm {
        var present := vm in vms;
        ghost var before := vbds;
        vms := *;
        if !present {
          vms := vms - {vm};
        }
        disks, vbds := *, *;
        raced := raced[|raced| - 1 := Raced() + (vbds - before)];
      }
    }

    /** While no deletion is under way, others may do anything at all. */
    method AnythingElse()
      modifies this`vms, this`vbds, this`disks
    {
      vms, vbds, disks := *, *, *;
    }

    /** VM().GetByID, reduced to the power state; the answer may also be empty. */
    method GetPowerState(vm: VmId) returns (r: Result<Option<PowerState>>)
      modifies this`refusals, this`power
      ensures power == Some(r) && refusals == old(refusals) + if Refusal(r) then 1 else 0
      ensures r.Ok? && r.value.Some? ==> vm in vms && vms[vm] == r.value.value
      ensures r == Err(NotFound) ==> vm !in vms
      ensures calm ==> r == if vm in vms then Ok(Some(vms[vm])) else Err(NotFound)
    {
      var fault := Fault();
      r := if vm in vms then Ok(Some(vms[vm])) else Err(NotFound);
      if fault {
        var empty: bool := *;
        r := if empty then Ok(None) else Err(Other);
      }
      power, refusals := Some(r), refusals + if Refusal(r) then 1 else 0;
    }

    /** VM().HardShutdown, which may stop the VM whatever it answers; for a halted VM it may well answer an error. */
    method HardShutdown(vm: VmId) returns (r: Result<()>)
      modifies this`vms, this`targets, this`rough, this`shutdown, this`task
      ensures shutdown == Some(r) && task == None
      ensures vms == old(vms) || (vm in old(vms) && vms == old(vms)[vm := Halted])
      ensures targets == old(targets) + {vm}
      ensures rough == (old(rough) || (vm in old(vms) && old(vms)[vm] == Running && Volumes(vm) != {}))
      ensures calm ==> (vm in vms ==> vms[vm] == Halted) && (vm !in vms ==> r == Err(NotFound))
      ensures calm && vm in old(vms) && old(vms)[vm] != Halted ==> r == Ok(())
    {
      var fault := Fault();
      var effect: bool := *;
      targets := targets + {vm};
      rough := rough || (vm in vms && vms[vm] == Running && Volumes(vm) != {});
      if vm !in vms {
        r := Err(if fault then Other else NotFound);
      } else {
        fault := fault || vms[vm] == Halted;
        if effect || !fault {
          vms := vms[vm := Halted];
        }
        r := Ok(());
        if fault {
          r := *;
        }
      }
      shutdown, task := Some(r), None;
    }

    /** Task().Wait for a shutdown that was issued. */
    method WaitTask() returns (status: TaskStatus)
      modifies this`task
      ensures task == Some(status)
      ensures calm ==> status == TaskSucceeded
    {
      var fault := Fault();
      status := *;
      if !fault {
        status := TaskSucceeded;
      }
      task := Some(status);
    }

    /** VM().GetVDIs with the filter on the volume tag: a set, the answer having no order. */
    method GetVolumes(vm: VmId) returns (r: Result<set<VdiId>>)
      modifies this`refusals
      ensures refusals == old(refusals) + if Refusal(r) then 1 else 0
      ensures r.Ok? ==> r.value == inventory.VolumeDisks(vbds, vm)
      ensures r == Err(NotFound) ==> vm !in vms
      ensures calm ==> if vm in vms then r.Ok? else r == Err(NotFound)
    {
      var fault := Fault();
      if fault {
        refusals := refusals + 1;
        return Err(Other);
      }
      if vm !in vms {
        return Err(NotFound);
      }
      return Ok(inventory.VolumeDisks(vbds, vm));
    }

    /** VBD().GetAll with the filter on the VM. */
    method GetVbds(vm: VmId) returns (r: Result<set<VbdId>>)
      modifies this`refusals
      ensures refusals == old(refusals) + if Refusal(r) then 1 else 0
      ensures r.Ok? ==> r.value == set b | b in vbds && inventory.vbd(b).vm == vm
      ensures r == Err(NotFound) ==> vm !in vms
      ensures calm ==> if vm in vms then r.Ok? else r == Err(NotFound)
    {
      var fault := Fault();
      if fault {
        refusals := refusals + 1;
        return Err(Other);
      }
      if vm !in vms {
        return Err(NotFound);
      }
      return Ok(set b | b in vbds && inventory.vbd(b).vm == vm);
    }

    /** VBD().Delete: it detaches the disk, and is refused while the VM is paused or suspended. */
    method DeleteVbd(b: VbdId) returns (r: Result<()>)
      modifies this`vbds, this`detached, this`refusals
      ensures refusals == old(refusals) + if Refusal(r) then 1 else 0
      ensures (vbds == old(vbds) && detached == old(detached))
           || (b in old(vbds) && vbds == old(vbds) - {b} && detached == old(detached) + {b})
      ensures r.Ok? || r == Err(NotFound) ==> b !in vbds
      ensures b in old(vbds) && Stuck(vms, inventory.vbd(b).vm) ==> r.Err? && b in vbds
      ensures calm && b in old(vbds) && !Stuck(vms, inventory.vbd(b).vm) ==> r.Ok?
    {
      var fault := Fault();
      r := Ok(());
      if b !in vbds {
        r := Err(if fault then Other else NotFound);
      } else if Stuck(vms, inventory.vbd(b).vm) {
        r := Err(Other);
      } else {
        var effect: bool := *;
        if effect || !fault {
          detached := detached + {b};
          vbds := vbds - {b};
        }
        r := if fault then Err(Other) else Ok(());
      }
      refusals := refusals + if Refusal(r) then 1 else 0;
    }

    /** The effect of a delete. */
    method Remove(vm: VmId)
      modifies this`vms, this`vbds, this`disks, this`destroyed
      ensures vms == old(vms) - {vm} && vbds <= old(vbds)
      ensures destroyed == old(destroyed) + inventory.Disks(old(vbds), vm)
      ensures disks == old(disks) - inventory.Disks(old(vbds), vm)
    {
      destroyed := destroyed + inventory.Disks(vbds, vm);
      disks := disks - inventory.Disks(vbds, vm);
      vbds := set b | b in vbds && inventory.vbd(b).vm != vm;
      vms := vms - {vm};
    }

    /** With a fault it may be there or not. */
    method MayRemove(vm: VmId, fault: bool)
      modifies this`vms, this`vbds, this`disks, this`destroyed
      ensures destroyed <= old(destroyed) + inventory.Disks(old(vbds), vm)
      ensures old(disks) - inventory.Disks(old(vbds), vm) <= disks
      ensures !fault ==> vm !in vms
    {
      var effect: bool := *;
      if effect || !fault {
        Remove(vm);
      }
    }

    /** VM().Delete: it removes the VM with every disk that is attached to it. */
    method DeleteVm(vm: VmId) returns (r: Result<()>)
      modifies this`vms, this`vbds, this`disks, this`destroyed, this`accepted
      modifies this`targets, this`premature, this`abrupt, this`deletion
      ensures deletion == Some(r)
      ensures targets == old(targets) + {vm}
      ensures abrupt == (old(abrupt) || (vm in old(vms) && old(vms)[vm] != Halted))
      ensures premature == (old(premature) || (vm in old(vms) && old(Volumes(vm)) != {}))
      ensures vm !in old(vms) ==>
                vms == old(vms) && vbds == old(vbds) && disks == old(disks) && destroyed == old(destroyed)
      ensures destroyed <= old(destroyed) + inventory.Disks(old(vbds), vm)
      ensures old(disks) - inventory.Disks(old(vbds), vm) <= disks
      ensures r.Ok? || r == Err(NotFound) ==> vm !in vms
      ensures accepted == old(accepted) + if r.Ok? || (r.Err? && r.error.Unmarshal?) then {vm} else {}
      ensures calm ==> vm !in vms && r == if vm in old(vms) then Ok(()) else Err(NotFound)
    {
      var fault := Fault();
      targets := targets + {vm};
      abrupt := abrupt || (vm in vms && vms[vm] != Halted);
      premature := premature || (vm in vms && Volumes(vm) != {});
      if vm !in vms {
        r := Err(if fault then Other else NotFound);
      } else {
        MayRemove(vm, fault);
        var quirk: bool := *;
        r := if !fault then Ok(()) else if quirk then Err(Unmarshal(true)) else Err(Other);
        if r != Err(Other) {
          accepted := accepted + {vm};
        }
      }
      deletion := Some(r);
    }
  }

  // ---------------------------------------------------------------------------
  // The controller
  // ---------------------------------------------------------------------------

  /** How a reconcile or one of its parts ends: done, to be retried, or cut short by a crash. */
  datatype Outcome = Done | Retry | Crashed

  /** Between two calls others act, and the controller may crash. */
  method Between(xo: XenOrchestra, vm: VmId) returns (crashed: bool)
    modifies xo`vms, xo`vbds, xo`disks, xo`raced
    ensures xo.calm ==> !crashed && xo.vms == old(xo.vms) && xo.vbds == old(xo.vbds)
    ensures xo.calm ==> xo.disks == old(xo.disks) && xo.raced == old(xo.raced)
    ensures vm !in old(xo.vms) ==> vm !in xo.vms
    ensures SamePass(xo) && xo.Volumes(vm) <= old(xo.Volumes(vm)) + xo.Raced()
  {
    xo.OthersAct(vm);
    crashed := xo.Fault();
  }

  /** What a fault-free shutdown does. */
  function WithHalted(vms: map<VmId, PowerState>, vm: VmId): map<VmId, PowerState> {
    if vm in vms then vms[vm := Halted] else vms
  }

  /** HardShutdownVM: vm_ops.go:435-462. */
  method HardShutdownVM(xo: XenOrchestra, vm: VmId) returns (r: Outcome)
    modifies xo`vms, xo`vbds, xo`disks, xo`raced, xo`targets, xo`rough, xo`shutdown, xo`task
    ensures r != Crashed ==> (r == Done <==> xo.Confirmed())
    ensures xo.targets == old(xo.targets) + {vm}
    ensures vm !in old(xo.vms) ==> vm !in xo.vms
    ensures SamePass(xo) && xo.Volumes(vm) <= old(xo.Volumes(vm)) + xo.Raced()
    ensures xo.calm ==> xo.vms == WithHalted(old(xo.vms), vm) && r != Crashed
    ensures xo.calm && (vm !in old(xo.vms) || old(xo.vms)[vm] != Halted) ==> r == if vm in xo.vms then Done else Retry
    ensures xo.calm ==> xo.vbds == old(xo.vbds) && xo.disks == old(xo.disks) && xo.raced == old(xo.raced)
    ensures xo.calm && (vm !in old(xo.vms) || old(xo.vms)[vm] != Running || old(xo.Volumes(vm)) == {}) ==>
              xo.rough == old(xo.rough)
  {
    var issued := xo.HardShutdown(vm);
    var crashed := Between(xo, vm);
    if crashed {
      return Crashed;
    }
    match issued
    case Err(Unmarshal(hasTask)) =>
      if !hasTask {
        return Retry;
      }
      var status := xo.WaitTask();
      return if status == WaitFailed then Retry else Done;
    case Err(_) => return Retry;
    case Ok(_) =>
      var status := xo.WaitTask();
      return if status == TaskSucceeded then Done else Retry;
  }

  /** The VM was found paused or suspended, and it is not known to have been shut down. */
  ghost predicate StillStuck(xo: XenOrchestra)
    reads xo
  {
    && xo.power in {Some(Ok(Some(Paused))), Some(Ok(Some(Suspended)))}
    && !xo.Confirmed()
  }

  /** StopVMIfNotDetachable: vm_ops.go:473-495. */
  method StopVMIfNotDetachable(xo: XenOrchestra, vm: VmId) returns (r: Outcome)
    modifies xo`vms, xo`vbds, xo`disks, xo`raced, xo`targets, xo`rough
    modifies xo`refusals, xo`power, xo`shutdown, xo`task
    // A VM that is gone or of which nothing is known is left alone, and so is one neither paused nor suspended.
    ensures xo.power.Some?
    ensures xo.power.value in {Err(NotFound), Ok(None), Ok(Some(Running)), Ok(Some(Halted))} ==>
              r == Done && xo.targets == old(xo.targets)
    ensures xo.power.value.Err? && xo.power.value.error != NotFound ==> r == Retry && xo.targets == old(xo.targets)
    ensures xo.power.value in {Ok(Some(Paused)), Ok(Some(Suspended))} && r != Crashed ==>
              xo.targets == old(xo.targets) + {vm} && (r == Done <==> xo.Confirmed())
    ensures xo.targets <= old(xo.targets) + {vm}
    ensures r != Crashed ==> (r == Retry <==> xo.Refusal(xo.power.value) || StillStuck(xo))
    ensures xo.refusals == old(xo.refusals) + if xo.Refusal(xo.power.value) then 1 else 0
    ensures vm !in old(xo.vms) ==> vm !in xo.vms
    ensures SamePass(xo) && xo.Volumes(vm) <= old(xo.Volumes(vm)) + xo.Raced()
    ensures xo.calm ==>
              && r == Done && xo.rough == old(xo.rough) && xo.raced == old(xo.raced)
              && xo.vbds == old(xo.vbds) && xo.disks == old(xo.disks)
              && xo.vms == if Stuck(old(xo.vms), vm) then old(xo.vms)[vm := Halted] else old(xo.vms)
  {
    var state := xo.GetPowerState(vm);
    match state
    case Err(NotFound) => return Done;
    case Err(_) => return Retry;
    case Ok(None) => return Done;
    case Ok(Some(power)) =>
      if power != Paused && power != Suspended {
        return Done;
      }
      var crashed := Between(xo, vm);
      if crashed {
        return Crashed;
      }
      r := HardShutdownVM(xo, vm);
  }

  /** A VBD of the VM, of a disk with a volume tag. */
  ghost predicate AttachesTagged(inv: Inventory, b: VbdId, vm: VmId) {
    inv.vbd(b).vm == vm && inv.vbd(b).vdi.Some? && inv.Tagged(inv.vbd(b).vdi.value)
  }

  /** Only volumes of the VM are detached. */
  twostate predicate DetachesOnlyVolumes(xo: XenOrchestra, vm: VmId)
    reads xo
  {
    forall b <- xo.detached :: b in old(xo.detached) || AttachesTagged(xo.inventory, b, vm)
  }

  /**
   DetachPersistentVolumes: vm_ops.go:374-429. When it is done, no persistent
   volume is attached to the VM any more, unless the VM is gone or others have
   attached one during the pass.
   */
  method DetachPersistentVolumes(xo: XenOrchestra, vm: VmId) returns (r: Outcome)
    modifies xo`vms, xo`vbds, xo`disks, xo`raced, xo`detached, xo`refusals
    ensures xo.refusals >= old(xo.refusals) && (r != Crashed ==> (r == Retry <==> xo.refusals > old(xo.refusals)))
    ensures vm !in old(xo.vms) ==> vm !in xo.vms
    ensures DetachesOnlyVolumes(xo, vm) && SamePass(xo)
    ensures r == Done ==> vm !in xo.vms || xo.Volumes(vm) <= xo.Raced()
    ensures xo.calm && !Stuck(old(xo.vms), vm) ==>
              r == Done && xo.vms == old(xo.vms) && xo.disks == old(xo.disks) && xo.raced == old(xo.raced)
  {
    var vdis := xo.GetVolumes(vm);
    if vdis.Err? {
      return if vdis.error == NotFound then Done else Retry;
    }
    if vdis.value == {} {
      NoVolumeDisks(xo.inventory, xo.vbds, vm);
      return Done;
    }
    ghost var listed := xo.vbds;
    var crashed := Between(xo, vm);
    if crashed {
      return Crashed;
    }
    var vbds := xo.GetVbds(vm);
    if vbds.Err? {
      return if vbds.error == NotFound then Done else Retry;
    }
    r := DetachListed(xo, vm, vdis.value, vbds.value, listed);
  }

  /** Removes one VBD, unless that fails. */
  method DetachOne(xo: XenOrchestra, vm: VmId, b: VbdId) returns (r: Outcome)
    modifies xo`vms, xo`vbds, xo`disks, xo`raced, xo`detached, xo`refusals
    ensures xo.refusals >= old(xo.refusals) && (r != Crashed ==> (r == Retry <==> xo.refusals > old(xo.refusals)))
    ensures xo.detached <= old(xo.detached) + {b} && SamePass(xo)
    ensures vm !in old(xo.vms) ==> vm !in xo.vms
    ensures r == Done ==> xo.Volumes(vm) <= (old(xo.Volumes(vm)) - {b}) + xo.Raced()
    ensures xo.calm ==> xo.vms == old(xo.vms) && xo.disks == old(xo.disks) && xo.raced == old(xo.raced)
    ensures xo.calm ==> old(xo.vbds) - {b} <= xo.vbds
    ensures xo.calm && b in old(xo.vbds) && !Stuck(old(xo.vms), xo.inventory.vbd(b).vm) ==> r == Done
  {
    var deleted := xo.DeleteVbd(b);
    if deleted.Err? && deleted.error != NotFound {
      return Retry;
    }
    var crashed := Between(xo, vm);
    return if crashed then Crashed else Done;
  }

  lemma LeftOut(volumes: set<VbdId>, rest: set<VbdId>, listed: set<VbdId>, raced: set<VbdId>, b: VbdId)
    requires volumes <= rest + raced && volumes <= listed + raced && b !in listed
    ensures volumes <= (rest - {b}) + raced
  {
  }

  lemma StillWithin(before: set<VbdId>, rest: set<VbdId>, raced: set<VbdId>, more: set<VbdId>, b: VbdId,
                    after: set<VbdId>)
    requires before <= rest + raced && raced <= more && after <= (before - {b}) + more
    ensures after <= (rest - {b}) + more
  {
  }

  /**
   The loop of lines 403-428, over the VBDs of the VM in any order; `listed` is
   what was attached when the volumes were listed.
   */
  method DetachListed(xo: XenOrchestra, vm: VmId, vdis: set<VdiId>, vbds: set<VbdId>, ghost listed: set<VbdId>)
    returns (r: Outcome)
    requires vdis == xo.inventory.VolumeDisks(listed, vm)
    requires forall b <- vbds :: xo.inventory.vbd(b).vm == vm
    requires xo.Volumes(vm) <= vbds && xo.Volumes(vm) <= xo.inventory.Volumes(listed, vm) + xo.Raced()
    modifies xo`vms, xo`vbds, xo`disks, xo`raced, xo`detached, xo`refusals
    ensures xo.refusals >= old(xo.refusals) && (r != Crashed ==> (r == Retry <==> xo.refusals > old(xo.refusals)))
    ensures vm !in old(xo.vms) ==> vm !in xo.vms
    ensures DetachesOnlyVolumes(xo, vm) && SamePass(xo)
    ensures r == Done ==> xo.Volumes(vm) <= xo.Raced()
    ensures xo.calm && !Stuck(old(xo.vms), vm) && vbds <= old(xo.vbds) ==>
              r == Done && xo.vms == old(xo.vms) && xo.disks == old(xo.disks) && xo.raced == old(xo.raced)
  {
    xo.inventory.VolumesAreTagged();
    var rest := vbds;
    while rest != {}
      invariant xo.refusals == old(xo.refusals)
      invariant rest <= vbds && (vm !in old(xo.vms) ==> vm !in xo.vms)
      invariant DetachesOnlyVolumes(xo, vm) && SamePass(xo)
      invariant xo.Volumes(vm) <= rest + xo.Raced()
      invariant xo.Volumes(vm) <= xo.inventory.Volumes(listed, vm) + xo.Raced()
      invariant xo.calm ==> xo.vms == old(xo.vms) && xo.disks == old(xo.disks) && xo.raced == old(xo.raced)
      invariant xo.calm && vbds <= old(xo.vbds) ==> rest <= xo.vbds
      decreases rest
    {
      var b :| b in rest;
      rest := rest - {b};
      var vdi := xo.inventory.vbd(b).vdi;
      if vdi.None? || vdi.value !in vdis {
        ListedVolume(xo.inventory, listed, b, vm);
        LeftOut(xo.Volumes(vm), rest + {b}, xo.inventory.Volumes(listed, vm), xo.Raced(), b);
        continue;
      }
      ghost var before, raced := xo.Volumes(vm), xo.Raced();
      r := DetachOne(xo, vm, b);
      if r != Done {
        return;
      }
      StillWithin(before, rest + {b}, raced, xo.Raced(), b, xo.Volumes(vm));
      StillWithin(before, xo.inventory.Volumes(listed, vm), raced, xo.Raced(), b, xo.Volumes(vm));
    }
    return Done;
  }

  lemma VolumeDiskHasVbd(inv: Inventory, vbds: set<VbdId>, vm: VmId, d: VdiId) returns (b: VbdId)
    requires d in inv.VolumeDisks(vbds, vm)
    ensures b in inv.Volumes(vbds, vm)
  {
    b :| b in vbds && inv.Attaches(b, vm) && inv.vbd(b).vdi.value == d;
  }

  /** A VM has volume disks exactly when it has VBDs that attach them. */
  lemma NoVolumeDisks(inv: Inventory, vbds: set<VbdId>, vm: VmId)
    ensures inv.VolumeDisks(vbds, vm) == {} <==> inv.Volumes(vbds, vm) == {}
  {
    assert forall b <- inv.Volumes(vbds, vm) :: inv.vbd(b).vdi.value in inv.VolumeDisks(vbds, vm);
    if inv.Volumes(vbds, vm) == {} {
      forall d | d in inv.VolumeDisks(vbds, vm) ensures false {
        var b := VolumeDiskHasVbd(inv, vbds, vm, d);
      }
    }
  }

  /** A VBD whose disk is not a listed volume attaches no volume. */
  lemma ListedVolume(inv: Inventory, vbds: set<VbdId>, b: VbdId, vm: VmId)
    ensures b in inv.Volumes(vbds, vm) ==> inv.vbd(b).vdi.Some? && inv.vbd(b).vdi.value in inv.VolumeDisks(vbds, vm)
  {
  }

  // ---------------------------------------------------------------------------
  // reconcileDelete
  // ---------------------------------------------------------------------------

  datatype ProviderId = NoProviderId | Unparsable | VmOf(vm: VmId)

  /** What resolving the credentials and connecting gives: an error, no client, or a client. */
  datatype Connection = ConnectFails | NoClient | Connected

  /** The API server's copy of the machine, as far as its deletion goes. */
  class MachineObject {
    const providerId: ProviderId
    var finalizer: bool

    constructor (providerId: ProviderId, finalizer: bool)
      ensures this.providerId == providerId && this.finalizer == finalizer
    {
      this.providerId, this.finalizer := providerId, finalizer;
    }

    /** removeFinalizer: xomachine_reconcile.go:564-570. The write may fail, with or without effect. */
    method RemoveFinalizer(calm: bool) returns (r: Outcome)
      modifies this
      ensures r == Done ==> !finalizer
      ensures finalizer ==> old(finalizer)
      ensures calm ==> r == Done
    {
      var fails, effect: bool := *, *;
      if calm || !fails || effect {
        finalizer := false;
      }
      return if calm || !fails then Done else Retry;
    }
  }

  /** One of the VBDs attaches this disk to the VM. */
  ghost predicate Attached(inv: Inventory, vbds: set<VbdId>, vm: VmId, d: VdiId) {
    exists b :: b in vbds && inv.vbd(b) == Vbd(vm, Some(d))
  }

  /**
   No delete is issued while a persistent volume is attached, and none is
   destroyed, but for those that others attached while the pass was under way.
   */
  twostate predicate DestroysOnlyRaced(xo: XenOrchestra, vm: VmId)
    reads xo
  {
    && (xo.premature == old(xo.premature) || xo.inventory.Volumes(xo.Raced(), vm) != {})
    && forall d <- xo.destroyed ::
         d in old(xo.destroyed) || !xo.inventory.Tagged(d) || Attached(xo.inventory, xo.Raced(), vm, d)
  }

  /** Every persistent volume is still there. */
  twostate predicate KeepsVolumes(xo: XenOrchestra)
    reads xo
  {
    forall d <- old(xo.disks) :: xo.inventory.Tagged(d) ==> d in xo.disks
  }

  /** The VM was running only until its volumes were detached, and was halted when it was deleted. */
  twostate predicate GoesGently(xo: XenOrchestra)
    reads xo
  {
    xo.rough == old(xo.rough) && xo.abrupt == old(xo.abrupt)
  }

  /** Makes the VM let go of its persistent volumes: xomachine_reconcile.go:520-533. */
  method ReleaseVolumes(xo: XenOrchestra, vm: VmId) returns (r: Outcome)
    modifies xo`vms, xo`vbds, xo`disks, xo`raced, xo`detached, xo`targets, xo`rough
    modifies xo`refusals, xo`power, xo`shutdown, xo`task
    ensures DetachesOnlyVolumes(xo, vm) && SamePass(xo) && xo.targets <= old(xo.targets) + {vm}
    ensures xo.refusals >= old(xo.refusals)
    ensures r != Crashed ==> (r == Retry <==> xo.refusals > old(xo.refusals) || StillStuck(xo))
    ensures r == Done ==> vm !in xo.vms || xo.Volumes(vm) <= xo.Raced()
    ensures xo.calm ==>
              r == Done && xo.disks == old(xo.disks) && xo.rough == old(xo.rough) && xo.raced == old(xo.raced)
  {
    r := StopVMIfNotDetachable(xo, vm);
    if r != Done {
      return;
    }
    var crashed := Between(xo, vm);
    if crashed {
      return Crashed;
    }
    r := DetachPersistentVolumes(xo, vm);
    if r != Done {
      return;
    }
    crashed := Between(xo, vm);
    if crashed {
      return Crashed;
    }
  }

  /** When only these VBDs attach volumes to the VM, its other disks are no volumes. */
  lemma VolumesAmongDisks(inv: Inventory, vbds: set<VbdId>, vm: VmId, these: set<VbdId>)
    requires inv.Volumes(vbds, vm) <= these
    ensures forall d <- inv.Disks(vbds, vm) :: inv.IsVolume(d) ==> Attached(inv, these, vm, d)
    ensures inv.Volumes(vbds, vm) <= inv.Volumes(these, vm)
  {
    forall d | d in inv.Disks(vbds, vm) && inv.IsVolume(d) ensures Attached(inv, these, vm, d) {
      var b :| b in vbds && inv.Attaches(b, vm) && inv.vbd(b).vdi.value == d;
      assert b in inv.Volumes(vbds, vm);
      assert b in these && inv.vbd(b) == Vbd(vm, Some(d));
    }
  }

  lemma MoreAttach(inv: Inventory, vbds: set<VbdId>, more: set<VbdId>, vm: VmId)
    requires vbds <= more
    ensures inv.Volumes(vbds, vm) <= inv.Volumes(more, vm)
    ensures forall d :: Attached(inv, vbds, vm, d) ==> Attached(inv, more, vm, d)
  {
  }

  /** The delete and what its answer means: xomachine_reconcile.go:541-551. */
  method IssueDelete(xo: XenOrchestra, vm: VmId) returns (r: Outcome)
    requires vm !in xo.vms || xo.Volumes(vm) <= xo.Raced()
    modifies xo`vms, xo`vbds, xo`disks, xo`raced, xo`destroyed
    modifies xo`accepted, xo`targets, xo`premature, xo`abrupt, xo`deletion
    ensures r != Crashed ==> xo.deletion.Some? && (r == Retry <==> xo.deletion == Some(Err(Other)))
    ensures DestroysOnlyRaced(xo, vm) && SamePass(xo) && xo.targets == old(xo.targets) + {vm}
    ensures r == Done ==> vm !in xo.vms || vm in xo.accepted
    ensures old(xo.accepted) <= xo.accepted
    ensures xo.calm ==> r == Done && vm !in xo.vms
    ensures xo.calm && old(xo.Raced()) == {} ==> KeepsVolumes(xo)
    ensures vm !in old(xo.vms) || old(xo.vms)[vm] == Halted ==> xo.abrupt == old(xo.abrupt)
  {
    xo.inventory.VolumesAreTagged();
    if vm in xo.vms {
      VolumesAmongDisks(xo.inventory, xo.vbds, vm, xo.Raced());
    }
    ghost var before := xo.Raced();
    var deleted := xo.DeleteVm(vm);
    var crashed := Between(xo, vm);
    MoreAttach(xo.inventory, before, xo.Raced(), vm);
    if crashed {
      return Crashed;
    }
    return if deleted.Err? && deleted.error == Other then Retry else Done;
  }

  /** Shuts the VM down and deletes it: xomachine_reconcile.go:535-551. */
  method ShutDownAndDelete(xo: XenOrchestra, vm: VmId) returns (r: Outcome)
    requires vm !in xo.vms || xo.Volumes(vm) <= xo.Raced()
    modifies xo`vms, xo`vbds, xo`disks, xo`raced, xo`destroyed
    modifies xo`accepted, xo`targets, xo`premature, xo`rough, xo`abrupt, xo`shutdown, xo`task, xo`deletion
    ensures DestroysOnlyRaced(xo, vm) && SamePass(xo) && xo.targets <= old(xo.targets) + {vm}
    ensures r != Crashed ==> xo.deletion.Some? && (r == Retry <==> xo.deletion == Some(Err(Other)))
    ensures r == Done ==> vm !in xo.vms || vm in xo.accepted
    ensures old(xo.accepted) <= xo.accepted
    ensures xo.calm ==> r == Done && vm !in xo.vms
    ensures xo.calm && old(xo.Raced()) == {} ==> KeepsVolumes(xo) && GoesGently(xo)
  {
    // A shutdown that does not complete does not stop the cleanup.
    var stopped := HardShutdownVM(xo, vm);
    if stopped == Crashed {
      return Crashed;
    }
    var crashed := Between(xo, vm);
    if crashed {
      return Crashed;
    }
    r := IssueDelete(xo, vm);
  }

  /** The part of reconcileDelete that deals with the VM: xomachine_reconcile.go:520-551. */
  method DeleteMachineVm(xo: XenOrchestra, vm: VmId) returns (r: Outcome)
    modifies xo
    ensures DestroysOnlyRaced(xo, vm) && DetachesOnlyVolumes(xo, vm)
    ensures |xo.raced| == |old(xo.raced)| + 1 && xo.raced[..|old(xo.raced)|] == old(xo.raced)
    ensures r == Done ==> vm !in xo.vms || vm in xo.accepted
    ensures r == Done ==> xo.refusals == old(xo.refusals) && xo.deletion.Some? && xo.deletion != Some(Err(Other))
    ensures r == Retry ==> xo.refusals > old(xo.refusals) || StillStuck(xo) || xo.deletion == Some(Err(Other))
    ensures old(xo.accepted) <= xo.accepted && xo.targets <= old(xo.targets) + {vm}
    ensures xo.calm ==> r == Done && vm !in xo.vms && KeepsVolumes(xo) && GoesGently(xo)
  {
    xo.Begin();
    r := ReleaseVolumes(xo, vm);
    if r == Done {
      r := ShutDownAndDelete(xo, vm);
    }
  }

  /** reconcileDelete: xomachine_reconcile.go:490-559. */
  method ReconcileDelete(xo: XenOrchestra, machine: MachineObject, connection: Connection) returns (r: Outcome)
    modifies xo, machine
    ensures machine.providerId.VmOf? ==>
              && DestroysOnlyRaced(xo, machine.providerId.vm) && DetachesOnlyVolumes(xo, machine.providerId.vm)
              && xo.targets <= old(xo.targets) + {machine.providerId.vm}
    ensures xo.raced == old(xo.raced)
         || (|xo.raced| == |old(xo.raced)| + 1 && xo.raced[..|old(xo.raced)|] == old(xo.raced))
    ensures xo.destroyed == old(xo.destroyed) || |xo.raced| > |old(xo.raced)|
    ensures xo.premature == old(xo.premature) || |xo.raced| > |old(xo.raced)|
    ensures !(machine.providerId.VmOf? && connection == Connected) || !old(machine.finalizer) ==>
              && xo.targets == old(xo.targets)
              && xo.vms == old(xo.vms) && xo.vbds == old(xo.vbds) && xo.disks == old(xo.disks)
    ensures xo.calm && (!machine.providerId.VmOf? || connection == NoClient) ==> r == Done && !machine.finalizer
    ensures machine.finalizer ==> old(machine.finalizer)
    ensures r == Done ==> !machine.finalizer
    ensures old(machine.finalizer) && machine.providerId.VmOf? && connection == ConnectFails ==>
              r == Retry && machine.finalizer
    // With a providerID that names a VM and a client, the finalizer goes last.
    ensures old(machine.finalizer) && !machine.finalizer && machine.providerId.VmOf? && connection != NoClient ==>
              machine.providerId.vm !in xo.vms || machine.providerId.vm in xo.accepted
    // From any power state one calm pass completes, and every volume is kept.
    ensures xo.calm && old(machine.finalizer) && machine.providerId.VmOf? && connection == Connected ==>
              r == Done && !machine.finalizer && machine.providerId.vm !in xo.vms && KeepsVolumes(xo) && GoesGently(xo)
  {
    if !machine.finalizer {
      return Done;
    }
    if machine.providerId.VmOf? {
      if connection == ConnectFails {
        return Retry;
      }
      if connection == Connected {
        r := DeleteMachineVm(xo, machine.providerId.vm);
        if r != Done {
          return;
        }
      }
    }
    r := machine.RemoveFinalizer(xo.calm);
  }

  /** Since pass n others attached this disk to the VM while a pass was under way. */
  ghost predicate RacedSince(inv: Inventory, raced: seq<set<VbdId>>, n: nat, vm: VmId, d: VdiId) {
    exists p :: n <= p < |raced| && Attached(inv, raced[p], vm, d)
  }

  /** Since pass n others attached some volume to the VM while a pass was under way. */
  ghost predicate SomeRacedSince(inv: Inventory, raced: seq<set<VbdId>>, n: nat, vm: VmId) {
    exists p :: n <= p < |raced| && inv.Volumes(raced[p], vm) != {}
  }

  /** Any number of passes, with others acting in between; `connections` is what each pass gets. */
  method DeletionRun(xo: XenOrchestra, machine: MachineObject, connections: seq<Connection>)
    requires machine.providerId.VmOf?
    modifies xo, machine
    ensures DetachesOnlyVolumes(xo, machine.providerId.vm)
    ensures xo.calm && (exists c <- connections :: c != ConnectFails) ==> !machine.finalizer
    ensures xo.targets <= old(xo.targets) + {machine.providerId.vm}
    ensures xo.premature == old(xo.premature)
         || SomeRacedSince(xo.inventory, xo.raced, |old(xo.raced)|, machine.providerId.vm)
    ensures forall d <- xo.destroyed ::
              || d in old(xo.destroyed) || !xo.inventory.Tagged(d)
              || RacedSince(xo.inventory, xo.raced, |old(xo.raced)|, machine.providerId.vm, d)
  {
    for i := 0 to |connections|
      invariant DetachesOnlyVolumes(xo, machine.providerId.vm)
      invariant xo.calm && (exists k :: 0 <= k < i && connections[k] != ConnectFails) ==> !machine.finalizer
      invariant xo.targets <= old(xo.targets) + {machine.providerId.vm}
      invariant |old(xo.raced)| <= |xo.raced|
      invariant xo.premature == old(xo.premature)
             || SomeRacedSince(xo.inventory, xo.raced, |old(xo.raced)|, machine.providerId.vm)
      invariant forall d <- xo.destroyed ::
                  || d in old(xo.destroyed) || !xo.inventory.Tagged(d)
                  || RacedSince(xo.inventory, xo.raced, |old(xo.raced)|, machine.providerId.vm, d)
    {
      ghost var n, raced, destroyed, premature := |old(xo.raced)|, xo.raced, xo.destroyed, xo.premature;
      var r := ReconcileDelete(xo, machine, connections[i]);
      MoreRaced(xo.inventory, raced, xo.raced, n, machine.providerId.vm);
      assert xo.premature == premature || xo.inventory.Volumes(xo.raced[|xo.raced| - 1], machine.providerId.vm) != {};
      forall d | d in xo.destroyed && d !in destroyed && xo.inventory.Tagged(d)
        ensures RacedSince(xo.inventory, xo.raced, n, machine.providerId.vm, d)
      {
        assert Attached(xo.inventory, xo.raced[|xo.raced| - 1], machine.providerId.vm, d);
      }
      // Between two passes others may attach volumes to the VM, too.
      xo.AnythingElse();
    }
  }

  lemma MoreRaced(inv: Inventory, raced: seq<set<VbdId>>, more: seq<set<VbdId>>, n: nat, vm: VmId)
    requires raced <= more
    ensures forall d :: RacedSince(inv, raced, n, vm, d) ==> RacedSince(inv, more, n, vm, d)
    ensures SomeRacedSince(inv, raced, n, vm) ==> SomeRacedSince(inv, more, n, vm)
  {
    if SomeRacedSince(inv, raced, n, vm) {
      var p :| n <= p < |raced| && inv.Volumes(raced[p], vm) != {};
      assert more[p] == raced[p];
    }
    forall d | RacedSince(inv, raced, n, vm, d) ensures RacedSince(inv, more, n, vm, d) {
      var p :| n <= p < |raced| && Attached(inv, raced[p], vm, d);
      assert more[p] == raced[p];
    }
  }
}
