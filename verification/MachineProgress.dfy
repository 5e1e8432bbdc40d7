/**
 The machine protocol can always finish: whatever has happened, a machine that
 is not being deleted can still become ready, without a failed lookup, and any
 machine can still be deleted together with the VM it recorded.
 */
module MachineProgress {
  import opened Options
  import opened Strings
  import opened VmAdoption
  import opened MachineProtocol
  import opened MachineSafety
  import opened MachineRuns
  import opened MachineTheorems
  import VmAddress

  function End(trace: seq<State>): State
    requires |trace| > 0
  {
    trace[|trace| - 1]
  }

  /** A run that ends with the machine in this condition. */
  ghost predicate Ends(trace: seq<State>, uid: Uid, m: Machine) {
    Run(trace) && uid in End(trace).machines && End(trace).machines[uid] == m
  }

  /** The worker holds the persisted version and comes to this point next. */
  predicate Ahead(m: Machine, pc: Pc) {
    !m.gone && |m.versions| > 0 && m.worker == Busy(pc, Last(m), |m.versions| - 1)
  }

  lemma LocalExtend(trace: seq<State>, uid: Uid, m: Machine, action: Action, m': Machine) returns (trace': seq<State>)
    requires Ends(trace, uid, m) && LocalStep(m, action, m')
    ensures Ends(trace', uid, m') && trace <= trace'
    ensures End(trace') == End(trace).(machines := End(trace).machines[uid := m'])
  {
    var s := End(trace);
    trace' := RunAppend(trace, Local(uid, action), s.(machines := s.machines[uid := m']));
  }

  lemma XoExtend(trace: seq<State>, uid: Uid, action: XoAction, s': State) returns (trace': seq<State>)
    requires Run(trace) && uid in End(trace).machines && XoStep(End(trace), uid, action, s')
    ensures Run(trace') && trace <= trace' && End(trace') == s'
  {
    trace' := RunAppend(trace, Xo(uid, action), s');
  }

  // ---------------------------------------------------------------------------
  // Writes that are accepted
  // ---------------------------------------------------------------------------

  function Written(m: Machine, next: Obj, pc: Pc): Machine {
    m.(versions := m.versions + [next], worker := Busy(pc, next, |m.versions|))
  }

  lemma WrittenIsAhead(m: Machine, next: Obj, pc: Pc)
    requires !m.gone
    ensures Ahead(Written(m, next, pc), pc) && Last(Written(m, next, pc)) == next
  {
  }

  /** A write that leads to another point of the same pass. */
  lemma WriteExtends(trace: seq<State>, uid: Uid, m: Machine, change: Change, next: Obj, pc: Pc)
    returns (trace': seq<State>)
    requires Ends(trace, uid, m) && m.worker.Busy? && Ahead(m, m.worker.pc)
    requires PlanOf(m, m.worker, change).Some? && (next.deleting ==> next.finalizer)
    requires PlanOf(m, m.worker, change).value.next == next
    requires PlanOf(m, m.worker, change).value.onOk == Busy(pc, next, |m.versions|)
    ensures Ends(trace', uid, Written(m, next, pc)) && trace <= trace'
    ensures Ahead(Written(m, next, pc), pc) && Last(Written(m, next, pc)) == next
  {
    WrittenIsAhead(m, next, pc);
    trace' := LocalExtend(trace, uid, m, Write(change, Ok), Written(m, next, pc));
  }

  // ---------------------------------------------------------------------------
  // Listings and fresh IDs
  // ---------------------------------------------------------------------------

  /** Some listing is complete and correct. */
  lemma {:induction false} Listing(vms: map<VmId, Vm>) returns (list: seq<VmRecord>)
    ensures forall r <- list :: r.id in vms && vms[r.id] == Vm(r.name, r.description)
    ensures forall v <- vms :: exists r <- list :: r.id == v
    decreases |vms|
  {
    if vms == map[] {
      list := [];
    } else {
      var v :| v in vms;
      var rest := vms - {v};
      assert rest.Keys == vms.Keys - {v};
      var others := Listing(rest);
      list := [VmRecord(v, vms[v].name, vms[v].description)] + others;
      forall w | w in vms ensures exists r <- list :: r.id == w {
        if w == v {
          assert list[0] in list;
        } else {
          assert w in rest;
          var r :| r in others && r.id == w;
          assert r in list;
        }
      }
    }
  }

  lemma {:induction false} FreshId(ids: set<VmId>) returns (v: VmId)
    ensures v !in ids && forall w <- ids :: w < v
  {
    if ids == {} {
      v := 0;
    } else {
      var w :| w in ids;
      var u := FreshId(ids - {w});
      v := if u <= w then w + 1 else u;
      assert forall x <- ids :: x == w || x in ids - {w};
    }
  }

  // ---------------------------------------------------------------------------
  // Becoming ready
  // ---------------------------------------------------------------------------

  /** The machine as it is in the end. */
  ghost predicate ReadyEnd(trace: seq<State>, uid: Uid, blind: nat) {
    && Run(trace) && uid in End(trace).machines && |End(trace).machines[uid].versions| > 0
    && Persisted(End(trace), uid).ready && End(trace).machines[uid].blind == blind
  }

  predicate Unready(m: Machine) {
    |m.versions| > 0 && !Last(m).ready && !Last(m).deleting && Last(m).finalizer
  }

  lemma FromAwait(trace: seq<State>, uid: Uid, m: Machine, vm: VmId) returns (trace': seq<State>)
    requires Ends(trace, uid, m) && Ahead(m, Await(vm)) && Unready(m)
    ensures ReadyEnd(trace', uid, m.blind) && trace <= trace'
  {
    var next := ReadyObj(Last(m), "10.0.0.1");
    var m' := m.(versions := m.versions + [next], worker := Idle);
    trace' := LocalExtend(trace, uid, m, Write(SetReady("10.0.0.1"), Ok), m');
  }

  lemma FromSave(trace: seq<State>, uid: Uid, m: Machine, vm: VmId) returns (trace': seq<State>)
    requires Ends(trace, uid, m) && Ahead(m, SaveSpec(vm)) && Unready(m)
    ensures ReadyEnd(trace', uid, m.blind) && trace <= trace'
  {
    var spec := Last(m).(specProviderId := Some(vm));
    var status := spec.(providerId := Some(vm));
    trace' := WriteExtends(trace, uid, m, SaveProviderId, spec, SaveStatus(vm));
    var m1 := Written(m, spec, SaveStatus(vm));
    trace' := WriteExtends(trace', uid, m1, SaveProviderId, status, Await(vm));
    trace' := FromAwait(trace', uid, Written(m1, status, Await(vm)), vm);
  }

  lemma FromCreate(trace: seq<State>, uid: Uid, m: Machine) returns (trace': seq<State>)
    requires Ends(trace, uid, m) && Ahead(m, Create(false)) && Unready(m)
    ensures ReadyEnd(trace', uid, m.blind) && trace <= trace'
  {
    var s := End(trace);
    var v := FreshId(s.born.Keys);
    var m' := m.(worker := m.worker.(pc := SaveSpec(v)));
    var vm := Vm(m.worker.obj.vmName, Marker(uid));
    var s' := State(s.machines[uid := m'], s.vms[v := vm], s.born[v := vm],
                    s.calls + [CreateCall(uid, vm.name, vm.description)]);
    trace' := XoExtend(trace, uid, CreateVm(Some(v), true), s');
    trace' := FromSave(trace', uid, m', v);
  }

  /** Where an answered lookup leads. */
  function AfterList(m: Machine, found: Option<VmRecord>): Machine
    requires m.worker.Busy?
  {
    m.(worker := m.worker.(pc := if found.Some? then SaveSpec(found.value.id) else Create(false)))
  }

  lemma ListExtends(trace: seq<State>, uid: Uid, m: Machine) returns (trace': seq<State>, found: Option<VmRecord>)
    requires Ends(trace, uid, m) && Ahead(m, Lookup)
    ensures Ends(trace', uid, AfterList(m, found)) && trace <= trace'
  {
    var s := End(trace);
    var list := Listing(s.vms);
    assert Accurate(list, s.vms, m.worker.obj.vmName);
    found := FirstAdoptable(list, m.worker.obj.vmName, Marker(uid));
    trace' := XoExtend(trace, uid, List(list), s.(machines := s.machines[uid := AfterList(m, found)]));
  }

  lemma FromLookup(trace: seq<State>, uid: Uid, m: Machine) returns (trace': seq<State>)
    requires Ends(trace, uid, m) && Ahead(m, Lookup) && Unready(m)
    ensures ReadyEnd(trace', uid, m.blind) && trace <= trace'
  {
    var found;
    trace', found := ListExtends(trace, uid, m);
    if found.Some? {
      trace' := FromSave(trace', uid, AfterList(m, found), found.value.id);
    } else {
      trace' := FromCreate(trace', uid, AfterList(m, found));
    }
  }

  lemma FromProvision(trace: seq<State>, uid: Uid, m: Machine) returns (trace': seq<State>)
    requires Ends(trace, uid, m) && Ahead(m, Provision) && Unready(m)
    ensures ReadyEnd(trace', uid, m.blind) && trace <= trace'
  {
    var path := ChoosePath(Last(m));
    if path.None? {
      var next := Last(m).(vmName := "n");
      trace' := WriteExtends(trace, uid, m, RecordName("n"), next, Lookup);
      trace' := FromLookup(trace', uid, Written(m, next, Lookup));
    } else {
      var m' := m.(worker := m.worker.(pc := path.value));
      trace' := LocalExtend(trace, uid, m, Choose, m');
      if path.value == Lookup {
        trace' := FromLookup(trace', uid, m');
      } else {
        trace' := FromAwait(trace', uid, m', Last(m).providerId.value);
      }
    }
  }

  /** A fresh read, by an idle worker. */
  lemma FreshRead(trace: seq<State>, uid: Uid, m: Machine) returns (trace': seq<State>, m': Machine)
    requires Ends(trace, uid, m) && MachineOk(m) && m.worker.Idle? && !m.gone
    ensures Ends(trace', uid, m') && trace <= trace' && m'.versions == m.versions && !m'.gone
    ensures m'.blind == m.blind && m'.accepted == m.accepted && End(trace').vms == End(trace).vms
    ensures m'.worker == Dispatch(Last(m), |m.versions| - 1)
  {
    var k := |m.versions| - 1;
    m' := m.(seen := k, worker := Dispatch(Last(m), k), skipped := false);
    trace' := LocalExtend(trace, uid, m, Read(k), m');
  }

  /** A busy worker may stop. */
  lemma Rest(trace: seq<State>, uid: Uid) returns (trace': seq<State>)
    requires Run(trace) && uid in End(trace).machines
    ensures Run(trace') && trace <= trace' && MachineOk(End(trace).machines[uid])
    ensures var rested := End(trace).machines[uid].(worker := Idle);
            End(trace') == End(trace).(machines := End(trace).machines[uid := rested])
  {
    var m := End(trace).machines[uid];
    RunInv(trace, |trace| - 1);
    assert Joined(End(trace), uid);
    if m.worker.Idle? {
      trace' := trace;
      assert End(trace) == End(trace).(machines := End(trace).machines[uid := m]);
    } else {
      trace' := LocalExtend(trace, uid, m, Stop, m.(worker := Idle));
    }
  }

  lemma FromIdle(trace: seq<State>, uid: Uid, m: Machine) returns (trace': seq<State>)
    requires Ends(trace, uid, m) && MachineOk(m) && m.worker.Idle?
    requires !m.gone && !Last(m).deleting && !Last(m).ready
    ensures trace <= trace' && ReadyEnd(trace', uid, m.blind)
  {
    var m1;
    trace', m1 := FreshRead(trace, uid, m);
    if Last(m).finalizer {
      trace' := FromProvision(trace', uid, m1);
    } else {
      var next := Last(m).(finalizer := true);
      trace' := WriteExtends(trace', uid, m1, AddFinalizer, next, Provision);
      trace' := FromProvision(trace', uid, Written(m1, next, Provision));
    }
  }

  /** From every reachable state a machine that is not being deleted can become ready without a failed lookup. */
  lemma CanBecomeReady(trace: seq<State>, uid: Uid) returns (trace': seq<State>)
    requires Run(trace) && uid in End(trace).machines && |End(trace).machines[uid].versions| > 0
    requires !End(trace).machines[uid].gone && !Persisted(End(trace), uid).deleting
    ensures trace <= trace' && ReadyEnd(trace', uid, End(trace).machines[uid].blind)
  {
    var m := End(trace).machines[uid];
    if Last(m).ready {
      trace' := trace;
    } else {
      trace' := Rest(trace, uid);
      trace' := FromIdle(trace', uid, m.(worker := Idle));
    }
  }

  // ---------------------------------------------------------------------------
  // Being deleted
  // ---------------------------------------------------------------------------

  /** The machine is gone, and so is the VM it had recorded. */
  ghost predicate DeletedEnd(trace: seq<State>, uid: Uid, id: Option<VmId>) {
    && Run(trace) && uid in End(trace).machines && End(trace).machines[uid].gone
    && (id.Some? ==> id.value !in End(trace).vms && id.value in End(trace).machines[uid].accepted)
  }

  lemma FromDrop(trace: seq<State>, uid: Uid, m: Machine, id: Option<VmId>) returns (trace': seq<State>)
    requires Ends(trace, uid, m) && Ahead(m, DropFinalizer) && Last(m).deleting
    requires id.Some? ==> id.value !in End(trace).vms && id.value in m.accepted
    ensures trace <= trace' && DeletedEnd(trace', uid, id)
  {
    var next := Last(m).(finalizer := false);
    var m' := m.(versions := m.versions + [next], gone := true, worker := Idle);
    trace' := LocalExtend(trace, uid, m, Write(RemoveFinalizer, Ok), m');
  }

  lemma FromDelete(trace: seq<State>, uid: Uid, m: Machine, vm: VmId) returns (trace': seq<State>)
    requires Ends(trace, uid, m) && Ahead(m, DeleteVm(vm)) && Last(m).deleting
    ensures trace <= trace' && DeletedEnd(trace', uid, Some(vm))
  {
    var s := End(trace);
    var m' := AfterDelete(m, Deleted);
    var s' := s.(vms := s.vms - {vm}, machines := s.machines[uid := m']);
    trace' := XoExtend(trace, uid, DeleteCall(true, Deleted), s');
    trace' := FromDrop(trace', uid, m', Some(vm));
  }

  lemma FromDeleting(trace: seq<State>, uid: Uid, m: Machine) returns (trace': seq<State>)
    requires Ends(trace, uid, m) && MachineOk(m) && m.worker.Idle? && !m.gone && Last(m).finalizer && Last(m).deleting
    ensures trace <= trace' && DeletedEnd(trace', uid, Last(m).providerId)
  {
    var m';
    trace', m' := FreshRead(trace, uid, m);
    if Last(m).providerId.Some? {
      trace' := FromDelete(trace', uid, m', Last(m).providerId.value);
    } else {
      trace' := FromDrop(trace', uid, m', None);
    }
  }

  /** From every reachable state a machine with its finalizer can be deleted, together with the VM it recorded. */
  lemma CanBeDeleted(trace: seq<State>, uid: Uid) returns (trace': seq<State>)
    requires Run(trace) && uid in End(trace).machines && |End(trace).machines[uid].versions| > 0
    requires !End(trace).machines[uid].gone && Persisted(End(trace), uid).finalizer
    ensures trace <= trace' && DeletedEnd(trace', uid, Persisted(End(trace), uid).providerId)
  {
    var m := End(trace).machines[uid].(worker := Idle);
    var m' := m.(versions := m.versions + [Last(m).(deleting := true)]);
    trace' := Rest(trace, uid);
    ExternalKeepsMachine(m, true, m');
    trace' := LocalExtend(trace', uid, m, External(true), m');
    trace' := FromDeleting(trace', uid, m');
  }
}
