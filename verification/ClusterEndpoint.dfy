/**
 The control plane endpoint of an XOCluster
 (internal/controller/xocluster_controller.go:112-146 and 264-305).
 */
module ClusterEndpoint {
  import opened Options
  import opened VmAddress
  import opened Conditions
  import MachineProtocol
  import MachineSafety
  import MachineTheorems

  datatype Endpoint = Endpoint(host: string, port: int, subnet: Option<int>)

  /** The status of the cluster, as far as reconcileNormal writes it. */
  datatype Status = Status(endpoint: Option<Endpoint>, ready: bool, provisioned: bool, conditions: seq<Condition>)

  const NEW_STATUS := Status(None, false, false, [])

  predicate HasHost(e: Option<Endpoint>) {
    e.Some? && e.value.host != ""
  }

  const API_PORT := 6443

  // ---------------------------------------------------------------------------
  // Discovery
  // ---------------------------------------------------------------------------

  /** A control plane Machine: its cluster, whether it refers to an XOMachine, and what reading that gives. */
  datatype ControlPlaneMachine = ControlPlaneMachine(
    cluster: string, isXOMachine: bool, read: Option<MachineProtocol.Obj>)

  predicate IsHostAddress(a: NodeAddress) {
    a.kind == InternalIP || a.kind == ExternalIP
  }

  /** The endpoint at port 6443 of the address at k, the first that is an InternalIP or an ExternalIP. */
  predicate HostAt(addresses: seq<NodeAddress>, k: int, e: Endpoint) {
    && 0 <= k < |addresses| && (addresses[k].kind == InternalIP || addresses[k].kind == ExternalIP)
    && e == Endpoint(addresses[k].address, 6443, None)
    && forall l :: 0 <= l < k ==> addresses[l].kind == Hostname
  }

  function FirstHost(addresses: seq<NodeAddress>): (r: Option<Endpoint>)
    ensures r.None? <==> forall a <- addresses :: a.kind == Hostname
    ensures r.Some? ==> exists k :: HostAt(addresses, k, r.value)
  {
    if addresses == [] then None
    else if IsHostAddress(addresses[0]) then
      assert HostAt(addresses, 0, Endpoint(addresses[0].address, API_PORT, None));
      Some(Endpoint(addresses[0].address, API_PORT, None))
    else
      var r := FirstHost(addresses[1..]);
      assert r.Some? ==> forall k :: HostAt(addresses[1..], k, r.value) ==> HostAt(addresses, k + 1, r.value);
      r
  }

  /** What one machine contributes. */
  function EndpointOf(m: ControlPlaneMachine, cluster: string): Option<Endpoint> {
    if m.cluster == cluster && m.isXOMachine && m.read.Some? && m.read.value.ready
    then FirstHost(m.read.value.addresses) else None
  }

  /** The machine at k offers the endpoint, and none before it offers any. */
  predicate OfferedAt(machines: seq<ControlPlaneMachine>, cluster: string, k: int, e: Endpoint) {
    && 0 <= k < |machines| && EndpointOf(machines[k], cluster) == Some(e)
    && forall l :: 0 <= l < k ==> EndpointOf(machines[l], cluster).None?
  }

  lemma OfferedLater(machines: seq<ControlPlaneMachine>, cluster: string)
    requires machines != [] && EndpointOf(machines[0], cluster).None?
    ensures forall k, e :: OfferedAt(machines[1..], cluster, k, e) ==> OfferedAt(machines, cluster, k + 1, e)
  {
    forall k, e | OfferedAt(machines[1..], cluster, k, e) ensures OfferedAt(machines, cluster, k + 1, e) {
      forall l | 0 <= l < k + 1 ensures EndpointOf(machines[l], cluster).None? {
        assert l > 0 ==> machines[l] == machines[1..][l - 1];
      }
    }
  }

  function FirstEndpoint(machines: seq<ControlPlaneMachine>, cluster: string): (r: Option<Endpoint>)
    ensures r.Some? ==> exists k :: OfferedAt(machines, cluster, k, r.value)
    ensures r.None? <==> forall m <- machines :: EndpointOf(m, cluster).None?
  {
    if machines == [] then None
    else if EndpointOf(machines[0], cluster).Some? then
      assert OfferedAt(machines, cluster, 0, EndpointOf(machines[0], cluster).value);
      EndpointOf(machines[0], cluster)
    else
      OfferedLater(machines, cluster);
      FirstEndpoint(machines[1..], cluster)
  }

  /** A machine offers its first host, when it is a ready XOMachine of the cluster that could be read, and only then. */
  lemma OfferExactly(m: ControlPlaneMachine, cluster: string)
    ensures EndpointOf(m, cluster).Some? <==>
              && m.cluster == cluster && m.isXOMachine && m.read.Some? && m.read.value.ready
              && exists a <- m.read.value.addresses :: a.kind != Hostname
    ensures EndpointOf(m, cluster).Some? ==>
              exists k :: HostAt(m.read.value.addresses, k, EndpointOf(m, cluster).value)
  {
  }

  /** What a listing leads to; one that fails discovers nothing. */
  function Discovered(machines: Option<seq<ControlPlaneMachine>>, cluster: string): Option<Endpoint> {
    if machines.Some? then FirstEndpoint(machines.value, cluster) else None
  }

  method FindHost(addresses: seq<NodeAddress>) returns (r: Option<Endpoint>)
    ensures r == FirstHost(addresses)
  {
    for i := 0 to |addresses|
      invariant FirstHost(addresses[i..]) == FirstHost(addresses)
    {
      assert addresses[i..][1..] == addresses[i + 1..];
      if IsHostAddress(addresses[i]) {
        return Some(Endpoint(addresses[i].address, API_PORT, None));
      }
    }
    return None;
  }

  /** discoverControlPlaneEndpoint: xocluster_controller.go:264-305. */
  method DiscoverControlPlaneEndpoint(machines: seq<ControlPlaneMachine>, cluster: string) returns (r: Option<Endpoint>)
    ensures r == FirstEndpoint(machines, cluster)
    ensures r.Some? ==> exists k :: OfferedAt(machines, cluster, k, r.value)
  {
    for i := 0 to |machines|
      invariant FirstEndpoint(machines[i..], cluster) == FirstEndpoint(machines, cluster)
    {
      var m := machines[i];
      assert machines[i..][1..] == machines[i + 1..];
      if m.cluster != cluster {
        continue;
      }
      if !m.isXOMachine {
        continue;
      }
      if m.read.None? {
        continue;
      }
      if m.read.value.ready && |m.read.value.addresses| > 0 {
        var host := FindHost(m.read.value.addresses);
        if host.Some? {
          return host;
        }
      }
    }
    return None;
  }

  /** Each machine was read as some version of an object of a run of the machine protocol. */
  ghost predicate ReadInRun(machines: seq<ControlPlaneMachine>, trace: seq<MachineProtocol.State>) {
    && MachineProtocol.Run(trace)
    && forall m <- machines :: m.read.Some? ==> Seen(m.read.value, trace)
  }

  ghost predicate Seen(obj: MachineProtocol.Obj, trace: seq<MachineProtocol.State>) {
    exists i, uid, k :: VersionAt(trace, i, uid, k, obj)
  }

  ghost predicate VersionAt(trace: seq<MachineProtocol.State>, i: nat, uid: string, k: nat, obj: MachineProtocol.Obj) {
    && i < |trace| && uid in trace[i].machines && k < |trace[i].machines[uid].versions|
    && trace[i].machines[uid].versions[k] == obj
  }

  /** A ready machine always has an address to offer, and no discovered endpoint is empty. */
  lemma DiscoveredEndpointHasHost(machines: seq<ControlPlaneMachine>, cluster: string,
                                  trace: seq<MachineProtocol.State>)
    requires ReadInRun(machines, trace)
    ensures FirstEndpoint(machines, cluster).Some? ==> HasHost(FirstEndpoint(machines, cluster))
    ensures FirstEndpoint(machines, cluster).Some? <==>
              exists m <- machines :: m.cluster == cluster && m.isXOMachine && m.read.Some? && m.read.value.ready
  {
    forall m | m in machines && m.read.Some? ensures MachineSafety.Sound(m.read.value) {
      assert Seen(m.read.value, trace);
      var i, uid, k :| VersionAt(trace, i, uid, k, m.read.value);
      MachineTheorems.AnyReadIsSound(trace, i, uid, k);
    }
    forall m | m in machines && m.cluster == cluster && m.isXOMachine && m.read.Some? && m.read.value.ready
      ensures HasHost(EndpointOf(m, cluster))
    {
      assert Usable(m.read.value.addresses);
    }
  }

  // ---------------------------------------------------------------------------
  // Reconciling
  // ---------------------------------------------------------------------------

  const READY_REASON := "ClusterInfrastructureReady"
  const WAITING_REASON := "WaitingForControlPlaneEndpoint"

  /** The Ready condition that goes with the outcome: xocluster_controller.go:137-139. */
  function ReadyCall(ready: bool, now: nat): Call {
    if ready then Call("Ready", True, READY_REASON, "Cluster infrastructure is ready", now)
    else
      Call("Ready", False, WAITING_REASON, "Waiting for a ready control plane machine to discover the endpoint", now)
  }

  /** The endpoint that reconcileNormal settles on: its own, else the one of the spec, else the discovered one. */
  function Settled(endpoint: Option<Endpoint>, spec: Option<Endpoint>, discovered: Option<Endpoint>): Option<Endpoint> {
    if HasHost(endpoint) then endpoint
    else if HasHost(spec) then spec
    else discovered
  }

  /** The status that reconcileNormal computes: xocluster_controller.go:112-140. */
  function Reconciled(status: Status, spec: Option<Endpoint>, discovered: Option<Endpoint>, now: nat): Status {
    var endpoint := Settled(status.endpoint, spec, discovered);
    var conditions := WithCondition(status.conditions, ReadyCall(endpoint.Some?, now));
    if endpoint.Some? then Status(endpoint, true, true, conditions) else status.(conditions := conditions)
  }

  /** A reconcile fails before it changes anything, or goes on to write the status. */
  datatype Outcome = ListingFailed | Computed(needsRequeue: bool)

  /** The status of the cluster object, edited step by step as the source does. */
  class ClusterStatus {
    var endpoint: Option<Endpoint>
    var ready: bool
    var provisioned: bool
    const conditions: ConditionList

    constructor ()
      ensures fresh(conditions) && Value() == NEW_STATUS
    {
      endpoint, ready, provisioned := None, false, false;
      conditions := new ConditionList();
    }

    function Value(): Status
      reads this, conditions
    {
      Status(endpoint, ready, provisioned, conditions.conditions)
    }

    /** Takes over what the API server answered. */
    method Load(status: Status)
      modifies this, conditions
      ensures Value() == status
    {
      endpoint, ready, provisioned := status.endpoint, status.ready, status.provisioned;
      conditions.conditions := status.conditions;
    }

    /** The endpoint part: xocluster_controller.go:112-132. */
    method SettleEndpoint(spec: Option<Endpoint>, machines: Option<seq<ControlPlaneMachine>>, cluster: string)
      returns (r: Outcome)
      modifies this`endpoint
      ensures r == ListingFailed <==> !HasHost(old(endpoint)) && !HasHost(spec) && machines.None?
      ensures old(endpoint).Some? && old(endpoint).value.host != "" ==> endpoint == old(endpoint)
      ensures (old(endpoint).None? || old(endpoint).value.host == "") && spec.Some? && spec.value.host != "" ==>
                endpoint == spec
      ensures var settled := Settled(old(endpoint), spec, Discovered(machines, cluster));
              && endpoint == (if settled.Some? then settled else old(endpoint))
              && (r.Computed? ==> (r.needsRequeue <==> settled.None?))
    {
      if endpoint.None? || endpoint.value.host == "" {
        if spec.Some? && spec.value.host != "" {
          endpoint := spec;
        } else {
          if machines.None? {
            return ListingFailed;
          }
          var discovered := DiscoverControlPlaneEndpoint(machines.value, cluster);
          if discovered.None? {
            return Computed(true);
          }
          endpoint := discovered;
        }
      }
      return Computed(false);
    }

    /** Lines 112-140. `machines` is the answer to the listing of the control plane machines, if that succeeds. */
    method Reconcile(spec: Option<Endpoint>, machines: Option<seq<ControlPlaneMachine>>, cluster: string, now: nat)
      returns (r: Outcome)
      modifies this, conditions
      ensures r == ListingFailed <==> !HasHost(old(endpoint)) && !HasHost(spec) && machines.None?
      ensures r == ListingFailed ==> Value() == old(Value())
      ensures r.Computed? ==>
                && Value() == Reconciled(old(Value()), spec, Discovered(machines, cluster), now)
                && (r.needsRequeue <==> Settled(old(endpoint), spec, Discovered(machines, cluster)).None?)
    {
      r := SettleEndpoint(spec, machines, cluster);
      if r == ListingFailed {
        return;
      }
      if !r.needsRequeue {
        ready := true;
        provisioned := true;
      }
      conditions.SetClusterCondition(ReadyCall(!r.needsRequeue, now));
    }
  }

  // ---------------------------------------------------------------------------
  // Writing the status
  // ---------------------------------------------------------------------------

  /** A JSON merge patch of one field: what the worker changed wins, the rest stays as persisted. */
  function Merge<T(==)>(persisted: T, base: T, modified: T): T {
    if modified == base then persisted else modified
  }

  /** The fields an endpoint has in JSON; without an endpoint there are none. */
  datatype Fields = Fields(host: Option<string>, port: Option<int>, subnet: Option<int>)

  function FieldsOf(e: Option<Endpoint>): Fields {
    if e.None? then Fields(None, None, None) else Fields(Some(e.value.host), Some(e.value.port), e.value.subnet)
  }

  function MergeFields(p: Fields, b: Fields, m: Fields): Fields {
    Fields(Merge(p.host, b.host, m.host), Merge(p.port, b.port, m.port), Merge(p.subnet, b.subnet, m.subnet))
  }

  /** The endpoint is an object, so its fields are merged one by one; without host or port it is refused. */
  function MergeEndpoint(persisted: Option<Endpoint>, base: Option<Endpoint>, modified: Option<Endpoint>)
    : Option<Option<Endpoint>>
  {
    if modified == base then Some(persisted)
    else if modified.None? then Some(None)
    else
      var f := MergeFields(FieldsOf(persisted), FieldsOf(base), FieldsOf(modified));
      if f.host.Some? && f.port.Some? then Some(Some(Endpoint(f.host.value, f.port.value, f.subnet))) else None
  }

  /** Status().Patch with MergeFrom(base), which carries no version: xocluster_controller.go:142. */
  function Patched(persisted: Status, base: Status, modified: Status): Status {
    var endpoint := MergeEndpoint(persisted.endpoint, base.endpoint, modified.endpoint);
    if endpoint.None? then persisted
    else
      Status(endpoint.value, Merge(persisted.ready, base.ready, modified.ready),
             Merge(persisted.provisioned, base.provisioned, modified.provisioned),
             Merge(persisted.conditions, base.conditions, modified.conditions))
  }

  ghost predicate Reconciles(persisted: Status, base: Status, persisted': Status, spec: Option<Endpoint>, now: nat,
                             machines: seq<ControlPlaneMachine>, cluster: string, trace: seq<MachineProtocol.State>) {
    && ReadInRun(machines, trace)
    && persisted' == Patched(persisted, base, Reconciled(base, spec, FirstEndpoint(machines, cluster), now))
  }

  /** A reconcile that read `base` writes to `persisted`; it may also fail without effect. */
  ghost predicate Step(persisted: Status, base: Status, persisted': Status) {
    || persisted' == persisted
    || exists spec, now, machines, cluster, trace ::
         Reconciles(persisted, base, persisted', spec, now, machines, cluster, trace)
  }

  /** A run in which every reconcile reads the current object. */
  ghost predicate FreshRun(history: seq<Status>) {
    && |history| > 0 && history[0] == NEW_STATUS
    && forall i :: 0 <= i < |history| - 1 ==> Step(history[i], history[i], history[i + 1])
  }

  /** The Ready condition is True. */
  predicate ShownReady(s: Status) {
    Find(s.conditions, "Ready").Some? && Find(s.conditions, "Ready").value.status == True
  }

  predicate Consistent(s: Status) {
    && (s.ready ==> s.provisioned && HasHost(s.endpoint))
    && (s.ready <==> ShownReady(s))
  }

  /** A patch against the persisted object itself installs what was computed. */
  lemma FreshPatch(s: Status, modified: Status)
    requires s.endpoint.Some? ==> modified.endpoint.Some?
    ensures Patched(s, s, modified) == modified
  {
  }

  /** The endpoint and readiness of s are still there in s'. */
  predicate StillThere(s: Status, s': Status) {
    && (HasHost(s.endpoint) ==> s'.endpoint == s.endpoint)
    && (s.ready ==> s'.ready)
  }

  lemma ShownAfterCall(cs: seq<Condition>, call: Call)
    requires call.kind == "Ready"
    ensures Find(WithCondition(cs, call), "Ready").Some?
    ensures Find(WithCondition(cs, call), "Ready").value.status == call.status
  {
    FindAfterSet(cs, call, "Ready");
  }

  lemma ReconciledIsConsistent(s: Status, spec: Option<Endpoint>, discovered: Option<Endpoint>, now: nat)
    requires Consistent(s) && (discovered.Some? ==> HasHost(discovered))
    ensures var s' := Reconciled(s, spec, discovered, now); Consistent(s') && StillThere(s, s')
  {
    ShownAfterCall(s.conditions, ReadyCall(Settled(s.endpoint, spec, discovered).Some?, now));
  }

  lemma FreshReconcile(s: Status, spec: Option<Endpoint>, discovered: Option<Endpoint>, now: nat)
    requires Consistent(s) && (discovered.Some? ==> HasHost(discovered))
    ensures var s' := Patched(s, s, Reconciled(s, spec, discovered, now)); Consistent(s') && StillThere(s, s')
  {
    FreshPatch(s, Reconciled(s, spec, discovered, now));
    ReconciledIsConsistent(s, spec, discovered, now);
  }

  lemma FreshStep(s: Status, s': Status)
    requires Consistent(s) && Step(s, s, s')
    ensures Consistent(s') && StillThere(s, s')
  {
    if s' != s {
      var spec, now, machines, cluster, trace :| Reconciles(s, s, s', spec, now, machines, cluster, trace);
      DiscoveredEndpointHasHost(machines, cluster, trace);
      FreshReconcile(s, spec, FirstEndpoint(machines, cluster), now);
    }
  }

  lemma {:induction false} FreshRunConsistent(history: seq<Status>, i: nat)
    requires FreshRun(history) && i < |history|
    ensures Consistent(history[i])
  {
    if i > 0 {
      FreshRunConsistent(history, i - 1);
      FreshStep(history[i - 1], history[i - 1 + 1]);
    }
  }

  /** Every status keeps what the one before it had. */
  predicate Keeps(history: seq<Status>) {
    forall i :: 0 <= i < |history| - 1 ==> KeepsAt(history, i)
  }

  predicate KeepsAt(history: seq<Status>, i: nat)
    requires i + 1 < |history|
  {
    StillThere(history[i], history[i + 1])
  }

  lemma FreshRunKeeps(history: seq<Status>)
    requires FreshRun(history)
    ensures Keeps(history)
  {
    forall i | 0 <= i < |history| - 1 ensures KeepsAt(history, i) {
      FreshRunConsistent(history, i);
      FreshStep(history[i], history[i + 1]);
    }
  }

  lemma {:induction false} StillThereLater(history: seq<Status>, i: nat, j: nat)
    requires Keeps(history) && i <= j < |history|
    ensures StillThere(history[i], history[j])
    decreases j - i
  {
    if i < j {
      StillThereLater(history, i, j - 1);
      assert KeepsAt(history, j - 1);
    }
  }

  /** With fresh reads a persisted endpoint never changes, and a ready cluster has one and shows it. */
  lemma EndpointWriteOnce(history: seq<Status>, i: nat, j: nat)
    requires FreshRun(history) && i <= j < |history|
    ensures HasHost(history[i].endpoint) ==> history[j].endpoint == history[i].endpoint
    ensures history[i].ready ==> history[j].ready && history[j].provisioned && HasHost(history[j].endpoint)
    ensures history[j].ready <==> ShownReady(history[j])
  {
    FreshRunConsistent(history, j);
    FreshRunKeeps(history);
    StillThereLater(history, i, j);
  }

  /** What a reconcile finds for a cluster without an endpoint. */
  function Found(spec: Option<Endpoint>, discovered: Option<Endpoint>): Option<Endpoint> {
    if HasHost(spec) then spec else discovered
  }

  /** Writing a field that was read as `base` and found as `found` changes what is persisted. */
  predicate Moves<T(==)>(persisted: T, base: T, found: T) {
    found != base && found != persisted
  }

  /** The endpoint that is written, when `found` is what there is besides the one that was read. */
  function Chosen(base: Option<Endpoint>, found: Option<Endpoint>): Option<Endpoint> {
    if HasHost(base) || found.None? then base else found
  }

  /** On endpoints: what is persisted changes exactly when a field is written that differs. */
  lemma MergeMoves(persisted: Option<Endpoint>, base: Option<Endpoint>, found: Option<Endpoint>)
    requires HasHost(persisted) && (found.Some? ==> HasHost(found))
    ensures var after := MergeEndpoint(persisted, base, Chosen(base, found));
            var (p, b, f) := (FieldsOf(persisted), FieldsOf(base), FieldsOf(found));
            && after.Some? && HasHost(after.value)
            && (after.value != persisted
                <==> !HasHost(base) && found.Some?
                     && (Moves(p.host, b.host, f.host) || Moves(p.port, b.port, f.port)
                         || Moves(p.subnet, b.subnet, f.subnet)))
  {
  }

  lemma ReconciledEndpoint(base: Status, spec: Option<Endpoint>, discovered: Option<Endpoint>, now: nat)
    ensures Reconciled(base, spec, discovered, now).endpoint == Chosen(base.endpoint, Found(spec, discovered))
  {
  }

  lemma EndpointOfPatch(persisted: Status, base: Status, modified: Status)
    requires MergeEndpoint(persisted.endpoint, base.endpoint, modified.endpoint).Some?
    ensures Patched(persisted, base, modified).endpoint
         == MergeEndpoint(persisted.endpoint, base.endpoint, modified.endpoint).value
  {
  }

  /**
   The endpoint, case by case: unchanged, dropped, merged field by field, or sent whole. A patch that is no endpoint
   with what is persisted is refused.
   */
  lemma MergeExactly(p: Option<Endpoint>, b: Endpoint, m: Endpoint)
    ensures MergeEndpoint(p, None, None) == Some(p) && MergeEndpoint(p, Some(b), None) == Some(None)
    ensures MergeEndpoint(p, Some(b), Some(m)) ==
              if b == m then Some(p)
              else if p.Some? then
                Some(Some(Endpoint(if m.host == b.host then p.value.host else m.host,
                                   if m.port == b.port then p.value.port else m.port,
                                   if m.subnet == b.subnet then p.value.subnet else m.subnet)))
              else if m.host == b.host || m.port == b.port then None
              else Some(Some(Endpoint(m.host, m.port, if m.subnet == b.subnet then None else m.subnet)))
    ensures MergeEndpoint(p, None, Some(m))
         == Some(Some(Endpoint(m.host, m.port,
                               if m.subnet.None? && p.Some? then p.value.subnet else m.subnet)))
  {
  }

  /**
   The other fields: what the reconcile leaves as it read it stays as it is persisted, the rest is written. A patch
   that is refused for its endpoint writes nothing.
   */
  lemma PatchedFields(persisted: Status, base: Status, modified: Status)
    ensures MergeEndpoint(persisted.endpoint, base.endpoint, modified.endpoint).None? ==>
              Patched(persisted, base, modified) == persisted
    ensures MergeEndpoint(persisted.endpoint, base.endpoint, modified.endpoint).Some? ==>
            var s := Patched(persisted, base, modified);
            && s.ready == (if modified.ready == base.ready then persisted.ready else modified.ready)
            && s.provisioned == (if modified.provisioned == base.provisioned then persisted.provisioned
                                 else modified.provisioned)
            && s.conditions == (if modified.conditions == base.conditions then persisted.conditions
                                else modified.conditions)
  {
  }

  lemma PatchedEndpoint(persisted: Status, base: Status, spec: Option<Endpoint>, discovered: Option<Endpoint>, now: nat)
    requires MergeEndpoint(persisted.endpoint, base.endpoint, Chosen(base.endpoint, Found(spec, discovered))).Some?
    ensures Patched(persisted, base, Reconciled(base, spec, discovered, now)).endpoint
         == MergeEndpoint(persisted.endpoint, base.endpoint, Chosen(base.endpoint, Found(spec, discovered))).value
  {
    ReconciledEndpoint(base, spec, discovered, now);
    EndpointOfPatch(persisted, base, Reconciled(base, spec, discovered, now));
  }

  /**
   Whatever the reconcile had read, it changes a persisted endpoint exactly when
   it saw none with a host and finds one, and some field of it differs both from
   what was read and from what is persisted.
   */
  lemma StaleReadMovesEndpoint(persisted: Status, base: Status, spec: Option<Endpoint>, discovered: Option<Endpoint>,
                               now: nat)
    requires HasHost(persisted.endpoint) && (discovered.Some? ==> HasHost(discovered))
    ensures var after := Patched(persisted, base, Reconciled(base, spec, discovered, now)).endpoint;
            var (p, b, f) := (FieldsOf(persisted.endpoint), FieldsOf(base.endpoint), FieldsOf(Found(spec, discovered)));
            && HasHost(after)
            && (after != persisted.endpoint
                <==> !HasHost(base.endpoint) && Found(spec, discovered).Some?
                     && (Moves(p.host, b.host, f.host) || Moves(p.port, b.port, f.port)
                         || Moves(p.subnet, b.subnet, f.subnet)))
  {
    MergeMoves(persisted.endpoint, base.endpoint, Found(spec, discovered));
    PatchedEndpoint(persisted, base, spec, discovered, now);
  }

  lemma StaleReadInstalls(found: Endpoint, now: nat)
    requires found.host != ""
    ensures var persisted := Status(Some(Endpoint("10.0.0.1", 6443, None)), true, true, []);
            Patched(persisted, NEW_STATUS, Reconciled(NEW_STATUS, Some(found), None, now)).endpoint == Some(found)
  {
    PatchedEndpoint(Status(Some(Endpoint("10.0.0.1", 6443, None)), true, true, []), NEW_STATUS, Some(found), None, now);
  }

  /** Without fresh reads the endpoint does change: its host, or only its port. */
  lemma StaleReadExample(now: nat)
    ensures var persisted := Status(Some(Endpoint("10.0.0.1", 6443, None)), true, true, []);
            var host := Some(Endpoint("10.0.0.2", 6443, None));
            var port := Some(Endpoint("10.0.0.1", 443, None));
            && Patched(persisted, NEW_STATUS, Reconciled(NEW_STATUS, host, None, now)).endpoint == host
            && Patched(persisted, NEW_STATUS, Reconciled(NEW_STATUS, port, None, now)).endpoint == port
  {
    StaleReadInstalls(Endpoint("10.0.0.2", 6443, None), now);
    StaleReadInstalls(Endpoint("10.0.0.1", 443, None), now);
  }
}
