/**
 The Ready condition of an XOCluster, as it is persisted and as a reconcile
 leaves it in memory (internal/controller/xocluster_controller.go:112-168).
 */
module ClusterConditions {
  import opened Options
  import opened Conditions
  import opened ClusterEndpoint

  const CREDENTIALS_REASON := "CredentialsResolutionFailed"

  /** The condition for credentials that cannot be resolved. */
  function CredentialsCall(message: string, now: nat): Call {
    Call("Ready", False, CREDENTIALS_REASON, message, now)
  }

  /** The API server's copy of the status. */
  class ClusterStore {
    var persisted: Status
    ghost var answers: seq<bool>  // whether each write so far was answered with success

    constructor (status: Status)
      ensures persisted == status && answers == []
    {
      persisted, answers := status, [];
    }

    /** The status write; it may fail, with or without effect. */
    method Patch(base: Status, modified: Status) returns (ok: bool)
      modifies this
      ensures persisted == old(persisted) || persisted == Patched(old(persisted), base, modified)
      ensures ok ==> persisted == Patched(old(persisted), base, modified)
      ensures answers == old(answers) + [ok]
    {
      var effect: bool := *;
      ok := *;
      if ok || effect {
        persisted := Patched(persisted, base, modified);
      }
      answers := answers + [ok];
    }
  }

  /** How a reconcile ends; `CredentialsFailed` comes after the status write. */
  datatype Ending = Failed | Requeue | CredentialsFailed | GoesOn

  /**
   reconcileNormal from the endpoint to the credentials: lines 112-168.
   `credentials` is the error of resolving them, if there is one.
   */
  method ReconcileNormal(local: ClusterStatus, store: ClusterStore, spec: Option<Endpoint>,
                         machines: Option<seq<ControlPlaneMachine>>, cluster: string, now: nat,
                         credentials: Option<string>)
    returns (r: Ending)
    modifies local, local.conditions, store
    // Without a listing that is needed there is no write, else one, and whatever comes after it needs its success.
    ensures var listed := HasHost(old(local.endpoint)) || HasHost(spec) || machines.Some?;
            && (store.answers == old(store.answers) + if listed then [r != Failed] else [])
            && (!listed ==> r == Failed && store.persisted == old(store.persisted))
    ensures var settled := Settled(old(local.endpoint), spec, Discovered(machines, cluster));
            && (r == Requeue ==> settled.None?)
            && (r == CredentialsFailed ==> settled.Some? && credentials.Some?)
            && (r == GoesOn ==> settled.Some? && credentials.None?)
    ensures var computed := Reconciled(old(local.Value()), spec, Discovered(machines, cluster), now);
            var written := Patched(old(store.persisted), old(local.Value()), computed);
            && (store.persisted == old(store.persisted) || store.persisted == written)
            && (r != Failed ==> store.persisted == written)
            && (r == GoesOn || r == Requeue ==> local.Value() == written)
            && (r == CredentialsFailed ==>
                  && credentials.Some?
                  && local.Value().conditions
                  == WithCondition(written.conditions, CredentialsCall(credentials.value, now)))
  {
    var base := local.Value();
    var computed := local.Reconcile(spec, machines, cluster, now);
    if computed == ListingFailed {
      return Failed;
    }
    var ok := store.Patch(base, local.Value());
    if !ok {
      return Failed;
    }
    local.Load(store.persisted);
    if computed.needsRequeue {
      return Requeue;
    }
    if credentials.Some? {
      local.conditions.SetClusterCondition(CredentialsCall(credentials.value, now));
      return CredentialsFailed;
    }
    return GoesOn;
  }

  // ---------------------------------------------------------------------------
  // What is persisted
  // ---------------------------------------------------------------------------

  /** A run in which every reconcile reads the object as it is, or as it was at some time before. */
  ghost predicate StaleRun(history: seq<Status>) {
    && |history| > 0 && history[0] == NEW_STATUS
    && forall i :: 0 <= i < |history| - 1 ==> StaleStep(history, i)
  }

  ghost predicate StaleStep(history: seq<Status>, i: nat)
    requires i + 1 < |history|
  {
    exists b: nat :: b <= i && Step(history[i], history[b], history[i + 1])
  }

  /** The Ready condition gives one of the two reasons of the endpoint part, if there is one. */
  predicate EndpointReason(cs: seq<Condition>) {
    var c := Find(cs, "Ready");
    c.Some? ==> c.value.reason == READY_REASON || c.value.reason == WAITING_REASON
  }

  lemma ReasonAfterCall(cs: seq<Condition>, call: Call)
    requires call.kind == "Ready"
    ensures Find(WithCondition(cs, call), "Ready").Some?
    ensures Find(WithCondition(cs, call), "Ready").value.reason == call.reason
  {
    FindAfterSet(cs, call, "Ready");
  }

  lemma PatchedReason(persisted: Status, base: Status, spec: Option<Endpoint>, discovered: Option<Endpoint>, now: nat)
    requires EndpointReason(persisted.conditions)
    ensures EndpointReason(Patched(persisted, base, Reconciled(base, spec, discovered, now)).conditions)
  {
    ReasonAfterCall(base.conditions, ReadyCall(Settled(base.endpoint, spec, discovered).Some?, now));
  }

  lemma StepReason(persisted: Status, base: Status, persisted': Status)
    requires EndpointReason(persisted.conditions) && Step(persisted, base, persisted')
    ensures EndpointReason(persisted'.conditions)
  {
    if persisted' != persisted {
      var spec, now, machines, cluster, trace :|
        Reconciles(persisted, base, persisted', spec, now, machines, cluster, trace);
      PatchedReason(persisted, base, spec, FirstEndpoint(machines, cluster), now);
    }
  }

  lemma {:induction false} RunReason(history: seq<Status>, i: nat)
    requires StaleRun(history) && i < |history|
    ensures EndpointReason(history[i].conditions)
  {
    if i > 0 {
      RunReason(history, i - 1);
      assert StaleStep(history, i - 1);
      var b: nat :| b <= i - 1 && Step(history[i - 1], history[b], history[i - 1 + 1]);
      StepReason(history[i - 1], history[b], history[i]);
    }
  }

  /** The condition for unresolved credentials is never persisted, in any run, stale reads included. */
  lemma CredentialsNeverPersisted(history: seq<Status>, i: nat)
    requires StaleRun(history) && i < |history|
    ensures var c := Find(history[i].conditions, "Ready"); c.Some? ==> c.value.reason != "CredentialsResolutionFailed"
  {
    RunReason(history, i);
    assert READY_REASON[1] != CREDENTIALS_REASON[1] && WAITING_REASON[0] != CREDENTIALS_REASON[0];
  }

  /** The condition that is written says whether there is an endpoint, with the reason and the message for it. */
  lemma WrittenCondition(s: Status, spec: Option<Endpoint>, discovered: Option<Endpoint>, now: nat)
    ensures var c := Find(Reconciled(s, spec, discovered, now).conditions, "Ready");
            && c.Some? && c.value.kind == "Ready"
            && if Settled(s.endpoint, spec, discovered).Some? then
                 && c.value.status == True && c.value.reason == "ClusterInfrastructureReady"
                 && c.value.message == "Cluster infrastructure is ready"
               else
                 && c.value.status == False && c.value.reason == "WaitingForControlPlaneEndpoint"
                 && c.value.message == "Waiting for a ready control plane machine to discover the endpoint"
  {
    TransitionTime(s.conditions, ReadyCall(Settled(s.endpoint, spec, discovered).Some?, now));
  }

  /** A reconcile that fails on the credentials leaves it in memory alone. */
  lemma CredentialsOnlyInMemory(cs: seq<Condition>, message: string, now: nat)
    requires EndpointReason(cs)
    ensures var left := WithCondition(cs, CredentialsCall(message, now));
            && Find(left, "Ready").Some? && Find(left, "Ready").value.status == False
            && Find(left, "Ready").value.reason == "CredentialsResolutionFailed"
            && Find(left, "Ready").value.message == message
  {
    TransitionTime(cs, CredentialsCall(message, now));
  }
}
