/**
 The conditions of an object (internal/controller/xomachine/status.go:24-44 and
 internal/controller/xocluster_controller.go:690-711).
 */
module Conditions {
  import opened Options

  datatype ConditionStatus = True | False | Unknown

  datatype Condition = Condition(kind: string, status: ConditionStatus, reason: string, message: string, since: nat)

  /** A call of SetCondition; `time` is the clock when it is made. */
  datatype Call = Call(kind: string, status: ConditionStatus, reason: string, message: string, time: nat)

  function IndexOf(cs: seq<Condition>, kind: string): (n: nat)
    ensures n <= |cs|
    ensures n < |cs| ==> cs[n].kind == kind
    ensures forall k :: 0 <= k < n ==> cs[k].kind != kind
  {
    if cs == [] || cs[0].kind == kind then 0 else IndexOf(cs[1..], kind) + 1
  }

  function Find(cs: seq<Condition>, kind: string): Option<Condition> {
    var n := IndexOf(cs, kind);
    if n < |cs| then Some(cs[n]) else None
  }

  /** The condition a call leaves, given what was there for its type. */
  function Updated(before: Option<Condition>, call: Call): Condition {
    Condition(call.kind, call.status, call.reason, call.message,
              if before.Some? && before.value.status == call.status then before.value.since else call.time)
  }

  function WithCondition(cs: seq<Condition>, call: Call): seq<Condition> {
    var n := IndexOf(cs, call.kind);
    if n < |cs| then cs[n := Updated(Some(cs[n]), call)] else cs + [Updated(None, call)]
  }

  /** The Conditions slice of an object. */
  class ConditionList {
    var conditions: seq<Condition>

    constructor ()
      ensures conditions == []
    {
      conditions := [];
    }

    /** SetCondition of XOMachine: find the entry, then edit it through a pointer. */
    method SetCondition(call: Call)
      modifies this
      ensures conditions == WithCondition(old(conditions), call)
    {
      var i := 0;
      while i < |conditions| && conditions[i].kind != call.kind
        invariant 0 <= i <= |conditions|
        invariant conditions == old(conditions)
        invariant forall k :: 0 <= k < i ==> conditions[k].kind != call.kind
      {
        i := i + 1;
      }
      if i < |conditions| {
        var c := conditions[i];
        if c.status != call.status {
          c := c.(since := call.time);
        }
        c := c.(status := call.status, reason := call.reason, message := call.message);
        conditions := conditions[i := c];
        return;
      }
      conditions := conditions + [Condition(call.kind, call.status, call.reason, call.message, call.time)];
    }

    /** setCondition of XOCluster: one loop that edits the entry in place. */
    method SetClusterCondition(call: Call)
      modifies this
      ensures conditions == WithCondition(old(conditions), call)
    {
      for i := 0 to |conditions|
        invariant conditions == old(conditions)
        invariant forall k :: 0 <= k < i ==> conditions[k].kind != call.kind
      {
        if conditions[i].kind == call.kind {
          if conditions[i].status != call.status {
            conditions := conditions[i := conditions[i].(since := call.time)];
          }
          var c := conditions[i].(status := call.status, reason := call.reason, message := call.message);
          conditions := conditions[i := c];
          return;
        }
      }
      conditions := conditions + [Condition(call.kind, call.status, call.reason, call.message, call.time)];
    }
  }

  /** What a call leaves for its type; every other entry stays, and the entries keep their places. */
  lemma TransitionTime(cs: seq<Condition>, call: Call)
    ensures var (before, r) := (Find(cs, call.kind), WithCondition(cs, call));
            var same := before.Some? && before.value.status == call.status;
            && Find(r, call.kind) == Some(Condition(call.kind, call.status, call.reason, call.message,
                                                    if same then before.value.since else call.time))
            && |r| == |cs| + (if before.Some? then 0 else 1)
            && (forall k :: 0 <= k < |cs| && cs[k].kind != call.kind ==> r[k] == cs[k])
  {
    FindAfterSet(cs, call, call.kind);
  }

  // ---------------------------------------------------------------------------
  // Histories
  // ---------------------------------------------------------------------------

  /** The conditions after some calls on an object without conditions. */
  function After(calls: seq<Call>): seq<Condition> {
    if calls == [] then [] else WithCondition(After(calls[..|calls| - 1]), calls[|calls| - 1])
  }

  /** The calls for one type. */
  function Own(calls: seq<Call>, kind: string): seq<Call> {
    if calls == [] then []
    else
      var last := calls[|calls| - 1];
      Own(calls[..|calls| - 1], kind) + if last.kind == kind then [last] else []
  }

  /** When the calls for one type last changed its status. */
  function LastChange(own: seq<Call>): nat
    requires own != []
  {
    var n := |own| - 1;
    if n == 0 || own[n].status != own[n - 1].status then own[n].time else LastChange(own[..n])
  }

  predicate OneOfEach(cs: seq<Condition>) {
    forall i, j :: 0 <= i < j < |cs| ==> cs[i].kind != cs[j].kind
  }

  /** What a list of conditions says about one type. */
  ghost predicate Records(cs: seq<Condition>, own: seq<Call>, kind: string) {
    if own == [] then Find(cs, kind) == None
    else
      var last := own[|own| - 1];
      Find(cs, kind) == Some(Condition(kind, last.status, last.reason, last.message, LastChange(own)))
  }

  lemma FindAfterSet(cs: seq<Condition>, call: Call, kind: string)
    ensures Find(WithCondition(cs, call), kind)
         == if kind == call.kind then Some(Updated(Find(cs, kind), call)) else Find(cs, kind)
    ensures OneOfEach(cs) ==> OneOfEach(WithCondition(cs, call))
  {
    var n, r := IndexOf(cs, call.kind), WithCondition(cs, call);
    assert r[n].kind == call.kind;
    assert forall k :: 0 <= k < |cs| && k != n ==> r[k] == cs[k];
    var p, q := IndexOf(cs, kind), IndexOf(r, kind);
    if kind == call.kind {
      assert q == n;
    } else {
      assert q < |r| ==> q != n;
      assert p < |cs| ==> r[p].kind == kind;
    }
  }

  /** The time moves with the status alone, not with the reason, the message or other types. */
  lemma HistoryExample()
    ensures var calls := [Call("Ready", False, "a", "x", 1), Call("Ready", False, "b", "y", 2),
                          Call("Other", True, "c", "z", 3), Call("Ready", True, "d", "w", 4)];
            && Find(After(calls[..2]), "Ready") == Some(Condition("Ready", False, "b", "y", 1))
            && Find(After(calls[..3]), "Ready") == Some(Condition("Ready", False, "b", "y", 1))
            && Find(After(calls), "Ready") == Some(Condition("Ready", True, "d", "w", 4))
  {
    var calls := [Call("Ready", False, "a", "x", 1), Call("Ready", False, "b", "y", 2),
                  Call("Other", True, "c", "z", 3), Call("Ready", True, "d", "w", 4)];
    assert "Ready"[0] != "Other"[0];
    assert calls[..4] == calls;
    AfterOneMore(calls, 0, "Ready");
    AfterOneMore(calls, 1, "Ready");
    AfterOneMore(calls, 2, "Ready");
    AfterOneMore(calls, 3, "Ready");
  }

  lemma AfterOneMore(calls: seq<Call>, n: nat, kind: string)
    requires n < |calls|
    ensures Find(After(calls[..n + 1]), kind)
         == if kind == calls[n].kind then Some(Updated(Find(After(calls[..n]), kind), calls[n]))
            else Find(After(calls[..n]), kind)
  {
    assert calls[..n + 1][..n] == calls[..n];
    FindAfterSet(After(calls[..n]), calls[n], kind);
  }

  /**
   After any calls each type occurs at most once, and exactly when it was called
   for; its condition is that of its last call, dated by the latest call that
   changed its status. Calls for other types do not matter.
   */
  lemma {:induction false} HistoryRecorded(calls: seq<Call>, kind: string)
    ensures OneOfEach(After(calls))
    ensures Records(After(calls), Own(calls, kind), kind)
  {
    if calls != [] {
      var before, last := calls[..|calls| - 1], calls[|calls| - 1];
      HistoryRecorded(before, kind);
      FindAfterSet(After(before), last, kind);
      var own := Own(before, kind);
      if last.kind == kind {
        assert Own(calls, kind)[..|own|] == own;
      } else {
        assert Own(calls, kind) == own;
      }
    }
  }
}
