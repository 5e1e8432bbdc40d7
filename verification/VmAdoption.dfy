/**
 Recognizing the VM of a machine in a listing
 (internal/controller/xomachine/vm_ops.go:568-628 and naming.go:117-133).
 */
module VmAdoption {
  import opened Options

  type VmId = nat

  /** One entry of a VM listing. */
  datatype VmRecord = VmRecord(id: VmId, name: string, description: string)

  const MARKER_PREFIX := "vates-capi-machine:"

  /** The description the provider gives the VM of the machine with this UID. */
  function Marker(uid: string): string {
    if uid == "" then "" else MARKER_PREFIX + uid
  }

  /** A description only this provider writes. */
  predicate IsMarker(description: string) {
    |description| > |MARKER_PREFIX| && description[..|MARKER_PREFIX|] == MARKER_PREFIX
  }

  lemma MarkerIsLiteral(uid: string)
    ensures Marker(uid) == if uid == "" then "" else "vates-capi-machine:" + uid
  {
  }

  /** What only this provider writes is exactly the markers of the non-empty UIDs. */
  lemma MarkersExactly(description: string)
    ensures IsMarker(description) <==> exists uid :: uid != "" && description == "vates-capi-machine:" + uid
  {
    if IsMarker(description) {
      var uid := description[|MARKER_PREFIX|..];
      assert uid != "" && description == "vates-capi-machine:" + uid;
    }
    forall uid | uid != "" && description == "vates-capi-machine:" + uid ensures IsMarker(description) {
      assert description[..|MARKER_PREFIX|] == MARKER_PREFIX;
    }
  }

  lemma MarkerInjective(u: string, v: string)
    requires u != "" && v != ""
    ensures IsMarker(Marker(u))
    ensures Marker(u) == Marker(v) <==> u == v
  {
  }

  /** An entry that carries the marker and, when a name is given, exactly that name. */
  predicate Adoptable(vm: VmRecord, name: string, marker: string) {
    marker != "" && vm.description == marker && (name == "" || vm.name == name)
  }

  function FirstAdoptable(vms: seq<VmRecord>, name: string, marker: string): (r: Option<VmRecord>)
    ensures r.Some? ==> r.value in vms && Adoptable(r.value, name, marker)
    ensures r.None? <==> forall vm <- vms :: !Adoptable(vm, name, marker)
  {
    if vms == [] then None
    else if Adoptable(vms[0], name, marker) then Some(vms[0])
    else FirstAdoptable(vms[1..], name, marker)
  }

  /** The entry at k carries the marker and the name, and none before it does. */
  predicate IsFirst(vms: seq<VmRecord>, k: int, name: string, marker: string) {
    && 0 <= k < |vms| && vms[k].description == marker && (name == "" || vms[k].name == name)
    && forall l :: 0 <= l < k ==> vms[l].description != marker || (name != "" && vms[l].name != name)
  }

  lemma FirstInTail(vms: seq<VmRecord>, k: nat, name: string, marker: string)
    requires vms != [] && IsFirst(vms[1..], k, name, marker)
    requires vms[0].description != marker || (name != "" && vms[0].name != name)
    ensures IsFirst(vms, k + 1, name, marker)
  {
    forall l | 0 <= l < k + 1 ensures vms[l].description != marker || (name != "" && vms[l].name != name) {
      assert l > 0 ==> vms[l] == vms[1..][l - 1];
    }
  }

  lemma {:induction false} FirstIsFirst(vms: seq<VmRecord>, name: string, marker: string)
    ensures var r := FirstAdoptable(vms, name, marker);
            r.Some? ==> exists k :: IsFirst(vms, k, name, marker) && vms[k] == r.value
  {
    var r := FirstAdoptable(vms, name, marker);
    if r.Some? {
      if Adoptable(vms[0], name, marker) {
        assert IsFirst(vms, 0, name, marker);
      } else {
        FirstIsFirst(vms[1..], name, marker);
        var k :| IsFirst(vms[1..], k, name, marker) && vms[1..][k] == r.value;
        FirstInTail(vms, k, name, marker);
        assert vms[k + 1] == r.value;
      }
    }
  }

  /** adoptableVM: vm_ops.go:614-628. A name match alone is never enough. */
  method AdoptableVM(vms: seq<VmRecord>, name: string, marker: string) returns (r: Option<VmRecord>)
    ensures r == FirstAdoptable(vms, name, marker)
    ensures r.Some? <==>
              marker != "" && exists vm <- vms :: vm.description == marker && (name == "" || vm.name == name)
    ensures r.Some? ==> exists k :: IsFirst(vms, k, name, marker) && vms[k] == r.value
  {
    FirstIsFirst(vms, name, marker);
    if marker == "" {
      return None;
    }
    for i := 0 to |vms|
      invariant FirstAdoptable(vms[i..], name, marker) == FirstAdoptable(vms, name, marker)
    {
      assert vms[i..][1..] == vms[i + 1..];
      if vms[i].description != marker {
        continue;
      }
      if name != "" && vms[i].name != name {
        continue;
      }
      return Some(vms[i]);
    }
    return None;
  }

  /** Entries with the name that are not the machine's own. */
  predicate Foreign(vm: VmRecord, name: string, marker: string) {
    vm.name == name && !(marker != "" && vm.description == marker)
  }

  function CountForeign(vms: seq<VmRecord>, name: string, marker: string): nat {
    if vms == [] then 0
    else (if Foreign(vms[0], name, marker) then 1 else 0) + CountForeign(vms[1..], name, marker)
  }

  /** The positions of the entries that have the name but not the marker. */
  function ForeignAt(vms: seq<VmRecord>, name: string, marker: string): set<int> {
    set k | 0 <= k < |vms| && vms[k].name == name && (marker == "" || vms[k].description != marker)
  }

  lemma {:induction false} CountIsCardinality(vms: seq<VmRecord>, name: string, marker: string)
    ensures CountForeign(vms, name, marker) == |ForeignAt(vms, name, marker)|
    decreases |vms|
  {
    if vms != [] {
      var n := |vms| - 1;
      CountIsCardinality(vms[..n], name, marker);
      CountLast(vms, name, marker);
      LastPosition(vms, name, marker);
    }
  }

  lemma LastPosition(vms: seq<VmRecord>, name: string, marker: string)
    requires vms != []
    ensures var n := |vms| - 1;
            && ForeignAt(vms, name, marker)
            == ForeignAt(vms[..n], name, marker) + (if Foreign(vms[n], name, marker) then {n} else {})
            && n !in ForeignAt(vms[..n], name, marker)
  {
  }

  lemma {:induction false} CountLast(vms: seq<VmRecord>, name: string, marker: string)
    requires vms != []
    ensures CountForeign(vms, name, marker)
         == CountForeign(vms[..|vms| - 1], name, marker) + if Foreign(vms[|vms| - 1], name, marker) then 1 else 0
  {
    if |vms| > 1 {
      CountLast(vms[1..], name, marker);
      assert vms[1..][..|vms| - 2] == vms[..|vms| - 1][1..];
    }
  }

  /** foreignVMCount: naming.go:121-133. */
  method ForeignVMCount(vms: seq<VmRecord>, name: string, marker: string) returns (count: nat)
    ensures count == CountForeign(vms, name, marker)
    ensures count == |set k | 0 <= k < |vms| && vms[k].name == name && (marker == "" || vms[k].description != marker)|
  {
    CountIsCardinality(vms, name, marker);
    count := 0;
    for i := 0 to |vms|
      invariant count + CountForeign(vms[i..], name, marker) == CountForeign(vms, name, marker)
    {
      assert vms[i..][1..] == vms[i + 1..];
      if vms[i].name != name {
        continue;
      }
      if marker != "" && vms[i].description == marker {
        continue;
      }
      count := count + 1;
    }
  }

  /** Of the entries with the machine's name, those counted as foreign and the machine's own are complementary. */
  lemma {:induction false} ForeignOrOwn(vms: seq<VmRecord>, name: string, marker: string)
    requires name != ""
    ensures CountForeign(vms, name, marker) <= |vms|
    ensures CountForeign(vms, name, marker) == |vms|
        <==> FirstAdoptable(vms, name, marker).None? && forall vm <- vms :: vm.name == name
  {
    if vms != [] {
      ForeignOrOwn(vms[1..], name, marker);
      assert vms == [vms[0]] + vms[1..];
    }
  }
}
