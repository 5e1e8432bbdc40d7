/**
 The address of a machine (internal/controller/xomachine/vm_ops.go:695-817).
 */
module VmAddress {
  import opened Options

  datatype AddressType = InternalIP | ExternalIP | Hostname

  datatype NodeAddress = NodeAddress(kind: AddressType, address: string)

  // ---------------------------------------------------------------------------
  // The recorded address
  // ---------------------------------------------------------------------------

  /** The position of the first InternalIP, or the end of the list. */
  function InternalIndex(addresses: seq<NodeAddress>): (n: nat)
    ensures n <= |addresses|
    ensures forall k :: 0 <= k < n ==> addresses[k].kind != InternalIP
    ensures n < |addresses| ==> addresses[n].kind == InternalIP
  {
    if addresses == [] || addresses[0].kind == InternalIP then 0 else InternalIndex(addresses[1..]) + 1
  }

  /** The first InternalIP replaced by addr, or addr appended; an empty addr changes nothing. */
  function WithNodeAddress(addresses: seq<NodeAddress>, addr: string): seq<NodeAddress> {
    var n, a := InternalIndex(addresses), NodeAddress(InternalIP, addr);
    if addr == "" then addresses
    else if n < |addresses| then addresses[n := a] else addresses + [a]
  }

  /** An address list a ready machine may have. */
  predicate Usable(addresses: seq<NodeAddress>) {
    && (forall a <- addresses :: a.address != "")
    && (exists a <- addresses :: a.kind == InternalIP)
  }

  /** Recording an address leaves every other entry alone and never loses a good one. */
  lemma WithNodeAddressProperties(addresses: seq<NodeAddress>, addr: string)
    ensures var r := WithNodeAddress(addresses, addr);
            && |addresses| <= |r| <= |addresses| + 1
            && (addr != "" ==> NodeAddress(InternalIP, addr) in r)
            && (forall k :: 0 <= k < |addresses| && r[k] != addresses[k] ==>
                  addresses[k].kind == InternalIP && r[k] == NodeAddress(InternalIP, addr))
            && (|r| > |addresses| ==> forall a <- addresses :: a.kind != InternalIP)
            && (Usable(addresses) ==> Usable(r))
            && (addr == "" ==> r == addresses)
            && (forall n :: 0 <= n < |addresses| && addr != "" && addresses[n].kind == InternalIP
                            && (forall k :: 0 <= k < n ==> addresses[k].kind != InternalIP) ==>
                  r == addresses[n := NodeAddress(InternalIP, addr)])
  {
  }

  /** The part of the machine status that `SetNodeAddress` edits. */
  class AddressStatus {
    var addresses: seq<NodeAddress>

    constructor (initial: seq<NodeAddress>)
      ensures addresses == initial
    {
      addresses := initial;
    }

    /** vm_ops.go:798-817. */
    method SetNodeAddress(addr: string) returns (changed: bool)
      modifies this
      ensures addresses == WithNodeAddress(old(addresses), addr)
      ensures changed <==> addresses != old(addresses)
    {
      if addr == "" {
        return false;
      }
      for i := 0 to |addresses|
        invariant addresses == old(addresses)
        invariant forall k :: 0 <= k < i ==> addresses[k].kind != InternalIP
      {
        if addresses[i].kind != InternalIP {
          continue;
        }
        assert InternalIndex(addresses) == i;
        if addresses[i].address == addr {
          return false;
        }
        addresses := addresses[i := NodeAddress(InternalIP, addr)];
        assert addresses[i] != old(addresses)[i];
        return true;
      }
      addresses := addresses + [NodeAddress(InternalIP, addr)];
      return true;
    }
  }

  // ---------------------------------------------------------------------------
  // Resolving the address
  // ---------------------------------------------------------------------------

  predicate StartsWith(s: string, p: string) {
    |p| <= |s| && s[..|p|] == p
  }

  /** Usable as a Kubernetes node address (vm_ops.go:753-758). */
  predicate NodeIPv4(addr: string) {
    addr != "" && !StartsWith(addr, "fe80:") && !StartsWith(addr, "169.254.") && '.' in addr
  }

  /** Not link-local, neither IPv6 nor IPv4, and with a dot. */
  lemma NodeIPv4Exactly(addr: string)
    ensures NodeIPv4(addr) <==> '.' in addr && !("fe80:" <= addr) && !("169.254." <= addr)
  {
  }

  /** What the V1 API answers to one lookup: an error, no VM, or the reported addresses. */
  datatype Lookup = Failed | NoVm | Reported(addresses: seq<string>)

  /** r is the usable address at k, and none before it is usable. */
  predicate FirstAt(addresses: seq<string>, k: int, r: string) {
    0 <= k < |addresses| && addresses[k] == r && forall l :: 0 <= l < k ==> !NodeIPv4(addresses[l])
  }

  function FirstUsable(addresses: seq<string>): (r: string)
    ensures r != "" ==> r in addresses && NodeIPv4(r)
    ensures r == "" <==> forall a <- addresses :: !NodeIPv4(a)
    ensures r != "" ==> exists k :: FirstAt(addresses, k, r)
  {
    if addresses == [] then ""
    else if NodeIPv4(addresses[0]) then
      assert FirstAt(addresses, 0, addresses[0]);
      addresses[0]
    else
      var r := FirstUsable(addresses[1..]);
      assert forall k :: FirstAt(addresses[1..], k, r) ==> FirstAt(addresses, k + 1, r);
      r
  }

  function UsableIn(l: Lookup): string {
    if l.Reported? then FirstUsable(l.addresses) else ""
  }

  /** The loop of vm_ops.go:721-726 and 779-783. */
  method PickAddress(addresses: seq<string>) returns (r: string)
    ensures r == FirstUsable(addresses)
  {
    for i := 0 to |addresses|
      invariant FirstUsable(addresses[i..]) == FirstUsable(addresses)
    {
      if NodeIPv4(addresses[i]) {
        return addresses[i];
      }
      assert addresses[i..][1..] == addresses[i + 1..];
    }
    return "";
  }

  /** ResolveVMIPNow: vm_ops.go:767-785. */
  method ResolveVMIPNow(mainIp: string, v1: Option<Lookup>) returns (ip: string)
    ensures ip == if NodeIPv4(mainIp) then mainIp else if v1.None? then "" else UsableIn(v1.value)
    ensures ip != "" ==> NodeIPv4(ip) && (ip == mainIp || (v1.Some? && v1.value.Reported? && ip in v1.value.addresses))
  {
    if NodeIPv4(mainIp) {
      return mainIp;
    }
    match v1
    case Some(answer) => ip := AnswerOf(answer);
    case None => ip := "";
  }

  method AnswerOf(l: Lookup) returns (r: string)
    ensures r == UsableIn(l) && (r != "" ==> NodeIPv4(r))
  {
    match l
    case Reported(addresses) => r := PickAddress(addresses);
    case _ => r := "";
  }

  const DEADLINE := 120_000  // milliseconds
  const FIRST_WAIT := 1_000
  const LONGEST_WAIT := 8_000
  const MOST_LOOKUPS := 18

  /** The wait after lookup n (counted from 0): 1, 2, 4, 8, 8, ... seconds. */
  function Wait(n: nat): nat {
    if n == 0 then FIRST_WAIT
    else if 2 * Wait(n - 1) < LONGEST_WAIT then 2 * Wait(n - 1) else LONGEST_WAIT
  }

  /** When lookup n starts at the earliest, lookups themselves taking no time. */
  function EarliestStart(n: nat): nat {
    if n == 0 then 0 else EarliestStart(n - 1) + Wait(n - 1)
  }

  lemma {:induction false} WaitsAreLong(n: nat)
    ensures n >= 3 ==> Wait(n) == 8_000 && EarliestStart(n) == 7_000 + 8_000 * (n - 3)
    ensures n == 0 ==> Wait(n) == 1_000
    ensures n == 1 ==> Wait(n) == 2_000 && EarliestStart(n) == 1_000
    ensures n == 2 ==> Wait(n) == 4_000 && EarliestStart(n) == 3_000
  {
    if n > 0 {
      WaitsAreLong(n - 1);
    }
  }

  /** The last lookup that can start before the deadline. */
  lemma LookupsFitDeadline(n: nat)
    ensures EarliestStart(n) <= 120_000 <==> n < 18
  {
    WaitsAreLong(n);
  }

  /** When lookup n starts; `cost` is how long each lookup takes. */
  function Start(cost: nat -> nat, n: nat): nat {
    if n == 0 then 0 else Start(cost, n - 1) + cost(n - 1) + Wait(n - 1)
  }

  lemma {:induction false} StartsLater(cost: nat -> nat, n: nat)
    ensures EarliestStart(n) <= Start(cost, n)
  {
    if n > 0 {
      StartsLater(cost, n - 1);
    }
  }

  /** A lookup starts before the deadline only if it is among the first 18. */
  lemma {:induction false} FewLookups(cost: nat -> nat, n: nat)
    requires Start(cost, n) <= DEADLINE
    ensures n < MOST_LOOKUPS
  {
    StartsLater(cost, n);
    LookupsFitDeadline(n);
  }

  lemma {:induction false} StartWithCost(cost: nat, n: nat)
    ensures Start(_ => cost, n) == EarliestStart(n) + cost * n
  {
    if n > 0 {
      StartWithCost(cost, n - 1);
    }
  }

  /** The wait after lookup n is not waited out: it is cancelled, or ends after the deadline, or loses against it. */
  predicate GivesUp(cost: nat -> nat, cancelled: nat -> bool, tick: bool, n: nat) {
    cancelled(n) || Start(cost, n + 1) > 120_000 || (Start(cost, n + 1) == 120_000 && tick)
  }

  /** No lookup before lookup n found an address. */
  ghost predicate Unanswered(v1: nat -> Lookup, n: nat) {
    forall k :: 0 <= k < n ==> UsableIn(v1(k)) == ""
  }

  /**
   ResolveVMIP: vm_ops.go:698-743. `v1` is what the successive lookups answer
   (when there is a V1 client), `cost` how long each takes, `cancelled` whether
   the context ends during the wait after a lookup, and `tick` settles the race
   when the wait and the deadline end together.
   */
  method ResolveVMIP(mainIp: string, hasV1: bool, v1: nat -> Lookup, cost: nat -> nat, cancelled: nat -> bool,
                     tick: bool)
    returns (ip: string, lookups: nat)
    ensures lookups <= 18
    ensures NodeIPv4(mainIp) ==> ip == mainIp && lookups == 0
    ensures !NodeIPv4(mainIp) && !hasV1 ==> ip == mainIp && lookups == 0
    ensures !NodeIPv4(mainIp) && hasV1 ==>
              && lookups > 0 && Unanswered(v1, lookups - 1) && ip == UsableIn(v1(lookups - 1))
              && (forall k :: 0 <= k < lookups - 1 ==> !GivesUp(cost, cancelled, tick, k))
              && (ip == "" ==> GivesUp(cost, cancelled, tick, lookups - 1))
    ensures hasV1 && ip != "" ==> NodeIPv4(ip)
  {
    lookups := 0;
    if NodeIPv4(mainIp) {
      return mainIp, 0;
    }
    if !hasV1 {
      return mainIp, 0;
    }
    var elapsed, backoff := 0, FIRST_WAIT;
    while true
      invariant backoff == Wait(lookups)
      invariant elapsed == Start(cost, lookups) <= DEADLINE
      invariant lookups < MOST_LOOKUPS
      invariant Unanswered(v1, lookups)
      invariant forall k :: 0 <= k < lookups ==> !GivesUp(cost, cancelled, tick, k)
      decreases MOST_LOOKUPS - lookups
    {
      var answer := v1(lookups);
      elapsed := elapsed + cost(lookups);
      lookups := lookups + 1;
      var addr := AnswerOf(answer);
      if addr != "" {
        return addr, lookups;
      }
      if cancelled(lookups - 1) {
        return "", lookups;
      }
      if elapsed + backoff > DEADLINE || (elapsed + backoff == DEADLINE && tick) {
        return "", lookups;
      }
      elapsed := elapsed + backoff;
      FewLookups(cost, lookups);
      backoff := if 2 * backoff < LONGEST_WAIT then 2 * backoff else LONGEST_WAIT;
    }
  }
}
