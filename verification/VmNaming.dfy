/** The Machine ID that ends a VM name (internal/controller/xomachine/naming.go:12-57). */
module VmNaming {

  const SUFFIX_LENGTH := 5
  const MAX_NAME_LENGTH := 63
  const RANDOM_ALPHABET := "bcdfghjklmnpqrstvwxz2456789"

  function Suffix(name: string): string
    requires |name| >= SUFFIX_LENGTH
  {
    name[|name| - SUFFIX_LENGTH..]
  }

  predicate AllRandom(s: string) {
    forall c <- s :: c in RANDOM_ALPHABET
  }

  /** The name ends with a random suffix, in one of the shapes Cluster API generates. */
  predicate HasSuffix(name: string) {
    && |name| >= SUFFIX_LENGTH && AllRandom(Suffix(name))
    && (|name| == SUFFIX_LENGTH || |name| == MAX_NAME_LENGTH || name[|name| - SUFFIX_LENGTH - 1] == '-')
  }

  function IdOf(name: string): string {
    if HasSuffix(name) then Suffix(name) else name
  }

  method MachineID(name: string) returns (id: string)
    ensures id == IdOf(name)
  {
    var n := |name|;
    if n < SUFFIX_LENGTH {
      return name;
    }
    var suffix := name[n - SUFFIX_LENGTH..];
    for i := 0 to |suffix|
      invariant AllRandom(suffix[..i])
    {
      if suffix[i] !in RANDOM_ALPHABET {
        return name;
      }
    }
    assert suffix[..|suffix|] == suffix;
    if n == SUFFIX_LENGTH || n == MAX_NAME_LENGTH {
      return suffix;
    } else if name[n - SUFFIX_LENGTH - 1] == '-' {
      return suffix;
    } else {
      return name;
    }
  }

  /** The last five characters, when they are random ones after a dash, alone, or at the end of a name cut to 63. */
  lemma IdExactly(name: string)
    ensures var n := |name|;
            var cut := n >= 5 && (forall k :: n - 5 <= k < n ==> name[k] in "bcdfghjklmnpqrstvwxz2456789")
                       && (n == 5 || n == 63 || name[n - 6] == '-');
            IdOf(name) == if cut then name[n - 5..] else name
  {
    var n := |name|;
    if n >= 5 {
      assert forall k :: n - 5 <= k < n ==> name[k] == Suffix(name)[k - (n - 5)];
    }
  }

  /** Different names share an ID exactly when both end with the same suffix; a name used whole shares it with none. */
  lemma SharedId(a: string, b: string)
    ensures IdOf(a) == IdOf(b) <==> a == b || (HasSuffix(a) && HasSuffix(b) && Suffix(a) == Suffix(b))
  {
  }

  /** So two Machines of a namespace can share one. */
  lemma SharedIdExample()
    ensures "a-7n62g" != "b-7n62g" && IdOf("a-7n62g") == IdOf("b-7n62g")
  {
  }
}
