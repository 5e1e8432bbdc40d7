/**
 The merge of several renders into one template (hack/cilium-manifest/main.go):
 bags of hunks, when they clash, the one order they have otherwise, and the text
 of the template.
 */
module ManifestMerge {
  import opened Strings
  import opened ManifestDiff
  import opened ManifestTemplate

  /** A render that differs from the base render when `cond` is true. */
  datatype Variant = Variant(cond: string, lines: seq<Line>)

  datatype MergeError = Overlap | EndOfRender

  datatype Merged = Ok(body: string) | Err(error: MergeError)

  // ---------------------------------------------------------------------------
  // Lines of text
  // ---------------------------------------------------------------------------

  /** The lines, each ended by a newline. */
  function Cat(ls: seq<string>): string {
    if ls == [] then "" else ls[0] + "\n" + Cat(ls[1..])
  }

  /** The lines, separated by newlines. */
  function Join(ls: seq<string>): string {
    if ls == [] then "" else if |ls| == 1 then ls[0] else ls[0] + "\n" + Join(ls[1..])
  }

  /** `lines` of main.go:356-358. */
  function Lines(s: string): (ls: seq<string>)
    ensures ls != [] && forall l <- ls :: '\n' !in l
  {
    var n := IndexChar(s, '\n');
    if n == |s| then [s] else [s[..n]] + Lines(s[n + 1..])
  }

  /** Splitting a render and joining its lines gives the render back. */
  lemma {:induction false} LinesRoundTrip(s: string)
    ensures Join(Lines(s)) == s
  {
    var n := IndexChar(s, '\n');
    if n < |s| {
      assert s == s[..n] + "\n" + s[n + 1..];
      LinesRoundTrip(s[n + 1..]);
      assert Lines(s) == [s[..n]] + Lines(s[n + 1..]);
    }
  }

  /** It is the only split into lines without newlines. */
  lemma {:induction false} LinesUnique(ls: seq<string>)
    requires ls != [] && forall l <- ls :: '\n' !in l
    ensures Lines(Join(ls)) == ls
  {
    if |ls| == 1 {
      NoNewline(ls[0]);
    } else {
      LinesUnique(ls[1..]);
      LinesHead(ls[0], Join(ls[1..]));
      assert ls == [ls[0]] + ls[1..];
    }
  }

  lemma LinesHead(l: string, rest: string)
    requires '\n' !in l
    ensures Lines(l + "\n" + rest) == [l] + Lines(rest)
  {
    var s := l + "\n" + rest;
    FirstNewline(l, rest);
    assert s[..|l|] == l && s[|l| + 1..] == rest;
  }

  lemma NoNewline(s: string)
    requires '\n' !in s
    ensures Lines(s) == [s]
  {
  }

  lemma {:induction false} FirstNewline(l: string, rest: string)
    requires '\n' !in l
    ensures IndexChar(l + "\n" + rest, '\n') == |l|
  {
    if l != "" {
      assert (l + "\n" + rest)[1..] == l[1..] + "\n" + rest;
      FirstNewline(l[1..], rest);
    }
  }

  lemma Concat3(s: string, t: string, u: string)
    ensures s + (t + u) == (s + t) + u
  {
  }

  lemma {:induction false} CatConcat(a: seq<string>, b: seq<string>)
    ensures Cat(a + b) == Cat(a) + Cat(b)
  {
    if a == [] {
      assert a + b == b;
    } else {
      CatConcat(a[1..], b);
      assert (a + b)[1..] == a[1..] + b;
      Concat3(a[0] + "\n", Cat(a[1..]), Cat(b));
    }
  }

  lemma {:induction false} JoinConcat(a: seq<string>, b: seq<string>)
    requires b != []
    ensures Join(a + b) == Cat(a) + Join(b)
  {
    if a == [] {
      assert a + b == b;
    } else {
      JoinConcat(a[1..], b);
      assert (a + b)[1..] == a[1..] + b;
      Concat3(a[0] + "\n", Cat(a[1..]), Join(b));
    }
  }

  lemma {:induction false} CatIsJoin(ls: seq<string>)
    requires ls != []
    ensures Cat(ls) == Join(ls) + "\n"
  {
    if |ls| > 1 {
      CatIsJoin(ls[1..]);
    }
  }

  // ---------------------------------------------------------------------------
  // Bags of hunks
  // ---------------------------------------------------------------------------

  function WithCond(hs: seq<Hunk>, cond: string): (r: seq<Hunk>)
    ensures |r| == |hs|
    ensures forall k :: 0 <= k < |hs| ==> r[k] == hs[k].(cond := cond)
  {
    seq(|hs|, k requires 0 <= k < |hs| => hs[k].(cond := cond))
  }

  /** The hunks of all the variants, variant after variant. */
  function AllHunks(base: seq<Line>, variants: seq<Variant>): seq<Hunk> {
    if variants == [] then []
    else WithCond(DiffHunks(base, variants[0].lines), variants[0].cond) + AllHunks(base, variants[1..])
  }

  /** Neither overlapping nor touching: a kept line of the base separates the two. */
  predicate Apart(h: Hunk, k: Hunk) {
    h.i2 < k.i1 || k.i2 < h.i1
  }

  predicate AllApart(hs: seq<Hunk>) {
    forall p, q :: 0 <= p < q < |hs| ==> Apart(hs[p], hs[q])
  }

  predicate ReachesEnd(base: seq<Line>, hs: seq<Hunk>) {
    exists h <- hs :: h.i2 == |base|
  }

  /** A hunk of a base of n lines. */
  predicate Fits(h: Hunk, n: nat) {
    h.i1 <= h.i2 <= n && Proper(h)
  }

  predicate AllFit(hs: seq<Hunk>, n: nat) {
    forall h <- hs :: Fits(h, n)
  }

  predicate Sorted(hs: seq<Hunk>) {
    forall p, q :: 0 <= p < q < |hs| ==> hs[p].i1 <= hs[q].i1
  }

  lemma {:induction false} ChainFits(hs: seq<Hunk>, lo: nat, n: nat)
    requires Chain(hs, lo, n) && forall h <- hs :: Proper(h)
    ensures AllFit(hs, n)
    ensures forall h <- hs :: lo <= h.i1
    ensures AllApart(hs)
    decreases |hs|
  {
    if hs != [] {
      ChainAfterIsChain(hs[1..], hs[0].i2, n);
      ChainAfterStarts(hs[1..], hs[0].i2, n);
      ChainFits(hs[1..], hs[0].i2, n);
      assert hs == [hs[0]] + hs[1..];
    }
  }

  lemma {:induction false} ChainAfterStarts(hs: seq<Hunk>, end: nat, n: nat)
    requires ChainAfter(hs, end, n)
    ensures forall h <- hs :: end < h.i1 <= h.i2 <= n
    decreases |hs|
  {
    if hs != [] {
      ChainAfterStarts(hs[1..], hs[0].i2, n);
      assert hs == [hs[0]] + hs[1..];
    }
  }

  /** The test of main.go:264-269, on sorted hunks. */
  predicate Adjacent(hs: seq<Hunk>) {
    forall k :: 1 <= k < |hs| ==> hs[k - 1].i2 < hs[k].i1
  }

  lemma {:induction false} AdjacentIsChain(hs: seq<Hunk>, lo: nat, n: nat)
    requires AllFit(hs, n) && (hs != [] ==> lo <= hs[0].i1)
    ensures Chain(hs, lo, n) <==> Adjacent(hs)
    decreases |hs|
  {
    assert hs != [] ==> Fits(hs[0], n);
    if |hs| > 1 {
      var t := hs[1..];
      assert Fits(hs[1], n);
      assert forall k :: 0 <= k < |t| ==> t[k] == hs[k + 1];
      AdjacentIsChain(t, t[0].i1, n);
      assert Adjacent(hs) <==> hs[0].i2 < t[0].i1 && Adjacent(t) by {
        if hs[0].i2 < t[0].i1 && Adjacent(t) {
          forall k | 1 <= k < |hs| ensures hs[k - 1].i2 < hs[k].i1 {
            if k > 1 { assert t[k - 2].i2 < t[k - 1].i1; }
          }
        }
        if Adjacent(hs) {
          assert hs[0].i2 < hs[1].i1;
          forall k | 1 <= k < |t| ensures t[k - 1].i2 < t[k].i1 {
            assert hs[k].i2 < hs[k + 1].i1;
          }
        }
      }
    }
  }

  /** On sorted hunks that test finds exactly the pairs that are not apart. */
  lemma SortedChain(hs: seq<Hunk>, n: nat)
    requires Sorted(hs) && AllFit(hs, n)
    ensures Chain(hs, 0, n) <==> AllApart(hs)
    ensures Adjacent(hs) <==> AllApart(hs)
  {
    AdjacentIsChain(hs, 0, n);
    if Chain(hs, 0, n) {
      ChainFits(hs, 0, n);
    }
    if AllApart(hs) {
      forall k | 1 <= k < |hs| ensures hs[k - 1].i2 < hs[k].i1 {
        assert Apart(hs[k - 1], hs[k]) && hs[k] in hs;
      }
    }
  }

  /** Being apart, as a property of the bag of hunks. */
  ghost predicate ApartBag(m: multiset<Hunk>) {
    && (forall h <- m :: m[h] == 1)
    && (forall h, k :: h in m && k in m && h != k ==> Apart(h, k))
  }

  lemma ApartHead(h: Hunk, t: seq<Hunk>)
    ensures AllApart([h] + t) <==> AllApart(t) && forall k <- t :: Apart(h, k)
  {
    var hs := [h] + t;
    if AllApart(hs) {
      forall p, q | 0 <= p < q < |t| ensures Apart(t[p], t[q]) {
        assert Apart(hs[p + 1], hs[q + 1]);
      }
      forall k | k in t ensures Apart(h, k) {
        var q :| 0 <= q < |t| && t[q] == k;
        assert Apart(hs[0], hs[q + 1]);
      }
    }
  }

  lemma BagHead(h: Hunk, m: multiset<Hunk>, n: nat)
    requires Fits(h, n) && forall k <- m :: Fits(k, n)
    ensures ApartBag(multiset{h} + m) <==> ApartBag(m) && forall k <- m :: Apart(h, k)
  {
    var b := multiset{h} + m;
    if ApartBag(b) {
      assert h in b && b[h] == 1;
      forall k | k in m ensures m[k] == 1 && Apart(h, k) {
        assert k in b && b[k] == 1;
      }
      forall p, q | p in m && q in m && p != q ensures Apart(p, q) {
        assert p in b && q in b;
      }
    }
  }

  lemma {:induction false} ApartIsBag(hs: seq<Hunk>, n: nat)
    requires AllFit(hs, n)
    ensures AllApart(hs) <==> ApartBag(multiset(hs))
  {
    if hs != [] {
      var h, t := hs[0], hs[1..];
      assert hs == [h] + t;
      assert multiset(hs) == multiset{h} + multiset(t);
      assert forall k :: k in t <==> k in multiset(t);
      ApartIsBag(t, n);
      ApartHead(h, t);
      BagHead(h, multiset(t), n);
    }
  }

  lemma MembersOfBag(hs: seq<Hunk>, ks: seq<Hunk>)
    requires multiset(hs) == multiset(ks)
    ensures forall h :: h in hs <==> h in ks
  {
    assert forall h :: h in hs <==> h in multiset(hs);
    assert forall h :: h in ks <==> h in multiset(ks);
  }

  /** A chain starts with the hunk that starts first. */
  lemma ChainHeads(hs: seq<Hunk>, ks: seq<Hunk>, n: nat)
    requires Chain(hs, 0, n) && Chain(ks, 0, n) && hs != [] && ks != []
    requires hs[0] in ks && ks[0] in hs
    ensures hs[0] == ks[0]
  {
    ChainAfterStarts(hs[1..], hs[0].i2, n);
    ChainAfterStarts(ks[1..], ks[0].i2, n);
    assert hs == [hs[0]] + hs[1..] && ks == [ks[0]] + ks[1..];
  }

  lemma TailBags(hs: seq<Hunk>, ks: seq<Hunk>)
    requires hs != [] && ks != [] && hs[0] == ks[0] && multiset(hs) == multiset(ks)
    ensures multiset(hs[1..]) == multiset(ks[1..])
  {
    assert hs == [hs[0]] + hs[1..] && ks == [ks[0]] + ks[1..];
    assert multiset(hs[1..]) == multiset(hs) - multiset{hs[0]};
    assert multiset(ks[1..]) == multiset(ks) - multiset{ks[0]};
  }

  /** Only one ordering of a bag of hunks is a chain: stability of the sort cannot matter. */
  lemma {:induction false} ChainUnique(hs: seq<Hunk>, ks: seq<Hunk>, n: nat)
    requires Chain(hs, 0, n) && Chain(ks, 0, n) && multiset(hs) == multiset(ks)
    ensures hs == ks
    decreases |hs|
  {
    MembersOfBag(hs, ks);
    assert |ks| == |multiset(ks)| == |hs|;
    if hs != [] {
      assert hs[0] in hs && ks[0] in ks;
      ChainHeads(hs, ks, n);
      TailBags(hs, ks);
      ChainUnique(hs[1..], ks[1..], n);
      assert hs == [hs[0]] + hs[1..] && ks == [ks[0]] + ks[1..];
    }
  }

  lemma SortedCons(h: Hunk, t: seq<Hunk>)
    requires Sorted(t) && forall k <- multiset(t) :: h.i1 <= k.i1
    ensures Sorted([h] + t)
  {
  }

  lemma FirstIsLeast(hs: seq<Hunk>)
    requires Sorted(hs) && hs != []
    ensures Sorted(hs[1..]) && forall k <- multiset(hs) :: hs[0].i1 <= k.i1
    ensures multiset(hs) == multiset{hs[0]} + multiset(hs[1..])
  {
    assert hs == [hs[0]] + hs[1..];
  }

  lemma {:induction false} InsertSorted(h: Hunk, hs: seq<Hunk>) returns (r: seq<Hunk>)
    requires Sorted(hs)
    ensures Sorted(r) && multiset(r) == multiset(hs) + multiset{h}
  {
    if hs == [] {
      r := [h];
    } else if h.i1 <= hs[0].i1 {
      FirstIsLeast(hs);
      SortedCons(h, hs);
      r := [h] + hs;
    } else {
      FirstIsLeast(hs);
      var t := InsertSorted(h, hs[1..]);
      SortedCons(hs[0], t);
      r := [hs[0]] + t;
    }
  }

  /** A sort has something to return. */
  lemma {:induction false} SortExists(hs: seq<Hunk>) returns (r: seq<Hunk>)
    ensures Sorted(r) && multiset(r) == multiset(hs)
  {
    if hs == [] {
      r := [];
    } else {
      var t := SortExists(hs[1..]);
      r := InsertSorted(hs[0], t);
      assert hs == [hs[0]] + hs[1..];
    }
  }

  ghost predicate IsOrdering(s: seq<Hunk>, hs: seq<Hunk>, n: nat) {
    Chain(s, 0, n) && multiset(s) == multiset(hs)
  }

  /** Sorting hunks by their start gives the chain, exactly when they are all apart. */
  lemma SortGivesOrdering(s: seq<Hunk>, hs: seq<Hunk>, n: nat)
    requires AllFit(hs, n) && Sorted(s) && multiset(s) == multiset(hs)
    ensures AllFit(s, n)
    ensures IsOrdering(s, hs, n) <==> AllApart(hs)
  {
    MembersOfBag(s, hs);
    ApartIsBag(s, n);
    ApartIsBag(hs, n);
    SortedChain(s, n);
  }

  /** The hunks in the order of the base. */
  ghost function Ordering(hs: seq<Hunk>, n: nat): (s: seq<Hunk>)
    requires AllFit(hs, n) && AllApart(hs)
    ensures IsOrdering(s, hs, n)
  {
    assert exists s :: IsOrdering(s, hs, n) by {
      var s := SortExists(hs);
      SortGivesOrdering(s, hs, n);
    }
    var s :| IsOrdering(s, hs, n);
    s
  }

  lemma {:induction false} AllHunksFit(base: seq<Line>, variants: seq<Variant>)
    ensures AllFit(AllHunks(base, variants), |base|)
    ensures forall h <- AllHunks(base, variants) :: exists v <- variants :: v.cond == h.cond
  {
    if variants != [] {
      AllHunksFit(base, variants[1..]);
      DiffFromCorrect(base, variants[0].lines, 0, 0);
      ChainFits(DiffHunks(base, variants[0].lines), 0, |base|);
      var own := WithCond(DiffHunks(base, variants[0].lines), variants[0].cond);
      forall h | h in own ensures Fits(h, |base|) && h.cond == variants[0].cond {
        var k :| 0 <= k < |own| && own[k] == h;
        assert DiffHunks(base, variants[0].lines)[k] in DiffHunks(base, variants[0].lines);
      }
    }
  }

  // ---------------------------------------------------------------------------
  // The template
  // ---------------------------------------------------------------------------

  /** The conditional block of a hunk, in front of the rest of the template. */
  function BlockThen(base: seq<Line>, h: Hunk, rest: string): string
    requires h.i1 <= h.i2 <= |base|
  {
    var oldText := Cat(EscapeLines(base[h.i1..h.i2]));
    var newText := Cat(EscapeLines(h.lines));
    var close := END_ACTION + rest;
    if h.i1 == h.i2 then IfAction(h.cond) + (newText + close)
    else if h.lines == [] then IfNotAction(h.cond) + (oldText + close)
    else IfAction(h.cond) + (newText + (ELSE_ACTION + (oldText + close)))
  }

  /** The template of base[next..], every line with its newline. */
  function Woven(base: seq<Line>, hs: seq<Hunk>, next: nat): string
    requires next <= |base| && Chain(hs, next, |base|)
    decreases |hs|
  {
    if hs == [] then Cat(EscapeLines(base[next..]))
    else
      ChainAfterIsChain(hs[1..], hs[0].i2, |base|);
      Cat(EscapeLines(base[next..hs[0].i1])) + BlockThen(base, hs[0], Woven(base, hs[1..], hs[0].i2))
  }

  /** The same without the newline of the last line. */
  function Body(base: seq<Line>, hs: seq<Hunk>, next: nat): string
    requires next <= |base| && Chain(hs, next, |base|)
    decreases |hs|
  {
    if hs == [] then Join(EscapeLines(base[next..]))
    else
      ChainAfterIsChain(hs[1..], hs[0].i2, |base|);
      Cat(EscapeLines(base[next..hs[0].i1])) + BlockThen(base, hs[0], Body(base, hs[1..], hs[0].i2))
  }

  /** What merging a bag of hunks into a base gives. */
  ghost function MergeResult(base: seq<Line>, hs: seq<Hunk>): Merged
    requires AllFit(hs, |base|)
  {
    if !AllApart(hs) then Err(Overlap)
    else if ReachesEnd(base, hs) then Err(EndOfRender)
    else Ok(Body(base, Ordering(hs, |base|), 0))
  }
}
