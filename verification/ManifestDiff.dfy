/**
 The line diff behind the manifest merger (hack/cilium-manifest/main.go).

 `Lcs` and `DiffHunks` are the specification: the first is proved to be the
 length of a longest common subsequence, the second to be a shortest edit
 script. `FillTable` and `Diff` are the imperative algorithm, proved to compute
 exactly those two functions.
 */
module ManifestDiff {

  type Line = string

  /** Replaces base[i1..i2] with `lines` when the condition `cond` is true. */
  datatype Hunk = Hunk(i1: nat, i2: nat, cond: string, lines: seq<Line>)

  // ---------------------------------------------------------------------------
  // Longest common subsequences
  // ---------------------------------------------------------------------------

  function Max(x: nat, y: nat): nat {
    if x < y then y else x
  }

  function Lcs(a: seq<Line>, b: seq<Line>): nat {
    if a == [] || b == [] then 0
    else if a[0] == b[0] then Lcs(a[1..], b[1..]) + 1
    else Max(Lcs(a[1..], b), Lcs(a, b[1..]))
  }

  /** `f` lists the positions of `s` in `a`, from left to right. */
  ghost predicate Embeds(s: seq<Line>, a: seq<Line>, f: seq<int>) {
    && |f| == |s|
    && (forall k :: 0 <= k < |s| ==> 0 <= f[k] < |a| && a[f[k]] == s[k])
    && (forall k, l :: 0 <= k < l < |s| ==> f[k] < f[l])
  }

  ghost predicate Subsequence(s: seq<Line>, a: seq<Line>) {
    exists f: seq<int> :: Embeds(s, a, f)
  }

  /** Subsequences, one line at a time. */
  predicate Within(s: seq<Line>, a: seq<Line>) {
    s == [] || (a != [] && (if s[0] == a[0] then Within(s[1..], a[1..]) else Within(s, a[1..])))
  }

  lemma {:induction false} EmbeddingIsWithin(s: seq<Line>, a: seq<Line>, f: seq<int>)
    requires Embeds(s, a, f)
    ensures Within(s, a)
    decreases |a|
  {
    if s != [] {
      assert 0 <= f[0] < |a|;
      var t := if s[0] == a[0] then s[1..] else s;
      var g := if s[0] == a[0] then f[1..] else f;
      assert forall k :: 0 <= k < |t| ==> g[k] > 0;
      EmbeddingIsWithin(t, a[1..], seq(|g|, k requires 0 <= k < |g| => g[k] - 1));
    }
  }

  lemma {:induction false} WithinIsEmbedding(s: seq<Line>, a: seq<Line>) returns (f: seq<int>)
    requires Within(s, a)
    ensures Embeds(s, a, f)
    decreases |a|
  {
    if s == [] {
      f := [];
    } else if s[0] == a[0] {
      var g := WithinIsEmbedding(s[1..], a[1..]);
      f := [0] + seq(|g|, k requires 0 <= k < |g| => g[k] + 1);
    } else {
      var g := WithinIsEmbedding(s, a[1..]);
      f := seq(|g|, k requires 0 <= k < |g| => g[k] + 1);
    }
  }

  lemma {:induction false} WithinDropsHead(s: seq<Line>, a: seq<Line>)
    requires s != [] && Within(s, a)
    ensures Within(s[1..], a)
    decreases |a|, 1
  {
    if s[0] != a[0] {
      WithinDropsHead(s, a[1..]);
    }
    WithinMonotone(s[1..], a);
  }

  lemma {:induction false} WithinMonotone(s: seq<Line>, a: seq<Line>)
    requires a != [] && Within(s, a[1..])
    ensures Within(s, a)
    decreases |a|, 0
  {
    if s != [] && s[0] == a[0] {
      WithinDropsHead(s, a[1..]);
    }
  }

  lemma {:induction false} WithinBoundedByLcs(s: seq<Line>, a: seq<Line>, b: seq<Line>)
    requires Within(s, a) && Within(s, b)
    ensures |s| <= Lcs(a, b)
    decreases |a| + |b|
  {
    if s != [] {
      if a[0] == b[0] {
        if s[0] == a[0] {
          WithinBoundedByLcs(s[1..], a[1..], b[1..]);
        } else {
          WithinBoundedByLcs(s, a[1..], b[1..]);
        }
      } else if s[0] == a[0] {
        WithinBoundedByLcs(s, a, b[1..]);
      } else {
        WithinBoundedByLcs(s, a[1..], b);
      }
    }
  }

  lemma {:induction false} LcsWitness(a: seq<Line>, b: seq<Line>) returns (s: seq<Line>)
    ensures Within(s, a) && Within(s, b) && |s| == Lcs(a, b)
    decreases |a| + |b|
  {
    if a == [] || b == [] {
      s := [];
    } else if a[0] == b[0] {
      var t := LcsWitness(a[1..], b[1..]);
      s := [a[0]] + t;
    } else if Lcs(a[1..], b) < Lcs(a, b[1..]) {
      s := LcsWitness(a, b[1..]);
      WithinMonotone(s, b);
    } else {
      s := LcsWitness(a[1..], b);
      WithinMonotone(s, a);
    }
  }

  /** `Lcs` is the true maximum: some common subsequence has that length, and none is longer. */
  lemma LcsIsLongest(a: seq<Line>, b: seq<Line>)
    ensures exists s :: Subsequence(s, a) && Subsequence(s, b) && |s| == Lcs(a, b)
    ensures forall s :: Subsequence(s, a) && Subsequence(s, b) ==> |s| <= Lcs(a, b)
  {
    var s := LcsWitness(a, b);
    var f := WithinIsEmbedding(s, a);
    var g := WithinIsEmbedding(s, b);
    assert Subsequence(s, a) && Subsequence(s, b);
    forall t | Subsequence(t, a) && Subsequence(t, b)
      ensures |t| <= Lcs(a, b)
    {
      var p :| Embeds(t, a, p);
      var q :| Embeds(t, b, q);
      EmbeddingIsWithin(t, a, p);
      EmbeddingIsWithin(t, b, q);
      WithinBoundedByLcs(t, a, b);
    }
  }

  /** The common lines left from (i, j) on: what cell (i, j) of the table holds. */
  function LcsAt(a: seq<Line>, b: seq<Line>, i: nat, j: nat): nat
    requires i <= |a| && j <= |b|
  {
    Lcs(a[i..], b[j..])
  }

  lemma LcsAtStep(a: seq<Line>, b: seq<Line>, i: nat, j: nat)
    requires i <= |a| && j <= |b|
    ensures i == |a| || j == |b| ==> LcsAt(a, b, i, j) == 0
    ensures i < |a| && j < |b| && a[i] == b[j] ==> LcsAt(a, b, i, j) == LcsAt(a, b, i + 1, j + 1) + 1
    ensures i < |a| && j < |b| && a[i] != b[j] ==>
              LcsAt(a, b, i, j) == Max(LcsAt(a, b, i + 1, j), LcsAt(a, b, i, j + 1))
  {
  }

  /** Row i of the table holds its values. */
  ghost predicate RowFilled(lcs: array2<nat>, a: seq<Line>, b: seq<Line>, i: nat)
    requires lcs.Length0 == |a| + 1 && lcs.Length1 == |b| + 1 && i <= |a|
    reads lcs
  {
    forall j {:trigger lcs[i, j]} :: 0 <= j <= |b| ==> lcs[i, j] == LcsAt(a, b, i, j)
  }

  /** One pass of the inner loop of main.go:318-324. */
  method FillRow(lcs: array2<nat>, a: seq<Line>, b: seq<Line>, i: nat)
    requires lcs.Length0 == |a| + 1 && lcs.Length1 == |b| + 1 && i < |a|
    requires RowFilled(lcs, a, b, i + 1) && lcs[i, |b|] == 0
    modifies lcs
    ensures RowFilled(lcs, a, b, i)
    ensures forall k, l :: 0 <= k <= |a| && 0 <= l <= |b| && k != i ==> lcs[k, l] == old(lcs[k, l])
  {
    LcsAtStep(a, b, i, |b|);
    var j := |b| - 1;
    while j >= 0
      invariant -1 <= j < |b|
      invariant forall k, l :: 0 <= k <= |a| && 0 <= l <= |b| && k != i ==> lcs[k, l] == old(lcs[k, l])
      invariant forall l {:trigger lcs[i, l]} :: j < l <= |b| ==> lcs[i, l] == LcsAt(a, b, i, l)
    {
      LcsAtStep(a, b, i, j);
      assert lcs[i + 1, j] == LcsAt(a, b, i + 1, j) && lcs[i + 1, j + 1] == LcsAt(a, b, i + 1, j + 1);
      if a[i] == b[j] {
        lcs[i, j] := lcs[i + 1, j + 1] + 1;
      } else {
        lcs[i, j] := Max(lcs[i + 1, j], lcs[i, j + 1]);
      }
      j := j - 1;
    }
  }

  /** The table of main.go:313-325: every cell holds the true length for its pair of suffixes. */
  method FillTable(a: seq<Line>, b: seq<Line>) returns (lcs: array2<nat>)
    ensures fresh(lcs)
    ensures lcs.Length0 == |a| + 1 && lcs.Length1 == |b| + 1
    ensures forall i :: 0 <= i <= |a| ==> RowFilled(lcs, a, b, i)
  {
    lcs := new nat[|a| + 1, |b| + 1]((i, j) => 0);
    forall j | 0 <= j <= |b| ensures LcsAt(a, b, |a|, j) == 0 {
      LcsAtStep(a, b, |a|, j);
    }
    var i := |a| - 1;
    while i >= 0
      invariant -1 <= i < |a|
      invariant forall k :: i < k <= |a| ==> RowFilled(lcs, a, b, k)
      invariant forall k :: 0 <= k <= i ==> lcs[k, |b|] == 0
    {
      label before:
      FillRow(lcs, a, b, i);
      forall k | i < k <= |a| ensures RowFilled(lcs, a, b, k) {
        assert old@before(RowFilled(lcs, a, b, k));
      }
      i := i - 1;
    }
  }

  // ---------------------------------------------------------------------------
  // Hunks and what they mean
  // ---------------------------------------------------------------------------

  /** Hunks in order, inside a base of n lines from line lo on, with a kept line between any two. */
  predicate Chain(hs: seq<Hunk>, lo: nat, n: nat) {
    hs == [] || (lo <= hs[0].i1 <= hs[0].i2 <= n && ChainAfter(hs[1..], hs[0].i2, n))
  }

  predicate ChainAfter(hs: seq<Hunk>, end: nat, n: nat)
    decreases |hs|, 1
  {
    hs == [] || (end < hs[0].i1 <= hs[0].i2 <= n && ChainAfter(hs[1..], hs[0].i2, n))
  }

  /** The lines of a from `pos` on, with the hunks applied. */
  function ApplyFrom(a: seq<Line>, hs: seq<Hunk>, pos: nat): seq<Line>
    requires pos <= |a| && Chain(hs, pos, |a|)
    decreases |hs|
  {
    if hs == [] then a[pos..]
    else
      ChainAfterIsChain(hs[1..], hs[0].i2, |a|);
      a[pos..hs[0].i1] + hs[0].lines + ApplyFrom(a, hs[1..], hs[0].i2)
  }

  lemma ChainAfterIsChain(hs: seq<Hunk>, end: nat, n: nat)
    requires ChainAfter(hs, end, n)
    ensures Chain(hs, end, n)
  {
  }

  /** How many lines of a[pos..] the hunks leave in place. */
  function Kept(a: seq<Line>, hs: seq<Hunk>, pos: nat): nat
    requires pos <= |a| && Chain(hs, pos, |a|)
    decreases |hs|
  {
    if hs == [] then |a| - pos
    else
      ChainAfterIsChain(hs[1..], hs[0].i2, |a|);
      hs[0].i1 - pos + Kept(a, hs[1..], hs[0].i2)
  }

  // ---------------------------------------------------------------------------
  // The walk
  // ---------------------------------------------------------------------------

  predicate Matches(a: seq<Line>, b: seq<Line>, i: nat, j: nat) {
    i < |a| && j < |b| && a[i] == b[j]
  }

  /** Whether the walk skips a line of b (rather than of a) inside a hunk. */
  predicate TakesB(a: seq<Line>, b: seq<Line>, i: nat, j: nat)
    requires i <= |a| && j <= |b| && (i < |a| || j < |b|)
  {
    j < |b| && (i == |a| || LcsAt(a, b, i, j + 1) >= LcsAt(a, b, i + 1, j))
  }

  /** No hunk is open here, or none stays open. */
  predicate Stops(a: seq<Line>, b: seq<Line>, i: nat, j: nat)
    requires i <= |a| && j <= |b|
  {
    (i == |a| && j == |b|) || Matches(a, b, i, j)
  }

  /** Where the hunk that is open at (i, j) ends. */
  function HunkEnd(a: seq<Line>, b: seq<Line>, i: nat, j: nat): (e: (nat, nat))
    requires i <= |a| && j <= |b|
    ensures i <= e.0 <= |a| && j <= e.1 <= |b|
    ensures Stops(a, b, e.0, e.1)
    decreases |a| - i + |b| - j
  {
    if Stops(a, b, i, j) then (i, j)
    else if TakesB(a, b, i, j) then HunkEnd(a, b, i, j + 1)
    else HunkEnd(a, b, i + 1, j)
  }

  function DiffFrom(a: seq<Line>, b: seq<Line>, i: nat, j: nat): seq<Hunk>
    requires i <= |a| && j <= |b|
    decreases |a| - i + |b| - j
  {
    if i == |a| && j == |b| then []
    else if Matches(a, b, i, j) then DiffFrom(a, b, i + 1, j + 1)
    else
      var (i2, j2) := HunkEnd(a, b, i, j);
      [Hunk(i, i2, "", b[j..j2])] + DiffFrom(a, b, i2, j2)
  }

  /** The hunks turning a into b. */
  function DiffHunks(a: seq<Line>, b: seq<Line>): seq<Hunk> {
    DiffFrom(a, b, 0, 0)
  }

  /** A hunk that removes or inserts something. */
  predicate Proper(h: Hunk) {
    h.i1 < h.i2 || h.lines != []
  }

  /** Inside a hunk a line of b is skipped first, unless that loses a common line. */
  lemma HunkPrefersInsertion(a: seq<Line>, b: seq<Line>, i: nat, j: nat)
    requires i <= |a| && j <= |b| && (i < |a| || j < |b|)
    requires i == |a| || j == |b| || a[i] != b[j]
    ensures if j < |b| && (i == |a| || Lcs(a[i..], b[j + 1..]) >= Lcs(a[i + 1..], b[j..]))
            then HunkEnd(a, b, i, j) == HunkEnd(a, b, i, j + 1)
            else i < |a| && HunkEnd(a, b, i, j) == HunkEnd(a, b, i + 1, j)
  {
  }

  /** The walk from (i, j) after n lines, each skipped on the side the table favours. */
  function WalkAt(a: seq<Line>, b: seq<Line>, i: nat, j: nat, n: nat): (p: (nat, nat))
    requires i <= |a| && j <= |b|
    ensures p.0 <= |a| && p.1 <= |b|
    decreases n
  {
    if n == 0 || Stops(a, b, i, j) then (i, j)
    else if TakesB(a, b, i, j) then WalkAt(a, b, i, j + 1, n - 1)
    else WalkAt(a, b, i + 1, j, n - 1)
  }

  /** A hunk ends at the first position of that walk where it can. */
  lemma {:induction false} HunkEndIsFirst(a: seq<Line>, b: seq<Line>, i: nat, j: nat) returns (n: nat)
    requires i <= |a| && j <= |b|
    ensures HunkEnd(a, b, i, j) == WalkAt(a, b, i, j, n)
    ensures forall m :: 0 <= m < n ==> var p := WalkAt(a, b, i, j, m); !Stops(a, b, p.0, p.1)
    decreases |a| - i + |b| - j
  {
    if Stops(a, b, i, j) {
      n := 0;
    } else {
      var (i', j') := if TakesB(a, b, i, j) then (i, j + 1) else (i + 1, j);
      var rest := HunkEndIsFirst(a, b, i', j');
      n := rest + 1;
      forall m | 0 <= m < n ensures var p := WalkAt(a, b, i, j, m); !Stops(a, b, p.0, p.1) {
        if m > 0 {
          assert WalkAt(a, b, i, j, m) == WalkAt(a, b, i', j', m - 1);
        }
      }
    }
  }

  lemma {:induction false} HunkEndKeepsLcs(a: seq<Line>, b: seq<Line>, i: nat, j: nat)
    requires i <= |a| && j <= |b|
    ensures var e := HunkEnd(a, b, i, j); LcsAt(a, b, i, j) == LcsAt(a, b, e.0, e.1)
    decreases |a| - i + |b| - j
  {
    if (i == |a| && j == |b|) || Matches(a, b, i, j) {
    } else {
      LcsAtStep(a, b, i, j);
      if TakesB(a, b, i, j) {
        LcsAtStep(a, b, i, j + 1);
        HunkEndKeepsLcs(a, b, i, j + 1);
      } else {
        LcsAtStep(a, b, i + 1, j);
        HunkEndKeepsLcs(a, b, i + 1, j);
      }
    }
  }

  /** What the hunks of the walk from (i, j) are worth. */
  ghost predicate Faithful(a: seq<Line>, b: seq<Line>, i: nat, j: nat, hs: seq<Hunk>)
    requires i <= |a| && j <= |b|
  {
    && Chain(hs, i, |a|)
    && (Matches(a, b, i, j) || (i == |a| && j == |b|) ==> ChainAfter(hs, i, |a|))
    && (forall h <- hs :: Proper(h) && h.cond == "")
    && ApplyFrom(a, hs, i) == b[j..]
    && Kept(a, hs, i) == LcsAt(a, b, i, j)
  }

  /** Starting one line earlier keeps one line more. */
  lemma OneMoreLine(a: seq<Line>, hs: seq<Hunk>, i: nat)
    requires i < |a| && Chain(hs, i + 1, |a|)
    ensures ChainAfter(hs, i, |a|) && Chain(hs, i, |a|)
    ensures ApplyFrom(a, hs, i) == [a[i]] + ApplyFrom(a, hs, i + 1)
    ensures Kept(a, hs, i) == Kept(a, hs, i + 1) + 1
  {
    if hs == [] {
      assert a[i..] == [a[i]] + a[i + 1..];
    } else {
      ChainAfterIsChain(hs[1..], hs[0].i2, |a|);
      HeadInFront(a, i, hs[0].i1, hs[0].lines, ApplyFrom(a, hs[1..], hs[0].i2));
    }
  }

  lemma HeadInFront(a: seq<Line>, i: nat, k: nat, lines: seq<Line>, rest: seq<Line>)
    requires i < k <= |a|
    ensures a[i..k] + lines + rest == [a[i]] + (a[i + 1..k] + lines + rest)
  {
  }

  /** A kept line in front of a faithful hunk list. */
  lemma FaithfulMatch(a: seq<Line>, b: seq<Line>, i: nat, j: nat, hs: seq<Hunk>)
    requires i <= |a| && j <= |b| && Matches(a, b, i, j)
    requires Faithful(a, b, i + 1, j + 1, hs)
    ensures Faithful(a, b, i, j, hs)
  {
    LcsAtStep(a, b, i, j);
    OneMoreLine(a, hs, i);
    assert b[j..] == [b[j]] + b[j + 1..];
  }

  /** A hunk in front of a faithful hunk list. */
  lemma FaithfulHunk(a: seq<Line>, b: seq<Line>, i: nat, j: nat, i2: nat, j2: nat, hs: seq<Hunk>)
    requires i <= i2 <= |a| && j <= j2 <= |b| && i + j < i2 + j2
    requires !Matches(a, b, i, j) && (i < |a| || j < |b|)
    requires Matches(a, b, i2, j2) || (i2 == |a| && j2 == |b|)
    requires LcsAt(a, b, i, j) == LcsAt(a, b, i2, j2)
    requires Faithful(a, b, i2, j2, hs)
    ensures Faithful(a, b, i, j, [Hunk(i, i2, "", b[j..j2])] + hs)
  {
  }

  /**
   The walk from (i, j): its hunks are well formed, no two of them touch, none
   is empty, they turn a[i..] into b[j..] and keep a longest common subsequence.
   */
  lemma {:induction false} DiffFromCorrect(a: seq<Line>, b: seq<Line>, i: nat, j: nat)
    requires i <= |a| && j <= |b|
    ensures Faithful(a, b, i, j, DiffFrom(a, b, i, j))
    decreases |a| - i + |b| - j
  {
    if i == |a| && j == |b| {
      LcsAtStep(a, b, i, j);
    } else if Matches(a, b, i, j) {
      DiffFromCorrect(a, b, i + 1, j + 1);
      FaithfulMatch(a, b, i, j, DiffFrom(a, b, i + 1, j + 1));
    } else {
      var (i2, j2) := HunkEnd(a, b, i, j);
      DiffFromCorrect(a, b, i2, j2);
      HunkEndKeepsLcs(a, b, i, j);
      FaithfulHunk(a, b, i, j, i2, j2, DiffFrom(a, b, i2, j2));
    }
  }

  lemma SliceInThree(a: seq<Line>, p: nat, q: nat, r: nat)
    requires p <= q <= r <= |a|
    ensures a[p..] == a[p..q] + a[q..r] + a[r..]
  {
  }

  lemma WithinAcross(p: seq<Line>, s: seq<Line>, gap: seq<Line>, a: seq<Line>)
    requires Within(s, a)
    ensures Within(p + s, p + gap + a)
  {
    SkipWithin(s, gap, a);
    PrefixWithin(p, s, gap + a);
    assert p + gap + a == p + (gap + a);
  }

  lemma {:induction false} KeptWithinResult(a: seq<Line>, hs: seq<Hunk>, pos: nat) returns (s: seq<Line>)
    requires pos <= |a| && Chain(hs, pos, |a|)
    ensures |s| == Kept(a, hs, pos)
    ensures Within(s, a[pos..]) && Within(s, ApplyFrom(a, hs, pos))
    decreases |hs|
  {
    if hs == [] {
      s := a[pos..];
      PrefixWithin(s, [], []);
      assert s + [] == s;
    } else {
      var h, rest := hs[0], hs[1..];
      ChainAfterIsChain(rest, h.i2, |a|);
      var t := KeptWithinResult(a, rest, h.i2);
      var p, r := a[pos..h.i1], ApplyFrom(a, rest, h.i2);
      s := p + t;
      SliceInThree(a, pos, h.i1, h.i2);
      WithinAcross(p, t, a[h.i1..h.i2], a[h.i2..]);
      WithinAcross(p, t, h.lines, r);
    }
  }

  lemma {:induction false} PrefixWithin(p: seq<Line>, s: seq<Line>, a: seq<Line>)
    requires Within(s, a)
    ensures Within(p + s, p + a)
  {
    if p == [] {
      assert p + s == s && p + a == a;
    } else {
      PrefixWithin(p[1..], s, a);
      assert (p + s)[1..] == p[1..] + s && (p + a)[1..] == p[1..] + a;
    }
  }

  lemma {:induction false} SkipWithin(s: seq<Line>, p: seq<Line>, a: seq<Line>)
    requires Within(s, a)
    ensures Within(s, p + a)
  {
    if p == [] {
      assert p + a == a;
    } else {
      SkipWithin(s, p[1..], a);
      assert (p + a)[1..] == p[1..] + a;
      WithinMonotone(s, p + a);
    }
  }

  /** No hunk list turning a into b keeps more lines than `DiffHunks` does. */
  lemma DiffIsOptimal(a: seq<Line>, b: seq<Line>, hs: seq<Hunk>)
    requires Chain(hs, 0, |a|) && ApplyFrom(a, hs, 0) == b
    ensures Chain(DiffHunks(a, b), 0, |a|)
    ensures ApplyFrom(a, DiffHunks(a, b), 0) == b
    ensures Kept(a, hs, 0) <= Kept(a, DiffHunks(a, b), 0) == Lcs(a, b)
  {
    DiffFromCorrect(a, b, 0, 0);
    assert a[0..] == a && b[0..] == b;
    var s := KeptWithinResult(a, hs, 0);
    WithinBoundedByLcs(s, a, b);
  }

  /** The inner loop of main.go:337-346: it closes the hunk that is open at (i1, j1). */
  method WalkHunk(lcs: array2<nat>, a: seq<Line>, b: seq<Line>, i1: nat, j1: nat) returns (i: nat, j: nat)
    requires i1 <= |a| && j1 <= |b|
    requires lcs.Length0 == |a| + 1 && lcs.Length1 == |b| + 1
    requires forall k :: 0 <= k <= |a| ==> RowFilled(lcs, a, b, k)
    ensures (i, j) == HunkEnd(a, b, i1, j1)
  {
    i, j := i1, j1;
    while i < |a| || j < |b|
      invariant i1 <= i <= |a| && j1 <= j <= |b|
      invariant HunkEnd(a, b, i, j) == HunkEnd(a, b, i1, j1)
      decreases |a| - i + |b| - j
    {
      if i < |a| && j < |b| && a[i] == b[j] {
        break;
      }
      assert RowFilled(lcs, a, b, i) && (i < |a| ==> RowFilled(lcs, a, b, i + 1));
      if j < |b| && (i == |a| || lcs[i, j + 1] >= lcs[i + 1, j]) {
        assert TakesB(a, b, i, j);
        j := j + 1;
      } else {
        assert !TakesB(a, b, i, j);
        i := i + 1;
      }
    }
  }

  lemma OneHunk(a: seq<Line>, b: seq<Line>, i: nat, j: nat, hs: seq<Hunk>)
    requires i <= |a| && j <= |b| && !Stops(a, b, i, j)
    ensures var (i2, j2) := HunkEnd(a, b, i, j);
            hs + DiffFrom(a, b, i, j) == (hs + [Hunk(i, i2, "", b[j..j2])]) + DiffFrom(a, b, i2, j2)
  {
  }

  lemma OneMatch(a: seq<Line>, b: seq<Line>, i: nat, j: nat)
    requires Matches(a, b, i, j)
    ensures DiffFrom(a, b, i, j) == DiffFrom(a, b, i + 1, j + 1)
  {
  }

  /** The diff of main.go:311-352. */
  method Diff(a: seq<Line>, b: seq<Line>) returns (hunks: seq<Hunk>)
    ensures hunks == DiffHunks(a, b)
  {
    var lcs := FillTable(a, b);
    hunks := [];
    var i, j := 0, 0;
    while i < |a| || j < |b|
      invariant 0 <= i <= |a| && 0 <= j <= |b|
      invariant forall k :: 0 <= k <= |a| ==> RowFilled(lcs, a, b, k)
      invariant hunks + DiffFrom(a, b, i, j) == DiffHunks(a, b)
      decreases |a| - i + |b| - j
    {
      if i < |a| && j < |b| && a[i] == b[j] {
        OneMatch(a, b, i, j);
        i := i + 1;
        j := j + 1;
        continue;
      }
      var i1, j1 := i, j;
      i, j := WalkHunk(lcs, a, b, i1, j1);
      var h := Hunk(i1, i, "", b[j1..j]);
      OneHunk(a, b, i1, j1, hunks);
      hunks := hunks + [h];
    }
  }
}
