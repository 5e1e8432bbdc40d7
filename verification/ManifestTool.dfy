/** The merge algorithm itself (hack/cilium-manifest/main.go:255-307). */
module ManifestTool {
  import opened Options
  import opened ManifestDiff
  import opened ManifestTemplate
  import opened ManifestMerge
  import opened ManifestRender

  /** The template text written so far plus the pending prefix. */
  function Written(out: seq<string>, prefix: string): string {
    Cat(out) + prefix
  }

  lemma PrefixWritten(out: seq<string>, prefix: string, action: string)
    ensures Written(out, prefix + action) == Written(out, prefix) + action
  {
  }

  /** `emit` of main.go:277-282: the pending prefix lands in front of the first line. */
  method EmitLines(out: seq<string>, prefix: string, ls: seq<Line>) returns (out': seq<string>, prefix': string)
    ensures Written(out', prefix') == Written(out, prefix) + Cat(EscapeLines(ls))
    ensures ls == [] ==> out' == out && prefix' == prefix
    ensures ls != [] ==> out' != [] && prefix' == ""
  {
    out', prefix' := out, prefix;
    var escaped := Escape(ls);
    for i := 0 to escaped.Length
      invariant escaped[..] == EscapeLines(ls)
      invariant i == 0 ==> out' == out && prefix' == prefix
      invariant i > 0 ==> out' != [] && prefix' == ""
      invariant Written(out', prefix') == Written(out, prefix) + Cat(EscapeLines(ls)[..i])
    {
      EmitOne(out', prefix', escaped[i], EscapeLines(ls)[..i], Written(out, prefix));
      assert EscapeLines(ls)[..i + 1] == EscapeLines(ls)[..i] + [escaped[i]];
      out' := out' + [prefix' + escaped[i]];
      prefix' := "";
    }
    assert EscapeLines(ls)[..|ls|] == EscapeLines(ls);
  }

  /** Writing one line behind the pending prefix. */
  lemma EmitOne(out: seq<string>, prefix: string, line: string, done: seq<string>, w: string)
    requires Written(out, prefix) == w + Cat(done)
    ensures Written(out + [prefix + line], "") == w + Cat(done + [line])
  {
    CatAppend(out, prefix + line);
    CatAppend(done, line);
    AppendTwice(Cat(out), prefix, line + "\n");
    assert prefix + line + "\n" == prefix + (line + "\n");
    AppendTwice(w, Cat(done), line + "\n");
    assert Cat(out + [prefix + line]) + "" == Cat(out + [prefix + line]);
  }

  lemma CatAppend(a: seq<string>, l: string)
    ensures Cat(a + [l]) == Cat(a) + (l + "\n")
  {
    CatConcat(a, [l]);
    assert Cat([l]) == l + "\n" + Cat([]) == l + "\n";
  }

  lemma BlockThenNewline(base: seq<Line>, h: Hunk, rest: string)
    requires h.i1 <= h.i2 <= |base|
    ensures BlockThen(base, h, rest + "\n") == BlockThen(base, h, rest) + "\n"
  {
    var oldText, newText := Cat(EscapeLines(base[h.i1..h.i2])), Cat(EscapeLines(h.lines));
    var close := END_ACTION + rest;
    AppendTwice(END_ACTION, rest, "\n");
    if h.i1 == h.i2 {
      AppendThrice(IfAction(h.cond), newText, close, "\n");
    } else if h.lines == [] {
      AppendThrice(IfNotAction(h.cond), oldText, close, "\n");
    } else {
      AppendThrice(ELSE_ACTION, oldText, close, "\n");
      AppendThrice(IfAction(h.cond), newText, ELSE_ACTION + (oldText + close), "\n");
    }
  }

  lemma AppendThrice(a: string, b: string, c: string, d: string)
    ensures a + (b + (c + d)) == (a + (b + c)) + d
  {
  }

  lemma {:induction false} WovenIsBody(base: seq<Line>, hs: seq<Hunk>, next: nat)
    requires next < |base| && Chain(hs, next, |base|) && forall h <- hs :: h.i2 < |base|
    ensures Woven(base, hs, next) == Body(base, hs, next) + "\n"
    decreases |hs|
  {
    if hs == [] {
      CatIsJoin(EscapeLines(base[next..]));
    } else {
      var h, t := hs[0], hs[1..];
      assert h in hs;
      ChainAfterIsChain(t, h.i2, |base|);
      WovenIsBody(base, t, h.i2);
      BlockThenNewline(base, h, Body(base, t, h.i2));
      AppendTwice(Cat(EscapeLines(base[next..h.i1])), BlockThen(base, h, Body(base, t, h.i2)), "\n");
    }
  }

  lemma AppendTwice(w: string, s: string, t: string)
    ensures (w + s) + t == w + (s + t)
  {
  }

  /** Writes an action and the lines it governs. */
  method EmitGoverned(out: seq<string>, prefix: string, action: string, ls: seq<Line>, ghost rest: string)
    returns (out': seq<string>, prefix': string)
    ensures Written(out', prefix') + rest == Written(out, prefix) + (action + (Cat(EscapeLines(ls)) + rest))
  {
    PrefixWritten(out, prefix, action);
    prefix' := prefix + action;
    out', prefix' := EmitLines(out, prefix', ls);
    ghost var w, n := Written(out, prefix), Cat(EscapeLines(ls));
    AppendTwice(w + action, n, rest);
    AppendTwice(w, action, n + rest);
  }

  /** Writes one hunk: its conditional block and the pending closing action (main.go:286-299). */
  method EmitHunk(base: seq<Line>, h: Hunk, out: seq<string>, prefix: string, ghost rest: string)
    returns (out': seq<string>, prefix': string)
    requires h.i1 <= h.i2 <= |base|
    ensures Written(out', prefix') + rest == Written(out, prefix) + BlockThen(base, h, rest)
    ensures prefix' != ""
  {
    ghost var close := END_ACTION + rest;
    if h.i1 == h.i2 {
      out', prefix' := EmitGoverned(out, prefix, IfAction(h.cond), h.lines, close);
    } else if |h.lines| == 0 {
      out', prefix' := EmitGoverned(out, prefix, IfNotAction(h.cond), base[h.i1..h.i2], close);
    } else {
      ghost var tail := ELSE_ACTION + (Cat(EscapeLines(base[h.i1..h.i2])) + close);
      out', prefix' := EmitGoverned(out, prefix, IfAction(h.cond), h.lines, tail);
      out', prefix' := EmitGoverned(out', prefix', ELSE_ACTION, base[h.i1..h.i2], close);
    }
    PrefixWritten(out', prefix', END_ACTION);
    AppendTwice(Written(out', prefix'), END_ACTION, rest);
    prefix' := prefix' + END_ACTION;
  }

  /** A sort by start, with no promise about hunks that start together (main.go:263). */
  method SortByStart(hs: seq<Hunk>) returns (r: seq<Hunk>)
    ensures Sorted(r) && multiset(r) == multiset(hs)
  {
    assert exists s :: Sorted(s) && multiset(s) == multiset(hs) by {
      var s := SortExists(hs);
    }
    r :| Sorted(r) && multiset(r) == multiset(hs);
  }

  /** The hunks of every variant, tagged with its condition (main.go:256-262). */
  method CollectHunks(base: seq<Line>, variants: seq<Variant>) returns (hunks: seq<Hunk>)
    ensures hunks == AllHunks(base, variants)
  {
    hunks := [];
    for i := 0 to |variants|
      invariant hunks + AllHunks(base, variants[i..]) == AllHunks(base, variants)
    {
      var v := variants[i];
      var own := Diff(base, v.lines);
      var tagged: seq<Hunk> := [];
      for k := 0 to |own|
        invariant tagged == WithCond(own, v.cond)[..k]
      {
        tagged := tagged + [own[k].(cond := v.cond)];
      }
      assert tagged == WithCond(own, v.cond);
      assert variants[i..][1..] == variants[i + 1..];
      assert hunks + AllHunks(base, variants[i..]) == (hunks + tagged) + AllHunks(base, variants[i + 1..]);
      hunks := hunks + tagged;
    }
  }

  /** The overlap test of main.go:264-269: the first hunk that is not separated from the one before it. */
  method FindOverlap(hs: seq<Hunk>) returns (found: Option<nat>)
    ensures found.None? <==> Adjacent(hs)
    ensures found.Some? ==>
              var k := found.value;
              1 <= k < |hs| && hs[k].i1 <= hs[k - 1].i2 && Adjacent(hs[..k])
  {
    var i := 1;
    while i < |hs|
      invariant 1 <= i
      invariant forall k :: 1 <= k < i && k < |hs| ==> hs[k - 1].i2 < hs[k].i1
    {
      if hs[i].i1 <= hs[i - 1].i2 {
        return Some(i);
      }
      i := i + 1;
    }
    return None;
  }

  /** What the error of an overlap names: two conditions and a line, counted from 1. */
  datatype Clash = Clash(first: string, second: string, line: nat)

  /** Both hunks are in the bag, twice if they are equal. */
  predicate Pair(h: Hunk, k: Hunk, m: multiset<Hunk>) {
    multiset{h, k} <= m
  }

  /** Two hunks of the bag clash, and no two clash on an earlier line. */
  ghost predicate FirstClash(h: Hunk, k: Hunk, m: multiset<Hunk>) {
    && Pair(h, k, m) && h.i1 <= k.i1 <= h.i2
    && forall p, q :: Pair(p, q, m) && !Apart(p, q) ==> k.i1 <= Max(p.i1, q.i1)
  }

  ghost predicate Names(c: Clash, m: multiset<Hunk>) {
    exists h, k :: FirstClash(h, k, m) && c == Clash(h.cond, k.cond, k.i1 + 1)
  }

  /** In a bag of hunks that are all apart no two clash. */
  lemma ApartPair(m: multiset<Hunk>, p: Hunk, q: Hunk)
    requires ApartBag(m) && Pair(p, q, m)
    ensures Apart(p, q)
  {
    assert multiset{p, q}[p] >= 1 && multiset{p, q}[q] >= 1;
    assert p in m && q in m;
    assert p != q by {
      assert multiset{p, q}[p] <= m[p] == 1;
    }
  }

  lemma PairInPrefix(s: seq<Hunk>, k: nat, p: Hunk, q: Hunk)
    requires k <= |s| && Pair(p, q, multiset(s)) && p !in s[k..] && q !in s[k..]
    ensures Pair(p, q, multiset(s[..k]))
  {
    assert s == s[..k] + s[k..];
    assert multiset(s) == multiset(s[..k]) + multiset(s[k..]);
    assert multiset(s[k..])[p] == 0 && multiset(s[k..])[q] == 0;
  }

  lemma NoEarlierClash(s: seq<Hunk>, n: nat, k: nat, p: Hunk, q: Hunk)
    requires Sorted(s) && AllFit(s, n) && 1 <= k < |s| && Adjacent(s[..k])
    requires Pair(p, q, multiset(s)) && !Apart(p, q)
    ensures s[k].i1 <= Max(p.i1, q.i1)
  {
    if p.i1 < s[k].i1 && q.i1 < s[k].i1 {
      PairInPrefix(s, k, p, q);
      SortedChain(s[..k], n);
      ApartIsBag(s[..k], n);
      ApartPair(multiset(s[..k]), p, q);
    }
  }

  /** The first clash of the sorted hunks is the first of all. */
  lemma FoundIsFirst(s: seq<Hunk>, n: nat, k: nat)
    requires Sorted(s) && AllFit(s, n) && 1 <= k < |s| && s[k].i1 <= s[k - 1].i2 && Adjacent(s[..k])
    ensures FirstClash(s[k - 1], s[k], multiset(s))
  {
    assert s == s[..k - 1] + [s[k - 1], s[k]] + s[k + 1..];
    forall p, q | Pair(p, q, multiset(s)) && !Apart(p, q) ensures s[k].i1 <= Max(p.i1, q.i1) {
      NoEarlierClash(s, n, k, p, q);
    }
  }

  /** Where the base goes on after the first k hunks. */
  function NextLine(hs: seq<Hunk>, k: nat): nat
    requires k <= |hs|
  {
    if k == 0 then 0 else hs[k - 1].i2
  }

  lemma {:induction false} ChainSuffix(hs: seq<Hunk>, k: nat, lo: nat, n: nat)
    requires k <= |hs| && Chain(hs, lo, n)
    ensures Chain(hs[k..], if k == 0 then lo else hs[k - 1].i2, n)
    ensures k > 0 ==> hs[k - 1].i1 <= hs[k - 1].i2 <= n && ChainAfter(hs[k..], hs[k - 1].i2, n)
    decreases k
  {
    if k == 0 {
      assert hs[0..] == hs;
    } else {
      ChainAfterIsChain(hs[1..], hs[0].i2, n);
      if k > 1 {
        ChainSuffix(hs[1..], k - 1, hs[0].i2, n);
      }
      assert hs[1..][k - 1..] == hs[k..];
      ChainAfterIsChain(hs[k..], hs[k - 1].i2, n);
    }
  }

  /** In a chain only the last hunk can reach the end of the base. */
  lemma LastReachesEnd(base: seq<Line>, hs: seq<Hunk>)
    requires Chain(hs, 0, |base|) && AllFit(hs, |base|)
    ensures ReachesEnd(base, hs) <==> hs != [] && hs[|hs| - 1].i2 == |base|
  {
    if ReachesEnd(base, hs) {
      var k :| 0 <= k < |hs| && hs[k].i2 == |base|;
      ChainSuffix(hs, k + 1, 0, |base|);
      assert hs[k + 1..] == [];
    }
  }

  /** The template from hunk k on. */
  ghost function Remaining(base: seq<Line>, hs: seq<Hunk>, k: nat): string
    requires k <= |hs| && Chain(hs, 0, |base|)
  {
    ChainSuffix(hs, k, 0, |base|);
    Woven(base, hs[k..], NextLine(hs, k))
  }

  lemma RemainingStep(base: seq<Line>, hs: seq<Hunk>, k: nat)
    requires k < |hs| && Chain(hs, 0, |base|)
    ensures NextLine(hs, k) <= hs[k].i1 <= hs[k].i2 <= |base|
    ensures Remaining(base, hs, k)
         == Cat(EscapeLines(base[NextLine(hs, k)..hs[k].i1])) + BlockThen(base, hs[k], Remaining(base, hs, k + 1))
  {
    ChainSuffix(hs, k, 0, |base|);
    ChainSuffix(hs, k + 1, 0, |base|);
    assert hs[k..][0] == hs[k] && hs[k..][1..] == hs[k + 1..];
  }

  lemma RemainingStart(base: seq<Line>, hs: seq<Hunk>)
    requires Chain(hs, 0, |base|)
    ensures Remaining(base, hs, 0) == Woven(base, hs, 0)
  {
  }

  lemma RemainingEnd(base: seq<Line>, hs: seq<Hunk>)
    requires Chain(hs, 0, |base|)
    ensures NextLine(hs, |hs|) <= |base|
    ensures Remaining(base, hs, |hs|) == Cat(EscapeLines(base[NextLine(hs, |hs|)..]))
  {
    ChainSuffix(hs, |hs|, 0, |base|);
  }

  /** The weaving loop of main.go:283-302. */
  method Weave(base: seq<Line>, hunks: seq<Hunk>) returns (out: seq<string>, prefix: string)
    requires Chain(hunks, 0, |base|) && AllFit(hunks, |base|)
    ensures Written(out, prefix) == Woven(base, hunks, 0)
    ensures prefix != "" <==> ReachesEnd(base, hunks)
    ensures out == [] && prefix == "" ==> base == []
  {
    out, prefix := [], "";
    var next := 0;
    RemainingStart(base, hunks);
    for k := 0 to |hunks|
      invariant next == NextLine(hunks, k) <= |base|
      invariant Written(out, prefix) + Remaining(base, hunks, k) == Woven(base, hunks, 0)
      invariant k == 0 ==> out == [] && prefix == ""
      invariant k > 0 ==> prefix != ""
    {
      var h := hunks[k];
      RemainingStep(base, hunks, k);
      ghost var rest := Remaining(base, hunks, k + 1);
      AppendTwice(Written(out, prefix), Cat(EscapeLines(base[next..h.i1])), BlockThen(base, h, rest));
      out, prefix := EmitLines(out, prefix, base[next..h.i1]);
      out, prefix := EmitHunk(base, h, out, prefix, rest);
      next := h.i2;
    }
    RemainingEnd(base, hunks);
    LastReachesEnd(base, hunks);
    out, prefix := EmitLines(out, prefix, base[next..]);
  }

  /** An empty base without hunks at its end has no hunks at all. */
  lemma EmptyBase(base: seq<Line>, hs: seq<Hunk>)
    requires Chain(hs, 0, |base|) && AllFit(hs, |base|) && !ReachesEnd(base, hs) && base == []
    ensures hs == [] && Body(base, hs, 0) == "" && Woven(base, hs, 0) == ""
  {
  }

  lemma SameBeforeNewline(s: string, t: string)
    requires s + "\n" == t + "\n"
    ensures s == t
  {
    assert (s + "\n")[..|s|] == s && (t + "\n")[..|t|] == t;
    assert |s + "\n"| == |s| + 1 && |t + "\n"| == |t| + 1;
  }

  /** The error for two hunks that touch names both conditions and the line of the second hunk. */
  lemma TouchingClash(c: Clash)
    requires Names(c, multiset([Hunk(0, 1, ".A", []), Hunk(1, 1, ".B", ["x"])]))
    ensures c == Clash(".A", ".B", 2)
  {
    var (p, q) := (Hunk(0, 1, ".A", []), Hunk(1, 1, ".B", ["x"]));
    var m := multiset([p, q]);
    assert m == multiset{p, q};
    var h, k :| FirstClash(h, k, m) && c == Clash(h.cond, k.cond, k.i1 + 1);
    assert multiset{h, k}[h] >= 1 && multiset{h, k}[k] >= 1;
    assert h in m && k in m && m[h] == 1 && m[k] == 1;
    assert h == k ==> multiset{h, k}[h] == 2;
  }

  /** Sorts the hunks and refuses those that clash (main.go:263-269). */
  method OrderHunks(base: seq<Line>, all: seq<Hunk>) returns (hunks: seq<Hunk>, clash: Option<Clash>)
    requires AllFit(all, |base|)
    ensures clash.Some? <==> !AllApart(all)
    ensures clash.Some? ==> Names(clash.value, multiset(all))
    ensures clash.None? ==> hunks == Ordering(all, |base|)
  {
    hunks := SortByStart(all);
    SortGivesOrdering(hunks, all, |base|);
    SortedChain(hunks, |base|);
    var overlap := FindOverlap(hunks);
    if overlap.Some? {
      var k := overlap.value;
      FoundIsFirst(hunks, |base|, k);
      return hunks, Some(Clash(hunks[k - 1].cond, hunks[k].cond, hunks[k].i1 + 1));
    }
    ChainUnique(hunks, Ordering(all, |base|), |base|);
    return hunks, None;
  }

  /** Weaves ordered hunks and joins the lines (main.go:271-306). */
  method WeaveBody(base: seq<Line>, hunks: seq<Hunk>) returns (r: Merged)
    requires Chain(hunks, 0, |base|) && AllFit(hunks, |base|)
    ensures r == if ReachesEnd(base, hunks) then Err(EndOfRender) else Ok(Body(base, hunks, 0))
  {
    var out, prefix := Weave(base, hunks);
    if |prefix| != 0 {
      return Err(EndOfRender);
    }
    if base == [] {
      EmptyBase(base, hunks);
    } else {
      CatIsJoin(out);
      WovenIsBody(base, hunks, 0);
      SameBeforeNewline(Join(out), Body(base, hunks, 0));
    }
    return Ok(Join(out));
  }

  /**
   The whole merge. It fails exactly when two hunks overlap or touch, or one
   reaches the end of the base; otherwise the template is the one `MergeOf`
   describes, whatever order the sort leaves equal starts in. An overlap error
   names two hunks that clash, on the first line where any two do.
   */
  method Merge(base: seq<Line>, variants: seq<Variant>) returns (r: Merged, clash: Option<Clash>)
    ensures r == MergeOf(base, variants)
    ensures r == Err(Overlap) <==> !AllApart(AllHunks(base, variants))
    ensures clash.Some? <==> r == Err(Overlap)
    ensures clash.Some? ==> Names(clash.value, multiset(AllHunks(base, variants)))
    ensures r.Err? <==> !AllApart(AllHunks(base, variants)) || ReachesEnd(base, AllHunks(base, variants))
  {
    var all := CollectHunks(base, variants);
    AllHunksFit(base, variants);
    var hunks;
    hunks, clash := OrderHunks(base, all);
    if clash.Some? {
      return Err(Overlap), clash;
    }
    MembersOfBag(hunks, all);
    r := WeaveBody(base, hunks);
  }
}
