/**
 What a merged template prints (hack/cilium-manifest/main.go:130-153 checks this
 for four renders at run time; here it is proved for all of them).
 */
module ManifestRender {
  import opened Options
  import opened ManifestDiff
  import opened ManifestTemplate
  import opened ManifestMerge

  // ---------------------------------------------------------------------------
  // Applying an unordered set of hunks
  // ---------------------------------------------------------------------------

  ghost predicate StartsHere(hs: set<Hunk>, p: nat, h: Hunk) {
    h in hs && h.i1 == p
  }

  /** The variant lines that go in front of base line p. */
  ghost function NewLines(hs: set<Hunk>, p: nat): seq<Line> {
    if exists h :: StartsHere(hs, p, h) then (var h :| StartsHere(hs, p, h); h.lines) else []
  }

  /** Some hunk replaces base line p. */
  ghost predicate Replaced(hs: set<Hunk>, p: nat) {
    exists h :: h in hs && h.i1 <= p < h.i2
  }

  /** The base from line p on with the hunks applied, whatever their order. */
  ghost function Patch(base: seq<Line>, hs: set<Hunk>, p: nat): seq<Line>
    requires p <= |base|
    decreases |base| - p
  {
    NewLines(hs, p) +
    if p == |base| then []
    else (if Replaced(hs, p) then [] else [base[p]]) + Patch(base, hs, p + 1)
  }

  /** The hunks of the variants whose condition holds. */
  ghost function Enabled(hs: seq<Hunk>, env: string -> bool): set<Hunk> {
    set h | h in hs && env(h.cond)
  }

  /** The part of a patch set that lies ahead of line p is the chain `hs`. */
  ghost predicate Ahead(s: set<Hunk>, hs: seq<Hunk>, p: nat) {
    && (forall h <- hs :: h in s)
    && (forall h <- s :: h in hs || (h.i1 < p && h.i2 <= p))
  }

  lemma {:induction false} PatchInside(base: seq<Line>, s: set<Hunk>, h: Hunk, p: nat)
    requires h in s && h.i1 < p <= h.i2 <= |base|
    requires forall k <- s :: k.i1 < p || h.i2 < k.i1
    ensures Patch(base, s, p) == Patch(base, s, h.i2)
    decreases h.i2 - p
  {
    if p < h.i2 {
      assert Replaced(s, p);
      PatchInside(base, s, h, p + 1);
    }
  }

  lemma {:induction false} PatchKeepsLine(base: seq<Line>, s: set<Hunk>, hs: seq<Hunk>, p: nat)
    requires p < |base| && ChainAfter(hs, p, |base|)
    requires forall h <- s :: h in hs || h.i2 <= p
    ensures !Replaced(s, p)
  {
    ChainAfterStarts(hs, p, |base|);
  }

  /** Applying the hunks one after the other is applying them as a set. */
  lemma {:induction false} PatchIsApply(base: seq<Line>, s: set<Hunk>, hs: seq<Hunk>, p: nat)
    requires p <= |base| && Chain(hs, p, |base|) && Ahead(s, hs, p)
    ensures Patch(base, s, p) == ApplyFrom(base, hs, p)
    decreases |base| - p, |hs|
  {
    if hs == [] || p < hs[0].i1 {
      assert ChainAfter(hs, p, |base|);
      ChainAfterStarts(hs, p, |base|);
      assert NewLines(s, p) == [];
      if p < |base| {
        PatchKeepsLine(base, s, hs, p);
        PatchIsApply(base, s, hs, p + 1);
        if hs == [] {
          assert base[p..] == [base[p]] + base[p + 1..];
        } else {
          ApplyKeepsLine(base, hs, p);
        }
      }
    } else {
      PatchHead(base, s, hs, p);
    }
  }

  lemma ApplyHead(base: seq<Line>, hs: seq<Hunk>, p: nat)
    requires p <= |base| && hs != [] && Chain(hs, p, |base|) && hs[0].i1 == p
    ensures Chain(hs[1..], hs[0].i2, |base|)
    ensures ApplyFrom(base, hs, p) == hs[0].lines + ApplyFrom(base, hs[1..], hs[0].i2)
  {
  }

  lemma ApplyKeepsLine(base: seq<Line>, hs: seq<Hunk>, p: nat)
    requires p < |base| && ChainAfter(hs, p, |base|)
    ensures Chain(hs, p, |base|) && Chain(hs, p + 1, |base|)
    ensures ApplyFrom(base, hs, p) == [base[p]] + ApplyFrom(base, hs, p + 1)
  {
    ApplySkips(base, hs, p, p + 1);
    assert base[p..p + 1] == [base[p]];
  }

  lemma ApplySkips(base: seq<Line>, hs: seq<Hunk>, p: nat, q: nat)
    requires p <= q <= |base| && Chain(hs, q, |base|)
    ensures Chain(hs, p, |base|)
    ensures ApplyFrom(base, hs, p) == base[p..q] + ApplyFrom(base, hs, q)
  {
    if hs == [] {
      assert base[p..] == base[p..q] + base[q..];
    } else {
      ChainAfterIsChain(hs[1..], hs[0].i2, |base|);
      var r := ApplyFrom(base, hs[1..], hs[0].i2);
      assert base[p..hs[0].i1] == base[p..q] + base[q..hs[0].i1];
      ConcatAssociates(base[p..q], base[q..hs[0].i1], hs[0].lines, r);
    }
  }

  lemma ConcatAssociates(a: seq<Line>, b: seq<Line>, c: seq<Line>, d: seq<Line>)
    ensures (a + b) + c + d == a + (b + c + d)
  {
  }

  /** No other hunk of the set touches h. */
  ghost predicate Alone(s: set<Hunk>, h: Hunk) {
    && h in s
    && (forall k <- s :: k == h || h.i2 < k.i1 || (k.i1 < h.i1 && k.i2 <= h.i1))
  }

  lemma NewLinesOf(s: set<Hunk>, h: Hunk)
    requires h in s && forall k <- s :: k.i1 == h.i1 ==> k == h
    ensures NewLines(s, h.i1) == h.lines
  {
    assert StartsHere(s, h.i1, h);
  }

  lemma PatchStep(base: seq<Line>, s: set<Hunk>, p: nat)
    requires p < |base|
    ensures Patch(base, s, p) == NewLines(s, p) + ((if Replaced(s, p) then [] else [base[p]]) + Patch(base, s, p + 1))
  {
  }

  lemma {:induction false} PatchReplacement(base: seq<Line>, s: set<Hunk>, h: Hunk)
    requires Alone(s, h) && h.i1 < h.i2 <= |base|
    ensures Patch(base, s, h.i1) == h.lines + Patch(base, s, h.i2)
  {
    NewLinesOf(s, h);
    assert Replaced(s, h.i1);
    PatchStep(base, s, h.i1);
    assert [] + Patch(base, s, h.i1 + 1) == Patch(base, s, h.i1 + 1);
    PatchInside(base, s, h, h.i1 + 1);
  }

  lemma PatchInsertion(base: seq<Line>, s: set<Hunk>, h: Hunk)
    requires Alone(s, h) && h.i1 == h.i2 <= |base|
    ensures Patch(base, s, h.i1)
         == h.lines + if h.i1 == |base| then [] else [base[h.i1]] + Patch(base, s, h.i1 + 1)
  {
    NewLinesOf(s, h);
    assert !Replaced(s, h.i1);
  }

  /** The first hunk starts at line p. */
  lemma {:induction false} PatchHead(base: seq<Line>, s: set<Hunk>, hs: seq<Hunk>, p: nat)
    requires p <= |base| && hs != [] && Chain(hs, p, |base|) && hs[0].i1 == p && Ahead(s, hs, p)
    ensures Patch(base, s, p) == ApplyFrom(base, hs, p)
    decreases |base| - p, |hs|, 0
  {
    var h, t := hs[0], hs[1..];
    ChainAfterStarts(t, h.i2, |base|);
    ApplyHead(base, hs, p);
    assert Alone(s, h) && Ahead(s, t, if p < h.i2 then h.i2 else p + 1) by {
      assert hs == [h] + t;
      assert forall k :: k in hs <==> k == h || k in t;
    }
    if p < h.i2 {
      PatchReplacement(base, s, h);
      PatchIsApply(base, s, t, h.i2);
    } else {
      PatchInsertion(base, s, h);
      if p < |base| {
        ApplyKeepsLine(base, t, p);
        PatchIsApply(base, s, t, p + 1);
      } else {
        assert ChainAfter(t, p, |base|);
      }
    }
  }

  // ---------------------------------------------------------------------------
  // Running the woven template
  // ---------------------------------------------------------------------------

  /** The hunks of an ordered list whose condition holds. */
  function Taken(hs: seq<Hunk>, env: string -> bool): seq<Hunk> {
    if hs == [] then []
    else (if env(hs[0].cond) then [hs[0]] else []) + Taken(hs[1..], env)
  }

  lemma {:induction false} TakenMembers(hs: seq<Hunk>, env: string -> bool)
    ensures forall h :: h in Taken(hs, env) <==> h in hs && env(h.cond)
  {
    if hs != [] {
      TakenMembers(hs[1..], env);
      assert hs == [hs[0]] + hs[1..];
    }
  }

  lemma {:induction false} TakenChain(hs: seq<Hunk>, env: string -> bool, end: nat, n: nat)
    requires ChainAfter(hs, end, n)
    ensures ChainAfter(Taken(hs, env), end, n)
    decreases |hs|
  {
    if hs != [] {
      TakenChain(hs[1..], env, hs[0].i2, n);
      ChainAfterEarlier(Taken(hs[1..], env), hs[0].i2, end, n);
      assert env(hs[0].cond) ==> Taken(hs, env)[1..] == Taken(hs[1..], env);
      assert !env(hs[0].cond) ==> Taken(hs, env) == Taken(hs[1..], env);
    }
  }

  lemma ChainAfterEarlier(hs: seq<Hunk>, end: nat, start: nat, n: nat)
    requires ChainAfter(hs, end, n) && start <= end
    ensures ChainAfter(hs, start, n)
  {
  }

  lemma {:induction false} RunCat(ls: seq<string>, rest: string, env: string -> bool, stack: seq<Frame>)
    ensures Run(Cat(EscapeLines(ls)) + rest, env, stack) == Emit(Cat(ls), stack, Run(rest, env, stack))
  {
    if ls == [] {
      assert Cat(EscapeLines(ls)) + rest == rest;
      EmitEmpty(stack, Run(rest, env, stack));
    } else {
      var after := Cat(EscapeLines(ls[1..])) + rest;
      RunCat(ls[1..], rest, env, stack);
      assert EscapeLines(ls)[1..] == EscapeLines(ls[1..]);
      assert Cat(EscapeLines(ls)) + rest == EscapeLine(ls[0]) + "\n" + after;
      RunLine(ls[0], after, env, stack);
      EmitConcat(ls[0] + "\n", Cat(ls[1..]), stack, Run(rest, env, stack));
    }
  }

  lemma {:induction false} RunJoin(ls: seq<string>, env: string -> bool)
    ensures Run(Join(EscapeLines(ls)), env, []) == Some(Join(ls))
  {
    if |ls| == 1 {
      EscapeRoundTrip(ls[0], env);
    } else if |ls| > 1 {
      RunJoin(ls[1..], env);
      assert EscapeLines(ls)[1..] == EscapeLines(ls[1..]);
      RunLine(ls[0], Join(EscapeLines(ls[1..])), env, []);
    }
  }

  /** Lines inside one open block that is then closed. */
  lemma RunBlock(f: Frame, ls: seq<string>, rest: string, env: string -> bool)
    ensures Run(Cat(EscapeLines(ls)) + (END_ACTION + rest), env, [f])
         == Emit(if f.taken then Cat(ls) else "", [], Run(rest, env, []))
  {
    RunCat(ls, END_ACTION + rest, env, [f]);
    RunEnd(rest, env, [f]);
    assert [f][1..] == [];
    EmitEmpty([], Run(rest, env, []));
  }

  /** The lines a hunk contributes. */
  function Chosen(base: seq<Line>, h: Hunk, env: string -> bool): seq<Line>
    requires h.i1 <= h.i2 <= |base|
  {
    if env(h.cond) then h.lines else base[h.i1..h.i2]
  }

  /** The second half of a replacement. */
  lemma RunElseHalf(taken: bool, ls: seq<string>, rest: string, env: string -> bool)
    ensures Run(ELSE_ACTION + (Cat(EscapeLines(ls)) + (END_ACTION + rest)), env, [Frame(taken, false)])
         == Emit(if taken then "" else Cat(ls), [], Run(rest, env, []))
  {
    var f, g := Frame(taken, false), Frame(!taken, true);
    assert [g] + [f][1..] == [g];
    RunElse(Cat(EscapeLines(ls)) + (END_ACTION + rest), env, [f]);
    RunBlock(g, ls, rest, env);
  }

  /** The block of a hunk prints the variant lines when the condition holds, else the base lines. */
  lemma RunHunk(base: seq<Line>, h: Hunk, rest: string, env: string -> bool)
    requires h.i1 <= h.i2 <= |base| && IsField(h.cond)
    ensures Run(BlockThen(base, h, rest), env, [])
         == Emit(Cat(Chosen(base, h, env)), [], Run(rest, env, []))
  {
    var newText, oldText := Cat(EscapeLines(h.lines)), Cat(EscapeLines(base[h.i1..h.i2]));
    var close := END_ACTION + rest;
    var f, g := Frame(env(h.cond), false), Frame(!env(h.cond), false);
    assert [f] + [] == [f] && [g] + [] == [g];
    if h.i1 == h.i2 {
      RunIf(h.cond, newText + close, env, []);
      RunBlock(f, h.lines, rest, env);
    } else if h.lines == [] {
      RunIfNot(h.cond, oldText + close, env, []);
      RunBlock(g, base[h.i1..h.i2], rest, env);
    } else {
      var tail := ELSE_ACTION + (oldText + close);
      RunIf(h.cond, newText + tail, env, []);
      RunCat(h.lines, tail, env, [f]);
      RunElseHalf(f.taken, base[h.i1..h.i2], rest, env);
      EmitEmpty([], Run(rest, env, []));
    }
  }

  ghost predicate EndsBefore(hs: seq<Hunk>, n: nat) {
    forall h <- hs :: h.i2 < n && IsField(h.cond)
  }

  lemma ApplyNonempty(base: seq<Line>, hs: seq<Hunk>, p: nat)
    requires p < |base| && Chain(hs, p, |base|) && forall h <- hs :: h.i2 < |base|
    ensures ApplyFrom(base, hs, p) != []
    decreases |hs|
  {
  }

  /** Applying the enabled hunks: base lines, then what the first hunk contributes, then the rest. */
  lemma ApplyTaken(base: seq<Line>, hs: seq<Hunk>, p: nat, env: string -> bool)
    requires p <= |base| && hs != [] && Chain(hs, p, |base|)
    ensures Chain(Taken(hs, env), p, |base|) && Chain(Taken(hs[1..], env), hs[0].i2, |base|)
    ensures ApplyFrom(base, Taken(hs, env), p)
         == base[p..hs[0].i1] + Chosen(base, hs[0], env) + ApplyFrom(base, Taken(hs[1..], env), hs[0].i2)
  {
    var h, t := hs[0], Taken(hs[1..], env);
    TakenChain(hs[1..], env, h.i2, |base|);
    ChainAfterIsChain(t, h.i2, |base|);
    if env(h.cond) {
      assert Taken(hs, env) == [h] + t;
      assert Taken(hs, env)[1..] == t;
    } else {
      assert Taken(hs, env) == t;
      ApplySkips(base, t, p, h.i2);
      SliceSplit(base, p, h.i1, h.i2);
    }
  }

  lemma SliceSplit(base: seq<Line>, p: nat, q: nat, r: nat)
    requires p <= q <= r <= |base|
    ensures base[p..r] == base[p..q] + base[q..r]
  {
  }

  /** Kept lines, then a hunk, then a template that prints `tail`. */
  lemma {:induction false} RunSegment(base: seq<Line>, h: Hunk, kept: seq<Line>, rest: string, tail: seq<Line>,
                                      env: string -> bool)
    requires h.i1 <= h.i2 <= |base| && IsField(h.cond)
    requires Run(rest, env, []) == Some(Join(tail)) && tail != []
    ensures Run(Cat(EscapeLines(kept)) + BlockThen(base, h, rest), env, [])
         == Some(Join(kept + Chosen(base, h, env) + tail))
  {
    var chosen := Chosen(base, h, env);
    RunCat(kept, BlockThen(base, h, rest), env, []);
    RunHunk(base, h, rest, env);
    EmitConcat(Cat(kept), Cat(chosen), [], Run(rest, env, []));
    CatConcat(kept, chosen);
    JoinConcat(kept + chosen, tail);
  }

  lemma BodyHead(base: seq<Line>, hs: seq<Hunk>, p: nat)
    requires p <= |base| && hs != [] && Chain(hs, p, |base|)
    ensures Chain(hs[1..], hs[0].i2, |base|)
    ensures Body(base, hs, p)
         == Cat(EscapeLines(base[p..hs[0].i1])) + BlockThen(base, hs[0], Body(base, hs[1..], hs[0].i2))
  {
  }

  /** Under any truth assignment the body prints the base with the enabled hunks applied. */
  lemma {:induction false} RunBody(base: seq<Line>, hs: seq<Hunk>, p: nat, env: string -> bool)
    requires p <= |base| && Chain(hs, p, |base|) && EndsBefore(hs, |base|)
    ensures Chain(Taken(hs, env), p, |base|)
    ensures Run(Body(base, hs, p), env, []) == Some(Join(ApplyFrom(base, Taken(hs, env), p)))
    decreases |hs|
  {
    if hs == [] {
      RunJoin(base[p..], env);
    } else {
      var h, t := hs[0], hs[1..];
      assert h in hs;
      BodyHead(base, hs, p);
      RunBody(base, t, h.i2, env);
      ApplyTaken(base, hs, p, env);
      TakenMembers(t, env);
      ApplyNonempty(base, Taken(t, env), h.i2);
      RunSegment(base, h, base[p..h.i1], Body(base, t, h.i2), ApplyFrom(base, Taken(t, env), h.i2), env);
    }
  }

  // ---------------------------------------------------------------------------
  // Main theorems
  // ---------------------------------------------------------------------------

  ghost function MergeOf(base: seq<Line>, variants: seq<Variant>): Merged {
    AllHunksFit(base, variants);
    MergeResult(base, AllHunks(base, variants))
  }

  /**
   For every base, every list of variants that merges and every truth assignment,
   the template prints the base with exactly the hunks of the enabled variants applied.
   */
  lemma {:induction false} MergedTemplateRenders(base: seq<Line>, variants: seq<Variant>, env: string -> bool)
    requires forall v <- variants :: IsField(v.cond)
    requires MergeOf(base, variants).Ok?
    ensures Render(MergeOf(base, variants).body, env)
         == Some(Join(Patch(base, Enabled(AllHunks(base, variants), env), 0)))
  {
    AllHunksFit(base, variants);
    var all := AllHunks(base, variants);
    var hs := Ordering(all, |base|);
    MembersOfBag(hs, all);
    assert EndsBefore(hs, |base|) by {
      forall h | h in hs ensures h.i2 < |base| && IsField(h.cond) {
        assert h in all && Fits(h, |base|);
      }
    }
    RunBody(base, hs, 0, env);
    TakenMembers(hs, env);
    PatchIsApply(base, Enabled(all, env), Taken(hs, env), 0);
  }

  /** The hunks of one variant alone. */
  function OwnHunks(base: seq<Line>, v: Variant): seq<Hunk> {
    WithCond(DiffHunks(base, v.lines), v.cond)
  }

  ghost predicate DistinctConds(variants: seq<Variant>) {
    forall i, j :: 0 <= i < j < |variants| ==> variants[i].cond != variants[j].cond
  }

  lemma {:induction false} HunksByCond(base: seq<Line>, variants: seq<Variant>, i: nat)
    requires i < |variants| && DistinctConds(variants)
    ensures forall h :: h in AllHunks(base, variants) && h.cond == variants[i].cond
                   <==> h in OwnHunks(base, variants[i])
  {
    var v, rest := variants[0], variants[1..];
    assert forall h <- OwnHunks(base, v) :: h.cond == v.cond;
    if i == 0 {
      AllHunksFit(base, rest);
      assert forall k :: 0 <= k < |rest| ==> rest[k] == variants[k + 1];
    } else {
      assert forall p, q :: 0 <= p < q < |rest| ==> rest[p] == variants[p + 1] && rest[q] == variants[q + 1];
      HunksByCond(base, rest, i - 1);
    }
  }

  lemma {:induction false} ApplyIgnoresCond(base: seq<Line>, hs: seq<Hunk>, cond: string, p: nat)
    requires p <= |base| && Chain(hs, p, |base|)
    ensures Chain(WithCond(hs, cond), p, |base|)
    ensures ApplyFrom(base, WithCond(hs, cond), p) == ApplyFrom(base, hs, p)
    decreases |hs|
  {
    if hs != [] {
      ChainAfterIsChain(hs[1..], hs[0].i2, |base|);
      ApplyIgnoresCond(base, hs[1..], cond, hs[0].i2);
      assert WithCond(hs, cond)[1..] == WithCond(hs[1..], cond);
      ChainAfterIgnoresCond(hs[1..], cond, hs[0].i2, |base|);
    }
  }

  lemma {:induction false} ChainAfterIgnoresCond(hs: seq<Hunk>, cond: string, end: nat, n: nat)
    requires ChainAfter(hs, end, n)
    ensures ChainAfter(WithCond(hs, cond), end, n)
    decreases |hs|
  {
    if hs != [] {
      ChainAfterIgnoresCond(hs[1..], cond, hs[0].i2, n);
      assert WithCond(hs, cond)[1..] == WithCond(hs[1..], cond);
    }
  }

  /** Patching with the hunks of one variant gives its lines; patching with none gives the base. */
  lemma PatchWithOwn(base: seq<Line>, v: Variant, s: set<Hunk>)
    requires forall h :: h in s <==> h in OwnHunks(base, v)
    ensures Patch(base, s, 0) == v.lines
  {
    DiffFromCorrect(base, v.lines, 0, 0);
    ApplyIgnoresCond(base, DiffHunks(base, v.lines), v.cond, 0);
    PatchIsApply(base, s, OwnHunks(base, v), 0);
  }

  /** With every condition false, the template of some renders prints the base render. */
  lemma {:induction false} BaseRenderReproduced(baseRender: string, variants: seq<Variant>, env: string -> bool)
    requires forall v <- variants :: IsField(v.cond) && !env(v.cond)
    requires MergeOf(Lines(baseRender), variants).Ok?
    ensures Render(MergeOf(Lines(baseRender), variants).body, env) == Some(baseRender)
  {
    var base := Lines(baseRender);
    MergedTemplateRenders(base, variants, env);
    AllHunksFit(base, variants);
    assert Enabled(AllHunks(base, variants), env) == {};
    PatchIsApply(base, {}, [], 0);
    LinesRoundTrip(baseRender);
  }

  /** With only the condition of variant i true, it prints the render of variant i. */
  lemma VariantRenderReproduced(baseRender: string, variants: seq<Variant>, i: nat, render: string, env: string -> bool)
    requires i < |variants| && DistinctConds(variants) && variants[i].lines == Lines(render)
    requires forall v <- variants :: IsField(v.cond) && (env(v.cond) <==> v.cond == variants[i].cond)
    requires MergeOf(Lines(baseRender), variants).Ok?
    ensures Render(MergeOf(Lines(baseRender), variants).body, env) == Some(render)
  {
    var base := Lines(baseRender);
    MergedTemplateRenders(base, variants, env);
    AllHunksFit(base, variants);
    HunksByCond(base, variants, i);
    PatchWithOwn(base, variants[i], Enabled(AllHunks(base, variants), env));
    LinesRoundTrip(render);
  }

  lemma AllHunksHead(base: seq<Line>, v: Variant, vs: seq<Variant>)
    ensures AllHunks(base, [v] + vs) == OwnHunks(base, v) + AllHunks(base, vs)
  {
  }

  lemma {:induction false} AllHunksConcat(base: seq<Line>, vs: seq<Variant>, ws: seq<Variant>)
    ensures AllHunks(base, vs + ws) == AllHunks(base, vs) + AllHunks(base, ws)
  {
    if vs == [] {
      assert vs + ws == ws;
    } else {
      var v, t := vs[0], vs[1..];
      assert vs == [v] + t && vs + ws == [v] + (t + ws);
      AllHunksConcat(base, t, ws);
      AllHunksHead(base, v, t);
      AllHunksHead(base, v, t + ws);
      HunksAssociate(OwnHunks(base, v), AllHunks(base, t), AllHunks(base, ws));
    }
  }

  lemma HunksAssociate(a: seq<Hunk>, b: seq<Hunk>, c: seq<Hunk>)
    ensures a + (b + c) == (a + b) + c
  {
  }

  /** Moving a variant to the front does not change the bag of hunks. */
  lemma AllHunksMove(base: seq<Line>, a: seq<Variant>, v: Variant, b: seq<Variant>)
    ensures multiset(AllHunks(base, a + ([v] + b))) == multiset(OwnHunks(base, v)) + multiset(AllHunks(base, a + b))
  {
    AllHunksConcat(base, a, [v] + b);
    AllHunksHead(base, v, b);
    AllHunksConcat(base, a, b);
  }

  lemma SplitAt(ws: seq<Variant>, k: nat)
    requires k < |ws|
    ensures ws == ws[..k] + ([ws[k]] + ws[k + 1..])
  {
  }

  /** Takes the first variant of one list out of the other. */
  lemma TakeOut(vs: seq<Variant>, ws: seq<Variant>) returns (a: seq<Variant>, b: seq<Variant>)
    requires vs != [] && multiset(vs) == multiset(ws)
    ensures ws == a + ([vs[0]] + b) && multiset(vs[1..]) == multiset(a + b)
  {
    assert vs[0] in multiset(ws);
    var k :| 0 <= k < |ws| && ws[k] == vs[0];
    SplitAt(ws, k);
    SplitAt(vs, 0);
    a, b := ws[..k], ws[k + 1..];
    BagWithout(a, vs[0], b);
    BagWithout(vs[..0], vs[0], vs[0 + 1..]);
    assert vs[..0] + vs[0 + 1..] == vs[1..];
  }

  lemma BagWithout(a: seq<Variant>, v: Variant, b: seq<Variant>)
    ensures multiset(a + b) == multiset(a + ([v] + b)) - multiset{v}
  {
  }

  lemma {:induction false} AllHunksBag(base: seq<Line>, vs: seq<Variant>, ws: seq<Variant>)
    requires multiset(vs) == multiset(ws)
    ensures multiset(AllHunks(base, vs)) == multiset(AllHunks(base, ws))
    decreases |vs|
  {
    if vs == [] {
      assert |multiset(ws)| == |ws|;
    } else {
      var a, b := TakeOut(vs, ws);
      assert vs == [vs[0]] + vs[1..];
      AllHunksBag(base, vs[1..], a + b);
      AllHunksMove(base, a, vs[0], b);
      AllHunksHead(base, vs[0], vs[1..]);
    }
  }

  /** Merging looks at the hunks as a bag. */
  lemma MergeResultOfBag(base: seq<Line>, hs: seq<Hunk>, ks: seq<Hunk>)
    requires AllFit(hs, |base|) && AllFit(ks, |base|) && multiset(hs) == multiset(ks)
    ensures MergeResult(base, hs) == MergeResult(base, ks)
  {
    ApartIsBag(hs, |base|);
    ApartIsBag(ks, |base|);
    MembersOfBag(hs, ks);
    if AllApart(hs) {
      ChainUnique(Ordering(hs, |base|), Ordering(ks, |base|), |base|);
    }
  }

  /** The order of the variants changes neither the template nor the error. */
  lemma VariantOrderIrrelevant(base: seq<Line>, vs: seq<Variant>, ws: seq<Variant>)
    requires multiset(vs) == multiset(ws)
    ensures MergeOf(base, vs) == MergeOf(base, ws)
  {
    AllHunksFit(base, vs);
    AllHunksFit(base, ws);
    AllHunksBag(base, vs, ws);
    MergeResultOfBag(base, AllHunks(base, vs), AllHunks(base, ws));
  }

  /** Hunks of one diff never touch each other. */
  lemma DiffApart(base: seq<Line>, v: Variant)
    ensures AllApart(DiffHunks(base, v.lines)) && AllApart(OwnHunks(base, v))
  {
    DiffFromCorrect(base, v.lines, 0, 0);
    var hs, own := DiffHunks(base, v.lines), OwnHunks(base, v);
    ChainFits(hs, 0, |base|);
    forall p, q | 0 <= p < q < |own| ensures Apart(own[p], own[q]) {
      assert Apart(hs[p], hs[q]);
    }
  }

  lemma AllHunksOfTwo(base: seq<Line>, v: Variant, w: Variant)
    ensures AllHunks(base, [v, w]) == OwnHunks(base, v) + OwnHunks(base, w)
  {
    assert [v, w] == [v] + [w] && [w] == [w] + [];
    AllHunksHead(base, v, [w]);
    AllHunksHead(base, w, []);
    assert AllHunks(base, []) == [];
  }

  /** The diff that deletes the first of two lines. */
  lemma DeletionDiff()
    ensures DiffHunks(["a", "b"], ["b"]) == [Hunk(0, 1, "", [])]
  {
    var a, b := ["a", "b"], ["b"];
    assert a[0] != b[0] && a[1..] == ["b"] && b[1..] == [];
    LcsAtStep(a, b, 0, 1);
    LcsAtStep(a, b, 2, 1);
    LcsAtStep(a, b, 1, 0);
    assert LcsAt(a, b, 1, 0) == 1 && !TakesB(a, b, 0, 0);
    assert HunkEnd(a, b, 0, 0) == (1, 0);
    OneMatch(a, b, 1, 0);
    assert b[0..0] == [];
  }

  /** The diff that inserts a line between the two. */
  lemma InsertionDiff()
    ensures DiffHunks(["a", "b"], ["a", "x", "b"]) == [Hunk(1, 1, "", ["x"])]
  {
    var a, b := ["a", "b"], ["a", "x", "b"];
    assert a[1] != b[1] && a[1] == b[2];
    LcsAtStep(a, b, 2, 1);
    LcsAtStep(a, b, 1, 2);
    assert TakesB(a, b, 1, 1);
    assert HunkEnd(a, b, 1, 1) == (1, 2);
    OneMatch(a, b, 0, 0);
    OneMatch(a, b, 1, 2);
    assert b[1..2] == ["x"];
  }

  /** The text of a template with one hunk. */
  lemma OneHunkTemplate(base: seq<Line>, v: Variant, h: Hunk)
    requires h.i2 < |base| && DiffHunks(base, v.lines) == [h]
    ensures h.i1 <= h.i2
    ensures MergeOf(base, [v])
         == Ok(Cat(EscapeLines(base[..h.i1])) + BlockThen(base, h.(cond := v.cond), Join(EscapeLines(base[h.i2..]))))
  {
    AllHunksHead(base, v, []);
    var own := OwnHunks(base, v);
    assert own == [h.(cond := v.cond)] && [v] + [] == [v] && AllHunks(base, [v]) == own;
    AllHunksFit(base, [v]);
    assert own[0] in own && Fits(own[0], |base|);
    assert Chain(own, 0, |base|) by { assert own[1..] == []; }
    ChainUnique(Ordering(own, |base|), own, |base|);
    assert !ReachesEnd(base, own);
    assert MergeOf(base, [v]) == Ok(Body(base, own, 0));
    BodyHead(base, own, 0);
    assert own[1..] == [] && base[0..h.i1] == base[..h.i1];
  }

  lemma PlainLine(l: string)
    requires |l| == 1 && l[0] !in "{}"
    ensures EscapeLines([l]) == [l] && Cat([l]) == l + "\n" && Join([l]) == l
  {
    EscapeExactly(l[0], "{", "");
    assert l == [l[0]] + "" && [l[0]] + EscapeLine("") == l;
    assert Cat([l]) == l + "\n" + Cat([]) && l + "\n" + "" == l + "\n";
  }

  lemma ActionTexts()
    ensures IfAction(".A") == "{{ if .A }}" && IfNotAction(".A") == "{{ if not .A }}"
  {
  }

  lemma InsertionBlock(rest: string)
    ensures BlockThen(["a", "b"], Hunk(1, 1, ".A", ["x"]), rest)
         == "{{ if .A }}" + ("x\n" + ("{{ end }}" + rest))
  {
    PlainLine("x");
    ActionTexts();
  }

  lemma DeletionBlock(rest: string)
    ensures BlockThen(["a", "b"], Hunk(0, 1, ".A", []), rest)
         == "{{ if not .A }}" + ("a\n" + ("{{ end }}" + rest))
  {
    PlainLine("a");
    ActionTexts();
    assert ["a", "b"][0..1] == ["a"];
  }

  lemma ReplacementBlock(rest: string)
    ensures BlockThen(["a", "b"], Hunk(0, 1, ".A", ["x"]), rest)
         == "{{ if .A }}" + ("x\n" + ("{{ else }}" + ("a\n" + ("{{ end }}" + rest))))
  {
    PlainLine("a");
    PlainLine("x");
    ActionTexts();
    assert ["a", "b"][0..1] == ["a"];
  }

  lemma BaseTexts()
    ensures Cat(EscapeLines(["a", "b"][..1])) == "a\n" && Cat(EscapeLines(["a", "b"][..0])) == ""
    ensures Join(EscapeLines(["a", "b"][1..])) == "b"
  {
    PlainLine("a");
    PlainLine("b");
    assert ["a", "b"][..0] == [] && ["a", "b"][..1] == ["a"] && ["a", "b"][1..] == ["b"];
  }

  /** An inserted line, word for word. */
  lemma InsertionTemplate()
    ensures MergeOf(["a", "b"], [Variant(".A", ["a", "x", "b"])])
         == Ok("a\n" + ("{{ if .A }}" + ("x\n" + ("{{ end }}" + "b"))))
  {
    InsertionDiff();
    OneHunkTemplate(["a", "b"], Variant(".A", ["a", "x", "b"]), Hunk(1, 1, "", ["x"]));
    BaseTexts();
    InsertionBlock("b");
  }

  /** A deleted line, word for word. */
  lemma DeletionTemplate()
    ensures MergeOf(["a", "b"], [Variant(".A", ["b"])])
         == Ok("{{ if not .A }}" + ("a\n" + ("{{ end }}" + "b")))
  {
    DeletionDiff();
    OneHunkTemplate(["a", "b"], Variant(".A", ["b"]), Hunk(0, 1, "", []));
    BaseTexts();
    DeletionBlock("b");
    NothingInFront("{{ if not .A }}" + ("a\n" + ("{{ end }}" + "b")));
  }

  lemma NothingInFront(s: string)
    ensures "" + s == s
  {
  }

  /** The diff that replaces the first of two lines. */
  lemma ReplacementDiff()
    ensures DiffHunks(["a", "b"], ["x", "b"]) == [Hunk(0, 1, "", ["x"])]
  {
    var a, b := ["a", "b"], ["x", "b"];
    assert a[0] != b[0] && a[1] == b[1] && a[0] != b[1];
    LcsAtStep(a, b, 2, 1);
    LcsAtStep(a, b, 0, 2);
    LcsAtStep(a, b, 1, 1);
    LcsAtStep(a, b, 2, 2);
    LcsAtStep(a, b, 0, 1);
    LcsAtStep(a, b, 1, 0);
    assert a[1] != b[0];
    assert LcsAt(a, b, 1, 1) == 1 && LcsAt(a, b, 0, 1) == 1 && LcsAt(a, b, 1, 0) == 1;
    assert TakesB(a, b, 0, 0) && !TakesB(a, b, 0, 1);
    assert HunkEnd(a, b, 0, 1) == (1, 1) && HunkEnd(a, b, 0, 0) == (1, 1);
    OneMatch(a, b, 1, 1);
    assert b[0..1] == ["x"];
  }

  /** A replaced line, word for word. */
  lemma ReplacementTemplate()
    ensures MergeOf(["a", "b"], [Variant(".A", ["x", "b"])])
         == Ok("{{ if .A }}" + ("x\n" + ("{{ else }}" + ("a\n" + ("{{ end }}" + "b")))))
  {
    ReplacementDiff();
    OneHunkTemplate(["a", "b"], Variant(".A", ["x", "b"]), Hunk(0, 1, "", ["x"]));
    BaseTexts();
    ReplacementBlock("b");
    NothingInFront("{{ if .A }}" + ("x\n" + ("{{ else }}" + ("a\n" + ("{{ end }}" + "b")))));
  }

  /** Two variants that change no line in common are refused when their hunks touch. */
  lemma TouchingHunksRefused()
    ensures var v, w := Variant(".A", ["b"]), Variant(".B", ["a", "x", "b"]);
            && AllHunks(["a", "b"], [v, w]) == [Hunk(0, 1, ".A", []), Hunk(1, 1, ".B", ["x"])]
            && MergeOf(["a", "b"], [v, w]) == Err(Overlap)
  {
    var base, v, w := ["a", "b"], Variant(".A", ["b"]), Variant(".B", ["a", "x", "b"]);
    DeletionDiff();
    InsertionDiff();
    AllHunksOfTwo(base, v, w);
    assert OwnHunks(base, v) == [Hunk(0, 1, ".A", [])] && OwnHunks(base, w) == [Hunk(1, 1, ".B", ["x"])];
    var all := AllHunks(base, [v, w]);
    AllHunksFit(base, [v, w]);
    assert !Apart(all[0], all[1]);
  }

  /** The diff that appends a line. */
  lemma AppendDiff()
    ensures DiffHunks(["a"], ["a", "b"]) == [Hunk(1, 1, "", ["b"])]
  {
    var a, b := ["a"], ["a", "b"];
    OneMatch(a, b, 0, 0);
    assert TakesB(a, b, 1, 1) && HunkEnd(a, b, 1, 1) == (1, 2);
    assert b[1..2] == ["b"];
  }

  /** A variant that only adds a line after the last one is refused. */
  lemma EndOfRenderRefused()
    ensures MergeOf(["a"], [Variant(".A", ["a", "b"])]) == Err(EndOfRender)
  {
    AppendDiff();
    var v := Variant(".A", ["a", "b"]);
    assert DiffHunks(["a"], v.lines)[0].i2 == 1 && ReachesEnd(["a"], DiffHunks(["a"], v.lines));
    SingleVariantMerges(["a"], v);
  }

  lemma ReachesEndIgnoresCond(base: seq<Line>, hs: seq<Hunk>, cond: string)
    ensures ReachesEnd(base, WithCond(hs, cond)) <==> ReachesEnd(base, hs)
  {
  }

  /** So a single variant merges unless its diff reaches the end. */
  lemma SingleVariantMerges(base: seq<Line>, v: Variant)
    ensures MergeOf(base, [v]).Err? <==> ReachesEnd(base, DiffHunks(base, v.lines))
    ensures MergeOf(base, [v]) != Err(Overlap)
  {
    DiffApart(base, v);
    ReachesEndIgnoresCond(base, DiffHunks(base, v.lines), v.cond);
    AllHunksFit(base, [v]);
    AllHunksHead(base, v, []);
    assert [v] + [] == [v] && OwnHunks(base, v) + [] == OwnHunks(base, v);
  }
}
