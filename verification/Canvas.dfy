/**
 The block-diffusion engine of the daemon: trimming a denoised canvas, growing the answer
 block by block, and the load/unload state of the model. The denoiser is a parameter: its
 output is arbitrary.
 */
module Canvas {
  import opened Arithmetic
  import opened Sequences

  type Token = int

  // ---- where a canvas is cut ----

  /** How often the token at `j` recurs in steps of `stride`. */
  function Repeats(s: seq<Token>, j: nat, stride: nat): (reps: nat)
    requires stride >= 1
    decreases |s| - j
  {
    if j + stride < |s| && s[j] == s[j + stride] then 1 + Repeats(s, j + stride, stride) else 0
  }

  predicate LoopsAt(s: seq<Token>, i: nat) { Repeats(s, i, 1) >= 6 || Repeats(s, i, 2) >= 6 }

  /** The token at `i` stands at every `stride`-th position from `i` to `i + m * stride`. */
  ghost predicate SameEvery(s: seq<Token>, i: nat, stride: nat, m: nat) {
    && i + m * stride < |s|
    && forall p :: i <= p <= i + m * stride && (stride == 1 || (p - i) % 2 == 0) ==> s[p] == s[i]
  }

  /** What six recurrences mean: the same token seven times, at every position or every other one. */
  lemma LoopsAtMeaning(s: seq<Token>, i: nat)
    ensures LoopsAt(s, i) <==> SameEvery(s, i, 1, 6) || SameEvery(s, i, 2, 6)
  {
    RepeatsMeaning(s, i, 1, 6);
    RepeatsMeaning(s, i, 2, 6);
  }

  lemma {:induction false} RepeatsMeaning(s: seq<Token>, i: nat, stride: nat, m: nat)
    requires (stride == 1 || stride == 2) && m >= 1
    ensures Repeats(s, i, stride) >= m <==> SameEvery(s, i, stride, m)
    decreases m
  {
    var j := i + stride;
    if m > 1 {
      RepeatsMeaning(s, j, stride, m - 1);
      assert j + (m - 1) * stride == i + m * stride;
    }
    if SameEvery(s, i, stride, m) {
      assert s[j] == s[i];
    }
  }

  /** `e` is the first end-of-generation position, or the length. */
  ghost predicate EogBound(eog: Token -> bool, s: seq<Token>, e: nat) {
    e <= |s| && (forall i :: 0 <= i < e ==> !eog(s[i])) && (e < |s| ==> eog(s[e]))
  }

  /** The least of the end-of-generation bound and the loop onsets before its last position. */
  ghost predicate CutBefore(eog: Token -> bool, s: seq<Token>, e: nat, cut: nat) {
    && EogBound(eog, s, e) && cut <= e
    && (cut < e ==> cut + 1 < e && LoopsAt(s, cut))
    && forall i: nat :: i < cut && i + 1 < e ==> !LoopsAt(s, i)
  }

  ghost predicate IsCut(eog: Token -> bool, s: seq<Token>, cut: nat) { exists e: nat :: CutBefore(eog, s, e, cut) }

  lemma CutUnique(eog: Token -> bool, s: seq<Token>, a: nat, b: nat)
    requires IsCut(eog, s, a) && IsCut(eog, s, b)
    ensures a == b
  {
    var ea: nat :| CutBefore(eog, s, ea, a);
    var eb: nat :| CutBefore(eog, s, eb, b);
    assert ea == eb;
  }

  function EogIndex(eog: Token -> bool, s: seq<Token>, i: nat): (e: nat)
    requires i <= |s|
    ensures i <= e <= |s| && (forall k :: i <= k < e ==> !eog(s[k])) && (e < |s| ==> eog(s[e]))
    decreases |s| - i
  {
    if i == |s| || eog(s[i]) then i else EogIndex(eog, s, i + 1)
  }

  function LoopIndex(s: seq<Token>, e: nat, i: nat): (cut: nat)
    requires i <= e
    ensures i <= cut <= e && (cut < e ==> cut + 1 < e && LoopsAt(s, cut))
    ensures forall k: nat :: i <= k < cut && k + 1 < e ==> !LoopsAt(s, k)
    decreases e - i
  {
    if i + 1 >= e then e else if LoopsAt(s, i) then i else LoopIndex(s, e, i + 1)
  }

  function TrimPoint(eog: Token -> bool, s: seq<Token>): (cut: nat)
    ensures IsCut(eog, s, cut) && cut <= |s|
    ensures forall i :: 0 <= i < cut ==> !eog(s[i])
  {
    var e := EogIndex(eog, s, 0);
    assert EogBound(eog, s, e);
    var cut := LoopIndex(s, e, 0);
    assert CutBefore(eog, s, e, cut);
    cut
  }

  /**
   `trim_canvas`, on the `n` tokens of the buffer from `off` on: every access is inside them,
   and the result is the one cut point.
   */
  method TrimCanvas(eog: Token -> bool, buf: array<Token>, off: nat, n: nat) returns (cut: nat)
    requires off + n <= buf.Length
    ensures IsCut(eog, buf[off..off + n], cut)
    ensures cut == TrimPoint(eog, buf[off..off + n])
  {
    ghost var s := buf[off..off + n];
    cut := n;
    for i := 0 to n
      invariant cut == n && forall k :: 0 <= k < i ==> !eog(s[k])
    {
      if eog(buf[off + i]) { cut := i; break; }
    }
    ghost var e := cut;
    assert EogBound(eog, s, e);
    var i := 0;
    while i + 1 < cut
      invariant cut == e && forall k: nat :: k < i && k + 1 < e ==> !LoopsAt(s, k)
    {
      var loop := false;
      var stride := 1;
      while stride <= 2 && !loop
        invariant 1 <= stride <= 3
        invariant loop <==> (stride > 1 && Repeats(s, i, 1) >= 6) || (stride > 2 && Repeats(s, i, 2) >= 6)
        decreases 3 - stride
      {
        var reps := 0;
        var j := i;
        while j + stride < n && buf[off + j] == buf[off + j + stride]
          invariant reps >= 0 && i <= j && reps + Repeats(s, j, stride) == Repeats(s, i, stride)
        {
          assert s[j] == buf[off + j] && s[j + stride] == buf[off + j + stride];
          reps := reps + 1;
          j := j + stride;
        }
        assert j + stride < n ==> s[j] == buf[off + j] && s[j + stride] == buf[off + j + stride];
        loop := reps >= 6;
        stride := stride + 1;
      }
      if loop { cut := i; break; }
      i := i + 1;
    }
    assert CutBefore(eog, s, e, cut);
    CutUnique(eog, s, cut, TrimPoint(eog, s));
  }

  /** The loop at `i` is one at stride 2 that reaches or passes position `e`. */
  ghost predicate Straddles(s: seq<Token>, e: nat, i: nat) { i + 1 < e <= i + 12 && SameEvery(s, i, 2, 6) }

  /** Within the answer the scan sees the answer's own loops and those at stride 2 that straddle its end. */
  lemma LoopsOfAnswer(eog: Token -> bool, s: seq<Token>, e: nat, i: nat)
    requires EogBound(eog, s, e) && i + 1 < e
    ensures LoopsAt(s, i) <==> LoopsAt(s[..e], i) || Straddles(s, e, i)
  {
    LoopsAtMeaning(s, i);
    LoopsAtMeaning(s[..e], i);
    hide LoopsAt;
    if SameEvery(s, i, 1, 6) {
      assert forall p :: i <= p <= i + 6 ==> s[p] == s[i];
      assert !eog(s[i]);
      assert SameEvery(s[..e], i, 1, 6);
    }
    if SameEvery(s, i, 2, 6) && i + 12 < e { assert SameEvery(s[..e], i, 2, 6); }
    if SameEvery(s[..e], i, 1, 6) { SameInWhole(s, e, i, 1); }
    if SameEvery(s[..e], i, 2, 6) { SameInWhole(s, e, i, 2); }
  }

  lemma SameInWhole(s: seq<Token>, e: nat, i: nat, stride: nat)
    requires e <= |s| && (stride == 1 || stride == 2) && SameEvery(s[..e], i, stride, 6)
    ensures SameEvery(s, i, stride, 6)
  {
    forall p | i <= p <= i + 6 * stride && (stride == 1 || (p - i) % 2 == 0) ensures s[p] == s[i] {
      assert s[..e][p] == s[..e][i];
    }
  }

  lemma BoundUnique(eog: Token -> bool, s: seq<Token>, a: nat, b: nat)
    requires EogBound(eog, s, a) && EogBound(eog, s, b)
    ensures a == b
  {
  }

  /** What comes after the end token changes the cut if and only if a loop at stride 2 straddles it before the answer's own cut. */
  lemma PastEndMattersIff(eog: Token -> bool, s: seq<Token>, e: nat)
    requires EogBound(eog, s, e)
    ensures var own := TrimPoint(eog, s[..e]);
            TrimPoint(eog, s) != own <==> exists i: nat :: i < own && Straddles(s, e, i)
  {
    hide LoopsAt, TrimPoint, Straddles;
    var own, all := TrimPoint(eog, s[..e]), TrimPoint(eog, s);
    assert EogBound(eog, s[..e], e);
    var e1: nat :| CutBefore(eog, s[..e], e1, own);
    var e2: nat :| CutBefore(eog, s, e2, all);
    BoundUnique(eog, s[..e], e, e1);
    BoundUnique(eog, s, e, e2);
    forall i: nat | i + 1 < e ensures LoopsAt(s, i) <==> LoopsAt(s[..e], i) || Straddles(s, e, i) {
      LoopsOfAnswer(eog, s, e, i);
    }
    forall i: nat | Straddles(s, e, i) ensures i + 1 < e { StraddlesBefore(s, e, i); }
  }

  lemma StraddlesBefore(s: seq<Token>, e: nat, i: nat)
    requires Straddles(s, e, i)
    ensures i + 1 < e
  {
  }

  /**
   The loop scan is not stopped by the end of the answer: at stride 2 it can step over the end
   token and call an answer a loop because of what follows it. Here the answer `7 1 7` is cut
   to nothing, although it has no repetition loop of its own.
   */
  lemma LoopScanPassesEnd()
    ensures var eog: Token -> bool := t => t == 2;
            var canvas := [7, 1, 7, 2, 7, 0, 7, 0, 7, 0, 7, 0, 7];
            && EogBound(eog, canvas, 3)
            && TrimPoint(eog, canvas) == 0
            && TrimPoint(eog, canvas[..3]) == 3
  {
    var eog: Token -> bool := t => t == 2;
    var canvas := [7, 1, 7, 2, 7, 0, 7, 0, 7, 0, 7, 0, 7];
    LoopsAtMeaning(canvas, 0);
    assert SameEvery(canvas, 0, 2, 6);
    assert CutBefore(eog, canvas, 3, 0);
    CutUnique(eog, canvas, 0, TrimPoint(eog, canvas));
    LoopsAtMeaning(canvas[..3], 0);
    LoopsAtMeaning(canvas[..3], 1);
    assert CutBefore(eog, canvas[..3], 3, 3);
    CutUnique(eog, canvas[..3], 3, TrimPoint(eog, canvas[..3]));
  }

  // ---- block diffusion ----

  /** One denoiser call: what it leaves in each cell of the output buffer, and the length it reports. */
  datatype Generation = Generation(cell: nat -> Token, nGenerated: int)

  /** The denoiser's behaviour in a run: any function of the block number and the prefix. */
  type Denoiser = (nat, seq<Token>) -> Generation

  datatype CanvasResult = CanvasResult(prefix: seq<Token>, response: seq<Token>, blocks: nat)

  function BlockOf(g: Generation, from: nat, cl: nat): seq<Token> { seq(cl, i requires 0 <= i < cl => g.cell(from + i)) }

  /** The blocks from number `b` on. */
  function CanvasRun(eog: Token -> bool, gen: Denoiser, prefix: seq<Token>, b: nat, nBlocks: nat, cl: nat, maxUb: int)
    : CanvasResult
    decreases nBlocks - b
  {
    if b >= nBlocks || |prefix| + cl > maxUb then CanvasResult(prefix, [], 0)
    else
      var g := gen(b, prefix);
      if g.nGenerated <= |prefix| then CanvasResult(prefix, [], 0)
      else
        var block := BlockOf(g, |prefix|, cl);
        var cut := TrimPoint(eog, block);
        if cut < cl then CanvasResult(prefix, block[..cut], 1)
        else
          var rest := CanvasRun(eog, gen, prefix + block, b + 1, nBlocks, cl, maxUb);
          CanvasResult(rest.prefix, block + rest.response, 1 + rest.blocks)
  }

  /** The three ways a block can end, one step of `CanvasRun` each. */
  lemma CanvasStep(eog: Token -> bool, gen: Denoiser, prefix: seq<Token>, b: nat, nBlocks: nat, cl: nat, maxUb: int)
    ensures var r := CanvasRun(eog, gen, prefix, b, nBlocks, cl, maxUb);
            var g := gen(b, prefix);
            var block := BlockOf(g, |prefix|, cl);
            if b >= nBlocks || |prefix| + cl > maxUb || g.nGenerated <= |prefix| then r == CanvasResult(prefix, [], 0)
            else if TrimPoint(eog, block) < cl then r == CanvasResult(prefix, block[..TrimPoint(eog, block)], 1)
            else
              var rest := CanvasRun(eog, gen, prefix + block, b + 1, nBlocks, cl, maxUb);
              r == CanvasResult(rest.prefix, block + rest.response, 1 + rest.blocks)
  {
    hide TrimPoint;
  }

  /** How many blocks hold `maxTokens` tokens. */
  function BlockBudget(maxTokens: int, cl: nat): nat
    requires cl > 0
  {
    var n := if maxTokens > 0 then (maxTokens + cl - 1) / cl else 1;
    if n < 1 then 1 else n
  }

  /** The prefix has grown by the first `full` blocks of the response; less than a block is left over. */
  ghost predicate GrownBy(prefix: seq<Token>, r: CanvasResult, cl: nat, full: nat) {
    && full <= r.blocks <= full + 1
    && 0 <= |r.response| - full * cl < cl
    && r.prefix == prefix + r.response[..full * cl]
  }

  /**
   Whatever the denoiser does: the budget of blocks is kept, the prefix has grown by exactly
   the full blocks of the response and still fits, and no end token is in the response.
   */
  lemma {:induction false} CanvasRunSafe(
    eog: Token -> bool, gen: Denoiser, prefix: seq<Token>, b: nat, nBlocks: nat, cl: nat, maxUb: int)
    requires cl > 0
    ensures var r := CanvasRun(eog, gen, prefix, b, nBlocks, cl, maxUb);
            && r.blocks <= (if b < nBlocks then nBlocks - b else 0)
            && |r.response| <= r.blocks * cl
            && (exists full: nat :: GrownBy(prefix, r, cl, full))
            && (|r.prefix| <= maxUb || r.prefix == prefix)
            && forall i :: 0 <= i < |r.response| ==> !eog(r.response[i])
    decreases nBlocks - b
  {
    hide CanvasRun, GrownBy, IsCut;
    CanvasStep(eog, gen, prefix, b, nBlocks, cl, maxUb);
    var r := CanvasRun(eog, gen, prefix, b, nBlocks, cl, maxUb);
    var block := BlockOf(gen(b, prefix), |prefix|, cl);
    if b >= nBlocks || |prefix| + cl > maxUb || gen(b, prefix).nGenerated <= |prefix| || TrimPoint(eog, block) < cl {
      GrownByNothing(prefix, r, cl);
    } else {
      CanvasRunSafe(eog, gen, prefix + block, b + 1, nBlocks, cl, maxUb);
      var rest := CanvasRun(eog, gen, prefix + block, b + 1, nBlocks, cl, maxUb);
      var full: nat :| GrownBy(prefix + block, rest, cl, full);
      GrownByBlock(prefix, block, rest, full);
    }
  }

  lemma GrownByNothing(prefix: seq<Token>, r: CanvasResult, cl: nat)
    requires r.prefix == prefix && r.blocks <= 1 && |r.response| < cl
    ensures GrownBy(prefix, r, cl, 0)
  {
    assert r.prefix == prefix + r.response[..0 * cl];
  }

  lemma GrownByBlock(prefix: seq<Token>, block: seq<Token>, rest: CanvasResult, full: nat)
    requires GrownBy(prefix + block, rest, |block|, full) && |rest.response| <= rest.blocks * |block|
    ensures var r := CanvasResult(rest.prefix, block + rest.response, 1 + rest.blocks);
            GrownBy(prefix, r, |block|, full + 1) && |r.response| <= r.blocks * |block|
  {
    var cl := |block|;
    var r := CanvasResult(rest.prefix, block + rest.response, 1 + rest.blocks);
    assert (full + 1) * cl == full * cl + cl && (1 + rest.blocks) * cl == rest.blocks * cl + cl;
    assert r.response[..(full + 1) * cl] == block + rest.response[..full * cl];
    assert prefix + (block + rest.response[..full * cl]) == prefix + block + rest.response[..full * cl];
  }

  /** Block number `b` can be denoised after `before`. */
  predicate Goes(gen: Denoiser, before: seq<Token>, b: nat, nBlocks: nat, cl: nat, maxUb: int) {
    b < nBlocks && |before| + cl <= maxUb && gen(b, before).nGenerated > |before|
  }

  /** The denoiser has left `s` in the cells from `from` on. */
  ghost predicate InCells(g: Generation, from: nat, s: seq<Token>) { forall i :: 0 <= i < |s| ==> s[i] == g.cell(from + i) }

  lemma BlockInCells(g: Generation, from: nat, cl: nat)
    ensures |BlockOf(g, from, cl)| == cl && InCells(g, from, BlockOf(g, from, cl))
  {
  }

  /** `block` is the whole canvas denoised after `before`, cell by cell, with nothing to trim. */
  ghost predicate Committed(
    eog: Token -> bool, gen: Denoiser, before: seq<Token>, b: nat, nBlocks: nat, cl: nat, maxUb: int, block: seq<Token>)
  {
    && Goes(gen, before, b, nBlocks, cl, maxUb)
    && |block| == cl && InCells(gen(b, before), |before|, block) && IsCut(eog, block, cl)
  }

  /** The run ends after `before`: no further block goes, or the one that does is trimmed to `tail`. */
  ghost predicate EndsWith(
    eog: Token -> bool, gen: Denoiser, before: seq<Token>, b: nat, nBlocks: nat, cl: nat, maxUb: int, tail: seq<Token>)
  {
    if Goes(gen, before, b, nBlocks, cl, maxUb) then
      exists canvas: seq<Token> ::
        && |tail| < |canvas| == cl && InCells(gen(b, before), |before|, canvas)
        && IsCut(eog, canvas, |tail|) && tail == canvas[..|tail|]
    else tail == []
  }

  ghost predicate AllCommitted(
    eog: Token -> bool, gen: Denoiser, prefix: seq<Token>, b: nat, nBlocks: nat, cl: nat, maxUb: int, blocks: seq<seq<Token>>)
  {
    forall k :: 0 <= k < |blocks| ==>
      Committed(eog, gen, prefix + Flatten(blocks[..k]), b + k, nBlocks, cl, maxUb, blocks[k])
  }

  /**
   The whole run, said without recursion: the response is a row of untrimmed blocks, each
   denoised after the input and all blocks before it, and a tail; and it ends there only for
   want of budget, room or progress, or because the next block is trimmed.
   */
  lemma {:induction false} CanvasRunIs(
    eog: Token -> bool, gen: Denoiser, prefix: seq<Token>, b: nat, nBlocks: nat, cl: nat, maxUb: int)
    returns (blocks: seq<seq<Token>>, tail: seq<Token>)
    ensures RunShape(eog, gen, prefix, b, nBlocks, cl, maxUb, CanvasRun(eog, gen, prefix, b, nBlocks, cl, maxUb), blocks, tail)
    decreases nBlocks - b
  {
    hide CanvasRun, IsCut, RunShape;
    CanvasStep(eog, gen, prefix, b, nBlocks, cl, maxUb);
    blocks, tail := [], [];
    var block := BlockOf(gen(b, prefix), |prefix|, cl);
    var r := CanvasRun(eog, gen, prefix, b, nBlocks, cl, maxUb);
    if !Goes(gen, prefix, b, nBlocks, cl, maxUb) || TrimPoint(eog, block) < cl {
      tail := r.response;
      StopsHere(eog, gen, prefix, b, nBlocks, cl, maxUb, tail);
      ShapeStops(eog, gen, prefix, b, nBlocks, cl, maxUb, r, tail);
    } else {
      var rest;
      rest, tail := CanvasRunIs(eog, gen, prefix + block, b + 1, nBlocks, cl, maxUb);
      blocks := [block] + rest;
      ShapeGoesOn(eog, gen, prefix, b, nBlocks, cl, maxUb,
                  CanvasRun(eog, gen, prefix + block, b + 1, nBlocks, cl, maxUb), block, rest, tail);
    }
  }

  lemma ShapeStops(
    eog: Token -> bool, gen: Denoiser, prefix: seq<Token>, b: nat, nBlocks: nat, cl: nat, maxUb: int, r: CanvasResult,
    tail: seq<Token>)
    requires EndsWith(eog, gen, prefix, b, nBlocks, cl, maxUb, tail)
    requires r == CanvasResult(prefix, tail, if Goes(gen, prefix, b, nBlocks, cl, maxUb) then 1 else 0)
    ensures RunShape(eog, gen, prefix, b, nBlocks, cl, maxUb, r, [], tail)
  {
    hide EndsWith, Goes;
    assert Flatten<Token>([]) == [] && prefix + [] == prefix && [] + tail == tail;
  }

  lemma ShapeGoesOn(
    eog: Token -> bool, gen: Denoiser, prefix: seq<Token>, b: nat, nBlocks: nat, cl: nat, maxUb: int, r: CanvasResult,
    block: seq<Token>, rest: seq<seq<Token>>, tail: seq<Token>)
    requires RunShape(eog, gen, prefix + block, b + 1, nBlocks, cl, maxUb, r, rest, tail)
    requires Goes(gen, prefix, b, nBlocks, cl, maxUb) && block == BlockOf(gen(b, prefix), |prefix|, cl)
    requires TrimPoint(eog, block) == cl
    ensures RunShape(eog, gen, prefix, b, nBlocks, cl, maxUb,
                     CanvasResult(r.prefix, block + r.response, 1 + r.blocks), [block] + rest, tail)
  {
    hide EndsWith, Goes, AllCommitted, BlockOf, TrimPoint;
    CommitsFirst(eog, gen, prefix, b, nBlocks, cl, maxUb, block, rest);
    var blocks := [block] + rest;
    assert blocks[1..] == rest;
    assert prefix + (block + Flatten(rest)) == prefix + block + Flatten(rest);
    assert block + (Flatten(rest) + tail) == block + Flatten(rest) + tail;
  }

  ghost predicate RunShape(
    eog: Token -> bool, gen: Denoiser, prefix: seq<Token>, b: nat, nBlocks: nat, cl: nat, maxUb: int, r: CanvasResult,
    blocks: seq<seq<Token>>, tail: seq<Token>)
  {
    && AllCommitted(eog, gen, prefix, b, nBlocks, cl, maxUb, blocks)
    && EndsWith(eog, gen, prefix + Flatten(blocks), b + |blocks|, nBlocks, cl, maxUb, tail)
    && r.response == Flatten(blocks) + tail && r.prefix == prefix + Flatten(blocks)
    && r.blocks == |blocks| + if Goes(gen, r.prefix, b + |blocks|, nBlocks, cl, maxUb) then 1 else 0
  }

  /** What a run from the first block on comes to. */
  ghost predicate IsRun(
    eog: Token -> bool, gen: Denoiser, input: seq<Token>, nBlocks: nat, cl: nat, maxUb: int, r: CanvasResult)
  {
    exists blocks, tail :: RunShape(eog, gen, input, 0, nBlocks, cl, maxUb, r, blocks, tail)
  }

  lemma StopsHere(
    eog: Token -> bool, gen: Denoiser, prefix: seq<Token>, b: nat, nBlocks: nat, cl: nat, maxUb: int, tail: seq<Token>)
    requires var block := BlockOf(gen(b, prefix), |prefix|, cl);
             if Goes(gen, prefix, b, nBlocks, cl, maxUb) then TrimPoint(eog, block) < cl && tail == block[..TrimPoint(eog, block)]
             else tail == []
    ensures EndsWith(eog, gen, prefix, b, nBlocks, cl, maxUb, tail)
  {
    hide TrimPoint, IsCut, BlockOf, InCells;
    BlockInCells(gen(b, prefix), |prefix|, cl);
    if Goes(gen, prefix, b, nBlocks, cl, maxUb) {
      var canvas := BlockOf(gen(b, prefix), |prefix|, cl);
      assert |tail| == TrimPoint(eog, canvas) && IsCut(eog, canvas, |tail|);
    }
  }

  lemma CommitsFirst(
    eog: Token -> bool, gen: Denoiser, prefix: seq<Token>, b: nat, nBlocks: nat, cl: nat, maxUb: int, block: seq<Token>,
    rest: seq<seq<Token>>)
    requires Goes(gen, prefix, b, nBlocks, cl, maxUb) && block == BlockOf(gen(b, prefix), |prefix|, cl)
    requires TrimPoint(eog, block) == cl && AllCommitted(eog, gen, prefix + block, b + 1, nBlocks, cl, maxUb, rest)
    ensures AllCommitted(eog, gen, prefix, b, nBlocks, cl, maxUb, [block] + rest)
  {
    hide TrimPoint, IsCut, Committed, BlockOf;
    var blocks := [block] + rest;
    FirstCommitted(eog, gen, prefix, b, nBlocks, cl, maxUb, block);
    forall k | 0 <= k < |blocks|
      ensures Committed(eog, gen, prefix + Flatten(blocks[..k]), b + k, nBlocks, cl, maxUb, blocks[k])
    {
      if k == 0 {
        assert prefix + Flatten(blocks[..0]) == prefix;
      } else {
        assert blocks[..k][1..] == rest[..k - 1] && blocks[..k][0] == block;
        assert prefix + (block + Flatten(rest[..k - 1])) == prefix + block + Flatten(rest[..k - 1]);
        assert Committed(eog, gen, prefix + block + Flatten(rest[..k - 1]), b + 1 + (k - 1), nBlocks, cl, maxUb, rest[k - 1]);
      }
    }
  }

  lemma FirstCommitted(
    eog: Token -> bool, gen: Denoiser, prefix: seq<Token>, b: nat, nBlocks: nat, cl: nat, maxUb: int, block: seq<Token>)
    requires Goes(gen, prefix, b, nBlocks, cl, maxUb) && block == BlockOf(gen(b, prefix), |prefix|, cl)
    requires TrimPoint(eog, block) == cl
    ensures Committed(eog, gen, prefix, b, nBlocks, cl, maxUb, block)
  {
    hide TrimPoint, IsCut, BlockOf, InCells;
    BlockInCells(gen(b, prefix), |prefix|, cl);
  }

  lemma BudgetBound(maxTokens: int, cl: nat)
    requires cl > 0
    ensures if maxTokens >= 1 then maxTokens <= BlockBudget(maxTokens, cl) * cl < maxTokens + cl
            else BlockBudget(maxTokens, cl) == 1
  {
    var n := (maxTokens + cl - 1) / cl;
    assert n * cl <= maxTokens + cl - 1 < n * cl + cl;
  }

  /** Fewer than `maxTokens + cl` tokens come back, and at most the budgeted number of blocks is run. */
  lemma CanvasOutputBounded(eog: Token -> bool, gen: Denoiser, prefix: seq<Token>, maxTokens: int, cl: nat, maxUb: int)
    requires cl > 0 && maxTokens >= 1
    ensures var r := CanvasRun(eog, gen, prefix, 0, BlockBudget(maxTokens, cl), cl, maxUb);
            && |r.response| < maxTokens + cl
            && r.blocks <= BlockBudget(maxTokens, cl)
            && forall i :: 0 <= i < |r.response| ==> !eog(r.response[i])
  {
    var n := BlockBudget(maxTokens, cl);
    CanvasRunSafe(eog, gen, prefix, 0, n, cl, maxUb);
    BudgetBound(maxTokens, cl);
    var r := CanvasRun(eog, gen, prefix, 0, n, cl, maxUb);
    MulMonotone(r.blocks, n, cl);
  }

  /** `whole` is what has been collected, followed by `rest`. */
  ghost predicate Rest(whole: CanvasResult, response: seq<Token>, blocks: nat, rest: CanvasResult) {
    whole == CanvasResult(rest.prefix, response + rest.response, blocks + rest.blocks)
  }

  lemma RestStep(whole: CanvasResult, response: seq<Token>, blocks: nat, rest: CanvasResult, part: seq<Token>)
    requires Rest(whole, response, blocks, rest) && part <= rest.response && rest.blocks >= 1
    ensures Rest(whole, response + part, blocks + 1,
                 CanvasResult(rest.prefix, rest.response[|part|..], rest.blocks - 1))
  {
    assert rest.response == part + rest.response[|part|..];
    assert response + rest.response == response + part + rest.response[|part|..];
  }

  // ---- the engine ----

  /** What the loading calls of the model library do when they are made. */
  datatype LoadOutcome = LoadFails | NotDiffusion | ContextFails(canvasLength: int) | Loads(canvasLength: int)

  datatype GenError = LoadError | InputTooLong | NoOutput

  datatype GenResult = GenOk(text: string, inputTokens: nat, blocks: nat) | GenErr(error: GenError)

  class Engine {
    const nUbatch: nat
    const nCtx: nat
    var model: bool
    var ctx: bool
    var loadedFlag: bool
    var canvasLength: int
    var output: array<Token>

    ghost predicate Valid()
      reads this
    {
      loadedFlag == ctx == model && (ctx ==> output.Length == nUbatch)
    }

    constructor (nUbatch: nat, nCtx: nat)
      ensures Valid() && !ctx && this.nUbatch == nUbatch && this.nCtx == nCtx && fresh(output)
    {
      this.nUbatch, this.nCtx := nUbatch, nCtx;
      model, ctx, loadedFlag, canvasLength := false, false, false, 0;
      output := new Token[0];
    }

    /** `ensure_loaded`: a failed load leaves nothing behind. */
    method EnsureLoaded(outcome: LoadOutcome) returns (ok: bool)
      requires Valid()
      modifies this
      ensures Valid() && ok == ctx
      ensures ok <==> old(ctx) || outcome.Loads?
      ensures old(ctx) ==> output == old(output) && canvasLength == old(canvasLength)
      ensures !old(ctx) && ok ==> fresh(output) && canvasLength == outcome.canvasLength
      ensures !ok ==> output == old(output)
    {
      if ctx { return true; }
      model := !outcome.LoadFails?;
      if !model { return false; }
      if outcome.NotDiffusion? { model := false; return false; }
      canvasLength := outcome.canvasLength;
      ctx := outcome.Loads?;
      if !ctx { model := false; return false; }
      output := new Token[nUbatch];
      loadedFlag := true;
      ok := true;
    }

    /** `unload`. */
    method Unload()
      modifies this
      ensures Valid() && !ctx && !model && !loadedFlag && output.Length == 0 && fresh(output)
      ensures canvasLength == old(canvasLength)
    {
      loadedFlag := false;
      if ctx { ctx := false; }
      if model { model := false; }
      output := new Token[0];
    }

    /** One call of the denoiser, which fills the first `maxLength` cells. */
    method Denoise(gen: Denoiser, b: nat, prefix: seq<Token>, maxLength: nat) returns (nGenerated: int)
      requires maxLength <= output.Length
      modifies output
      ensures nGenerated == gen(b, prefix).nGenerated
      ensures forall i :: 0 <= i < maxLength ==> output[i] == gen(b, prefix).cell(i)
    {
      var g := gen(b, prefix);
      for i := 0 to maxLength
        invariant forall k :: 0 <= k < i ==> output[k] == g.cell(k)
      {
        output[i] := g.cell(i);
      }
      nGenerated := g.nGenerated;
    }

    /** One block: denoise the cells after the prefix and trim them. */
    method DenoiseBlock(eog: Token -> bool, gen: Denoiser, b: nat, prefix: seq<Token>, cl: nat)
      returns (nGenerated: int, canvas: seq<Token>)
      requires |prefix| + cl <= output.Length
      modifies output
      ensures nGenerated == gen(b, prefix).nGenerated
      ensures nGenerated > |prefix| ==>
                var block := BlockOf(gen(b, prefix), |prefix|, cl);
                canvas == block[..TrimPoint(eog, block)]
    {
      hide TrimPoint, IsCut;
      var prefixLen := |prefix|;
      nGenerated := Denoise(gen, b, prefix, prefixLen + cl);
      if nGenerated <= prefixLen { return nGenerated, []; }
      ghost var block := BlockOf(gen(b, prefix), prefixLen, cl);
      assert output[prefixLen..prefixLen + cl] == block;
      var cut := TrimCanvas(eog, output, prefixLen, cl);
      canvas := output[prefixLen..prefixLen + cut];
      assert canvas == block[..cut];
    }

    /**
     `run_canvas`: the prefix, the response and the block count are those of `CanvasRun`. All
     writes of the denoiser and all reads of the canvas are inside the output buffer.
     */
    method RunCanvas(eog: Token -> bool, gen: Denoiser, input: seq<Token>, maxTokens: int)
      returns (prefix: seq<Token>, response: seq<Token>, blocksRun: nat)
      requires Valid() && ctx && canvasLength > 0
      modifies output
      ensures CanvasResult(prefix, response, blocksRun)
              == CanvasRun(eog, gen, input, 0, BlockBudget(maxTokens, canvasLength), canvasLength,
                           if nUbatch < nCtx then nUbatch else nCtx)
      ensures IsRun(eog, gen, input, BlockBudget(maxTokens, canvasLength), canvasLength,
                    if nUbatch < nCtx then nUbatch else nCtx, CanvasResult(prefix, response, blocksRun))
    {
      hide TrimPoint, CanvasRun, IsCut, RunShape;
      var maxUb := if nUbatch < nCtx then nUbatch else nCtx;
      var cl: nat := canvasLength;
      var nBlocks := if maxTokens > 0 then (maxTokens + cl - 1) / cl else 1;
      if nBlocks < 1 { nBlocks := 1; }
      prefix, response, blocksRun := input, [], 0;
      ghost var whole := CanvasRun(eog, gen, input, 0, nBlocks, cl, maxUb);
      ghost var blocks, tail := CanvasRunIs(eog, gen, input, 0, nBlocks, cl, maxUb);
      assert IsRun(eog, gen, input, nBlocks, cl, maxUb, whole);
      var b := 0;
      CanvasStep(eog, gen, prefix, b, nBlocks, cl, maxUb);
      while b < nBlocks
        invariant 0 <= b <= nBlocks
        invariant Rest(whole, response, blocksRun, CanvasRun(eog, gen, prefix, b, nBlocks, cl, maxUb))
      {
        CanvasStep(eog, gen, prefix, b, nBlocks, cl, maxUb);
        if |prefix| + cl > maxUb { break; }
        var nGenerated, canvas := DenoiseBlock(eog, gen, b, prefix, cl);
        if nGenerated <= |prefix| { break; }
        RestStep(whole, response, blocksRun, CanvasRun(eog, gen, prefix, b, nBlocks, cl, maxUb), canvas);
        response := response + canvas;
        blocksRun := blocksRun + 1;
        if |canvas| < cl { return; }
        assert canvas == BlockOf(gen(b, prefix), |prefix|, cl);
        prefix := prefix + canvas;
        b := b + 1;
      }
      CanvasStep(eog, gen, prefix, b, nBlocks, cl, maxUb);
    }

    /**
     `generate`, on the tokens of the formatted prompt. The token budget is the one the
     request handler has clamped. An answer is given exactly when the model is up, the prompt
     fits and the answer has text; the model stays loaded either way.
     */
    method Generate(outcome: LoadOutcome, eog: Token -> bool, gen: Denoiser, detokenize: seq<Token> -> string,
                    input: seq<Token>, maxTokens: int)
      returns (r: GenResult)
      requires Valid()
      requires gen(0, input).nGenerated <= nUbatch
      modifies this, output
      ensures Valid() && (ctx <==> old(ctx) || outcome.Loads?)
      ensures r == GenErr(LoadError) <==> !ctx
      ensures ctx ==> (r == GenErr(InputTooLong) <==> |input| >= Capacity())
      ensures ctx && |input| < Capacity() ==>
                exists text, blocks :: Answers(eog, gen, detokenize, input, maxTokens, text, blocks)
                  && r == if text == "" then GenErr(NoOutput) else GenOk(text, |input|, blocks)
    {
      hide CanvasRun, IsRun;
      var ok := EnsureLoaded(outcome);
      if !ok { return GenErr(LoadError); }
      if |input| >= Capacity() { return GenErr(InputTooLong); }
      var text, blocks := "", 0;
      if canvasLength <= 0 {
        var nGenerated := Denoise(gen, 0, input, nUbatch);
        if nGenerated > |input| {
          ghost var s := output[|input|..nGenerated];
          assert InCells(gen(0, input), |input|, s);
          text := detokenize(output[|input|..nGenerated]);
        }
      } else {
        var prefix, response;
        prefix, response, blocks := RunCanvas(eog, gen, input, maxTokens);
        text := detokenize(response);
      }
      assert Answers(eog, gen, detokenize, input, maxTokens, text, blocks);
      if text == "" { return GenErr(NoOutput); }
      r := GenOk(text, |input|, blocks);
    }

    /** The prompt must leave room in the context and in one micro-batch. */
    function Capacity(): nat { if nUbatch < nCtx then nUbatch else nCtx }

    /** The text of the answer and the number of blocks: of a run over canvas blocks, or of one full pass, which has none. */
    ghost predicate Answers(eog: Token -> bool, gen: Denoiser, detokenize: seq<Token> -> string, input: seq<Token>,
                            maxTokens: int, text: string, blocks: nat)
      reads this
    {
      if canvasLength > 0 then
        exists r :: IsRun(eog, gen, input, BlockBudget(maxTokens, canvasLength), canvasLength, Capacity(), r)
          && text == detokenize(r.response) && blocks == r.blocks
      else
        && blocks == 0
        && var n := gen(0, input).nGenerated;
           if n <= |input| then text == ""
           else exists s :: |s| == n - |input| && InCells(gen(0, input), |input|, s) && text == detokenize(s)
    }
  }
}
