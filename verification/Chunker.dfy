/** Splitting a long message into chunks under a byte limit (matrix_format.rs). */
module Chunker {
  import opened Text
  import opened Utf8

  const MAX_CHUNK_LEN := 4000

  // ---- where one chunk ends ----

  /** The largest character boundary that is at most `max`. */
  function FloorBoundary(s: seq<byte>, max: nat): (pos: nat)
    ensures pos <= max && pos <= |s| && IsCharBoundary(s, pos)
    ensures forall i: nat :: pos < i <= max && i <= |s| ==> !IsCharBoundary(s, i)
  {
    if max >= |s| then |s| else if IsCharBoundary(s, max) then max else FloorBoundary(s, max - 1)
  }

  method FloorCharBoundary(s: seq<byte>, max: nat) returns (pos: nat)
    ensures pos == FloorBoundary(s, max)
  {
    if max >= |s| { return |s|; }
    pos := max;
    while pos > 0 && !IsCharBoundary(s, pos)
      invariant pos < |s| && FloorBoundary(s, pos) == FloorBoundary(s, max)
    {
      pos := pos - 1;
    }
  }

  predicate LfAt(s: seq<byte>, i: nat) { i < |s| && s[i] == LF }

  predicate BlankAt(s: seq<byte>, i: nat) { i + 1 < |s| && s[i] == LF && s[i + 1] == LF }

  /** The last position below `n` with the property, as Rust's `rfind` reports it. */
  function LastBlank(s: seq<byte>, n: nat): (r: Option<nat>)
    ensures r.Some? ==> r.value < n && BlankAt(s, r.value) && forall i: nat :: r.value < i < n ==> !BlankAt(s, i)
    ensures r.None? ==> forall i: nat :: i < n ==> !BlankAt(s, i)
  {
    if n == 0 then None else if BlankAt(s, n - 1) then Some(n - 1) else LastBlank(s, n - 1)
  }

  function LastLf(s: seq<byte>, n: nat): (r: Option<nat>)
    ensures r.Some? ==> r.value < n && LfAt(s, r.value) && forall i: nat :: r.value < i < n ==> !LfAt(s, i)
    ensures r.None? ==> forall i: nat :: i < n ==> !LfAt(s, i)
  {
    if n == 0 then None else if LfAt(s, n - 1) then Some(n - 1) else LastLf(s, n - 1)
  }

  /** The last paragraph break after the start, else the last line break after the start, else the end. */
  function SplitPoint(s: seq<byte>): (pos: nat)
    ensures pos <= |s| && (pos < |s| ==> s[pos] == LF) && (s != [] ==> pos > 0)
  {
    var blank := LastBlank(s, |s|);
    if blank.Some? && blank.value > 0 then blank.value
    else
      var lf := LastLf(s, |s|);
      if lf.Some? && lf.value > 0 then lf.value else |s|
  }

  method FindSplitPoint(s: seq<byte>) returns (pos: nat)
    ensures pos == SplitPoint(s)
  {
    var blank := LastBlank(s, |s|);
    if blank.Some? && blank.value > 0 { return blank.value; }
    var lf := LastLf(s, |s|);
    if lf.Some? && lf.value > 0 { return lf.value; }
    // The code steps back from the end to a character boundary; the end is one.
    pos := |s|;
    assert IsCharBoundary(s, pos);
  }

  ghost predicate NoBlank(s: seq<byte>, from: nat) { forall i: nat :: i >= from ==> !BlankAt(s, i) }

  ghost predicate NoLf(s: seq<byte>, from: nat) { forall i: nat :: i >= from ==> !LfAt(s, i) }

  /** The last paragraph break after the start if there is one, else the last line break there if there is one, else the end. */
  lemma SplitPointIs(s: seq<byte>)
    ensures var pos := SplitPoint(s);
            && (!NoBlank(s, 1) ==> pos > 0 && BlankAt(s, pos) && NoBlank(s, pos + 1))
            && (NoBlank(s, 1) && !NoLf(s, 1) ==> pos > 0 && LfAt(s, pos) && NoLf(s, pos + 1))
            && (NoLf(s, 1) ==> pos == |s|)
  {
    var blank, lf := LastBlank(s, |s|), LastLf(s, |s|);
    if blank.Some? { assert BlankAt(s, blank.value) && LfAt(s, blank.value); }
    if lf.Some? { assert LfAt(s, lf.value); }
    hide SplitPoint;
    SplitPointCases(s);
  }

  lemma SplitPointCases(s: seq<byte>)
    ensures var blank, lf := LastBlank(s, |s|), LastLf(s, |s|);
            SplitPoint(s) == if blank.Some? && blank.value > 0 then blank.value
                             else if lf.Some? && lf.value > 0 then lf.value else |s|
  {
  }

  function TrimLf(s: seq<byte>): (t: seq<byte>)
    ensures |t| <= |s| && t == s[|s| - |t|..]
    ensures forall i :: 0 <= i < |s| - |t| ==> s[i] == LF
    ensures t == [] || t[0] != LF
  {
    if s == [] || s[0] != LF then s else TrimLf(s[1..])
  }

  function CutAt(s: seq<byte>, maxLen: nat): nat { SplitPoint(s[..FloorBoundary(s, maxLen)]) }

  /** What one turn of the loop leaves. */
  function After(s: seq<byte>, maxLen: nat): seq<byte> {
    assert CutAt(s, maxLen) <= |s|;
    TrimLf(s[CutAt(s, maxLen)..])
  }

  // ---- when the loop ends ----

  /** Every character other than a line feed has at most `maxLen` bytes. */
  predicate Fits(s: seq<byte>, maxLen: nat)
    requires Valid(s)
  {
    s == [] || ((s[0] == LF || CharWidth(s) <= maxLen) && Fits(s[CharWidth(s)..], maxLen))
  }

  lemma {:induction false} FitsConcat(a: seq<byte>, b: seq<byte>, maxLen: nat)
    requires Valid(a) && Valid(b)
    ensures Valid(a + b)
    ensures Fits(a + b, maxLen) <==> Fits(a, maxLen) && Fits(b, maxLen)
  {
    hide CharWidth;
    Concat(a, b);
    if a == [] {
      assert a + b == b;
    } else {
      FirstOfConcat(a, b);
      FitsConcat(a[CharWidth(a)..], b, maxLen);
    }
  }

  lemma {:induction false} ShortFits(s: seq<byte>, maxLen: nat)
    requires Valid(s) && |s| <= maxLen
    ensures Fits(s, maxLen)
  {
    if s != [] { ShortFits(s[CharWidth(s)..], maxLen); }
  }

  lemma {:induction false} FourBytesSuffice(s: seq<byte>, maxLen: nat)
    requires Valid(s) && maxLen >= 4
    ensures Fits(s, maxLen)
  {
    if s != [] { FourBytesSuffice(s[CharWidth(s)..], maxLen); }
  }

  lemma {:induction false} LineFeedsFit(s: seq<byte>, maxLen: nat)
    requires forall i :: 0 <= i < |s| ==> s[i] == LF
    ensures Valid(s) && Fits(s, maxLen)
  {
    if s != [] { LineFeedsFit(s[1..], maxLen); }
  }

  lemma CutIsBoundary(s: seq<byte>, maxLen: nat)
    ensures var c, f := CutAt(s, maxLen), FloorBoundary(s, maxLen);
            c <= f <= maxLen && c <= |s| && IsCharBoundary(s, c) && (c == |s| || s[c] == LF || c == f)
  {
    hide FloorBoundary, SplitPoint;
    var f := FloorBoundary(s, maxLen);
    var c := SplitPoint(s[..f]);
    assert c < f ==> s[..f][c] == s[c];
  }

  /** The pieces of one turn: a chunk of valid text within the limit, line feeds, and what is left. */
  lemma Turn(s: seq<byte>, maxLen: nat) returns (lfs: seq<byte>)
    requires Valid(s)
    ensures var c := CutAt(s, maxLen);
            && c <= maxLen && c <= |s| && Valid(s[..c]) && Valid(After(s, maxLen))
            && (forall i :: 0 <= i < |lfs| ==> lfs[i] == LF)
            && s == s[..c] + (lfs + After(s, maxLen))
            && (Fits(s, maxLen) <==> Fits(After(s, maxLen), maxLen))
            && (c == |s| || s[c] == LF || c == FloorBoundary(s, maxLen))
  {
    CutIsBoundary(s, maxLen);
    hide FloorBoundary, SplitPoint, TrimLf, Valid, Fits, CutAt, IsCharBoundary;
    var c := CutAt(s, maxLen);
    BoundaryCut(s, c);
    var rest, left := s[c..], After(s, maxLen);
    lfs := rest[..|rest| - |left|];
    assert rest == lfs + left && s == s[..c] + rest;
    LineFeedsFit(lfs, maxLen);
    Concat(lfs, left);
    ShortFits(s[..c], maxLen);
    FitsConcat(lfs, left, maxLen);
    FitsConcat(s[..c], rest, maxLen);
  }

  /** If the first character fits, or is a line feed, a turn of the loop makes progress. */
  lemma Progress(s: seq<byte>, maxLen: nat)
    requires Valid(s) && |s| > maxLen && (s[0] == LF || CharWidth(s) <= maxLen)
    ensures |After(s, maxLen)| < |s|
    ensures maxLen >= 1 ==> CutAt(s, maxLen) >= 1
  {
    var w := CharWidth(s);
    if maxLen >= 1 {
      assert s[0] == LF ==> w == 1;
      assert IsCharBoundary(s, w) by { if w < |s| { assert Valid(s[w..]) && s[w..][0] == s[w]; } }
      assert FloorBoundary(s, maxLen) >= w;
    }
  }

  /** The text left after `k` turns of the loop, whether or not its guard holds. */
  ghost function Remaining(s: seq<byte>, maxLen: nat, k: nat): seq<byte> {
    if k == 0 then s else After(Remaining(s, maxLen, k - 1), maxLen)
  }

  /**
   The loop ends exactly when every character other than a line feed fits into a chunk. One
   that does not can neither be put into a chunk nor skipped: the guard holds for ever.
   */
  lemma EndsIffFits(s: seq<byte>, maxLen: nat)
    requires Valid(s)
    ensures Fits(s, maxLen) <==> exists k: nat :: |Remaining(s, maxLen, k)| <= maxLen
  {
    if Fits(s, maxLen) {
      var k := Ends(s, maxLen);
    } else {
      forall k: nat ensures |Remaining(s, maxLen, k)| > maxLen { StaysUnfit(s, maxLen, k); }
    }
  }

  lemma {:induction false} StaysUnfit(s: seq<byte>, maxLen: nat, k: nat)
    requires Valid(s) && !Fits(s, maxLen)
    ensures var r := Remaining(s, maxLen, k); Valid(r) && !Fits(r, maxLen) && |r| > maxLen
  {
    hide Valid, Fits, After;
    if k == 0 {
      if |s| <= maxLen { ShortFits(s, maxLen); }
    } else {
      StaysUnfit(s, maxLen, k - 1);
      var r := Remaining(s, maxLen, k);
      var _ := Turn(Remaining(s, maxLen, k - 1), maxLen);
      if |r| <= maxLen { ShortFits(r, maxLen); }
    }
  }

  lemma {:induction false} Ends(s: seq<byte>, maxLen: nat) returns (k: nat)
    requires Valid(s) && Fits(s, maxLen)
    ensures |Remaining(s, maxLen, k)| <= maxLen
    decreases |s|
  {
    if |s| <= maxLen {
      k := 0;
    } else {
      Progress(s, maxLen);
      var _ := Turn(s, maxLen);
      k := Ends(After(s, maxLen), maxLen);
      RemainingShift(s, maxLen, k);
      k := k + 1;
    }
  }

  lemma {:induction false} RemainingShift(s: seq<byte>, maxLen: nat, k: nat)
    ensures Remaining(After(s, maxLen), maxLen, k) == Remaining(s, maxLen, k + 1)
  {
    hide After;
    if k > 0 { RemainingShift(s, maxLen, k - 1); }
  }

  // ---- the chunks ----

  /** The chunks the loop and the code after it push. */
  function LoopChunks(s: seq<byte>, maxLen: nat): (chunks: seq<seq<byte>>)
    requires Valid(s) && Fits(s, maxLen)
    decreases |s|
  {
    if |s| <= maxLen then if s == [] then [] else [s]
    else
      var left := After(s, maxLen);
      assert Valid(left) && Fits(left, maxLen) && |left| < |s| && CutAt(s, maxLen) <= |s| by {
        Progress(s, maxLen);
        var _ := Turn(s, maxLen);
      }
      [s[..CutAt(s, maxLen)]] + LoopChunks(left, maxLen)
  }

  function Chunks(text: seq<byte>, maxLen: nat): seq<seq<byte>>
    requires Valid(text) && Fits(text, maxLen)
  {
    if |text| <= maxLen then [text] else LoopChunks(text, maxLen)
  }

  lemma LoopStep(s: seq<byte>, maxLen: nat)
    requires Valid(s) && Fits(s, maxLen) && |s| > maxLen
    ensures Valid(After(s, maxLen)) && Fits(After(s, maxLen), maxLen) && |After(s, maxLen)| < |s|
    ensures LoopChunks(s, maxLen) == [s[..CutAt(s, maxLen)]] + LoopChunks(After(s, maxLen), maxLen)
  {
    hide Valid, Fits, FloorBoundary, SplitPoint, TrimLf, CutAt;
    FirstFits(s, maxLen);
    Progress(s, maxLen);
    var _ := Turn(s, maxLen);
  }

  lemma LoopEnd(s: seq<byte>, maxLen: nat)
    requires Valid(s) && Fits(s, maxLen) && |s| <= maxLen
    ensures LoopChunks(s, maxLen) == if s == [] then [] else [s]
  {
    hide Valid, Fits;
  }

  /** `chunk_message_with_max`. Outside the precondition the loop does not end (`EndsIffFits`). */
  method ChunkMessageWithMax(text: seq<byte>, maxLen: nat) returns (chunks: seq<seq<byte>>)
    requires Valid(text) && Fits(text, maxLen)
    ensures chunks == Chunks(text, maxLen) && ChunksOf(text, maxLen, chunks)
  {
    hide Valid, Fits, FloorBoundary, SplitPoint, TrimLf, LoopChunks, CutUp;
    ChunksAreCut(text, maxLen);
    if |text| <= maxLen { return [text]; }
    chunks := [];
    var remaining := text;
    while |remaining| > maxLen
      invariant Valid(remaining) && Fits(remaining, maxLen)
      invariant chunks + LoopChunks(remaining, maxLen) == LoopChunks(text, maxLen)
      decreases |remaining|
    {
      LoopStep(remaining, maxLen);
      var safeMax := FloorCharBoundary(remaining, maxLen);
      var candidate := remaining[..safeMax];
      var splitAt := FindSplitPoint(candidate);
      assert splitAt == CutAt(remaining, maxLen);
      chunks := chunks + [remaining[..splitAt]];
      remaining := TrimLf(remaining[splitAt..]);
    }
    LoopEnd(remaining, maxLen);
    if remaining != [] {
      chunks := chunks + [remaining];
    }
  }

  // ---- where the chunks end ----

  /** `f` is the largest character boundary that is at most `max`. */
  ghost predicate LargestBoundary(s: seq<byte>, max: nat, f: nat) {
    && f <= max && f <= |s| && IsCharBoundary(s, f)
    && forall i: nat :: f < i <= max && i <= |s| ==> !IsCharBoundary(s, i)
  }

  /** A paragraph break, or a line feed, after the start and wholly before `f`. */
  predicate BreakAt(s: seq<byte>, f: nat, i: nat) { 0 < i && i + 1 < f <= |s| && s[i] == LF && s[i + 1] == LF }

  predicate LineEndAt(s: seq<byte>, f: nat, i: nat) { 0 < i < f <= |s| && s[i] == LF }

  /** The cut is at the last paragraph break before `f`; without one at the last line feed there; without that at `f`. */
  ghost predicate CutsAt(s: seq<byte>, f: nat, c: nat) {
    if exists i: nat :: BreakAt(s, f, i) then BreakAt(s, f, c) && forall i: nat :: BreakAt(s, f, i) ==> i <= c
    else if exists i: nat :: LineEndAt(s, f, i) then LineEndAt(s, f, c) && forall i: nat :: LineEndAt(s, f, i) ==> i <= c
    else c == f
  }

  ghost predicate CutsBefore(s: seq<byte>, maxLen: nat, c: nat) {
    exists f: nat :: LargestBoundary(s, maxLen, f) && CutsAt(s, f, c)
  }

  /** The first chunk is cut off there, and the others off what is left without the line feeds it starts with. */
  ghost predicate CutUp(s: seq<byte>, maxLen: nat, chunks: seq<seq<byte>>)
    decreases |chunks|
  {
    if |s| <= maxLen then chunks == if s == [] then [] else [s]
    else
      && chunks != [] && chunks[0] <= s && CutsBefore(s, maxLen, |chunks[0]|)
      && CutUp(TrimLf(s[|chunks[0]|..]), maxLen, chunks[1..])
  }

  /** What the chunks of a text are; a text within the limit is one chunk. */
  ghost predicate ChunksOf(text: seq<byte>, maxLen: nat, chunks: seq<seq<byte>>) {
    if |text| <= maxLen then chunks == [text] else CutUp(text, maxLen, chunks)
  }

  lemma CutAtIs(s: seq<byte>, maxLen: nat)
    ensures CutAt(s, maxLen) <= |s| && CutsBefore(s, maxLen, CutAt(s, maxLen))
  {
    hide FloorBoundary, SplitPoint;
    var f := FloorBoundary(s, maxLen);
    var w := s[..f];
    SplitPointIs(w);
    assert LargestBoundary(s, maxLen, f);
    assert forall i: nat :: i > 0 ==> (BlankAt(w, i) <==> BreakAt(s, f, i)) && (LfAt(w, i) <==> LineEndAt(s, f, i));
    assert forall i: nat :: BlankAt(w, i) ==> LfAt(w, i);
    hide BlankAt, LfAt, LargestBoundary;
    assert CutsAt(s, f, SplitPoint(w));
  }

  lemma {:induction false} LoopChunksAre(s: seq<byte>, maxLen: nat)
    requires Valid(s) && Fits(s, maxLen)
    ensures CutUp(s, maxLen, LoopChunks(s, maxLen))
    decreases |s|
  {
    hide Valid, Fits, LoopChunks, CutAt, CutsBefore, TrimLf;
    if |s| <= maxLen {
      LoopEnd(s, maxLen);
    } else {
      LoopStep(s, maxLen);
      CutAtIs(s, maxLen);
      LoopChunksAre(After(s, maxLen), maxLen);
      var chunks := LoopChunks(s, maxLen);
      assert chunks[1..] == LoopChunks(After(s, maxLen), maxLen) && chunks[0] == s[..CutAt(s, maxLen)];
    }
  }

  /** The chunks a text is split into end where the documentation says. */
  lemma ChunksAreCut(text: seq<byte>, maxLen: nat)
    requires Valid(text) && Fits(text, maxLen)
    ensures ChunksOf(text, maxLen, Chunks(text, maxLen))
  {
    hide Valid, Fits, LoopChunks, CutUp;
    LoopChunksAre(text, maxLen);
  }

  lemma CutUniquely(s: seq<byte>, maxLen: nat, a: nat, b: nat)
    requires CutsBefore(s, maxLen, a) && CutsBefore(s, maxLen, b)
    ensures a == b
  {
    var f: nat :| LargestBoundary(s, maxLen, f) && CutsAt(s, f, a);
    var g: nat :| LargestBoundary(s, maxLen, g) && CutsAt(s, g, b);
    assert f == g;
    hide BreakAt, LineEndAt, LargestBoundary;
  }

  /** And there is only one way to do that. */
  lemma {:induction false} CutUpUniquely(s: seq<byte>, maxLen: nat, a: seq<seq<byte>>, b: seq<seq<byte>>)
    requires CutUp(s, maxLen, a) && CutUp(s, maxLen, b)
    ensures a == b
    decreases |a|
  {
    hide CutsBefore, TrimLf, CutUp;
    CutUpStep(s, maxLen, a);
    CutUpStep(s, maxLen, b);
    if |s| > maxLen {
      CutUniquely(s, maxLen, |a[0]|, |b[0]|);
      assert a[0] == s[..|a[0]|] == b[0];
      CutUpUniquely(TrimLf(s[|a[0]|..]), maxLen, a[1..], b[1..]);
      assert a == [a[0]] + a[1..] && b == [b[0]] + b[1..];
    }
  }

  lemma CutUpStep(s: seq<byte>, maxLen: nat, chunks: seq<seq<byte>>)
    requires CutUp(s, maxLen, chunks)
    ensures |s| <= maxLen ==> chunks == if s == [] then [] else [s]
    ensures |s| > maxLen ==>
              && chunks != [] && chunks[0] <= s && CutsBefore(s, maxLen, |chunks[0]|)
              && CutUp(TrimLf(s[|chunks[0]|..]), maxLen, chunks[1..])
  {
    hide CutsBefore, TrimLf;
  }

  lemma FirstFits(s: seq<byte>, maxLen: nat)
    requires Valid(s) && Fits(s, maxLen) && s != []
    ensures s[0] == LF || CharWidth(s) <= maxLen
  {
  }

  /** With a limit of four bytes or more, as `chunk_message` has, there is nothing to require. */
  method ChunkMessage(text: seq<byte>) returns (chunks: seq<seq<byte>>)
    requires Valid(text)
    ensures Fits(text, MAX_CHUNK_LEN) && chunks == Chunks(text, MAX_CHUNK_LEN) && ChunksOf(text, MAX_CHUNK_LEN, chunks)
  {
    FourBytesSuffice(text, MAX_CHUNK_LEN);
    chunks := ChunkMessageWithMax(text, MAX_CHUNK_LEN);
  }

  // ---- main results ----

  /** Each chunk followed by its separator. */
  ghost function Weave(chunks: seq<seq<byte>>, seps: seq<seq<byte>>): seq<byte>
    requires |chunks| == |seps|
  {
    if chunks == [] then [] else chunks[0] + (seps[0] + Weave(chunks[1..], seps[1..]))
  }

  ghost predicate LineFeeds(s: seq<byte>) { forall i :: 0 <= i < |s| ==> s[i] == LF }

  lemma {:induction false} LoopLosesNothing(s: seq<byte>, maxLen: nat) returns (seps: seq<seq<byte>>)
    requires Valid(s) && Fits(s, maxLen)
    ensures |seps| == |LoopChunks(s, maxLen)| && s == Weave(LoopChunks(s, maxLen), seps)
    ensures forall k :: 0 <= k < |seps| ==> LineFeeds(seps[k])
    decreases |s|
  {
    hide Fits, Valid, After, CutAt;
    if |s| <= maxLen {
      seps := if s == [] then [] else [[]];
    } else {
      FirstFits(s, maxLen);
      Progress(s, maxLen);
      var lfs := Turn(s, maxLen);
      var rest := LoopLosesNothing(After(s, maxLen), maxLen);
      seps := [lfs] + rest;
      assert seps[1..] == rest;
      assert LoopChunks(s, maxLen)[1..] == LoopChunks(After(s, maxLen), maxLen);
    }
  }

  lemma {:induction false} LoopChunksAreGood(s: seq<byte>, maxLen: nat)
    requires Valid(s) && Fits(s, maxLen) && maxLen >= 1
    ensures forall c :: c in LoopChunks(s, maxLen) ==> 1 <= |c| <= maxLen && Valid(c)
    ensures forall k :: 0 <= k < |LoopChunks(s, maxLen)| && (k > 0 || s[0] != LF) ==> LoopChunks(s, maxLen)[k][0] != LF
    decreases |s|
  {
    hide Fits, Valid, CutAt, FloorBoundary, SplitPoint, TrimLf;
    if |s| > maxLen {
      FirstFits(s, maxLen);
      Progress(s, maxLen);
      var _ := Turn(s, maxLen);
      var left := After(s, maxLen);
      LoopChunksAreGood(left, maxLen);
      var tail, all := LoopChunks(left, maxLen), LoopChunks(s, maxLen);
      assert all == [s[..CutAt(s, maxLen)]] + tail;
      NoChunksOfNothing(left, maxLen);
      forall k | 0 <= k < |all| && (k > 0 || s[0] != LF) ensures all[k][0] != LF {
        if k > 0 { assert all[k] == tail[k - 1]; }
      }
    }
  }

  lemma NoChunksOfNothing(s: seq<byte>, maxLen: nat)
    requires Valid(s) && Fits(s, maxLen)
    ensures s == [] ==> LoopChunks(s, maxLen) == []
  {
  }

  /** Nothing but line feeds is lost: the text is the chunks with runs of line feeds after them. */
  lemma NothingLost(text: seq<byte>, maxLen: nat) returns (seps: seq<seq<byte>>)
    requires Valid(text) && Fits(text, maxLen)
    ensures |seps| == |Chunks(text, maxLen)| && text == Weave(Chunks(text, maxLen), seps)
    ensures forall k :: 0 <= k < |seps| ==> LineFeeds(seps[k])
  {
    hide Fits, Valid, LoopChunks;
    if |text| <= maxLen {
      seps := [[]];
      assert [text][1..] == [] && seps[1..] == [] && text + ([] + []) == text;
    } else {
      seps := LoopLosesNothing(text, maxLen);
    }
  }

  lemma {:induction false} CharactersAtMostBytes(s: seq<byte>)
    requires Valid(s)
    ensures |Decode(s)| <= |s|
  {
    if s != [] { CharactersAtMostBytes(s[CharWidth(s)..]); }
  }

  lemma {:induction false} NothingFitsZero(s: seq<byte>)
    requires Valid(s) && Fits(s, 0)
    ensures TrimLf(s) == []
  {
    if s != [] { NothingFitsZero(s[1..]); }
  }

  /** With a limit of zero a text of line feeds becomes one empty chunk. */
  lemma ZeroLimit(text: seq<byte>)
    requires text != [] && Valid(text) && Fits(text, 0)
    ensures Chunks(text, 0) == [[]]
  {
    NothingFitsZero(text);
    LoopStep(text, 0);
    assert CutAt(text, 0) == 0 && After(text, 0) == [] by { assert text[0..] == text; }
    LoopEnd([], 0);
    hide LoopChunks, Fits, Valid;
  }

  /**
   The chunks of a text that is not empty: valid, within the limit in bytes and so in
   characters, none empty unless the limit is zero, and none but the first starting with a
   line feed. The empty text is one empty chunk.
   */
  lemma ChunksAreGood(text: seq<byte>, maxLen: nat)
    requires Valid(text) && Fits(text, maxLen)
    ensures var chunks := Chunks(text, maxLen);
            && (forall c :: c in chunks ==> |c| <= maxLen && Valid(c) && |Decode(c)| <= maxLen)
            && ((forall c :: c in chunks ==> c != []) <==> text != [] && maxLen >= 1)
            && (forall k :: 0 < k < |chunks| ==> chunks[k] != [] && chunks[k][0] != LF)
  {
    hide Fits, Valid, LoopChunks, Decode;
    var chunks := Chunks(text, maxLen);
    if text == [] {
      assert chunks == [text] && text in chunks;
    } else if maxLen == 0 {
      ZeroLimit(text);
      assert chunks[0] == [] && chunks[0] in chunks;
      WithinZero();
    } else if |text| > maxLen {
      LoopChunksAreGood(text, maxLen);
    }
    forall c | c in chunks ensures |c| <= maxLen && Valid(c) && |Decode(c)| <= maxLen {
      if c == [] { WithinZero(); }
      CharactersAtMostBytes(c);
    }
  }

  lemma WithinZero()
    ensures Valid([])
  {
  }

  // ---- code blocks ----

  const FENCE: seq<byte> := [0x60, 0x60, 0x60]

  ghost predicate FenceAt(s: seq<byte>, i: nat) { i + 3 <= |s| && s[i..i + 3] == FENCE }

  /** The chunk opens a code block and does not close it. */
  ghost predicate LeavesBlockOpen(c: seq<byte>) { FenceAt(c, 0) && forall i: nat :: i >= 3 ==> !FenceAt(c, i) }

  /**
   The documented promise never to split inside a code block is not kept: a message that is one
   code block is split inside it if and only if it is longer than the limit.
   */
  lemma CodeBlockSplitIff(body: seq<byte>, maxLen: nat)
    requires Valid(body) && 0x60 !in body && maxLen >= 4
    ensures var text := FENCE + body + FENCE;
            && Valid(text) && Fits(text, maxLen)
            && (LeavesBlockOpen(Chunks(text, maxLen)[0]) <==> |text| > maxLen)
  {
    var text := FENCE + body + FENCE;
    FenceValid();
    Concat(body, FENCE);
    Concat(FENCE, body + FENCE);
    assert text == FENCE + (body + FENCE);
    FourBytesSuffice(text, maxLen);
    if |text| <= maxLen {
      assert text[|text| - 3..] == FENCE && FenceAt(text, |text| - 3);
    } else {
      LoopStep(text, maxLen);
      FirstCutInBlock(body, maxLen);
    }
  }

  lemma FenceValid()
    ensures Valid(FENCE)
  {
    assert FENCE[1..][1..] == FENCE[2..] && FENCE[2..][1..] == [];
    assert Valid(FENCE[2..]) && Valid(FENCE[1..]);
  }

  lemma FirstCutInBlock(body: seq<byte>, maxLen: nat)
    requires Valid(body) && 0x60 !in body && maxLen >= 4 && |body| + 6 > maxLen
    ensures var text := FENCE + body + FENCE;
            CutAt(text, maxLen) <= |text| && LeavesBlockOpen(text[..CutAt(text, maxLen)])
  {
    var text := FENCE + body + FENCE;
    hide FloorBoundary, SplitPoint, Valid, CharWidth;
    var f := FloorBoundary(text, maxLen);
    assert text[3] == if body == [] then 0x60 else body[0];
    FirstIsLead(body);
    assert IsCharBoundary(text, 3);
    var c := SplitPoint(text[..f]);
    assert f >= 3;
    assert forall i :: 0 <= i < 3 ==> text[..f][i] == 0x60;
    assert c >= 3;
    var chunk := text[..c];
    assert chunk[0..3] == FENCE;
    forall i: nat | i >= 3 ensures !FenceAt(chunk, i) {
      if i + 3 <= |chunk| {
        assert chunk[i..i + 3][0] == text[i] == body[i - 3];
        assert body[i - 3] in body;
      }
    }
  }

  lemma FirstIsLead(s: seq<byte>)
    requires Valid(s)
    ensures s != [] ==> !IsTail(s[0])
  {
  }
}
