/** Strings as the modules of this project need them: splitting, trimming and decimal numbers. */
module Text {

  datatype Option<+T> = None | Some(value: T)

  /** Rust's `char::is_whitespace`: the Unicode White_Space property. */
  predicate IsWhitespace(c: char) {
    || '\t' <= c <= '\r' || c == ' ' || c == '\U{85}' || c == '\U{A0}' || c == '\U{1680}'
    || '\U{2000}' <= c <= '\U{200A}' || c == '\U{2028}' || c == '\U{2029}' || c == '\U{202F}'
    || c == '\U{205F}' || c == '\U{3000}'
  }

  /** How many white-space characters `s` starts with. */
  function Leading(s: string): (k: nat)
    ensures k <= |s| && (k == |s| || !IsWhitespace(s[k]))
    ensures forall i :: 0 <= i < k ==> IsWhitespace(s[i])
  {
    if s == "" || !IsWhitespace(s[0]) then 0 else 1 + Leading(s[1..])
  }

  function TrimStart(s: string): string { s[Leading(s)..] }

  function TrimEnd(s: string): (t: string)
    ensures t <= s
    ensures t == "" || !IsWhitespace(t[|t| - 1])
    ensures forall i :: |t| <= i < |s| ==> IsWhitespace(s[i])
  {
    if s == "" || !IsWhitespace(s[|s| - 1]) then s else TrimEnd(s[..|s| - 1])
  }

  function Trim(s: string): string { TrimEnd(TrimStart(s)) }

  /** No white space at either end. */
  predicate Trimmed(s: string) { s == "" || (!IsWhitespace(s[0]) && !IsWhitespace(s[|s| - 1])) }

  lemma TrimOfTrimmed(s: string)
    ensures Trim(s) == s <==> Trimmed(s)
  {
  }

  predicate Blank(s: string) { forall i :: 0 <= i < |s| ==> IsWhitespace(s[i]) }

  lemma {:induction false} LeadingBlank(before: string, s: string)
    requires Blank(before) && s != "" && !IsWhitespace(s[0])
    ensures Leading(before + s) == |before|
  {
    if before == "" {
      assert before + s == s;
    } else {
      assert (before + s)[1..] == before[1..] + s;
      LeadingBlank(before[1..], s);
    }
  }

  lemma {:induction false} TrailingBlank(s: string, after: string)
    requires Blank(after) && s != "" && !IsWhitespace(s[|s| - 1])
    ensures TrimEnd(s + after) == s
  {
    if after == "" {
      assert s + after == s;
    } else {
      var n := |after| - 1;
      assert (s + after)[..|s| + n] == s + after[..n];
      TrailingBlank(s, after[..n]);
    }
  }

  /** White space around a trimmed text is what `Trim` removes. */
  lemma TrimPadded(before: string, s: string, after: string)
    requires Blank(before) && Blank(after) && s != "" && Trimmed(s)
    ensures Trim(before + s + after) == s
  {
    LeadingBlank(before, s + after);
    assert before + (s + after) == before + s + after;
    assert (before + s + after)[|before|..] == s + after;
    TrailingBlank(s, after);
  }

  /** Splits at every occurrence of `sep`; always at least one part. */
  function Split(s: string, sep: char): (parts: seq<string>)
    ensures |parts| >= 1
    ensures sep !in s ==> parts == [s]
  {
    if s == "" then [""]
    else
      var rest := Split(s[1..], sep);
      assert s == [s[0]] + s[1..];
      if s[0] == sep then [""] + rest else [[s[0]] + rest[0]] + rest[1..]
  }

  lemma {:induction false} SplitCons(a: string, sep: char, b: string)
    requires sep !in a
    ensures Split(a + [sep] + b, sep) == [a] + Split(b, sep)
  {
    var s := a + [sep] + b;
    if a == "" {
      assert s[1..] == b;
    } else {
      assert s[1..] == a[1..] + [sep] + b && a == [a[0]] + a[1..];
      SplitCons(a[1..], sep, b);
    }
  }

  predicate IsDigit(c: char) { '0' <= c <= '9' }

  predicate AllDigits(s: string) { forall i :: 0 <= i < |s| ==> IsDigit(s[i]) }

  function DigitsValue(s: string): (n: nat)
    requires AllDigits(s)
  {
    if s == "" then 0 else 10 * DigitsValue(s[..|s| - 1]) + (s[|s| - 1] - '0') as nat
  }

  function DigitChar(d: nat): (c: char)
    requires d < 10
  {
    '0' + d as char
  }

  /** Rust's `{n:0w}`: decimal, zero-padded on the left to at least `w` characters. */
  function Pad(n: nat, w: nat): (s: string)
    ensures |s| >= 1 && |s| >= w && AllDigits(s)
    ensures DigitsValue(s) == n
    decreases n, w
  {
    if n < 10 && w <= 1 then [DigitChar(n)]
    else Pad(n / 10, if w > 0 then w - 1 else 0) + [DigitChar(n % 10)]
  }

  const I64_MIN: int := -0x8000_0000_0000_0000
  const I64_MAX: int := 0x7fff_ffff_ffff_ffff

  /** Rust's `str::parse::<i64>`: an optional sign, at least one digit, and a value in range. */
  function ParseI64(s: string): (r: Option<int>)
    ensures s != "" && AllDigits(s) && DigitsValue(s) <= I64_MAX ==> r == Some(DigitsValue(s))
    ensures s == "" ==> r == None
  {
    if s == "" then None
    else
      var signed := s[0] == '-' || s[0] == '+';
      var digits := if signed then s[1..] else s;
      if digits == "" || !AllDigits(digits) then None
      else
        var v: int := if s[0] == '-' then -(DigitsValue(digits) as int) else DigitsValue(digits);
        if I64_MIN <= v <= I64_MAX then Some(v) else None
  }

  function GetOr<T>(o: Option<T>, default: T): T {
    match o case None => default case Some(v) => v
  }

  /** The first position of `c`, or the length of `s` when it does not occur. */
  function IndexOf(s: string, c: char): (i: nat)
    ensures i <= |s| && c !in s[..i] && (i < |s| ==> s[i] == c)
  {
    if s == "" || s[0] == c then 0
    else
      var i := 1 + IndexOf(s[1..], c);
      assert s[..i] == [s[0]] + s[1..][..i - 1];
      i
  }

  function StripCr(s: string): string { if s != "" && s[|s| - 1] == '\r' then s[..|s| - 1] else s }

  /** Rust's `str::lines`: cut after each line feed, which goes away with a carriage return before it. */
  function Lines(s: string): seq<string> {
    if s == "" then []
    else
      var i := IndexOf(s, '\n');
      if i == |s| then [s] else [StripCr(s[..i])] + Lines(s[i + 1..])
  }

  lemma {:induction false} IndexOfFirst(a: string, c: char, b: string)
    requires c !in a
    ensures IndexOf(a + [c] + b, c) == |a|
  {
    if a != "" {
      assert (a + [c] + b)[1..] == a[1..] + [c] + b && a == [a[0]] + a[1..];
      IndexOfFirst(a[1..], c, b);
    }
  }

  /** `parts` with the end after each, except that the last may do without. */
  function Ended(lines: seq<string>, ends: seq<string>): string
    requires |ends| == |lines|
  {
    if lines == [] then "" else lines[0] + ends[0] + Ended(lines[1..], ends[1..])
  }

  /** Whole lines with an end of either kind after each; the last one may do without. */
  predicate EndsOk(lines: seq<string>, ends: seq<string>)
    requires |ends| == |lines|
  {
    lines != [] ==>
      && '\n' !in lines[0] && StripCr(lines[0]) == lines[0]
      && (ends[0] == "\n" || ends[0] == "\r\n" || (|lines| == 1 && ends[0] == "" && lines[0] != ""))
      && EndsOk(lines[1..], ends[1..])
  }

  lemma {:induction false} LinesOfEnded(lines: seq<string>, ends: seq<string>)
    requires |ends| == |lines| && EndsOk(lines, ends)
    ensures Lines(Ended(lines, ends)) == lines
  {
    hide Lines, StripCr;
    if lines == [] {
      NoLines();
    } else {
      var l, e, rest := lines[0], ends[0], Ended(lines[1..], ends[1..]);
      LinesOfEnded(lines[1..], ends[1..]);
      assert lines == [l] + lines[1..];
      if e == "" {
        assert rest == "" && l + e + rest == l;
        OneLineOnly(l);
      } else {
        FirstLine(l, e, rest);
        assert l + e + rest == l + (e + rest);
      }
    }
  }

  lemma NoLines()
    ensures Lines("") == []
  {
  }

  lemma OneLineOnly(l: string)
    requires l != "" && '\n' !in l
    ensures Lines(l) == [l]
  {
    assert l[..|l|] == l;
  }

  lemma FirstLine(l: string, e: string, rest: string)
    requires '\n' !in l && StripCr(l) == l && (e == "\n" || e == "\r\n")
    ensures Lines(l + (e + rest)) == [l] + Lines(rest)
  {
    var s := l + (e + rest);
    var front := if e == "\n" then l else l + "\r";
    assert s == front + ['\n'] + rest;
    IndexOfFirst(front, '\n', rest);
    assert s[..|front|] == front && s[|front| + 1..] == rest;
    assert StripCr(front) == l by { if e != "\n" { assert front[..|front| - 1] == l; } }
  }

  /** A sign before the digits. */
  lemma ParseSigned(digits: string)
    requires digits != "" && AllDigits(digits)
    ensures ParseI64("+" + digits) == if DigitsValue(digits) <= I64_MAX then Some(DigitsValue(digits)) else None
    ensures ParseI64("-" + digits) == if -(DigitsValue(digits) as int) >= I64_MIN then Some(-(DigitsValue(digits) as int)) else None
  {
    hide DigitsValue, AllDigits;
    ParseAfterSign('+', digits);
    ParseAfterSign('-', digits);
    hide ParseI64;
  }

  lemma ParseAfterSign(sign: char, digits: string)
    requires digits != "" && AllDigits(digits) && (sign == '+' || sign == '-')
    ensures var v: int := if sign == '-' then -(DigitsValue(digits) as int) else DigitsValue(digits);
            ParseI64([sign] + digits) == if I64_MIN <= v <= I64_MAX then Some(v) else None
  {
    hide DigitsValue, AllDigits;
    assert ([sign] + digits)[1..] == digits && ([sign] + digits)[0] == sign;
  }

  // ---- substrings ----

  predicate At(s: string, pat: string, i: nat) { i + |pat| <= |s| && s[i..i + |pat|] == pat }

  /** The first position of `pat`. */
  function Find(s: string, pat: string): (r: Option<nat>)
    ensures r.Some? ==> At(s, pat, r.value) && forall i: nat :: i < r.value ==> !At(s, pat, i)
    ensures r.None? ==> forall i: nat :: !At(s, pat, i)
  {
    FindFrom(s, pat, 0)
  }

  function FindFrom(s: string, pat: string, from: nat): (r: Option<nat>)
    requires from <= |s|
    ensures r.Some? ==> from <= r.value && At(s, pat, r.value) && forall i: nat :: from <= i < r.value ==> !At(s, pat, i)
    ensures r.None? ==> forall i: nat :: from <= i ==> !At(s, pat, i)
    decreases |s| - from
  {
    if At(s, pat, from) then Some(from) else if from == |s| then None else FindFrom(s, pat, from + 1)
  }

  predicate Contains(s: string, pat: string) { Find(s, pat).Some? }
}
