/** UTF-8 byte strings, by the grammar of section 4 of RFC 3629. */
module Utf8 {

  newtype byte = b: int | 0 <= b < 256

  /** The line feed. */
  const LF: byte := 10

  predicate IsTail(b: byte) { 0x80 <= b <= 0xBF }

  /** The width of the well-formed character `s` starts with, or 0 if there is none. */
  function CharWidth(s: seq<byte>): (w: nat)
    ensures w <= 4 && w <= |s|
    ensures w > 0 ==> !IsTail(s[0])
    ensures forall i :: 0 < i < w ==> IsTail(s[i])
    ensures w > 1 ==> s[0] >= 0x80
  {
    if s == [] then 0
    else if s[0] <= 0x7F then 1
    else if |s| >= 2 && 0xC2 <= s[0] <= 0xDF && IsTail(s[1]) then 2
    else if |s| >= 3 && ThreeByteLead(s[0], s[1]) && IsTail(s[2]) then 3
    else if |s| >= 4 && FourByteLead(s[0], s[1]) && IsTail(s[2]) && IsTail(s[3]) then 4
    else 0
  }

  predicate ThreeByteLead(a: byte, b: byte) {
    || (a == 0xE0 && 0xA0 <= b <= 0xBF)
    || (0xE1 <= a <= 0xEC && IsTail(b))
    || (a == 0xED && 0x80 <= b <= 0x9F)
    || (0xEE <= a <= 0xEF && IsTail(b))
  }

  predicate FourByteLead(a: byte, b: byte) {
    || (a == 0xF0 && 0x90 <= b <= 0xBF)
    || (0xF1 <= a <= 0xF3 && IsTail(b))
    || (a == 0xF4 && 0x80 <= b <= 0x8F)
  }

  predicate Valid(s: seq<byte>) {
    s == [] || (CharWidth(s) > 0 && Valid(s[CharWidth(s)..]))
  }

  function FirstChar(s: seq<byte>): char
    requires CharWidth(s) > 0
  {
    match CharWidth(s)
    case 1 => s[0] as char
    case 2 => ((s[0] as int - 0xC0) * 64 + Low6(s[1])) as char
    case 3 => ((s[0] as int - 0xE0) * 4096 + Low6(s[1]) * 64 + Low6(s[2])) as char
    case _ => ((s[0] as int - 0xF0) * 262144 + Low6(s[1]) * 4096 + Low6(s[2]) * 64 + Low6(s[3])) as char
  }

  function Low6(b: byte): nat
    requires IsTail(b)
  {
    (b - 0x80) as nat
  }

  function Decode(s: seq<byte>): string
    requires Valid(s)
  {
    if s == [] then "" else [FirstChar(s)] + Decode(s[CharWidth(s)..])
  }

  /** Rust's `str::is_char_boundary`, which looks at one byte only. */
  predicate IsCharBoundary(s: seq<byte>, i: nat) {
    i == 0 || i == |s| || (i < |s| && !IsTail(s[i]))
  }

  /** What follows does not change the first character. */
  lemma FirstOfConcat(a: seq<byte>, b: seq<byte>)
    requires CharWidth(a) > 0
    ensures CharWidth(a + b) == CharWidth(a) && (a + b)[0] == a[0]
    ensures (a + b)[CharWidth(a)..] == a[CharWidth(a)..] + b
  {
    var w := CharWidth(a);
    assert (a + b)[..w] == a[..w];
  }

  lemma {:induction false} Concat(a: seq<byte>, b: seq<byte>)
    requires Valid(a)
    ensures Valid(a + b) <==> Valid(b)
  {
    if a == [] {
      assert a + b == b;
    } else {
      FirstOfConcat(a, b);
      Concat(a[CharWidth(a)..], b);
    }
  }

  /** The one-byte test is right: cutting valid text there, and only there, leaves two valid texts. */
  lemma {:induction false} BoundaryCut(s: seq<byte>, i: nat)
    requires Valid(s) && i <= |s|
    ensures IsCharBoundary(s, i) <==> Valid(s[..i]) && Valid(s[i..])
  {
    hide Valid, CharWidth;
    if i == 0 {
      assert s[..0] == [] && s[0..] == s;
      NothingValid();
    } else {
      NonEmptyValid(s);
      if i < CharWidth(s) {
        CutInside(s, i);
      } else {
        BoundaryCut(s[CharWidth(s)..], i - CharWidth(s));
        CutOutside(s, i);
      }
    }
  }

  lemma NothingValid()
    ensures Valid([])
  {
  }

  lemma NonEmptyValid(s: seq<byte>)
    requires Valid(s) && s != []
    ensures CharWidth(s) > 0 && Valid(s[CharWidth(s)..])
  {
  }

  lemma CutInside(s: seq<byte>, i: nat)
    requires 0 < i < CharWidth(s)
    ensures !IsCharBoundary(s, i) && !Valid(s[i..])
  {
    assert IsTail(s[i]);
    assert CharWidth(s[i..]) == 0;
  }

  lemma CutOutside(s: seq<byte>, i: nat)
    requires 0 < CharWidth(s) <= i <= |s|
    ensures var w := CharWidth(s);
            && (Valid(s[..i]) <==> Valid(s[w..][..i - w])) && s[i..] == s[w..][i - w..]
            && (i > w ==> (IsCharBoundary(s, i) <==> IsCharBoundary(s[w..], i - w)))
            && (i == w && Valid(s[w..]) ==> IsCharBoundary(s, i))
  {
    var w := CharWidth(s);
    assert s[..i][..w] == s[..w];
    WidthOfPrefix(s, i);
    assert s[..i][w..] == s[w..][..i - w];
    assert s[i..] == s[w..][i - w..];
    if i == w < |s| && Valid(s[w..]) { assert s[w..][0] == s[w]; }
    if w < i < |s| { assert s[w..][i - w] == s[i]; }
  }

  lemma WidthOfPrefix(s: seq<byte>, i: nat)
    requires 0 < CharWidth(s) <= i <= |s|
    ensures CharWidth(s[..i]) == CharWidth(s)
  {
  }

  // ---- the encoder ----

  function EncodeChar(c: char): (b: seq<byte>)
    ensures b != []
  {
    var n := c as int;
    if n < 0x80 then [n as byte]
    else if n < 0x800 then [(0xC0 + n / 64) as byte, Tail(n)]
    else if n < 0x1_0000 then [(0xE0 + n / 64 / 64) as byte, Tail(n / 64), Tail(n)]
    else [(0xF0 + n / 64 / 64 / 64) as byte, Tail(n / 64 / 64), Tail(n / 64), Tail(n)]
  }

  function Tail(n: nat): (b: byte)
    ensures IsTail(b) && Low6(b) == n % 64
  {
    (0x80 + n % 64) as byte
  }

  function Encode(s: string): seq<byte> { if s == "" then [] else EncodeChar(s[0]) + Encode(s[1..]) }

  lemma Base64(n: nat)
    ensures n == n / 64 * 64 + n % 64
  {
  }

  lemma CharOfEncoded(c: char, rest: seq<byte>)
    ensures var b := EncodeChar(c) + rest; CharWidth(b) == |EncodeChar(c)| && FirstChar(b) == c
  {
    EncodedWidth(c);
    EncodedValue(c);
    hide EncodeChar;
    FirstOfConcat(EncodeChar(c), rest);
    SameFirstChar(EncodeChar(c), rest);
  }

  lemma EncodedWidth(c: char)
    ensures CharWidth(EncodeChar(c)) == |EncodeChar(c)|
  {
  }

  lemma EncodedValue(c: char)
    requires CharWidth(EncodeChar(c)) == |EncodeChar(c)|
    ensures FirstChar(EncodeChar(c)) == c
  {
    hide CharWidth, Tail, Low6;
    var n: nat := c as int;
    Base64(n);
    Base64(n / 64);
    Base64(n / 64 / 64);
  }

  lemma SameFirstChar(a: seq<byte>, b: seq<byte>)
    requires CharWidth(a) == |a| > 0
    ensures CharWidth(a + b) == |a| && FirstChar(a + b) == FirstChar(a)
  {
    FirstOfConcat(a, b);
    assert forall i :: 0 <= i < |a| ==> (a + b)[i] == a[i];
    hide CharWidth;
  }

  /** Encoding gives valid UTF-8, and decoding it gives the text back. */
  lemma {:induction false} DecodeOfEncode(s: string)
    ensures Valid(Encode(s)) && Decode(Encode(s)) == s
  {
    if s != "" {
      var rest := Encode(s[1..]);
      DecodeOfEncode(s[1..]);
      CharOfEncoded(s[0], rest);
      assert (EncodeChar(s[0]) + rest)[|EncodeChar(s[0])|..] == rest;
      assert [s[0]] + s[1..] == s;
    }
  }

  lemma {:induction false} EncodeConcat(a: string, b: string)
    ensures Encode(a + b) == Encode(a) + Encode(b)
  {
    if a == "" {
      assert a + b == b;
    } else {
      assert (a + b)[1..] == a[1..] + b && (a + b)[0] == a[0];
      EncodeConcat(a[1..], b);
    }
  }

  lemma EncodedOfFirst(s: seq<byte>)
    requires CharWidth(s) > 0
    ensures EncodeChar(FirstChar(s)) == s[..CharWidth(s)]
  {
    match CharWidth(s)
    case 1 =>
    case 2 => EncodedTwo(s);
    case 3 => EncodedThree(s);
    case _ => EncodedFour(s);
  }

  lemma EncodedTwo(s: seq<byte>)
    requires CharWidth(s) == 2
    ensures EncodeChar(FirstChar(s)) == s[..2]
  {
    Digits64(s[0] as int - 0xC0, Low6(s[1]));
  }

  lemma EncodedThree(s: seq<byte>)
    requires CharWidth(s) == 3
    ensures EncodeChar(FirstChar(s)) == s[..3]
  {
    var a := s[0] as int - 0xE0;
    var b := a * 64 + Low6(s[1]);
    Digits64(a, Low6(s[1]));
    Digits64(b, Low6(s[2]));
    assert FirstChar(s) as int == b * 64 + Low6(s[2]);
    assert b >= 32;
    TailOf(s[1], b);
    TailOf(s[2], b * 64 + Low6(s[2]));
    hide CharWidth, FirstChar, Tail;
  }

  lemma EncodedFour(s: seq<byte>)
    requires CharWidth(s) == 4
    ensures EncodeChar(FirstChar(s)) == s[..4]
  {
    var a := s[0] as int - 0xF0;
    var b := a * 64 + Low6(s[1]);
    var c := b * 64 + Low6(s[2]);
    Digits64(a, Low6(s[1]));
    Digits64(b, Low6(s[2]));
    Digits64(c, Low6(s[3]));
    assert FirstChar(s) as int == c * 64 + Low6(s[3]);
    assert b >= 16;
    TailOf(s[1], b);
    TailOf(s[2], c);
    TailOf(s[3], c * 64 + Low6(s[3]));
    hide CharWidth, FirstChar, Tail;
  }

  lemma TailOf(b: byte, n: nat)
    requires IsTail(b) && n % 64 == Low6(b)
    ensures Tail(n) == b
  {
  }

  lemma Digits64(high: nat, low: nat)
    requires low < 64
    ensures (high * 64 + low) / 64 == high && (high * 64 + low) % 64 == low
  {
  }

  lemma DecodeStep(s: seq<byte>)
    requires Valid(s) && s != []
    ensures CharWidth(s) > 0 && Valid(s[CharWidth(s)..]) && Decode(s) == [FirstChar(s)] + Decode(s[CharWidth(s)..])
  {
  }

  lemma EncodeCons(c: char, rest: string)
    ensures Encode([c] + rest) == EncodeChar(c) + Encode(rest)
  {
    assert ([c] + rest)[1..] == rest;
  }

  /** Valid UTF-8 is nothing but encoded text: decoding and encoding again gives the bytes back, so no longer form is let through. */
  lemma {:induction false} EncodeOfDecode(s: seq<byte>)
    requires Valid(s)
    ensures Encode(Decode(s)) == s
  {
    hide CharWidth, FirstChar, EncodeChar, Valid;
    if s != [] {
      DecodeStep(s);
      var w := CharWidth(s);
      EncodeOfDecode(s[w..]);
      EncodedOfFirst(s);
      EncodeCons(FirstChar(s), Decode(s[w..]));
      assert s == s[..w] + s[w..];
    }
  }
}
