/** The redaction passes of input_guard.rs over the words of a message. */
module Redactor {
  import opened Text
  import Utf8

  const REDACTED := "[REDACTED]"
  const CLOSING := ".,;:!?()[]{}"
  const PUNCTUATION := "\"'.,;:!?()[]{}"

  const PRIVATE_NETS := [
    "192.168.", "10.", "172.16.", "172.17.", "172.18.", "172.19.", "172.20.", "172.21.", "172.22.", "172.23.",
    "172.24.", "172.25.", "172.26.", "172.27.", "172.28.", "172.29.", "172.30.", "172.31.", "127."]

  const KEY_PREFIXES := ["sk-", "ghp_", "gsk_", "glpat-", "xoxb-", "xoxp-", "AKIA"]

  // ---- what a word looks like ----

  function TrimStartOf(s: string, cut: string): (t: string)
    ensures |t| <= |s| && t == s[|s| - |t|..] && (t == "" || t[0] !in cut)
    ensures forall i :: 0 <= i < |s| - |t| ==> s[i] in cut
  {
    if s == "" || s[0] !in cut then s else TrimStartOf(s[1..], cut)
  }

  function TrimEndOf(s: string, cut: string): (t: string)
    ensures t <= s && (t == "" || t[|t| - 1] !in cut)
    ensures forall i :: |t| <= i < |s| ==> s[i] in cut
  {
    if s == "" || s[|s| - 1] !in cut then s else TrimEndOf(s[..|s| - 1], cut)
  }

  function Core(word: string): string { TrimEndOf(TrimStartOf(word, PUNCTUATION), PUNCTUATION) }

  predicate StartsWithAny(s: string, prefixes: seq<string>) {
    exists i :: 0 <= i < |prefixes| && prefixes[i] <= s
  }

  function Width(c: char): nat {
    if c as int < 0x80 then 1 else if c as int < 0x800 then 2 else if c as int < 0x1_0000 then 3 else 4
  }

  /** The length in bytes, as Rust's `str::len` has it. */
  function Bytes(s: string): nat { if s == "" then 0 else Width(s[0]) + Bytes(s[1..]) }

  function Dots(s: string): nat { if s == "" then 0 else (if s[0] == '.' then 1 else 0) + Dots(s[1..]) }

  predicate LooksLikePrivateIp(word: string) { StartsWithAny(TrimEndOf(word, CLOSING), PRIVATE_NETS) }

  predicate LooksLikeKey(word: string) { StartsWithAny(Core(word), KEY_PREFIXES) }

  predicate LooksLikeEmail(word: string) { IsEmail(Core(word)) }

  predicate IsEmail(clean: string) {
    var at := IndexOf(clean, '@');
    at < |clean| && (var domain := clean[at + 1..]; clean[..at] != "" && domain != "" && '.' in domain && Bytes(domain) > 3)
  }

  predicate LooksLikeJwt(word: string) {
    var clean := Core(word);
    "eyJ" <= clean && Dots(clean) >= 2 && Bytes(clean) > 50
  }

  predicate Sensitive(word: string) {
    LooksLikePrivateIp(word) || LooksLikeKey(word) || LooksLikeEmail(word) || LooksLikeJwt(word)
  }

  // ---- words and passes ----

  predicate IsWord(w: string) { w != "" && forall i :: 0 <= i < |w| ==> !IsWhitespace(w[i]) }

  function WordLength(s: string): (n: nat)
    ensures n <= |s| && (n == |s| || IsWhitespace(s[n]))
    ensures forall i :: 0 <= i < n ==> !IsWhitespace(s[i])
  {
    if s == "" || IsWhitespace(s[0]) then 0 else 1 + WordLength(s[1..])
  }

  /** Rust's `split_whitespace`. */
  function Words(s: string): (ws: seq<string>)
    ensures forall w :: w in ws ==> IsWord(w)
    decreases |s|
  {
    var t := TrimStart(s);
    if t == "" then [] else [t[..WordLength(t)]] + Words(t[WordLength(t)..])
  }

  /** Rust's `join(" ")`. */
  function Join(ws: seq<string>): string {
    if ws == [] then "" else if |ws| == 1 then ws[0] else ws[0] + " " + Join(ws[1..])
  }

  function Rewrite(ws: seq<string>, hit: string -> bool): seq<string> {
    seq(|ws|, i requires 0 <= i < |ws| => if hit(ws[i]) then REDACTED else ws[i])
  }

  /** One pass: every word that looks like a hit is replaced. */
  method ReplaceWords(text: string, hit: string -> bool) returns (out: string)
    ensures out == Join(Rewrite(Words(text), hit))
  {
    var words := Words(text);
    var resultWords := [];
    for i := 0 to |words|
      invariant resultWords == Rewrite(words, hit)[..i]
    {
      if hit(words[i]) {
        resultWords := resultWords + [REDACTED];
      } else {
        resultWords := resultWords + [words[i]];
      }
    }
    assert Rewrite(words, hit)[..|words|] == Rewrite(words, hit);
    out := Join(resultWords);
  }

  predicate Sensitive2(word: string) { LooksLikePrivateIp(word) || LooksLikeKey(word) }

  predicate Sensitive3(word: string) { Sensitive2(word) || LooksLikeEmail(word) }

  /** All passes at once, word by word. */
  function Redacted(input: string): string { Join(Rewrite(Words(input), Sensitive)) }

  /** `redact_pii`: the address pass four times over, then the other three. */
  method RedactPii(input: string) returns (result: string)
    ensures result == Redacted(input)
  {
    MarkIsHarmless();
    hide LooksLikePrivateIp, LooksLikeKey, LooksLikeEmail, LooksLikeJwt, Words, Join, Rewrite;
    result := input;
    for k := 0 to 4
      invariant result == if k == 0 then input else Join(Rewrite(Words(input), LooksLikePrivateIp))
    {
      result := ReplaceWords(result, LooksLikePrivateIp);
      PassAfterPass(input, LooksLikePrivateIp, LooksLikePrivateIp, LooksLikePrivateIp);
    }
    result := ReplaceWords(result, LooksLikeKey);
    result := ReplaceWords(result, LooksLikeEmail);
    result := ReplaceWords(result, LooksLikeJwt);
    PassAfterPass(input, LooksLikePrivateIp, LooksLikeKey, Sensitive2);
    PassAfterPass(input, Sensitive2, LooksLikeEmail, Sensitive3);
    PassAfterPass(input, Sensitive3, LooksLikeJwt, Sensitive);
  }

  // ---- lemmas ----

  lemma CoreOfMark()
    ensures Core(REDACTED) != "" && Core(REDACTED)[0] == 'R' && '@' !in Core(REDACTED)
    ensures TrimEndOf(REDACTED, CLOSING) != "" && TrimEndOf(REDACTED, CLOSING)[0] == '['
  {
    assert REDACTED[1] == 'R' && 'R' !in PUNCTUATION && 'R' !in CLOSING && REDACTED[0] == '[' && '[' in PUNCTUATION;
    var t := TrimStartOf(REDACTED, PUNCTUATION);
    assert |REDACTED| - |t| == 1;
    assert t[0] == 'R';
    assert '@' !in REDACTED;
  }

  /** The replacement is not itself taken for anything sensitive. */
  lemma MarkIsHarmless()
    ensures !Sensitive(REDACTED)
  {
    CoreOfMark();
    var c := Core(REDACTED);
    hide Core, TrimEndOf, TrimStartOf, Dots, Bytes;
    assert forall i :: 0 <= i < |KEY_PREFIXES| ==> KEY_PREFIXES[i][0] != 'R';
    assert forall i :: 0 <= i < |PRIVATE_NETS| ==> PRIVATE_NETS[i][0] != '[';
    assert "eyJ"[0] != c[0];
  }

  predicate AllWords(ws: seq<string>) { forall w :: w in ws ==> IsWord(w) }

  lemma WordsAfterSpace(s: string)
    ensures Words(" " + s) == Words(s) && Words("") == []
  {
    assert (" " + s)[1..] == s;
    assert TrimStart(" " + s) == TrimStart(s);
  }

  lemma WordLengthOf(w: string, rest: string)
    requires IsWord(w) && (rest == "" || IsWhitespace(rest[0]))
    ensures WordLength(w + rest) == |w|
  {
    var s := w + rest;
    var n := WordLength(s);
    assert forall i :: 0 <= i < |w| ==> s[i] == w[i];
    assert rest != "" ==> s[|w|] == rest[0];
  }

  lemma {:induction false} FirstWord(w: string, rest: string)
    requires IsWord(w) && (rest == "" || IsWhitespace(rest[0]))
    ensures Words(w + rest) == [w] + Words(rest)
  {
    WordLengthOf(w, rest);
    var s := w + rest;
    assert s[0] == w[0];
    assert TrimStart(s) == s && s[..|w|] == w && s[|w|..] == rest;
  }

  /** Splitting undoes joining. */
  lemma {:induction false} WordsOfJoin(ws: seq<string>)
    requires AllWords(ws)
    ensures Words(Join(ws)) == ws
  {
    hide Words, IsWord;
    WordsAfterSpace(Join(ws));
    if |ws| == 1 {
      FirstWord(ws[0], "");
      assert ws[0] + "" == ws[0] && [ws[0]] == ws;
    } else if |ws| > 1 {
      var rest := Join(ws[1..]);
      FirstWord(ws[0], " " + rest);
      assert ws[0] + (" " + rest) == Join(ws);
      WordsAfterSpace(rest);
      WordsOfJoin(ws[1..]);
    }
  }

  lemma RewriteKeepsWords(ws: seq<string>, hit: string -> bool)
    requires AllWords(ws)
    ensures AllWords(Rewrite(ws, hit))
  {
    assert IsWord(REDACTED);
  }

  /** A pass after a pass is one pass for both, if the second leaves the replacement alone. */
  lemma PassAfterPass(text: string, f: string -> bool, g: string -> bool, both: string -> bool)
    requires !g(REDACTED) && forall w :: both(w) <==> f(w) || g(w)
    ensures Join(Rewrite(Words(Join(Rewrite(Words(text), f))), g)) == Join(Rewrite(Words(text), both))
  {
    hide Words, Join, IsWord;
    RewriteKeepsWords(Words(text), f);
    WordsOfJoin(Rewrite(Words(text), f));
    assert Rewrite(Rewrite(Words(text), f), g) == Rewrite(Words(text), both);
  }

  /**
   Every word of the result is a word of the input in the same place, or the mark if that word was
   sensitive; so the number of words is kept and no sensitive word is left.
   */
  lemma WordByWord(input: string)
    ensures var ws, out := Words(input), Words(Redacted(input));
            && |out| == |ws|
            && (forall i :: 0 <= i < |ws| ==> out[i] == if Sensitive(ws[i]) then REDACTED else ws[i])
            && (forall w :: w in out ==> !Sensitive(w))
  {
    hide Sensitive, Words, Join, IsWord;
    RewriteKeepsWords(Words(input), Sensitive);
    WordsOfJoin(Rewrite(Words(input), Sensitive));
    MarkIsHarmless();
  }

  /** Redacting twice is redacting once. */
  lemma RedactedTwice(input: string)
    ensures Redacted(Redacted(input)) == Redacted(input)
  {
    MarkIsHarmless();
    hide Sensitive, Words, Join, Rewrite;
    PassAfterPass(input, Sensitive, Sensitive, Sensitive);
  }

  lemma RewriteSame(ws: seq<string>, hit: string -> bool)
    requires !hit(REDACTED)
    ensures Rewrite(ws, hit) == ws <==> forall i :: 0 <= i < |ws| ==> !hit(ws[i])
  {
    var out := Rewrite(ws, hit);
    assert out == ws ==> forall i :: 0 <= i < |ws| ==> out[i] == ws[i];
  }

  /** Of a text with single spaces nothing changes exactly if no word of it is sensitive. */
  lemma HarmlessTextKept(ws: seq<string>)
    requires AllWords(ws)
    ensures Redacted(Join(ws)) == Join(ws) <==> forall i :: 0 <= i < |ws| ==> !Sensitive(ws[i])
  {
    WordsOfJoin(ws);
    RewriteKeepsWords(ws, Sensitive);
    WordsOfJoin(Rewrite(ws, Sensitive));
    MarkIsHarmless();
    RewriteSame(ws, Sensitive);
    hide Sensitive, Words, Join, Rewrite, AllWords;
  }

  // ---- which words are sensitive ----

  predicate AllIn(s: string, cut: string) { forall i :: 0 <= i < |s| ==> s[i] in cut }

  /** Text that begins and ends with something other than punctuation. */
  predicate Solid(core: string) { core != "" && core[0] !in PUNCTUATION && core[|core| - 1] !in PUNCTUATION }

  lemma {:induction false} StartGoes(before: string, s: string, cut: string)
    requires AllIn(before, cut) && s != "" && s[0] !in cut
    ensures TrimStartOf(before + s, cut) == s
  {
    if before == "" {
      assert before + s == s;
    } else {
      assert (before + s)[1..] == before[1..] + s;
      StartGoes(before[1..], s, cut);
    }
  }

  lemma {:induction false} EndGoes(s: string, after: string, cut: string)
    requires AllIn(after, cut) && s != "" && s[|s| - 1] !in cut
    ensures TrimEndOf(s + after, cut) == s
  {
    if after == "" {
      assert s + after == s;
    } else {
      var n := |after| - 1;
      assert (s + after)[..|s| + n] == s + after[..n];
      EndGoes(s, after[..n], cut);
    }
  }

  lemma CoreOfWord(before: string, core: string, after: string)
    requires AllIn(before, PUNCTUATION) && Solid(core) && AllIn(after, PUNCTUATION)
    ensures Core(before + core + after) == core
  {
    StartGoes(before, core + after, PUNCTUATION);
    assert before + (core + after) == before + core + after;
    EndGoes(core, after, PUNCTUATION);
  }

  /** In any punctuation, a word is taken for an API key exactly if it starts as one of seven vendors' keys do. */
  lemma KeyIff(before: string, core: string, after: string)
    requires AllIn(before, PUNCTUATION) && Solid(core) && AllIn(after, PUNCTUATION)
    ensures LooksLikeKey(before + core + after)
            <==> || "sk-" <= core || "ghp_" <= core || "gsk_" <= core || "glpat-" <= core
                 || "xoxb-" <= core || "xoxp-" <= core || "AKIA" <= core
  {
    hide AllIn, Solid, Core, StartsWithAny;
    CoreOfWord(before, core, after);
    AnyOfSeven(core, KEY_PREFIXES);
  }

  lemma AnyOfSeven(s: string, p: seq<string>)
    requires |p| == 7
    ensures StartsWithAny(s, p)
            <==> p[0] <= s || p[1] <= s || p[2] <= s || p[3] <= s || p[4] <= s || p[5] <= s || p[6] <= s
  {
  }

  /** It is taken for a mail address exactly if it is a local part, an at sign and a domain of at least four bytes with a dot. */
  lemma EmailIff(before: string, core: string, after: string)
    requires AllIn(before, PUNCTUATION) && Solid(core) && AllIn(after, PUNCTUATION)
    ensures LooksLikeEmail(before + core + after)
            <==> exists name, domain :: Address(core, name, domain) && |Utf8.Encode(domain)| >= 4
  {
    CoreOfWord(before, core, after);
    hide Core, IsEmail, Address;
    if IsEmail(core) { var name, domain := PartsOfEmail(core); }
    if name, domain :| Address(core, name, domain) && |Utf8.Encode(domain)| >= 4 { EmailOfParts(core, name, domain); }
  }

  lemma PartsOfEmail(core: string) returns (name: string, domain: string)
    requires IsEmail(core)
    ensures Address(core, name, domain) && |Utf8.Encode(domain)| >= 4
  {
    var at := IndexOf(core, '@');
    name, domain := core[..at], core[at + 1..];
    hide Bytes;
    assert core == name + "@" + domain;
    BytesAreUtf8(domain);
  }

  lemma EmailOfParts(core: string, name: string, domain: string)
    requires Address(core, name, domain) && |Utf8.Encode(domain)| >= 4
    ensures IsEmail(core)
  {
    hide Bytes, IndexOf;
    IndexOfFirst(name, '@', domain);
    assert name + ['@'] + domain == core && core[..|name|] == name && core[|name| + 1..] == domain;
    BytesAreUtf8(domain);
  }

  predicate Address(core: string, name: string, domain: string) {
    core == name + "@" + domain && name != "" && '@' !in name && '.' in domain
  }

  lemma {:induction false} BytesAreUtf8(s: string)
    ensures Bytes(s) == |Utf8.Encode(s)|
  {
    if s != "" { BytesAreUtf8(s[1..]); }
  }

  /** It is taken for a token exactly if it starts with eyJ, has two dots and is longer than fifty bytes. */
  lemma JwtIff(before: string, core: string, after: string)
    requires AllIn(before, PUNCTUATION) && Solid(core) && AllIn(after, PUNCTUATION)
    ensures LooksLikeJwt(before + core + after)
            <==> "eyJ" <= core && (exists i, j :: 0 <= i < j < |core| && core[i] == core[j] == '.') && |Utf8.Encode(core)| > 50
  {
    CoreOfWord(before, core, after);
    hide Core;
    BytesAreUtf8(core);
    TwoDots(core);
  }

  lemma {:induction false} OneDot(s: string)
    ensures Dots(s) >= 1 <==> exists i :: 0 <= i < |s| && s[i] == '.'
  {
    if s != "" {
      OneDot(s[1..]);
      if i :| 0 <= i < |s| && s[i] == '.' { if i > 0 { assert s[1..][i - 1] == '.'; } }
      if i :| 0 <= i < |s[1..]| && s[1..][i] == '.' { assert s[i + 1] == '.'; }
    }
  }

  lemma {:induction false} TwoDots(s: string)
    ensures Dots(s) >= 2 <==> exists i, j :: 0 <= i < j < |s| && s[i] == s[j] == '.'
  {
    if s != "" {
      var t := s[1..];
      TwoDots(t);
      OneDot(t);
      if i, j :| 0 <= i < j < |s| && s[i] == s[j] == '.' {
        assert t[j - 1] == '.';
        if i > 0 { assert t[i - 1] == '.'; }
      }
      if i, j :| 0 <= i < j < |t| && t[i] == t[j] == '.' { assert s[i + 1] == s[j + 1] == '.'; }
      if i :| 0 <= i < |t| && t[i] == '.' { assert s[i + 1] == '.'; }
    }
  }

  /** The private IPv4 ranges by their first numbers: 10, 127, 192.168, and 172 with a second number from 16 to 31. */
  predicate PrivateStart(s: string) {
    || "10." <= s || "127." <= s || "192.168." <= s
    || exists n :: 16 <= n <= 31 && "172." + Pad(n, 2) + "." <= s
  }

  /** With any punctuation after it, a word is taken for a private address exactly if it starts as one. */
  lemma PrivateIpIff(word: string, after: string)
    requires word != "" && word[|word| - 1] !in CLOSING && AllIn(after, CLOSING)
    ensures LooksLikePrivateIp(word + after) <==> PrivateStart(word)
  {
    EndGoes(word, after, CLOSING);
    hide TrimEndOf;
    NetsArePrivate();
    hide Pad;
    if PrivateStart(word) {
      if "192.168." <= word { assert PRIVATE_NETS[0] <= word; }
      else if "10." <= word { assert PRIVATE_NETS[1] <= word; }
      else if "127." <= word { assert PRIVATE_NETS[18] <= word; }
      else {
        var n :| 16 <= n <= 31 && "172." + Pad(n, 2) + "." <= word;
        assert PRIVATE_NETS[n - 14] <= word;
      }
    }
    if i :| 0 <= i < |PRIVATE_NETS| && PRIVATE_NETS[i] <= word {
      if 2 <= i <= 17 { assert "172." + Pad(i + 14, 2) + "." <= word; }
    }
  }

  lemma NetsArePrivate()
    ensures |PRIVATE_NETS| == 19
    ensures PRIVATE_NETS[0] == "192.168." && PRIVATE_NETS[1] == "10." && PRIVATE_NETS[18] == "127."
    ensures forall n :: 16 <= n <= 31 ==> PRIVATE_NETS[n - 14] == "172." + Pad(n, 2) + "."
  {
    forall n | 16 <= n <= 31 ensures PRIVATE_NETS[n - 14] == "172." + Pad(n, 2) + "." {
      TwoDigits(n);
    }
  }

  lemma TwoDigits(n: nat)
    requires 10 <= n < 100
    ensures Pad(n, 2) == [DigitChar(n / 10), DigitChar(n % 10)]
  {
    assert Pad(n / 10, 1) == [DigitChar(n / 10)];
  }
}
