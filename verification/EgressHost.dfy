/**
 Which host an outbound request goes to, and whether the allowlist lets it through
 (egress_inspector.rs). Rust's `to_lowercase` is the parameter `lower`.
 */
module EgressHost {
  import opened Text

  // ---- the reader ----

  predicate EndsAuthority(c: char) { c == '/' || c == '?' || c == '#' }

  /** The part of `s` before the first character that ends an authority. */
  function AuthorityOf(s: string): (a: string)
    ensures a <= s && (a == s || EndsAuthority(s[|a|])) && forall i :: 0 <= i < |a| ==> !EndsAuthority(a[i])
  {
    if s == "" || EndsAuthority(s[0]) then "" else
    var a := AuthorityOf(s[1..]);
    assert s == [s[0]] + s[1..];
    [s[0]] + a
  }

  /** What follows the last at sign; all of `s` without one. */
  function AfterUserinfo(s: string): (h: string)
    ensures |h| <= |s| && h == s[|s| - |h|..] && '@' !in h
    ensures h == s || s[|s| - |h| - 1] == '@'
  {
    if s == "" then ""
    else if '@' in s[1..] then
      var h := AfterUserinfo(s[1..]);
      assert h != s[1..];
      h
    else if s[0] == '@' then s[1..]
    else
      assert s == [s[0]] + s[1..];
      s
  }

  function Colons(s: string): nat {
    if s == "" then 0 else (if s[0] == ':' then 1 else 0) + Colons(s[1..])
  }

  /** `strip_port`. */
  function StripPort(s: string): string {
    if s != "" && s[0] == '[' && ']' in s then s[1..IndexOf(s, ']')]
    else if ':' in s then if Colons(s) > 1 then s else s[..IndexOf(s, ':')]
    else s
  }

  /** The authority of a URL without its user information; all of any other text. */
  function HostPortOf(s: string): string {
    match Find(s, "://") case Some(i) => AfterUserinfo(AuthorityOf(s[i + 3..])) case None => s
  }

  /** `extract_host`. */
  function ExtractHost(destination: string): Option<string> {
    var s := Trim(destination);
    if s == "" then None
    else
      var host := StripPort(HostPortOf(s));
      if host == "" then None else Some(host)
  }

  /** One entry of the allowlist against a host, both in lower case. */
  predicate EntryMatches(entry: string, host: string) {
    if "*." <= entry then
      var suffix := entry[1..];
      && |suffix| <= |host| && host[|host| - |suffix|..] == suffix
      && var prefix := host[..|host| - |suffix|]; prefix != "" && '.' !in prefix
    else host == entry
  }

  /** `matches_allowlist`. */
  method MatchesAllowlist(allowlist: seq<string>, lower: string -> string, host: string) returns (ok: bool)
    ensures ok <==> Listed(allowlist, lower, host)
  {
    var hostLower := lower(host);
    for i := 0 to |allowlist|
      invariant forall k :: 0 <= k < i ==> !EntryMatches(lower(allowlist[k]), hostLower)
    {
      var entryLower := lower(allowlist[i]);
      if "*." <= entryLower {
        var suffix := entryLower[1..];
        if |suffix| <= |hostLower| && hostLower[|hostLower| - |suffix|..] == suffix {
          var prefix := hostLower[..|hostLower| - |suffix|];
          if prefix != "" && '.' !in prefix { return true; }
        }
      } else if hostLower == entryLower {
        return true;
      }
    }
    return false;
  }

  ghost predicate Listed(allowlist: seq<string>, lower: string -> string, host: string) {
    exists k :: 0 <= k < |allowlist| && EntryMatches(lower(allowlist[k]), lower(host))
  }

  /** What `inspect` lets through: a destination whose host can be read and is listed. */
  ghost predicate Permitted(allowlist: seq<string>, lower: string -> string, destination: string) {
    var host := ExtractHost(destination);
    host.Some? && Listed(allowlist, lower, host.value)
  }

  // ---- assembled destinations (section 3.2 of RFC 3986) ----

  datatype Host = Name(text: string) | Literal(text: string)

  datatype Url = Url(scheme: string, userinfo: Option<string>, host: Host, port: Option<string>, tail: string)

  /** No delimiter (section 2.2 of RFC 3986) that has a meaning inside an authority, and no white space. */
  predicate PlainChar(c: char) {
    !EndsAuthority(c) && c != '@' && c != ':' && c != '[' && c != ']' && !IsWhitespace(c)
  }

  predicate Plain(s: string) { forall i :: 0 <= i < |s| ==> PlainChar(s[i]) }

  predicate LiteralText(s: string) {
    forall i :: 0 <= i < |s| ==> PlainChar(s[i]) || s[i] == ':'
  }

  /** User information may hold colons, brackets and even at signs. */
  predicate UserText(s: string) { forall i :: 0 <= i < |s| ==> !EndsAuthority(s[i]) }

  predicate IsAlpha(c: char) { 'a' <= c <= 'z' || 'A' <= c <= 'Z' }

  predicate SchemeChar(c: char) { IsAlpha(c) || IsDigit(c) || c == '+' || c == '-' || c == '.' }

  /** Section 3.1 of RFC 3986. */
  predicate SchemeText(s: string) { s != "" && IsAlpha(s[0]) && forall i :: 0 <= i < |s| ==> SchemeChar(s[i]) }

  predicate WellFormed(u: Url) { SchemeText(u.scheme) && PartsOk(u) }

  /** The parts after the scheme. */
  predicate PartsOk(u: Url) {
    && (u.userinfo.Some? ==> UserText(u.userinfo.value))
    && u.host.text != "" && (if u.host.Name? then Plain(u.host.text) else LiteralText(u.host.text))
    && (u.port.Some? ==> Plain(u.port.value))
    && (u.tail == "" || (EndsAuthority(u.tail[0]) && !IsWhitespace(u.tail[|u.tail| - 1])))
  }

  function HostPort(u: Url): string {
    (if u.host.Name? then u.host.text else "[" + u.host.text + "]")
    + (if u.port.Some? then ":" + u.port.value else "")
  }

  function Authority(u: Url): string {
    (if u.userinfo.Some? then u.userinfo.value + "@" else "") + HostPort(u)
  }

  function UrlText(u: Url): string { u.scheme + "://" + Authority(u) + u.tail }

  // ---- lemmas ----

  lemma {:induction false} AuthorityEnds(a: string, tail: string)
    requires UserText(a)
    requires tail == "" || EndsAuthority(tail[0])
    ensures AuthorityOf(a + tail) == a
  {
    if a == "" {
      assert a + tail == tail;
    } else {
      assert (a + tail)[1..] == a[1..] + tail && a == [a[0]] + a[1..];
      AuthorityEnds(a[1..], tail);
    }
  }

  lemma {:induction false} UserinfoEnds(user: string, h: string)
    requires '@' !in h
    ensures AfterUserinfo(user + "@" + h) == h && AfterUserinfo(h) == h
  {
    var s := user + "@" + h;
    if user == "" {
      assert s[1..] == h;
    } else {
      assert s[1..] == user[1..] + "@" + h;
      UserinfoEnds(user[1..], h);
    }
  }

  lemma {:induction false} NoColons(s: string)
    requires ':' !in s
    ensures Colons(s) == 0
  {
    if s != "" { NoColons(s[1..]); }
  }

  lemma {:induction false} ColonsConcat(a: string, b: string)
    ensures Colons(a + b) == Colons(a) + Colons(b)
  {
    if a == "" {
      assert a + b == b;
    } else {
      assert (a + b)[1..] == a[1..] + b;
      ColonsConcat(a[1..], b);
    }
  }

  lemma StripPortOfName(name: string, port: string)
    requires Plain(name) && Plain(port) && name != ""
    ensures StripPort(name) == name && StripPort(name + ":" + port) == name
  {
    var s := name + ":" + port;
    assert PlainChar(name[0]) && s[0] == name[0];
    NoColons(name);
    NoColons(port);
    ColonsConcat(name, ":" + port);
    assert (":" + port)[1..] == port && s == name + (":" + port);
    assert Colons(s) == 1;
    IndexOfFirst(name, ':', port);
    assert s == name + [':'] + port && s[|name|] == ':';
  }

  lemma StripPortOfLiteral(text: string, rest: string)
    requires ']' !in text
    ensures StripPort("[" + text + "]" + rest) == text
  {
    var s := "[" + text + "]" + rest;
    var a := "[" + text;
    assert s == a + [']'] + rest && s[0] == '[' && s[|a|] == ']';
    IndexOfFirst(a, ']', rest);
    assert s[1..|a|] == text;
  }

  lemma StripPortOfHostPort(u: Url)
    requires PartsOk(u)
    ensures StripPort(HostPort(u)) == u.host.text
  {
    hide StripPort;
    var t := u.host.text;
    var rest := if u.port.Some? then ":" + u.port.value else "";
    if u.host.Name? {
      StripPortOfName(t, GetOr(u.port, ""));
      assert u.port.Some? ==> HostPort(u) == t + ":" + u.port.value;
      assert u.port.None? ==> HostPort(u) == t;
    } else {
      assert ']' !in t;
      StripPortOfLiteral(t, rest);
    }
  }

  lemma SchemeMark(s: string, i: nat)
    ensures At(s, "://", i) ==> s[i] == ':' && s[i + 1] == '/'
  {
    if At(s, "://", i) {
      var w := s[i..i + 3];
      assert s[i] == w[0] && s[i + 1] == w[1];
    }
  }

  /** No mark of a scheme begins in `s`, not even with what is put right after it. */
  ghost predicate NoMarkBefore(s: string) { Find(s + "://", "://") == Some(|s|) }

  lemma NoColonNoMark(s: string)
    requires ':' !in s
    ensures NoMarkBefore(s)
  {
    var t := s + "://";
    assert At(t, "://", |s|);
    forall i: nat | i < |s|
      ensures !At(t, "://", i)
    {
      assert t[i] == s[i];
      SchemeMark(t, i);
    }
  }

  lemma SchemeFound(scheme: string, rest: string)
    requires NoMarkBefore(scheme)
    ensures Find(scheme + "://" + rest, "://") == Some(|scheme|)
  {
    hide Find;
    var t := scheme + "://";
    var s := t + rest;
    assert At(s, "://", |scheme|);
    forall i: nat | i < |scheme|
      ensures !At(s, "://", i)
    {
      assert !At(t, "://", i);
      assert s[i..i + 3] == t[i..i + 3] && i + |"://"| == i + 3 <= |t|;
    }
  }

  lemma SchemeHasNoColon(s: string)
    requires SchemeText(s)
    ensures ':' !in s && !IsWhitespace(s[0])
  {
  }

  lemma HostPortChars(u: Url)
    requires PartsOk(u)
    ensures '@' !in HostPort(u) && UserText(HostPort(u)) && UserText(Authority(u))
    ensures HostPort(u) != "" && !IsWhitespace(HostPort(u)[|HostPort(u)| - 1])
  {
    var host := if u.host.Name? then u.host.text else "[" + u.host.text + "]";
    var port := if u.port.Some? then ":" + u.port.value else "";
    assert HostPort(u) == host + port;
    assert HostChars(host) && HostChars(port);
    HostCharsConcat(host, port);
    assert !IsWhitespace(host[|host| - 1]);
    assert port != "" ==> !IsWhitespace(port[|port| - 1]);
    hide HostPort, Plain, LiteralText, HostChars;
  }

  predicate HostChars(s: string) {
    forall i :: 0 <= i < |s| ==> !EndsAuthority(s[i]) && s[i] != '@'
  }

  lemma HostCharsConcat(a: string, b: string)
    requires HostChars(a) && HostChars(b)
    ensures '@' !in a + b && UserText(a + b) && HostChars(a + b)
  {
  }

  lemma UrlTrimmed(u: Url)
    requires PartsOk(u) && (u.scheme == "" || !IsWhitespace(u.scheme[0]))
    ensures UrlText(u) != "" && Trimmed(UrlText(u))
  {
    HostPortChars(u);
    hide HostPort;
    var t := UrlText(u);
    assert t[0] == if u.scheme == "" then ':' else u.scheme[0];
    assert t[|t| - 1] == if u.tail == "" then HostPort(u)[|HostPort(u)| - 1] else u.tail[|u.tail| - 1];
  }

  // ---- main results ----

  /** The host put into a URL is the one read out of it, also with white space around the URL. */
  lemma HostOfUrl(u: Url, before: string, after: string)
    requires WellFormed(u) && Blank(before) && Blank(after)
    ensures ExtractHost(before + UrlText(u) + after) == Some(u.host.text)
  {
    SchemeHasNoColon(u.scheme);
    NoColonNoMark(u.scheme);
    hide PartsOk, SchemeText, ExtractHost, UrlText, Blank, NoMarkBefore;
    HostAfterFirstMark(u, before, after);
  }

  /** The same for any text in the scheme's place in which no other "://" begins. */
  lemma HostAfterFirstMark(u: Url, before: string, after: string)
    requires PartsOk(u) && NoMarkBefore(u.scheme) && (u.scheme == "" || !IsWhitespace(u.scheme[0]))
    requires Blank(before) && Blank(after)
    ensures ExtractHost(before + UrlText(u) + after) == Some(u.host.text)
  {
    hide *;
    UrlTrimmed(u);
    TrimPadded(before, UrlText(u), after);
    AuthorityRead(u);
    HostRead(before + UrlText(u) + after, UrlText(u), u.host.text);
  }

  lemma HostRead(destination: string, s: string, host: string)
    requires Trim(destination) == s != "" && StripPort(HostPortOf(s)) == host != ""
    ensures ExtractHost(destination) == Some(host)
  {
    hide Trim, StripPort, HostPortOf;
  }

  /** The pieces of the text of a URL, one after another as the reader cuts them off. */
  lemma AuthorityRead(u: Url)
    requires PartsOk(u) && NoMarkBefore(u.scheme)
    ensures StripPort(HostPortOf(UrlText(u))) == u.host.text != ""
  {
    hide *;
    var a := Authority(u);
    PartsTail(u);
    HostPortChars(u);
    StripPortOfHostPort(u);
    UrlPieces(u);
    SchemeFound(u.scheme, a + u.tail);
    HostPortAt(UrlText(u), |u.scheme|);
    AuthorityEnds(a, u.tail);
    UserinfoEnds(GetOr(u.userinfo, ""), HostPort(u));
  }

  lemma PartsTail(u: Url)
    requires PartsOk(u)
    ensures u.host.text != "" && (u.tail == "" || EndsAuthority(u.tail[0]))
  {
  }

  lemma UrlPieces(u: Url)
    ensures UrlText(u) == u.scheme + "://" + (Authority(u) + u.tail)
    ensures UrlText(u) == u.scheme + ("://" + (Authority(u) + u.tail))
    ensures UrlText(u)[|u.scheme| + 3..] == Authority(u) + u.tail
    ensures Authority(u) == HostPort(u) || Authority(u) == GetOr(u.userinfo, "") + "@" + HostPort(u)
  {
    hide HostPort;
  }

  lemma HostPortAt(s: string, i: nat)
    requires Find(s, "://") == Some(i) && i + 3 <= |s|
    ensures HostPortOf(s) == AfterUserinfo(AuthorityOf(s[i + 3..]))
  {
    hide Find, AfterUserinfo, AuthorityOf;
  }

  /** The text is a scheme, "://" and a rest, as RFC 3986 has it. */
  ghost predicate HasScheme(s: string) {
    exists scheme, rest :: SchemeText(scheme) && s == scheme + "://" + rest
  }

  /** The reader takes any text with a "://" for a URL; it is one if and only if what stands before the first "://" is a scheme. */
  lemma FirstMarkIsSchemeIff(s: string)
    ensures HasScheme(s) <==> Find(s, "://").Some? && SchemeText(s[..Find(s, "://").value])
  {
    hide Find;
    if scheme, rest :| SchemeText(scheme) && s == scheme + "://" + rest {
      SchemeHasNoColon(scheme);
      NoColonNoMark(scheme);
      SchemeFound(scheme, rest);
      assert s[..|scheme|] == scheme;
    }
    var r := Find(s, "://");
    if r.Some? {
      var i := r.value;
      assert s == s[..i] + s[i..i + 3] + s[i + 3..];
    }
  }

  /** So in a bare name with a URL in its path or query the host read is that of the inner URL. */
  lemma EmbeddedUrlIsRead(name: string, path: string, u: Url)
    requires name != "" && Plain(name) && WellFormed(u) && path != "" && path[0] == '/' && ':' !in path
    ensures ExtractHost(name + path + UrlText(u)) == Some(u.host.text)
    ensures !HasScheme(name + path + UrlText(u))
  {
    var front := name + path + u.scheme;
    var v := u.(scheme := front);
    assert PartsOk(u) && SchemeText(u.scheme) && PartsOk(v);
    hide *;
    FrontOfQuery(name, path, u.scheme);
    SamePieces(u, v);
    UrlPieces(u);
    UrlPieces(v);
    Regroup(name, path, u.scheme, "://" + (Authority(u) + u.tail));
    HostAfterFirstMark(v, "", "");
    NotAScheme(front, Authority(v) + v.tail);
    NothingIsBlank(UrlText(v));
  }

  lemma Regroup(a: string, b: string, c: string, d: string)
    ensures a + b + c + d == a + b + (c + d)
  {
  }

  lemma SamePieces(u: Url, v: Url)
    requires v == u.(scheme := v.scheme)
    ensures Authority(v) == Authority(u)
  {
  }

  lemma NothingIsBlank(s: string)
    ensures Blank("") && "" + s + "" == s
  {
  }

  lemma FrontOfQuery(name: string, path: string, scheme: string)
    requires name != "" && Plain(name) && SchemeText(scheme) && path != "" && path[0] == '/' && ':' !in path
    ensures var front := name + path + scheme;
            front != "" && NoMarkBefore(front) && !SchemeText(front) && !IsWhitespace(front[0])
  {
    var front := name + path + scheme;
    SchemeHasNoColon(scheme);
    assert forall c :: c in name ==> PlainChar(c);
    assert front[0] == name[0] && name[0] in name && front[|name|] == '/';
    assert ':' !in front;
    hide NoMarkBefore;
    NoColonNoMark(front);
  }

  lemma NotAScheme(front: string, rest: string)
    requires NoMarkBefore(front) && !SchemeText(front)
    ensures !HasScheme(front + "://" + rest)
  {
    var s := front + "://" + rest;
    SchemeFound(front, rest);
    assert s[..|front|] == front;
    hide HasScheme, SchemeText, Find;
    FirstMarkIsSchemeIff(s);
  }

  /** A bare name with or without a port. */
  lemma HostOfBareName(name: string, port: string)
    requires Plain(name) && Plain(port) && name != ""
    ensures ExtractHost(name) == Some(name) && ExtractHost(name + ":" + port) == Some(name)
  {
    StripPortOfName(name, port);
    var s := name + ":" + port;
    assert PlainChar(name[0]) && PlainChar(name[|name| - 1]);
    assert port != "" ==> PlainChar(port[|port| - 1]);
    assert s[|s| - 1] == if port == "" then ':' else port[|port| - 1];
    assert forall i :: 0 <= i < |s| ==> s[i] == ':' || PlainChar(s[i]);
    hide PlainChar, Plain, ExtractHost, StripPort;
    BareHost(name);
    BareHost(s);
  }

  lemma BareHost(s: string)
    requires s != "" && Trimmed(s) && '/' !in s && StripPort(s) != ""
    ensures ExtractHost(s) == Some(StripPort(s))
  {
    TrimPadded("", s, "");
    assert "" + s + "" == s;
    NoSlashNoScheme(s);
    hide StripPort, Trim, Find;
  }

  lemma NoSlashNoScheme(s: string)
    requires '/' !in s
    ensures Find(s, "://") == None
  {
    forall i: nat
      ensures !At(s, "://", i)
    {
      SchemeMark(s, i);
    }
  }

  /**
   Nothing but the authority of the URL decides: the host read from a URL lies between the
   scheme and the first path, query or fragment character, after the last at sign of that stretch.
   */
  lemma HostIsInAuthority(destination: string)
    ensures var s, host := Trim(destination), ExtractHost(destination);
            host.Some? && Find(s, "://").Some? ==> InAuthority(s[Find(s, "://").value + 3..], host.value)
  {
    hide InAuthority, StripPort, AfterUserinfo, AuthorityOf, Find, Trim, UserText, EndsAuthority;
    var s := Trim(destination);
    if ExtractHost(destination).Some? && Find(s, "://").Some? {
      AuthoritySpan(s[Find(s, "://").value + 3..]);
    }
  }

  ghost predicate InAuthority(after: string, host: string) {
    exists from, to, end :: Spans(after, host, from, to, end)
  }

  /** The host stands at `from..to`, the authority ends at `end`, and no at sign stands from the host's start to there. */
  predicate Spans(after: string, host: string, from: int, to: int, end: int) {
    && 0 <= from <= to <= end <= |after| && host == after[from..to]
    && UserText(after[..end]) && (end == |after| || EndsAuthority(after[end]))
    && '@' !in after[from..end]
  }

  lemma AuthoritySpan(after: string)
    ensures InAuthority(after, StripPort(AfterUserinfo(AuthorityOf(after))))
  {
    var a := AuthorityOf(after);
    var h := AfterUserinfo(a);
    var lo, hi := StripPortSpan(h);
    var from := |a| - |h|;
    hide StripPort, AfterUserinfo, AuthorityOf;
    SliceOfPrefix(after, a, from, lo, hi);
    assert Spans(after, h[lo..hi], from + lo, from + hi, |a|);
  }

  lemma SliceOfPrefix(s: string, a: string, from: nat, lo: nat, hi: nat)
    requires a <= s && UserText(a) && lo <= hi && from + hi <= |a|
    requires '@' !in a[from..]
    ensures a[from..][lo..hi] == s[from + lo..from + hi] && UserText(s[..|a|]) && '@' !in s[from + lo..|a|]
  {
    assert s[..|a|] == a;
    assert s[from + lo..|a|] == a[from..][lo..];
    assert forall i :: 0 <= i < hi - lo ==> a[from..][lo..hi][i] == a[from..][lo + i];
  }

  lemma StripPortSpan(s: string) returns (lo: nat, hi: nat)
    ensures lo <= hi <= |s| && StripPort(s) == s[lo..hi]
  {
    lo, hi := 0, |s|;
    if s != "" && s[0] == '[' && ']' in s {
      lo, hi := 1, IndexOf(s, ']');
    } else if ':' in s && Colons(s) <= 1 {
      hi := IndexOf(s, ':');
    }
  }

  predicate IsLabel(l: string) { l != "" && '.' !in l }

  /** A wildcard entry accepts exactly the hosts with one non-empty label more than its suffix. */
  lemma WildcardIsOneLabel(rest: string, host: string)
    ensures EntryMatches("*." + rest, host)
            <==> Split(host, '.')[0] != "" && Split(host, '.')[1..] == Split(rest, '.')
    ensures EntryMatches("*." + rest, host)
            <==> exists l :: IsLabel(l) && host == l + "." + rest
  {
    WildcardSuffix(rest, host);
    hide EntryMatches, Split;
    if l :| IsLabel(l) && host == l + "." + rest {
      SplitCons(l, '.', rest);
      assert ([l] + Split(rest, '.'))[1..] == Split(rest, '.');
    }
    if Split(host, '.')[0] != "" && Split(host, '.')[1..] == Split(rest, '.') {
      JoinSplit(host);
      JoinSplit(rest);
      SplitHead(host);
      assert host == Split(host, '.')[0] + "." + rest;
    }
  }

  lemma WildcardSuffix(rest: string, host: string)
    ensures EntryMatches("*." + rest, host) <==> exists l :: IsLabel(l) && host == l + "." + rest
  {
    var entry := "*." + rest;
    assert entry[..2] == "*." && entry[1..] == "." + rest;
    if EntryMatches(entry, host) {
      var front := host[..|host| - |rest| - 1];
      assert IsLabel(front) && host == front + "." + rest;
    }
    if l :| IsLabel(l) && host == l + "." + rest {
      assert host[..|host| - |rest| - 1] == l && host[|host| - |rest| - 1..] == "." + rest;
    }
  }

  function Join(parts: seq<string>): string
    requires parts != []
  {
    if |parts| == 1 then parts[0] else parts[0] + "." + Join(parts[1..])
  }

  lemma JoinMore(p: string, rest: seq<string>)
    requires rest != []
    ensures Join([p] + rest) == p + ("." + Join(rest))
  {
    assert ([p] + rest)[1..] == rest;
  }

  lemma JoinFirst(c: char, parts: seq<string>)
    requires parts != []
    ensures Join([[c] + parts[0]] + parts[1..]) == [c] + Join(parts)
  {
    hide Join;
    var p, rest := parts[0], parts[1..];
    assert parts == [p] + rest;
    if rest == [] {
      assert [[c] + p] + rest == [[c] + p] && parts == [p];
      JoinOne([c] + p);
      JoinOne(p);
    } else {
      JoinMore([c] + p, rest);
      JoinMore(p, rest);
    }
  }

  lemma JoinEmpty(parts: seq<string>)
    requires parts != []
    ensures Join([""] + parts) == "." + Join(parts)
  {
    assert ([""] + parts)[1..] == parts;
  }

  lemma {:induction false} JoinSplit(s: string)
    ensures Join(Split(s, '.')) == s
  {
    hide Join;
    if s == "" {
      JoinOne("");
    } else {
      JoinSplit(s[1..]);
      JoinFirst(s[0], Split(s[1..], '.'));
      JoinEmpty(Split(s[1..], '.'));
      assert s == [s[0]] + s[1..];
    }
  }

  lemma JoinOne(part: string)
    ensures Join([part]) == part
  {
  }

  lemma {:induction false} SplitHead(s: string)
    ensures '.' !in Split(s, '.')[0]
  {
    if s != "" { SplitHead(s[1..]); }
  }

  /** From the assembled URL to the verdict: a one-entry wildcard list looks at the host's labels and at nothing else. */
  lemma UrlUnderWildcard(u: Url, rest: string, entry: string, lower: string -> string, before: string, after: string)
    requires WellFormed(u) && Blank(before) && Blank(after) && lower(entry) == "*." + rest
    ensures Permitted([entry], lower, before + UrlText(u) + after)
            <==> Split(lower(u.host.text), '.')[0] != "" && Split(lower(u.host.text), '.')[1..] == Split(rest, '.')
  {
    HostOfUrl(u, before, after);
    WildcardIsOneLabel(rest, lower(u.host.text));
    hide ExtractHost, UrlText, EntryMatches, WellFormed;
    var d := before + UrlText(u) + after;
    assert Permitted([entry], lower, d) <==> EntryMatches(lower([entry][0]), lower(u.host.text));
  }

  /** And under an entry without wildcard if and only if the host is that entry, up to case. */
  lemma UrlUnderName(u: Url, entry: string, lower: string -> string, before: string, after: string)
    requires WellFormed(u) && Blank(before) && Blank(after) && !("*." <= lower(entry))
    ensures Permitted([entry], lower, before + UrlText(u) + after) <==> lower(u.host.text) == lower(entry)
  {
    HostOfUrl(u, before, after);
    hide ExtractHost, UrlText, WellFormed, Blank;
    var d := before + UrlText(u) + after;
    assert Permitted([entry], lower, d) <==> EntryMatches(lower([entry][0]), lower(u.host.text));
  }

  /** A list lets through what one of its entries alone lets through; so the empty list nothing. */
  lemma ListIsItsEntries(allowlist: seq<string>, lower: string -> string, destination: string)
    ensures Permitted(allowlist, lower, destination)
            <==> exists k :: 0 <= k < |allowlist| && Permitted([allowlist[k]], lower, destination)
  {
    hide ExtractHost, EntryMatches;
    var host := ExtractHost(destination);
    if host.Some? {
      forall k | 0 <= k < |allowlist|
        ensures Permitted([allowlist[k]], lower, destination) <==> EntryMatches(lower(allowlist[k]), lower(host.value))
      {
        assert [allowlist[k]][0] == allowlist[k];
      }
    }
  }

  /** Without a host nothing is let through: a blank destination, and a URL with an empty authority. */
  lemma NoHostNoPermission(
    allowlist: seq<string>, lower: string -> string, blank: string, scheme: string, tail: string)
    requires Blank(blank) && SchemeText(scheme)
    requires tail == "" || (EndsAuthority(tail[0]) && !IsWhitespace(tail[|tail| - 1]))
    ensures !Permitted(allowlist, lower, blank) && !Permitted(allowlist, lower, scheme + "://" + tail)
  {
    TrimBlank(blank);
    SchemeHasNoColon(scheme);
    NoColonNoMark(scheme);
    SchemeFound(scheme, tail);
    var s := scheme + "://" + tail;
    assert s[0] == scheme[0] && s[|s| - 1] == if tail == "" then '/' else tail[|tail| - 1];
    TrimPadded("", s, "");
    assert "" + s + "" == s && s[|scheme| + 3..] == tail;
    HostPortAt(s, |scheme|);
    EmptyAuthority(tail);
    hide Find, Trim, HostPortOf, SchemeText;
  }

  lemma EmptyAuthority(tail: string)
    requires tail == "" || EndsAuthority(tail[0])
    ensures StripPort(AfterUserinfo(AuthorityOf(tail))) == ""
  {
  }

  lemma {:induction false} TrimBlank(s: string)
    requires Blank(s)
    ensures Leading(s) == |s| && Trim(s) == ""
  {
    if s != "" { TrimBlank(s[1..]); }
  }

  /** A bare address with several colons is its own host; in brackets, with or without a port, it is what the brackets hold. */
  lemma HostOfBareAddress(address: string, rest: string)
    requires address != "" && LiteralText(address) && Colons(address) > 1
    requires rest == "" || (rest[0] == ':' && Plain(rest[1..]))
    ensures ExtractHost(address) == Some(address)
    ensures ExtractHost("[" + address + "]" + rest) == Some(address)
  {
    hide *;
    LiteralChars(address);
    BareAddressKept(address);
    BareHost(address);
    StripPortOfLiteral(address, rest);
    Bracketed(address, rest);
    BareHost("[" + address + "]" + rest);
  }

  lemma BareAddressKept(address: string)
    requires address != "" && Colons(address) > 1 && address[0] != '['
    ensures StripPort(address) == address
  {
    if ':' !in address { NoColons(address); }
  }

  lemma Bracketed(address: string, rest: string)
    requires '/' !in address && (rest == "" || (rest[0] == ':' && Plain(rest[1..])))
    ensures var s := "[" + address + "]" + rest; s != "" && Trimmed(s) && '/' !in s
  {
    var s := "[" + address + "]" + rest;
    if rest != "" { RestChars(rest); }
    hide Plain;
    assert s[0] == '[' && s[|s| - 1] == if rest == "" then ']' else rest[|rest| - 1];
  }

  lemma LiteralChars(address: string)
    requires LiteralText(address) && address != ""
    ensures Trimmed(address) && '/' !in address && ']' !in address && address[0] != '['
  {
  }

  lemma RestChars(rest: string)
    requires rest != "" && rest[0] == ':' && Plain(rest[1..])
    ensures '/' !in rest && !IsWhitespace(rest[|rest| - 1])
  {
    assert rest == [':'] + rest[1..];
    if |rest| > 1 { assert PlainChar(rest[1..][|rest| - 2]); }
  }
}
