/**
 The iCalendar reader of caldav.rs: unfolding, property extraction and unescaping; and a
 printer of events (sections 3.1 and 3.3.11 of RFC 5545) of which it is a left inverse.

 Rust's `char::to_uppercase` is the parameter `upper`.
 */
module Ical {
  import opened Text

  datatype CalendarEvent = CalendarEvent(
    uid: string, summary: string, dtstart: string, dtend: string, description: Option<string>, location: Option<string>)

  type Upper = char -> string

  // ---- substrings ----

  /** Rust's `str::split` at a substring. */
  function SplitBy(s: string, pat: string): seq<string>
    requires pat != ""
  {
    match Find(s, pat)
    case None => [s]
    case Some(i) => [s[..i]] + SplitBy(s[i + |pat|..], pat)
  }

  /** Rust's `str::replace`. */
  function Replace(s: string, pat: string, sub: string): string
    requires pat != ""
  {
    if s == "" then ""
    else if pat <= s then sub + Replace(s[|pat|..], pat, sub)
    else [s[0]] + Replace(s[1..], pat, sub)
  }

  // ---- the reader ----

  /** `unfold_ical`. */
  function Unfold(s: string): string {
    Replace(Replace(Replace(s, "\r\n", "\n"), "\n ", ""), "\n\t", "")
  }

  function UpperCase(upper: Upper, s: string): string {
    if s == "" then "" else upper(s[0]) + UpperCase(upper, s[1..])
  }

  function Unescaped(c: char): string {
    if c == 'n' || c == 'N' then "\n" else if c == ',' || c == ';' || c == '\\' then [c] else ['\\', c]
  }

  function Unescape(s: string): string {
    if s == "" then ""
    else if s[0] != '\\' then [s[0]] + Unescape(s[1..])
    else if |s| == 1 then "\\"
    else Unescaped(s[1]) + Unescape(s[2..])
  }

  /** One step of the pass, at position `i`. */
  lemma UnescapeAt(s: string, i: nat)
    requires i < |s|
    ensures Unescape(s[i..])
            == if s[i] != '\\' then [s[i]] + Unescape(s[i + 1..])
               else if i + 1 == |s| then "\\" + Unescape(s[i + 1..])
               else Unescaped(s[i + 1]) + Unescape(s[i + 2..])
  {
    hide Unescaped;
    assert s[i..][1..] == s[i + 1..];
    if i + 1 < |s| { assert s[i..][2..] == s[i + 2..]; }
  }

  /** `unescape_ical_text`: one pass over the characters with a look at the one after a backslash. */
  method UnescapeText(s: string) returns (out: string)
    ensures out == Unescape(s)
  {
    hide Unescape, Unescaped;
    out := "";
    var i := 0;
    while i < |s|
      invariant 0 <= i <= |s| && out + Unescape(s[i..]) == Unescape(s)
    {
      UnescapeAt(s, i);
      var ch := s[i];
      i := i + 1;
      if ch != '\\' {
        out := out + [ch];
      } else if i < |s| {
        out := out + Unescaped(s[i]);
        i := i + 1;
      } else {
        out := out + "\\";
      }
    }
    UnescapeNothing(s[|s|..]);
  }

  lemma UnescapeNothing(s: string)
    requires s == ""
    ensures Unescape(s) == ""
  {
  }

  predicate Matches(upper: Upper, line: string, key: string) {
    var u := UpperCase(upper, line);
    UpperCase(upper, key) + ":" <= u || UpperCase(upper, key) + ";" <= u
  }

  /** The text after the first colon. */
  function RawValue(line: string): string {
    var i := IndexOf(line, ':');
    if i == |line| then "" else line[i + 1..]
  }

  function PropertyOf(upper: Upper, lines: seq<string>, key: string): Option<string> {
    if lines == [] then None
    else if Matches(upper, lines[0], key) then NonEmpty(Unescape(Trim(RawValue(lines[0]))))
    else PropertyOf(upper, lines[1..], key)
  }

  function NonEmpty(s: string): Option<string> { if s == "" then None else Some(s) }

  /** `extract_property`: the first line with the key decides. */
  method ExtractProperty(upper: Upper, block: string, key: string) returns (value: Option<string>)
    ensures value == PropertyOf(upper, Lines(block), key)
  {
    hide Lines, Matches, Unescape, RawValue;
    var lines := Lines(block);
    for k := 0 to |lines|
      invariant PropertyOf(upper, lines[k..], key) == PropertyOf(upper, lines, key)
    {
      assert lines[k..][0] == lines[k] && lines[k..][1..] == lines[k + 1..];
      if Matches(upper, lines[k], key) {
        var text := UnescapeText(Trim(RawValue(lines[k])));
        return if text == "" then None else Some(text);
      }
    }
    value := None;
  }

  const BEGIN := "BEGIN:VEVENT"
  const END := "END:VEVENT"

  function EventIn(upper: Upper, lines: seq<string>): CalendarEvent {
    CalendarEvent(
      GetOr(PropertyOf(upper, lines, "UID"), ""), GetOr(PropertyOf(upper, lines, "SUMMARY"), ""),
      GetOr(PropertyOf(upper, lines, "DTSTART"), ""), GetOr(PropertyOf(upper, lines, "DTEND"), ""),
      PropertyOf(upper, lines, "DESCRIPTION"), PropertyOf(upper, lines, "LOCATION"))
  }

  predicate Unnamed(e: CalendarEvent) { e.uid == "" && e.summary == "" && e.dtstart == "" }

  /** The event of a block, if the block is closed and not blank. */
  function BlockEvents(upper: Upper, block: string): seq<CalendarEvent> {
    match Find(block, END)
    case None => []
    case Some(i) =>
      var e := EventIn(upper, Lines(block[..i]));
      if Unnamed(e) then [] else [e]
  }

  function AllEvents(upper: Upper, blocks: seq<string>): seq<CalendarEvent> {
    if blocks == [] then [] else BlockEvents(upper, blocks[0]) + AllEvents(upper, blocks[1..])
  }

  function Parsed(upper: Upper, body: string): seq<CalendarEvent> { AllEvents(upper, SplitBy(Unfold(body), BEGIN)) }

  method ReadEvent(upper: Upper, block: string) returns (e: CalendarEvent)
    ensures e == EventIn(upper, Lines(block))
  {
    hide PropertyOf, Lines;
    var uid := ExtractProperty(upper, block, "UID");
    var summary := ExtractProperty(upper, block, "SUMMARY");
    var dtstart := ExtractProperty(upper, block, "DTSTART");
    var dtend := ExtractProperty(upper, block, "DTEND");
    var description := ExtractProperty(upper, block, "DESCRIPTION");
    var location := ExtractProperty(upper, block, "LOCATION");
    e := CalendarEvent(GetOr(uid, ""), GetOr(summary, ""), GetOr(dtstart, ""), GetOr(dtend, ""), description, location);
  }

  /** `parse_ical`: split at the begin markers, keep closed blocks that are not blank. */
  method ParseIcal(upper: Upper, body: string) returns (events: seq<CalendarEvent>)
    ensures events == Parsed(upper, body)
  {
    hide Find, SplitBy, Unfold, EventIn, Lines, AllEvents;
    events := [];
    var blocks := SplitBy(Unfold(body), BEGIN);
    for k := 0 to |blocks|
      invariant events + AllEvents(upper, blocks[k..]) == AllEvents(upper, blocks)
    {
      ghost var before, rest := events, AllEvents(upper, blocks[k + 1..]);
      NextBlock(upper, blocks, k);
      assert before + (BlockEvents(upper, blocks[k]) + rest) == before + BlockEvents(upper, blocks[k]) + rest;
      var end := Find(blocks[k], END);
      if end.Some? {
        var e := ReadEvent(upper, blocks[k][..end.value]);
        if !(e.uid == "" && e.summary == "" && e.dtstart == "") {
          events := events + [e];
        }
      }
      assert events == before + BlockEvents(upper, blocks[k]);
    }
    NoBlocks(upper, blocks[|blocks|..]);
  }

  lemma NextBlock(upper: Upper, blocks: seq<string>, k: nat)
    requires k < |blocks|
    ensures AllEvents(upper, blocks[k..]) == BlockEvents(upper, blocks[k]) + AllEvents(upper, blocks[k + 1..])
  {
    hide BlockEvents;
    assert blocks[k..][0] == blocks[k] && blocks[k..][1..] == blocks[k + 1..];
  }

  lemma NoBlocks(upper: Upper, blocks: seq<string>)
    requires blocks == []
    ensures AllEvents(upper, blocks) == []
  {
  }

  // ---- the printer ----

  function Escape(s: string): string {
    if s == "" then ""
    else EscapedChar(s[0]) + Escape(s[1..])
  }

  function EscapedChar(c: char): string {
    if c == '\n' then "\\n" else if c == ',' || c == ';' || c == '\\' then ['\\', c] else [c]
  }

  datatype Property = Property(key: string, params: string, value: string)

  function PropertyLine(p: Property): string { p.key + p.params + ":" + Escape(p.value) }

  /** The parameters printed after the keys of an event, such as `;TZID=Europe/Paris`. */
  datatype Params = Params(uid: string, summary: string, dtstart: string, dtend: string, description: string, location: string)

  function Properties(e: CalendarEvent, p: Params): seq<Property> {
    [Property("UID", p.uid, e.uid), Property("SUMMARY", p.summary, e.summary),
     Property("DTSTART", p.dtstart, e.dtstart), Property("DTEND", p.dtend, e.dtend)]
    + Optional("DESCRIPTION", p.description, e.description) + Optional("LOCATION", p.location, e.location)
  }

  function Optional(key: string, params: string, value: Option<string>): seq<Property> {
    if value.None? then [] else [Property(key, params, value.value)]
  }

  function PropertyLines(ps: seq<Property>): seq<string> {
    if ps == [] then [] else [PropertyLine(ps[0])] + PropertyLines(ps[1..])
  }

  function EventLines(e: CalendarEvent, p: Params): seq<string> {
    [BEGIN] + PropertyLines(Properties(e, p)) + [END]
  }

  function BodyLines(events: seq<CalendarEvent>, params: seq<Params>): seq<string>
    requires |events| == |params|
  {
    if events == [] then ["END:VCALENDAR"] else EventLines(events[0], params[0]) + BodyLines(events[1..], params[1..])
  }

  function CalendarLines(events: seq<CalendarEvent>, params: seq<Params>): seq<string>
    requires |events| == |params|
  {
    ["BEGIN:VCALENDAR"] + BodyLines(events, params)
  }

  /** The content lines as text, each ended by a line feed. */
  function LinesText(lines: seq<string>): string {
    if lines == [] then "" else lines[0] + "\n" + LinesText(lines[1..])
  }

  /** What stands before a character: nothing, or a fold with a space or a tab after it. */
  datatype Break = NoBreak | SpaceFold | TabFold

  function BreakText(b: Break, space: string, tab: string): string {
    match b case NoBreak => "" case SpaceFold => space case TabFold => tab
  }

  /** The text with every break written out and every line feed written as `eol`. */
  function Folded(text: string, breaks: seq<Break>, space: string, tab: string, eol: string): string
    requires |breaks| == |text|
  {
    if text == "" then ""
    else BreakText(breaks[0], space, tab) + (Eol(text[0], eol) + Folded(text[1..], breaks[1..], space, tab, eol))
  }

  /** Lines end with CRLF, and a fold is CRLF followed by a space or a tab. */
  function Fold(text: string, breaks: seq<Break>): string
    requires |breaks| == |text|
  {
    Folded(text, breaks, "\r\n ", "\r\n\t", "\r\n")
  }

  // ---- unfolding undoes folding ----

  /** No line starts with a space or a tab. */
  predicate Clean(text: string) {
    forall i :: 0 < i < |text| && text[i - 1] == '\n' ==> text[i] != ' ' && text[i] != '\t'
  }

  /** Before the first character `c` of a line: what the two passes leave alone. */
  predicate KeptAtStart(b: Break, c: char) {
    match b
    case NoBreak => c != ' ' && c != '\t'
    case SpaceFold => c != '\t'
    case TabFold => true
  }

  predicate FoldsKept(text: string, breaks: seq<Break>)
    requires |breaks| == |text|
  {
    forall i :: 0 < i < |text| && text[i - 1] == '\n' ==> KeptAtStart(breaks[i], text[i])
  }

  lemma ReplaceHit(pat: string, sub: string, s: string)
    requires pat != ""
    ensures Replace(pat + s, pat, sub) == sub + Replace(s, pat, sub)
  {
    assert (pat + s)[|pat|..] == s;
  }

  lemma ReplaceMiss(c: char, s: string, pat: string, sub: string)
    requires |pat| == 2 && (c != pat[0] || s == "" || s[0] != pat[1])
    ensures Replace([c] + s, pat, sub) == [c] + Replace(s, pat, sub)
  {
    var t := [c] + s;
    assert t[0] == c && (s != "" ==> t[1] == s[0]) && t[1..] == s;
    assert !(pat <= t);
  }

  lemma {:induction false} NormalizeFolded(text: string, breaks: seq<Break>)
    requires |breaks| == |text|
    ensures var s := Folded(text, breaks, "\r\n ", "\r\n\t", "\r\n");
            && Replace(s, "\r\n", "\n") == Folded(text, breaks, "\n ", "\n\t", "\n")
            && (s == "" || s[0] != '\n')
  {
    if text == "" { return; }
    var c, b := text[0], breaks[0];
    NormalizeFolded(text[1..], breaks[1..]);
    NormalizeChar(c, Folded(text[1..], breaks[1..], "\r\n ", "\r\n\t", "\r\n"));
    NormalizeBreak(b, Eol(c, "\r\n") + Folded(text[1..], breaks[1..], "\r\n ", "\r\n\t", "\r\n"));
  }

  function Eol(c: char, eol: string): string { if c == '\n' then eol else [c] }

  lemma NormalizeChar(c: char, rest: string)
    requires rest == "" || rest[0] != '\n'
    ensures Replace(Eol(c, "\r\n") + rest, "\r\n", "\n") == [c] + Replace(rest, "\r\n", "\n")
  {
    if c == '\n' { ReplaceHit("\r\n", "\n", rest); } else { ReplaceMiss(c, rest, "\r\n", "\n"); }
  }

  lemma NormalizeBreak(b: Break, tail: string)
    ensures Replace(BreakText(b, "\r\n ", "\r\n\t") + tail, "\r\n", "\n")
            == BreakText(b, "\n ", "\n\t") + Replace(tail, "\r\n", "\n")
  {
    if b == NoBreak {
      assert "" + tail == tail && "" + Replace(tail, "\r\n", "\n") == Replace(tail, "\r\n", "\n");
    } else {
      var w := if b == SpaceFold then ' ' else '\t';
      assert BreakText(b, "\r\n ", "\r\n\t") + tail == "\r\n" + ([w] + tail);
      ReplaceHit("\r\n", "\n", [w] + tail);
      ReplaceMiss(w, tail, "\r\n", "\n");
      assert "\n" + ([w] + Replace(tail, "\r\n", "\n")) == BreakText(b, "\n ", "\n\t") + Replace(tail, "\r\n", "\n");
    }
  }

  /** A line feed that the first pass takes for a fold, with the space after it. */
  predicate DropsNext(text: string, breaks: seq<Break>)
    requires |breaks| == |text|
  {
    |text| > 1 && text[0] == '\n' && text[1] == ' ' && breaks[1] == NoBreak
  }

  /** What the first pass makes of a folded text. */
  function Spaceless(text: string, breaks: seq<Break>): string
    requires |breaks| == |text|
  {
    if text == "" then ""
    else
      BreakText(breaks[0], "", "\n\t")
      + if DropsNext(text, breaks) then Spaceless(text[2..], breaks[2..]) else [text[0]] + Spaceless(text[1..], breaks[1..])
  }

  lemma {:induction false} DropSpaceFolds(text: string, breaks: seq<Break>)
    requires |breaks| == |text|
    ensures Replace(Folded(text, breaks, "\n ", "\n\t", "\n"), "\n ", "") == Spaceless(text, breaks)
  {
    if text == "" { return; }
    hide Replace, Folded, Spaceless;
    FoldedStep(text, breaks);
    SpacelessStep(text, breaks);
    DropSpaceBreak(breaks[0], [text[0]] + Folded(text[1..], breaks[1..], "\n ", "\n\t", "\n"));
    if DropsNext(text, breaks) {
      DropSpaceFolds(text[2..], breaks[2..]);
      SpaceDropped(text, breaks);
    } else {
      DropSpaceFolds(text[1..], breaks[1..]);
      CharKept(text, breaks);
    }
  }

  lemma SpaceDropped(text: string, breaks: seq<Break>)
    requires |breaks| == |text| && DropsNext(text, breaks)
    ensures Replace([text[0]] + Folded(text[1..], breaks[1..], "\n ", "\n\t", "\n"), "\n ", "")
            == Replace(Folded(text[2..], breaks[2..], "\n ", "\n\t", "\n"), "\n ", "")
  {
    hide Replace, Folded;
    var tail := Folded(text[2..], breaks[2..], "\n ", "\n\t", "\n");
    FoldedStep(text[1..], breaks[1..]);
    assert text[1..][1..] == text[2..] && breaks[1..][1..] == breaks[2..];
    assert ['\n'] + ("" + ([' '] + tail)) == "\n " + tail;
    ReplaceHit("\n ", "", tail);
    assert "" + Replace(tail, "\n ", "") == Replace(tail, "\n ", "");
  }

  lemma CharKept(text: string, breaks: seq<Break>)
    requires |breaks| == |text| > 0 && !DropsNext(text, breaks)
    ensures var rest := Folded(text[1..], breaks[1..], "\n ", "\n\t", "\n");
            Replace([text[0]] + rest, "\n ", "") == [text[0]] + Replace(rest, "\n ", "")
  {
    var rest := Folded(text[1..], breaks[1..], "\n ", "\n\t", "\n");
    hide Replace, Folded;
    if |text| > 1 { FirstOfFolded(text[1..], breaks[1..]); } else { FoldedNothing(text[1..], breaks[1..]); }
    ReplaceMiss(text[0], rest, "\n ", "");
  }

  lemma FoldedNothing(text: string, breaks: seq<Break>)
    requires |breaks| == |text|
    ensures text == "" ==> Folded(text, breaks, "\n ", "\n\t", "\n") == ""
  {
  }

  lemma FoldedStep(text: string, breaks: seq<Break>)
    requires |breaks| == |text| > 0
    ensures Folded(text, breaks, "\n ", "\n\t", "\n")
            == BreakText(breaks[0], "\n ", "\n\t") + ([text[0]] + Folded(text[1..], breaks[1..], "\n ", "\n\t", "\n"))
  {
  }

  lemma SpacelessStep(text: string, breaks: seq<Break>)
    requires |breaks| == |text| > 0
    ensures Spaceless(text, breaks)
            == BreakText(breaks[0], "", "\n\t")
               + if DropsNext(text, breaks) then Spaceless(text[2..], breaks[2..])
                 else [text[0]] + Spaceless(text[1..], breaks[1..])
  {
  }

  lemma FirstOfFolded(text: string, breaks: seq<Break>)
    requires |breaks| == |text| > 0
    ensures var s := Folded(text, breaks, "\n ", "\n\t", "\n");
            s != "" && s[0] == if breaks[0] == NoBreak then text[0] else '\n'
  {
  }

  lemma DropSpaceBreak(b: Break, tail: string)
    ensures Replace(BreakText(b, "\n ", "\n\t") + tail, "\n ", "") == BreakText(b, "", "\n\t") + Replace(tail, "\n ", "")
  {
    var r := Replace(tail, "\n ", "");
    match b
    case NoBreak => assert "" + tail == tail && "" + r == r;
    case SpaceFold => ReplaceHit("\n ", "", tail);
    case TabFold =>
      assert "\n\t" + tail == ['\n'] + (['\t'] + tail) && "\n\t" + r == ['\n'] + (['\t'] + r);
      ReplaceMiss('\t', tail, "\n ", "");
      ReplaceMiss('\n', ['\t'] + tail, "\n ", "");
  }

  function LineFeeds(s: string): nat { if s == "" then 0 else (if s[0] == '\n' then 1 else 0) + LineFeeds(s[1..]) }

  lemma LineFeedsCons(c: char, s: string)
    ensures LineFeeds([c] + s) == (if c == '\n' then 1 else 0) + LineFeeds(s)
  {
    assert ([c] + s)[1..] == s;
  }

  /** The second pass on a line feed and what follows it. */
  lemma TabPass(rest: string)
    ensures var r, all := Replace(rest, "\n\t", ""), Replace("\n" + rest, "\n\t", "");
            && (rest != "" && rest[0] == '\t' ==> LineFeeds(all) == LineFeeds(r))
            && (rest == "" || rest[0] != '\t' ==> all == "\n" + r && LineFeeds(all) == LineFeeds(r) + 1)
  {
    hide LineFeeds;
    var r := Replace(rest, "\n\t", "");
    if rest != "" && rest[0] == '\t' {
      var tail := rest[1..];
      assert "\n" + rest == "\n\t" + tail && rest == ['\t'] + tail;
      ReplaceHit("\n\t", "", tail);
      ReplaceMiss('\t', tail, "\n\t", "");
      hide Replace;
      LineFeedsCons('\t', Replace(tail, "\n\t", ""));
      assert "" + Replace(tail, "\n\t", "") == Replace(tail, "\n\t", "");
    } else {
      ReplaceMiss('\n', rest, "\n\t", "");
      LineFeedsCons('\n', r);
    }
  }

  lemma FirstOfSpaceless(text: string, breaks: seq<Break>)
    requires |breaks| == |text| > 0
    ensures var s := Spaceless(text, breaks);
            && (breaks[0] == TabFold ==> s[0] == '\n')
            && (breaks[0] != TabFold && !DropsNext(text, breaks) ==> s[0] == text[0])
  {
  }

  lemma TabBreak(b: Break, tail: string)
    ensures Replace(BreakText(b, "", "\n\t") + tail, "\n\t", "") == Replace(tail, "\n\t", "")
  {
    if b == TabFold { ReplaceHit("\n\t", "", tail); } else { assert "" + tail == tail; }
  }

  lemma FoldsKeptTail(text: string, breaks: seq<Break>)
    requires |breaks| == |text| > 0
    ensures FoldsKept(text, breaks)
            <==> FoldsKept(text[1..], breaks[1..])
                 && (|text| > 1 && text[0] == '\n' ==> KeptAtStart(breaks[1], text[1]))
  {
    var t, b := text[1..], breaks[1..];
    assert forall i :: 0 <= i < |t| ==> t[i] == text[i + 1] && b[i] == breaks[i + 1];
    if FoldsKept(t, b) && (|text| > 1 && text[0] == '\n' ==> KeptAtStart(breaks[1], text[1])) {
      forall i | 0 < i < |text| && text[i - 1] == '\n' ensures KeptAtStart(breaks[i], text[i]) {
        if i > 1 { assert t[i - 2] == '\n' && KeptAtStart(b[i - 1], t[i - 1]); }
      }
    }
    if FoldsKept(text, breaks) {
      forall i | 0 < i < |t| && t[i - 1] == '\n' ensures KeptAtStart(b[i], t[i]) {
        assert KeptAtStart(breaks[i + 1], text[i + 1]);
      }
    }
  }

  /** The second pass gives the text back, or takes at least one of its line feeds away. */
  lemma {:induction false} DropTabFolds(text: string, breaks: seq<Break>)
    requires |breaks| == |text|
    ensures var r := Replace(Spaceless(text, breaks), "\n\t", "");
            && LineFeeds(r) <= LineFeeds(text)
            && (if FoldsKept(text, breaks) then r == text else LineFeeds(r) < LineFeeds(text))
  {
    if text == "" { return; }
    hide Replace, FoldsKept, LineFeeds;
    var c, t, b := text[0], text[1..], breaks[1..];
    FoldsKeptTail(text, breaks);
    LineFeedsCons(c, t);
    assert [c] + t == text;
    if DropsNext(text, breaks) {
      TabBreak(breaks[0], Spaceless(text[2..], breaks[2..]));
      DropTabFolds(text[2..], breaks[2..]);
      LineFeedsCons(' ', text[2..]);
      assert t == [' '] + text[2..];
    } else {
      var rest := Spaceless(t, b);
      TabBreak(breaks[0], [c] + rest);
      DropTabFolds(t, b);
      if c == '\n' {
        TabPass(rest);
        if t != "" { FirstOfSpaceless(t, b); DropsSpace(t, b); }
      } else {
        ReplaceMiss(c, rest, "\n\t", "");
        LineFeedsCons(c, Replace(rest, "\n\t", ""));
      }
    }
  }

  lemma DropsSpace(text: string, breaks: seq<Break>)
    requires |breaks| == |text| > 0
    ensures DropsNext(text, breaks) ==> !FoldsKept(text, breaks) && text[0] == '\n'
  {
    if DropsNext(text, breaks) { assert !KeptAtStart(breaks[1], text[1]); }
  }

  /**
   Unfolding gives a folded text back if and only if no line starts with a tab, except right
   after a tab fold, or with a space, except right after a fold.
   */
  lemma UnfoldOfFold(text: string, breaks: seq<Break>)
    requires |breaks| == |text|
    ensures Unfold(Fold(text, breaks)) == text <==> FoldsKept(text, breaks)
  {
    hide Replace, Folded, FoldsKept;
    NormalizeFolded(text, breaks);
    DropSpaceFolds(text, breaks);
    DropTabFolds(text, breaks);
  }

  // ---- two passes and one ----

  /** Unfolding in one pass: a line feed goes with the space or tab after it. */
  function OnePass(s: string): string {
    if s == "" then ""
    else if "\n " <= s || "\n\t" <= s then OnePass(s[2..])
    else [s[0]] + OnePass(s[1..])
  }

  function TwoPasses(s: string): string { Replace(Replace(s, "\n ", ""), "\n\t", "") }

  /** After any number of folds with a space stands a tab. */
  predicate TabAfterFolds(s: string) {
    if "\n " <= s then TabAfterFolds(s[2..]) else s != "" && s[0] == '\t'
  }

  /** A line feed, at least one fold with a space, and a tab: the first pass brings the line feed and the tab together. */
  predicate MakesTabFold(s: string) { s != "" && s[0] == '\n' && "\n " <= s[1..] && TabAfterFolds(s[1..]) }

  ghost predicate MakesFoldIn(s: string) { exists i :: 0 <= i < |s| && MakesTabFold(s[i..]) }

  lemma MakesFoldInTail(s: string)
    requires s != ""
    ensures MakesFoldIn(s) <==> MakesTabFold(s) || MakesFoldIn(s[1..])
  {
    hide MakesTabFold;
    assert s[0..] == s;
    if i :| 0 <= i < |s| && MakesTabFold(s[i..]) {
      if i > 0 { assert s[1..][i - 1..] == s[i..]; }
    }
    if i :| 0 <= i < |s[1..]| && MakesTabFold(s[1..][i..]) {
      assert s[1..][i..] == s[i + 1..];
    }
  }

  lemma {:induction false} FirstAfterSpacePass(s: string)
    ensures var p := Replace(s, "\n ", ""); p != "" && p[0] == '\t' <==> TabAfterFolds(s)
  {
    if "\n " <= s {
      FirstAfterSpacePass(s[2..]);
      assert "" + Replace(s[2..], "\n ", "") == Replace(s[2..], "\n ", "");
    }
  }

  /** Two passes agree with one, or take at least one line feed more. */
  lemma {:induction false} PassesCompared(s: string)
    ensures LineFeeds(TwoPasses(s)) <= LineFeeds(OnePass(s))
    ensures if MakesFoldIn(s) then LineFeeds(TwoPasses(s)) < LineFeeds(OnePass(s)) else TwoPasses(s) == OnePass(s)
  {
    if s == "" { return; }
    MakesFoldInTail(s);
    if "\n " <= s || "\n\t" <= s {
      FoldGoes(s);
      NoFoldMadeByFold(s);
      PassesCompared(s[2..]);
    } else {
      CharStays(s);
      PassesCompared(s[1..]);
      LineFeedsCons(s[0], OnePass(s[1..]));
      LineFeedsCons(s[0], TwoPasses(s[1..]));
      hide TwoPasses, LineFeeds, MakesFoldIn, MakesTabFold;
    }
  }

  lemma NoFoldMadeByFold(s: string)
    requires "\n " <= s || "\n\t" <= s
    ensures !MakesTabFold(s) && (MakesFoldIn(s) <==> MakesFoldIn(s[2..]))
  {
    assert s[0] == '\n' && (s[1] == ' ' || s[1] == '\t');
    MakesFoldInTail(s);
    MakesFoldInTail(s[1..]);
    assert s[1..][1..] == s[2..] && s[1..][0] == s[1];
  }

  lemma FoldGoes(s: string)
    requires "\n " <= s || "\n\t" <= s
    ensures TwoPasses(s) == TwoPasses(s[2..]) && OnePass(s) == OnePass(s[2..])
  {
    var t := s[2..];
    var p := Replace(t, "\n ", "");
    if "\n " <= s {
      assert s == "\n " + t;
      ReplaceHit("\n ", "", t);
      assert "" + p == p;
    } else {
      assert s == ['\n'] + (['\t'] + t);
      ReplaceMiss('\t', t, "\n ", "");
      ReplaceMiss('\n', ['\t'] + t, "\n ", "");
      assert ['\n'] + (['\t'] + p) == "\n\t" + p;
      ReplaceHit("\n\t", "", p);
    }
  }

  lemma CharStays(s: string)
    requires s != "" && !("\n " <= s) && !("\n\t" <= s)
    ensures OnePass(s) == [s[0]] + OnePass(s[1..])
    ensures if MakesTabFold(s) then LineFeeds(TwoPasses(s)) == LineFeeds(TwoPasses(s[1..]))
            else TwoPasses(s) == [s[0]] + TwoPasses(s[1..])
    ensures MakesTabFold(s) ==> s[0] == '\n'
  {
    var c, t := s[0], s[1..];
    assert s == [c] + t;
    assert c == '\n' && t != "" ==> t[0] != ' ' && t[0] != '\t' by {
      assert t != "" ==> s[1] == t[0] && s[..2] == [c, t[0]];
    }
    ReplaceMiss(c, t, "\n ", "");
    var p := Replace(t, "\n ", "");
    FirstAfterSpacePass(t);
    hide Replace, TabAfterFolds;
    if c == '\n' {
      TabPass(p);
      TabStart(t);
    } else {
      ReplaceMiss(c, p, "\n\t", "");
    }
  }

  lemma TabStart(t: string)
    ensures TabAfterFolds(t) ==> "\n " <= t || t[0] == '\t'
  {
  }

  /** The two passes of the code unfold like one pass exactly when no fold is made by the first. */
  lemma TwoPassesAreOneIff(body: string)
    ensures var s := Replace(body, "\r\n", "\n");
            Unfold(body) == OnePass(s) <==> !MakesFoldIn(s)
  {
    PassesCompared(Replace(body, "\r\n", "\n"));
  }

  lemma FoldThenTab(rest: string)
    ensures TabAfterFolds("\n \t" + rest) && "\n " <= "\n \t" + rest
  {
    var s := "\n \t" + rest;
    assert s[..2] == "\n " && s[2..] == "\t" + rest && s[2..][0] == '\t';
    assert !("\n " <= s[2..]);
  }

  /** They differ: a line that starts with a fold and a tab loses both, and its line feed. */
  lemma TwoPassesCanDiffer()
    ensures MakesFoldIn("A\n\n \tB") && TwoPasses("A\n\n \tB") != OnePass("A\n\n \tB")
  {
    var s := "A\n\n \tB";
    assert s[1..] == "\n\n \tB" && s[1..][1..] == "\n \tB" && "\n \tB"[2..] == "\tB";
    FoldThenTab("B");
    assert "\n \t" + "B" == "\n \tB";
    assert MakesTabFold(s[1..]);
    PassesCompared(s);
  }

  // ---- values ----

  lemma UnescapeOfChar(c: char, rest: string)
    ensures Unescape(EscapedChar(c) + rest) == [c] + Unescape(rest)
  {
    var s := EscapedChar(c) + rest;
    if |EscapedChar(c)| == 2 { assert s[0] == '\\' && s[1] == EscapedChar(c)[1] && s[2..] == rest; }
    else { assert s[0] == c && s[1..] == rest; }
  }

  lemma {:induction false} UnescapeOfEscape(s: string)
    ensures Unescape(Escape(s)) == s
    ensures '\n' !in Escape(s) && (Escape(s) == "" <==> s == "")
  {
    if s != "" {
      UnescapeOfEscape(s[1..]);
      UnescapeOfChar(s[0], Escape(s[1..]));
      hide Unescape;
      assert [s[0]] + s[1..] == s;
    } else {
      assert Escape(s) == "";
    }
  }

  /** What each escape sequence stands for; a backslash before anything else, or at the end, stays. */
  lemma UnescapeSequences(c: char, rest: string)
    ensures Unescape("\\n" + rest) == "\n" + Unescape(rest) && Unescape("\\N" + rest) == "\n" + Unescape(rest)
    ensures Unescape("\\," + rest) == "," + Unescape(rest) && Unescape("\\;" + rest) == ";" + Unescape(rest)
    ensures Unescape("\\\\" + rest) == "\\" + Unescape(rest) && Unescape("\\") == "\\"
    ensures c != 'n' && c != 'N' && c != ',' && c != ';' && c != '\\' ==>
              Unescape(['\\', c] + rest) == ['\\', c] + Unescape(rest)
  {
    hide Unescape;
    UnescapePair('n', rest);
    UnescapePair('N', rest);
    UnescapePair(',', rest);
    UnescapePair(';', rest);
    UnescapePair('\\', rest);
    UnescapePair(c, rest);
    LoneBackslash();
  }

  lemma UnescapePair(c: char, rest: string)
    ensures Unescape(['\\', c] + rest) == Unescaped(c) + Unescape(rest)
  {
    var s := ['\\', c] + rest;
    assert s[0] == '\\' && s[1] == c && s[2..] == rest;
  }

  lemma LoneBackslash()
    ensures Unescape("\\") == "\\"
  {
  }

  predicate IsKey(k: string) { k != "" && forall i :: 0 <= i < |k| ==> 'A' <= k[i] <= 'Z' }

  /** What is asked of the upper-case mapping: capitals and the two delimiters stay. */
  ghost predicate AsciiUpper(upper: Upper) {
    forall c :: 'A' <= c <= 'Z' || c == ':' || c == ';' ==> upper(c) == [c]
  }

  predicate ParamsOk(p: string) { (p == "" || p[0] == ';') && ':' !in p && '\n' !in p }

  /** A property that survives printing: a plain key and parameters, and a value with no white space around it. */
  predicate PropertyOk(p: Property) { IsKey(p.key) && ParamsOk(p.params) && Trimmed(Escape(p.value)) }

  lemma {:induction false} UpperOfKey(upper: Upper, k: string, rest: string)
    requires AsciiUpper(upper) && forall i :: 0 <= i < |k| ==> 'A' <= k[i] <= 'Z'
    ensures UpperCase(upper, k + rest) == k + UpperCase(upper, rest)
  {
    if k == "" {
      assert k + rest == rest;
    } else {
      assert (k + rest)[1..] == k[1..] + rest && k == [k[0]] + k[1..];
      UpperOfKey(upper, k[1..], rest);
    }
  }

  /** Two keys, each followed by a delimiter, can only agree if they are the same key. */
  lemma KeysApart(a: string, d: char, b: string, rest: string)
    requires IsKey(a) && IsKey(b) && rest != "" && (d == ':' || d == ';') && (rest[0] == ':' || rest[0] == ';')
    ensures a + [d] <= b + rest ==> a == b
  {
    if a + [d] <= b + rest {
      if |a| < |b| { PrefixAt(a + [d], b + rest, |a|); }
      else if |a| > |b| { PrefixAt(a + [d], b + rest, |b|); }
      else { assert (a + [d])[..|a|] == a && (b + rest)[..|b|] == b; }
    }
  }

  lemma PrefixAt(p: string, s: string, k: nat)
    requires p <= s && k < |p|
    ensures p[k] == s[k]
  {
  }

  lemma MatchesOwnKey(upper: Upper, p: Property, key: string)
    requires AsciiUpper(upper) && IsKey(key) && PropertyOk(p)
    ensures Matches(upper, PropertyLine(p), key) <==> key == p.key
  {
    hide Escape, Trimmed;
    var rest := p.params + ":" + Escape(p.value);
    assert PropertyLine(p) == p.key + rest;
    UpperOfKey(upper, p.key, rest);
    UpperOfKey(upper, key, "");
    assert key + "" == key;
    var u := UpperCase(upper, rest);
    assert rest[0] == ':' || rest[0] == ';';
    assert u[0] == rest[0];
    KeysApart(key, ':', p.key, u);
    KeysApart(key, ';', p.key, u);
    assert p.key + [u[0]] <= p.key + u;
  }

  lemma ValueOfLine(p: Property)
    requires PropertyOk(p)
    ensures Unescape(Trim(RawValue(PropertyLine(p)))) == p.value
    ensures '\n' !in PropertyLine(p) && StripCr(PropertyLine(p)) == PropertyLine(p)
  {
    hide Escape, Unescape, Trim, IndexOf;
    var line, before := PropertyLine(p), p.key + p.params;
    var e := Escape(p.value);
    assert line == before + ":" + e;
    UnescapeOfEscape(p.value);
    IndexOfFirst(before, ':', e);
    var i := |before|;
    assert line[i + 1..] == e;
    TrimOfTrimmed(e);
    assert line[|line| - 1] == if e == "" then ':' else e[|e| - 1];
  }

  lemma {:induction false} UpperConcat(upper: Upper, a: string, b: string)
    ensures UpperCase(upper, a + b) == UpperCase(upper, a) + UpperCase(upper, b)
  {
    if a == "" {
      assert a + b == b;
    } else {
      assert (a + b)[0] == a[0] && (a + b)[1..] == a[1..] + b;
      UpperConcat(upper, a[1..], b);
    }
  }

  /** A property is found under its name in any mixture of cases, with or without parameters. */
  lemma AnyCaseFound(upper: Upper, name: string, params: string, value: string, key: string, rest: seq<string>)
    requires AsciiUpper(upper) && IsKey(key) && UpperCase(upper, name) == key && ':' !in name
    requires ParamsOk(params) && Trimmed(Escape(value))
    ensures PropertyOf(upper, [name + params + ":" + Escape(value)] + rest, key) == NonEmpty(value)
  {
    hide *;
    var line := name + params + ":" + Escape(value);
    NoColonIn(name, params);
    AnyCaseRead(name + params, value);
    TailStarts(params, ":" + Escape(value));
    AnyCaseMatches(upper, name, params + (":" + Escape(value)), key);
    assert line == name + (params + (":" + Escape(value)));
    FirstProperty(upper, line, rest, key);
  }

  lemma NoColonIn(name: string, params: string)
    requires ':' !in name && ParamsOk(params)
    ensures ':' !in name + params
  {
  }

  lemma TailStarts(params: string, rest: string)
    requires ParamsOk(params) && rest != "" && rest[0] == ':'
    ensures var t := params + rest; t != "" && (t[0] == ':' || t[0] == ';')
  {
  }

  lemma FirstProperty(upper: Upper, line: string, rest: seq<string>, key: string)
    ensures Matches(upper, line, key) ==>
              PropertyOf(upper, [line] + rest, key) == NonEmpty(Unescape(Trim(RawValue(line))))
  {
    assert ([line] + rest)[0] == line;
    hide Matches, Unescape, Trim, RawValue;
  }

  lemma AnyCaseRead(before: string, value: string)
    requires ':' !in before && Trimmed(Escape(value))
    ensures Unescape(Trim(RawValue(before + ":" + Escape(value)))) == value
  {
    hide Escape, Trim, IndexOf, Unescape;
    var e := Escape(value);
    var line := before + [':'] + e;
    IndexOfFirst(before, ':', e);
    assert line[|before| + 1..] == e;
    TrimOfTrimmed(e);
    UnescapeOfEscape(value);
  }

  lemma AnyCaseMatches(upper: Upper, name: string, tail: string, key: string)
    requires AsciiUpper(upper) && IsKey(key) && UpperCase(upper, name) == key
    requires tail != "" && (tail[0] == ':' || tail[0] == ';')
    ensures Matches(upper, name + tail, key)
  {
    UpperConcat(upper, name, tail);
    UpperOfKey(upper, key, "");
    assert key + "" == key;
    var u := UpperCase(upper, tail);
    assert u[0] == tail[0] && u == [tail[0]] + u[1..];
    assert key + [tail[0]] <= key + u;
  }

  lemma {:induction false} EscapeConcat(a: string, b: string)
    ensures Escape(a + b) == Escape(a) + Escape(b)
  {
    if a == "" {
      assert a + b == b;
    } else {
      assert (a + b)[0] == a[0] && (a + b)[1..] == a[1..] + b;
      EscapeConcat(a[1..], b);
    }
  }

  lemma {:induction false} TrimStartOfEscape(v: string) returns (w: string)
    ensures TrimStart(Escape(v)) == Escape(w) && |w| <= |v| && (|w| == |v| ==> w == v)
  {
    if v != "" && IsWhitespace(v[0]) && v[0] != '\n' {
      assert Escape(v) == [v[0]] + Escape(v[1..]);
      assert Escape(v)[1..] == Escape(v[1..]);
      w := TrimStartOfEscape(v[1..]);
    } else {
      w := v;
      assert v != "" ==> Escape(v)[0] == EscapedChar(v[0])[0];
    }
  }

  lemma {:induction false} TrimEndOfEscape(v: string) returns (w: string)
    ensures TrimEnd(Escape(v)) == Escape(w) && |w| <= |v| && (|w| == |v| ==> w == v)
  {
    hide Escape;
    w := v;
    EscapeOne(' ');
    if v != "" {
      var n := |v| - 1;
      var e, x := Escape(v[..n]), EscapedChar(v[n]);
      LastOfEscape(v);
      assert (e + x)[|e + x| - 1] == x[|x| - 1];
      if IsWhitespace(v[n]) && v[n] != '\n' {
        assert (e + x)[..|e + x| - 1] == e;
        w := TrimEndOfEscape(v[..n]);
      }
    }
  }

  lemma EscapeOne(c: char)
    ensures Escape([c]) == EscapedChar(c) && Escape("") == ""
  {
    hide EscapedChar;
    assert [c][1..] == "" && Escape("") == "";
    assert Escape([c]) == EscapedChar(c) + "";
  }

  lemma LastOfEscape(v: string)
    requires v != ""
    ensures Escape(v) == Escape(v[..|v| - 1]) + EscapedChar(v[|v| - 1])
  {
    hide Escape, EscapedChar;
    var c := v[|v| - 1];
    EscapeConcat(v[..|v| - 1], [c]);
    EscapeOne(c);
    assert v[..|v| - 1] + [c] == v;
  }

  /** A printed value is read back if and only if its escaped text has no white space at its ends. */
  lemma ValueReadIff(p: Property)
    requires IsKey(p.key) && ParamsOk(p.params)
    ensures Unescape(Trim(RawValue(PropertyLine(p)))) == p.value <==> Trimmed(Escape(p.value))
  {
    hide Escape, Unescape, IndexOf, TrimStart, TrimEnd;
    var e := Escape(p.value);
    RawValueOf(p);
    var a := TrimStartOfEscape(p.value);
    var b := TrimEndOfEscape(a);
    UnescapeOfEscape(b);
    TrimOfTrimmed(e);
    UnescapeOfEscape(p.value);
  }

  lemma RawValueOf(p: Property)
    requires IsKey(p.key) && ParamsOk(p.params)
    ensures RawValue(PropertyLine(p)) == Escape(p.value)
  {
    hide Escape, IndexOf;
    var before, e := p.key + p.params, Escape(p.value);
    IndexOfFirst(before, ':', e);
    assert PropertyLine(p) == before + [':'] + e;
  }

  /** Looking a key up in a list of properties. */
  function Lookup(ps: seq<Property>, key: string): Option<string> {
    if ps == [] then None else if ps[0].key == key then NonEmpty(ps[0].value) else Lookup(ps[1..], key)
  }

  lemma {:induction false} PropertyOfPrinted(upper: Upper, ps: seq<Property>, key: string)
    requires AsciiUpper(upper) && IsKey(key) && forall q :: q in ps ==> PropertyOk(q)
    ensures PropertyOf(upper, PropertyLines(ps), key) == Lookup(ps, key)
  {
    hide Matches, PropertyLine, PropertyOk, IsKey, AsciiUpper, Unescape, RawValue, Trim;
    if ps != [] {
      assert PropertyOk(ps[0]);
      MatchesOwnKey(upper, ps[0], key);
      ValueOfLine(ps[0]);
      PropertyOfPrinted(upper, ps[1..], key);
      assert PropertyLines(ps)[1..] == PropertyLines(ps[1..]);
    }
  }

  lemma {:induction false} LinesOfText(lines: seq<string>)
    requires forall l :: l in lines ==> '\n' !in l && StripCr(l) == l
    ensures Lines(LinesText(lines)) == lines
  {
    if lines != [] {
      var l, rest := lines[0], LinesText(lines[1..]);
      var s := l + "\n" + rest;
      IndexOfFirst(l, '\n', rest);
      assert s[..|l|] == l && s[|l| + 1..] == rest;
      LinesOfText(lines[1..]);
      assert [l] + lines[1..] == lines;
    }
  }

  // ---- markers ----

  lemma {:induction false} LinesTextConcat(a: seq<string>, b: seq<string>)
    ensures LinesText(a + b) == LinesText(a) + LinesText(b)
  {
    if a == [] {
      assert a + b == b;
    } else {
      assert (a + b)[1..] == a[1..] + b;
      LinesTextConcat(a[1..], b);
    }
  }

  lemma Covered(s: string, pat: string, i: nat, k: nat)
    requires At(s, pat, i) && i <= k < i + |pat|
    ensures s[k] in pat
  {
    assert s[k] == s[i..i + |pat|][k - i];
  }

  lemma AtExtend(a: string, b: string, pat: string, i: nat)
    requires At(a, pat, i)
    ensures At(a + b, pat, i)
  {
    assert (a + b)[i..i + |pat|] == a[i..i + |pat|];
  }

  /** A pattern without line feed does not straddle one. */
  lemma AtAcross(a: string, b: string, pat: string, i: nat)
    requires pat != "" && '\n' !in pat && At(a + "\n" + b, pat, i)
    ensures At(a, pat, i) || (i > |a| && At(b, pat, i - |a| - 1))
  {
    var s := a + "\n" + b;
    if i + |pat| <= |a| {
      assert s[i..i + |pat|] == a[i..i + |pat|];
    } else if i <= |a| {
      Covered(s, pat, i, |a|);
    } else {
      var j := i - |a| - 1;
      assert s[i..i + |pat|] == b[j..j + |pat|];
    }
  }

  lemma {:induction false} NotInLines(lines: seq<string>, pat: string)
    requires pat != "" && '\n' !in pat && forall l :: l in lines ==> !Contains(l, pat)
    ensures !Contains(LinesText(lines), pat)
  {
    hide Find;
    if lines != [] {
      NotInLines(lines[1..], pat);
      var l, rest := lines[0], LinesText(lines[1..]);
      assert l in lines;
      forall i: nat ensures !At(l + "\n" + rest, pat, i) {
        if At(l + "\n" + rest, pat, i) { AtAcross(l, rest, pat, i); }
      }
    }
  }

  /** After text that ends with a line feed and does not contain it, a marker is found where it stands. */
  lemma FindAfterLine(pre: string, pat: string, rest: string)
    requires pat != "" && '\n' !in pat && !Contains(pre, pat) && (pre == "" || pre[|pre| - 1] == '\n')
    ensures Find(pre + pat + rest, pat) == Some(|pre|)
  {
    hide Find;
    var s := pre + pat + rest;
    assert s[|pre|..|pre| + |pat|] == pat;
    assert At(s, pat, |pre|);
    if pre != "" {
      var a := pre[..|pre| - 1];
      assert pre == a + "\n" && s == a + "\n" + (pat + rest);
      forall i: nat | i < |pre| ensures !At(s, pat, i) {
        if At(s, pat, i) {
          AtAcross(a, pat + rest, pat, i);
          AtExtend(a, "\n", pat, i);
        }
      }
    }
  }

  // ---- one event ----

  /** Neither marker occurs in the line. */
  predicate Unmarked(line: string) { !Contains(line, BEGIN) && !Contains(line, END) }

  /** Plain parameters, values without white space around them, and no marker inside a printed line. */
  predicate Carried(e: CalendarEvent, p: Params) {
    forall q :: q in Properties(e, p) ==> PropertyOk(q) && Unmarked(PropertyLine(q))
  }

  /** Events the format can carry unchanged: also not blank, and with optional fields absent rather than empty. */
  predicate Printable(e: CalendarEvent, p: Params) {
    Carried(e, p) && !Unnamed(e) && e.description != Some("") && e.location != Some("")
  }

  function AbsentIfEmpty(o: Option<string>): Option<string> { if o == Some("") then None else o }

  /** The event with empty optional fields absent. */
  function Normal(e: CalendarEvent): CalendarEvent {
    e.(description := AbsentIfEmpty(e.description), location := AbsentIfEmpty(e.location))
  }

  /** What is read of printed events: those that are not blank. */
  function AsRead(events: seq<CalendarEvent>): seq<CalendarEvent> {
    if events == [] then [] else (if Unnamed(events[0]) then [] else [Normal(events[0])]) + AsRead(events[1..])
  }

  predicate PropertiesOk(e: CalendarEvent, p: Params) { forall q :: q in Properties(e, p) ==> PropertyOk(q) }

  lemma LookupOfEvent(e: CalendarEvent, p: Params)
    ensures var ps := Properties(e, p);
            && Lookup(ps, "UID") == NonEmpty(e.uid) && Lookup(ps, "SUMMARY") == NonEmpty(e.summary)
            && Lookup(ps, "DTSTART") == NonEmpty(e.dtstart) && Lookup(ps, "DTEND") == NonEmpty(e.dtend)
            && Lookup(ps, "DESCRIPTION") == (if e.description.None? then None else NonEmpty(e.description.value))
            && Lookup(ps, "LOCATION") == (if e.location.None? then None else NonEmpty(e.location.value))
  {
    hide Lookup;
    DistinctKeys();
    LookupKey(e, p, "UID");
    LookupKey(e, p, "SUMMARY");
    LookupKey(e, p, "DTSTART");
    LookupKey(e, p, "DTEND");
    LookupKey(e, p, "DESCRIPTION");
    LookupKey(e, p, "LOCATION");
  }

  lemma LookupCons(p: Property, rest: seq<Property>, key: string)
    ensures Lookup([p] + rest, key) == if p.key == key then NonEmpty(p.value) else Lookup(rest, key)
  {
    assert ([p] + rest)[1..] == rest;
  }

  lemma LookupFour(a: Property, b: Property, c: Property, d: Property, rest: seq<Property>, key: string)
    ensures Lookup([a] + ([b] + ([c] + ([d] + rest))), key)
            == if a.key == key then NonEmpty(a.value) else if b.key == key then NonEmpty(b.value)
               else if c.key == key then NonEmpty(c.value) else if d.key == key then NonEmpty(d.value)
               else Lookup(rest, key)
  {
    hide Lookup;
    LookupCons(d, rest, key);
    LookupCons(c, [d] + rest, key);
    LookupCons(b, [c] + ([d] + rest), key);
    LookupCons(a, [b] + ([c] + ([d] + rest)), key);
  }

  lemma LookupOptional(e: CalendarEvent, p: Params, key: string)
    ensures var opt := Optional("DESCRIPTION", p.description, e.description) + Optional("LOCATION", p.location, e.location);
            Lookup(opt, key)
            == if key == "DESCRIPTION" && e.description.Some? then NonEmpty(e.description.value)
               else if key == "LOCATION" && e.location.Some? then NonEmpty(e.location.value) else None
  {
    DistinctKeys();
    var x, y := Optional("DESCRIPTION", p.description, e.description), Optional("LOCATION", p.location, e.location);
    assert e.location.Some? ==> y[1..] == [];
    if e.description.Some? { LookupCons(x[0], y, key); assert x + y == [x[0]] + y; } else { assert x + y == y; }
  }

  lemma LookupKey(e: CalendarEvent, p: Params, key: string)
    ensures Lookup(Properties(e, p), key)
            == if "UID" == key then NonEmpty(e.uid) else if "SUMMARY" == key then NonEmpty(e.summary)
               else if "DTSTART" == key then NonEmpty(e.dtstart) else if "DTEND" == key then NonEmpty(e.dtend)
               else if key == "DESCRIPTION" && e.description.Some? then NonEmpty(e.description.value)
               else if key == "LOCATION" && e.location.Some? then NonEmpty(e.location.value) else None
  {
    hide Lookup;
    var opt := Optional("DESCRIPTION", p.description, e.description) + Optional("LOCATION", p.location, e.location);
    var a, b, c, d := Properties(e, p)[0], Properties(e, p)[1], Properties(e, p)[2], Properties(e, p)[3];
    assert Properties(e, p) == [a] + ([b] + ([c] + ([d] + opt)));
    LookupFour(a, b, c, d, opt, key);
    LookupOptional(e, p, key);
  }

  lemma DistinctKeys()
    ensures "UID" != "SUMMARY" && "UID" != "DTSTART" && "UID" != "DTEND" && "UID" != "DESCRIPTION" && "UID" != "LOCATION"
    ensures "SUMMARY" != "DTSTART" && "SUMMARY" != "DTEND" && "SUMMARY" != "DESCRIPTION" && "SUMMARY" != "LOCATION"
    ensures "DTSTART" != "DTEND" && "DTSTART" != "DESCRIPTION" && "DTSTART" != "LOCATION"
    ensures "DTEND" != "DESCRIPTION" && "DTEND" != "LOCATION" && "DESCRIPTION" != "LOCATION"
  {
    assert "DTSTART"[0] != "LOCATION"[0] && "SUMMARY"[0] != "DTSTART"[0];
  }

  /** The lines of a block: the empty one after its begin marker, and its properties. */
  function HeadLines(e: CalendarEvent, p: Params): seq<string> { [""] + PropertyLines(Properties(e, p)) }

  function BlockHead(e: CalendarEvent, p: Params): string { LinesText(HeadLines(e, p)) }

  function BlockText(e: CalendarEvent, p: Params): string { BlockHead(e, p) + END + "\n" }

  predicate UnmarkedLine(l: string) { '\n' !in l && StripCr(l) == l && Unmarked(l) }

  predicate CapitalLine(l: string) { l != "" && '\n' !in l && 'A' <= l[0] <= 'Z' }

  lemma {:induction false} PrintedLines(ps: seq<Property>)
    requires forall q :: q in ps ==> PropertyOk(q) && Unmarked(PropertyLine(q))
    ensures forall l :: l in PropertyLines(ps) ==> UnmarkedLine(l) && CapitalLine(l)
  {
    hide PropertyLine, PropertyOk, Find;
    if ps != [] {
      ValueOfLine(ps[0]);
      StartsWithKey(ps[0]);
      PrintedLines(ps[1..]);
    }
  }

  lemma StartsWithKey(p: Property)
    requires PropertyOk(p)
    ensures PropertyLine(p) != "" && 'A' <= PropertyLine(p)[0] <= 'Z'
  {
    assert PropertyLine(p)[0] == p.key[0];
  }

  lemma HeadLinesWhole(e: CalendarEvent, p: Params)
    requires Carried(e, p)
    ensures forall l :: l in HeadLines(e, p) ==> UnmarkedLine(l)
  {
    hide PropertyLine, PropertyOk, Find, Properties;
    PrintedLines(Properties(e, p));
    ShortUnmarked("");
  }

  lemma ShortUnmarked(s: string)
    requires |s| < |END|
    ensures Unmarked(s)
  {
    hide Find;
    forall i: nat ensures !At(s, BEGIN, i) && !At(s, END, i) {}
  }

  /** A printed block, whatever follows it, reads as its event. */
  lemma BlockReads(upper: Upper, e: CalendarEvent, p: Params, rest: string)
    requires AsciiUpper(upper) && Carried(e, p)
    ensures BlockEvents(upper, BlockHead(e, p) + END + rest) == AsRead([e])
  {
    hide Find, PropertyOf, Lines, PropertyOk, Properties, HeadLines, AsciiUpper;
    var lines := HeadLines(e, p);
    HeadLinesWhole(e, p);
    NotInLines(lines, END);
    EndsWithLf(lines);
    FindAfterLine(BlockHead(e, p), END, rest);
    LinesOfText(lines);
    assert (BlockHead(e, p) + END + rest)[..|BlockHead(e, p)|] == BlockHead(e, p);
    EventReads(upper, e, p);
  }

  lemma KeysAreKeys()
    ensures IsKey("UID") && IsKey("SUMMARY") && IsKey("DTSTART") && IsKey("DTEND") && IsKey("DESCRIPTION") && IsKey("LOCATION")
  {
  }

  lemma EventReads(upper: Upper, e: CalendarEvent, p: Params)
    requires AsciiUpper(upper) && Carried(e, p)
    ensures EventIn(upper, HeadLines(e, p)) == Normal(e)
  {
    hide PropertyOf, PropertyOk, Properties, AsciiUpper, IsKey, Find, Lookup;
    KeysAreKeys();
    LookupOfEvent(e, p);
    var ps := Properties(e, p);
    PropertyAfterEmptyLine(upper, ps, "UID");
    PropertyAfterEmptyLine(upper, ps, "SUMMARY");
    PropertyAfterEmptyLine(upper, ps, "DTSTART");
    PropertyAfterEmptyLine(upper, ps, "DTEND");
    PropertyAfterEmptyLine(upper, ps, "DESCRIPTION");
    PropertyAfterEmptyLine(upper, ps, "LOCATION");
  }

  lemma PropertyAfterEmptyLine(upper: Upper, ps: seq<Property>, key: string)
    requires AsciiUpper(upper) && IsKey(key) && forall q :: q in ps ==> PropertyOk(q)
    ensures PropertyOf(upper, [""] + PropertyLines(ps), key) == Lookup(ps, key)
  {
    hide PropertyOk, Lookup, Unescape, Trim, AsciiUpper;
    PropertyOfPrinted(upper, ps, key);
    assert ([""] + PropertyLines(ps))[1..] == PropertyLines(ps);
    assert !Matches(upper, "", key);
  }

  lemma {:induction false} EndsWithLf(lines: seq<string>)
    ensures LinesText(lines) == "" || LinesText(lines)[|LinesText(lines)| - 1] == '\n'
  {
    if lines != [] { EndsWithLf(lines[1..]); }
  }

  // ---- the calendar ----

  const TRAILER := "END:VCALENDAR"

  lemma TrailerUnmarked()
    ensures Unmarked(TRAILER) && !Contains(END, BEGIN) && Unmarked("BEGIN:VCALENDAR")
  {
    hide Find;
    var h := "BEGIN:VCALENDAR";
    assert h[0] == 'B' && h[1] == 'E' && h[2] == 'G' && h[3] == 'I' && h[4] == 'N' && h[5] == ':' && h[7] == 'C';
    assert TRAILER[0] == 'E' && TRAILER[1] == 'N' && TRAILER[2] == 'D' && TRAILER[3] == ':' && TRAILER[5] == 'C';
    assert BEGIN[0] == 'B' && BEGIN[7] == 'E' && END[0] == 'E' && END[1] == 'N' && END[5] == 'E';
    forall i: nat ensures !At(TRAILER, BEGIN, i) { if i <= 1 { NotAt(TRAILER, BEGIN, i, 0); } }
    forall i: nat ensures !At(TRAILER, END, i) { if i == 0 { NotAt(TRAILER, END, i, 5); } else if i <= 3 { NotAt(TRAILER, END, i, 0); } }
    forall i: nat ensures !At(h, BEGIN, i) { if i == 0 { NotAt(h, BEGIN, i, 7); } else if i <= 3 { NotAt(h, BEGIN, i, 0); } }
    forall i: nat ensures !At(h, END, i) { if i == 1 { NotAt(h, END, i, 1); } else if i <= 5 { NotAt(h, END, i, 0); } }
  }

  lemma NotAt(s: string, pat: string, i: nat, k: nat)
    requires i + k < |s| && k < |pat| && s[i + k] != pat[k]
    ensures !At(s, pat, i)
  {
    if i + |pat| <= |s| { assert s[i..i + |pat|][k] == s[i + k]; }
  }

  lemma BlockUnmarked(e: CalendarEvent, p: Params)
    requires Carried(e, p)
    ensures !Contains(BlockText(e, p), BEGIN) && !Contains(BlockText(e, p) + TRAILER + "\n", BEGIN)
  {
    hide Find, Carried, HeadLines;
    var lines := HeadLines(e, p);
    HeadLinesWhole(e, p);
    TrailerUnmarked();
    OneLine(END);
    TwoLines(END, TRAILER);
    LinesTextConcat(lines, [END]);
    LinesTextConcat(lines, [END, TRAILER]);
    assert LinesText(lines + [END]) == BlockText(e, p);
    assert LinesText(lines + [END, TRAILER]) == BlockText(e, p) + TRAILER + "\n";
    NotInLines(lines + [END], BEGIN);
    NotInLines(lines + [END, TRAILER], BEGIN);
  }

  lemma EventText(e: CalendarEvent, p: Params, rest: seq<string>)
    ensures LinesText(EventLines(e, p) + rest) == BEGIN + (BlockText(e, p) + LinesText(rest))
  {
    hide Properties, PropertyLines;
    var ls := PropertyLines(Properties(e, p));
    var tail := LinesText(ls + [END] + rest);
    assert EventLines(e, p) + rest == [BEGIN] + (ls + [END] + rest);
    assert LinesText([BEGIN] + (ls + [END] + rest)) == BEGIN + "\n" + tail by {
      assert ([BEGIN] + (ls + [END] + rest))[1..] == ls + [END] + rest;
    }
    LinesTextConcat(ls + [END], rest);
    LinesTextConcat(ls, [END]);
    assert BlockHead(e, p) == "\n" + LinesText(ls) by { assert ([""] + ls)[1..] == ls; }
    OneLine(END);
  }

  lemma AsReadFirst(events: seq<CalendarEvent>)
    requires events != []
    ensures AsRead(events) == AsRead([events[0]]) + AsRead(events[1..])
  {
    assert [events[0]][1..] == [];
  }

  /** A segment without begin marker, followed by printed events: its own events, then those. */
  lemma {:induction false} BodyReads(
    upper: Upper, seg: string, xs: seq<CalendarEvent>, events: seq<CalendarEvent>, params: seq<Params>)
    requires AsciiUpper(upper) && |events| == |params| && forall k :: 0 <= k < |events| ==> Carried(events[k], params[k])
    requires seg != "" && seg[|seg| - 1] == '\n'
    requires !Contains(seg, BEGIN) && !Contains(seg + TRAILER + "\n", BEGIN)
    requires BlockEvents(upper, seg) == xs && BlockEvents(upper, seg + TRAILER + "\n") == xs
    ensures AllEvents(upper, SplitBy(seg + LinesText(BodyLines(events, params)), BEGIN)) == xs + AsRead(events)
    decreases events
  {
    hide Find, BlockEvents, Carried, BlockText, AsciiUpper, LinesText;
    if events == [] {
      OneLine(TRAILER);
      assert seg + (TRAILER + "\n") == seg + TRAILER + "\n";
      assert [seg + TRAILER + "\n"][1..] == [];
      assert xs + [] == xs;
    } else {
      var e, p := events[0], params[0];
      var block, rest := BlockText(e, p), LinesText(BodyLines(events[1..], params[1..]));
      EventText(e, p, BodyLines(events[1..], params[1..]));
      assert seg + (BEGIN + (block + rest)) == seg + BEGIN + (block + rest);
      FindAfterLine(seg, BEGIN, block + rest);
      assert (seg + BEGIN + (block + rest))[..|seg|] == seg;
      assert (seg + BEGIN + (block + rest))[|seg| + |BEGIN|..] == block + rest;
      BlockUnmarked(e, p);
      BlockIsSegment(upper, e, p);
      BodyReads(upper, block, AsRead([e]), events[1..], params[1..]);
      assert ([seg] + SplitBy(block + rest, BEGIN))[1..] == SplitBy(block + rest, BEGIN);
      AsReadFirst(events);
      assert xs + (AsRead([e]) + AsRead(events[1..])) == xs + AsRead(events);
    }
  }

  lemma OneLine(a: string)
    ensures LinesText([a]) == a + "\n"
  {
    assert [a][1..] == [] && a + "\n" + "" == a + "\n";
  }

  lemma TwoLines(a: string, b: string)
    ensures LinesText([a, b]) == a + "\n" + (b + "\n")
  {
    OneLine(b);
    assert [a, b][1..] == [b];
  }

  lemma BlockIsSegment(upper: Upper, e: CalendarEvent, p: Params)
    requires AsciiUpper(upper) && Carried(e, p)
    ensures var block := BlockText(e, p);
            && block != "" && block[|block| - 1] == '\n'
            && BlockEvents(upper, block) == AsRead([e]) && BlockEvents(upper, block + TRAILER + "\n") == AsRead([e])
  {
    hide BlockEvents, BlockHead, Carried, AsciiUpper;
    BlockReads(upper, e, p, "\n");
    BlockReads(upper, e, p, "\n" + TRAILER + "\n");
    assert BlockHead(e, p) + END + ("\n" + TRAILER + "\n") == BlockText(e, p) + TRAILER + "\n";
  }

  lemma {:induction false} LinesClean(lines: seq<string>)
    requires forall l :: l in lines ==> CapitalLine(l)
    ensures Clean(LinesText(lines)) && (lines != [] ==> LinesText(lines) != "" && 'A' <= LinesText(lines)[0] <= 'Z')
  {
    if lines != [] {
      assert CapitalLine(lines[0]);
      LinesClean(lines[1..]);
      CleanAfterLine(lines[0], LinesText(lines[1..]));
    }
  }

  lemma CleanAfterLine(l: string, rest: string)
    requires '\n' !in l && Clean(rest) && (rest == "" || 'A' <= rest[0] <= 'Z')
    ensures Clean(l + "\n" + rest)
  {
    var t := l + "\n" + rest;
    forall i | 0 < i < |t| && t[i - 1] == '\n' ensures t[i] != ' ' && t[i] != '\t' {
      if i <= |l| { Member(l, i - 1); }
      else if i > |l| + 1 { assert t[i] == rest[i - |l| - 1] && t[i - 1] == rest[i - |l| - 2]; }
    }
  }

  lemma Member(l: string, i: nat)
    requires i < |l|
    ensures l[i] in l
  {
  }

  lemma {:induction false} PrintedCapital(ps: seq<Property>)
    requires forall q :: q in ps ==> PropertyOk(q)
    ensures forall l :: l in PropertyLines(ps) ==> CapitalLine(l)
  {
    hide PropertyLine, PropertyOk;
    if ps != [] {
      ValueOfLine(ps[0]);
      StartsWithKey(ps[0]);
      PrintedCapital(ps[1..]);
    }
  }

  lemma {:induction false} BodyClean(events: seq<CalendarEvent>, params: seq<Params>)
    requires |events| == |params| && forall k :: 0 <= k < |events| ==> PropertiesOk(events[k], params[k])
    ensures forall l :: l in BodyLines(events, params) ==> CapitalLine(l)
    decreases events
  {
    hide PropertyLine, PropertyOk, Properties;
    if events != [] {
      assert PropertiesOk(events[0], params[0]);
      BodyClean(events[1..], params[1..]);
      PrintedCapital(Properties(events[0], params[0]));
    }
  }

  lemma PrintableOk(e: CalendarEvent, p: Params)
    requires Carried(e, p)
    ensures PropertiesOk(e, p)
  {
    hide Properties, PropertyOk, PropertyLine, Unmarked;
  }

  /** A folded calendar unfolds to its lines, whatever the values are. */
  lemma UnfoldOfCalendar(events: seq<CalendarEvent>, params: seq<Params>, breaks: seq<Break>)
    requires |events| == |params| && forall k :: 0 <= k < |events| ==> PropertiesOk(events[k], params[k])
    requires |breaks| == |LinesText(CalendarLines(events, params))|
    ensures Unfold(Fold(LinesText(CalendarLines(events, params)), breaks)) == LinesText(CalendarLines(events, params))
  {
    hide PropertiesOk, Fold, Unfold, BodyLines, Clean, FoldsKept;
    var lines := CalendarLines(events, params);
    BodyClean(events, params);
    LinesClean(lines);
    CleanFolds(LinesText(lines), breaks);
    UnfoldOfFold(LinesText(lines), breaks);
  }

  /** Nothing that stands before the first event is taken for one. */
  lemma HeaderIsSegment(upper: Upper)
    ensures var seg := "BEGIN:VCALENDAR" + "\n";
            && !Contains(seg, BEGIN) && !Contains(seg + TRAILER + "\n", BEGIN)
            && BlockEvents(upper, seg) == [] && BlockEvents(upper, seg + TRAILER + "\n") == []
  {
    hide Find;
    TrailerUnmarked();
    var h := "BEGIN:VCALENDAR";
    OneLine(h);
    TwoLines(h, TRAILER);
    assert h + "\n" + (TRAILER + "\n") == h + "\n" + TRAILER + "\n";
    NotInLines([h], BEGIN);
    NotInLines([h], END);
    NotInLines([h, TRAILER], BEGIN);
    NotInLines([h, TRAILER], END);
  }

  // ---- main result ----

  /**
   Any list of events the format can carry, printed with any parameters and folded with CRLF at
   any places at all, is read back without the blank ones and with empty optional fields absent.
   */
  lemma ParseOfCarried(
    upper: Upper, events: seq<CalendarEvent>, params: seq<Params>, breaks: seq<Break>)
    requires AsciiUpper(upper) && |events| == |params| && forall k :: 0 <= k < |events| ==> Carried(events[k], params[k])
    requires |breaks| == |LinesText(CalendarLines(events, params))|
    ensures Parsed(upper, Fold(LinesText(CalendarLines(events, params)), breaks)) == AsRead(events)
  {
    hide Find, Carried, PropertiesOk, AsciiUpper, Fold, Unfold, SplitBy, AllEvents, BodyLines, BlockEvents, AsRead;
    forall k | 0 <= k < |events| ensures PropertiesOk(events[k], params[k]) { PrintableOk(events[k], params[k]); }
    UnfoldOfCalendar(events, params, breaks);
    var lines := CalendarLines(events, params);
    var h := "BEGIN:VCALENDAR";
    assert lines[1..] == BodyLines(events, params);
    HeaderIsSegment(upper);
    BodyReads(upper, h + "\n", [], events, params);
    assert [] + AsRead(events) == AsRead(events);
  }

  /** Printable events are read back unchanged. */
  lemma ParseOfPrint(
    upper: Upper, events: seq<CalendarEvent>, params: seq<Params>, breaks: seq<Break>)
    requires AsciiUpper(upper) && |events| == |params| && forall k :: 0 <= k < |events| ==> Printable(events[k], params[k])
    requires |breaks| == |LinesText(CalendarLines(events, params))|
    ensures Parsed(upper, Fold(LinesText(CalendarLines(events, params)), breaks)) == events
  {
    hide Parsed, Fold, LinesText, AsciiUpper, CalendarLines, Carried;
    ParseOfCarried(upper, events, params, breaks);
    PrintableAsRead(events, params);
  }

  lemma {:induction false} PrintableAsRead(events: seq<CalendarEvent>, params: seq<Params>)
    requires |events| == |params| && forall k :: 0 <= k < |events| ==> Printable(events[k], params[k])
    ensures AsRead(events) == events
    decreases events
  {
    hide Carried;
    if events != [] {
      assert Printable(events[0], params[0]);
      PrintableAsRead(events[1..], params[1..]);
      assert events == [events[0]] + events[1..];
    }
  }

  lemma CleanFolds(text: string, breaks: seq<Break>)
    requires Clean(text) && |breaks| == |text|
    ensures FoldsKept(text, breaks)
  {
  }

  // ---- markers across a key and its value ----

  predicate EndsIn(s: string, t: string) { |t| <= |s| && s[|s| - |t|..] == t }

  /**
   A marker occurs in a line if it occurs in the value, or if what stands before the colon ends
   in its word and the value goes on with the rest.
   */
  lemma MarkerIn(before: string, v: string, word: string)
    requires ':' !in before && ':' !in word
    ensures Contains(before + ":" + v, word + ":VEVENT")
            <==> Contains(v, word + ":VEVENT") || (EndsIn(before, word) && "VEVENT" <= v)
  {
    hide Find;
    var line, pat := before + ":" + v, word + ":VEVENT";
    assert pat[|word|] == ':';
    forall i: nat | At(line, pat, i)
      ensures Contains(v, pat) || (EndsIn(before, word) && "VEVENT" <= v)
    {
      MarkerAt(before, v, word, i);
    }
    if r: nat :| At(v, pat, r) {
      assert line[|before| + 1 + r..|before| + 1 + r + |pat|] == v[r..r + |pat|];
      assert At(line, pat, |before| + 1 + r);
    }
    if EndsIn(before, word) && "VEVENT" <= v {
      var i := |before| - |word|;
      assert v[..6] == "VEVENT" && line[i..i + |pat|] == before[i..] + ":" + v[..6];
      assert At(line, pat, i);
    }
  }

  lemma MarkerAt(before: string, v: string, word: string, i: nat)
    requires ':' !in before && ':' !in word && At(before + ":" + v, word + ":VEVENT", i)
    ensures (exists r: nat :: At(v, word + ":VEVENT", r)) || (EndsIn(before, word) && "VEVENT" <= v)
  {
    var line, pat, n := before + ":" + v, word + ":VEVENT", |before|;
    LineChars(before, v, word);
    var m: nat, k: nat := i + |word|, if i <= n then n - i else 0;
    CharAt(line, pat, i, m);
    if m < n {
      Member(before, m);
    } else if i > n {
      assert line[i..i + |pat|] == v[i - n - 1..i - n - 1 + |pat|];
      assert At(v, pat, i - n - 1);
    } else if m > n {
      CharAt(line, pat, i, n);
      Member(word, k);
    } else {
      MarkerAcross(before, v, word);
    }
  }

  lemma LineChars(before: string, v: string, word: string)
    ensures var line, pat := before + ":" + v, word + ":VEVENT";
            && line[|before|] == ':' && pat[|word|] == ':'
            && (forall k :: 0 <= k < |word| ==> pat[k] == word[k]) && forall k :: 0 <= k < |before| ==> line[k] == before[k]
  {
  }

  lemma MarkerAcross(before: string, v: string, word: string)
    requires |word| <= |before| && At(before + ":" + v, word + ":VEVENT", |before| - |word|)
    ensures EndsIn(before, word) && "VEVENT" <= v
  {
    var line, pat, n, i := before + ":" + v, word + ":VEVENT", |before|, |before| - |word|;
    assert line[i..i + |word|] == before[i..] && line[n + 1..n + 7] == v[..6];
    assert line[i..i + |pat|][..|word|] == line[i..i + |word|] && pat[..|word|] == word;
    assert line[i..i + |pat|][|word| + 1..] == line[n + 1..n + 7] && pat[|word| + 1..] == "VEVENT";
  }

  lemma CharAt(s: string, pat: string, i: nat, m: nat)
    requires At(s, pat, i) && i <= m < i + |pat|
    ensures s[m] == pat[m - i]
  {
    assert s[i..i + |pat|][m - i] == s[m];
  }

  /** Letters at the start of an escaped value are those of the value. */
  lemma {:induction false} LettersStay(w: string, v: string)
    requires forall i :: 0 <= i < |w| ==> 'A' <= w[i] <= 'Z'
    ensures w <= Escape(v) <==> w <= v
  {
    if w != "" && v != "" {
      var rest := Escape(v[1..]);
      LettersStay(w[1..], v[1..]);
      assert w == [w[0]] + w[1..] && v == [v[0]] + v[1..];
      if EscapedChar(v[0]) == [v[0]] {
        HeadAndTail(w[0], w[1..], v[0], rest);
        HeadAndTail(w[0], w[1..], v[0], v[1..]);
      } else {
        assert Escape(v)[0] == '\\';
        HeadAndTail(w[0], w[1..], v[0], v[1..]);
      }
    }
  }

  lemma HeadAndTail(a: char, s: string, b: char, t: string)
    ensures [a] + s <= [b] + t <==> a == b && s <= t
  {
    assert ([a] + s)[1..] == s && ([b] + t)[1..] == t;
    if s <= t { assert t[..|s|] == s; }
    if [a] + s <= [b] + t {
      assert ([b] + t)[..|s| + 1] == [b] + t[..|s|];
      assert ([b] + t)[0] == ([a] + s)[0] && ([a] + s)[1..] == ([b] + t[..|s|])[1..] == t[..|s|];
    }
  }

  /**
   A line whose value is free of markers is so itself, unless the value starts with `VEVENT`
   and what stands before the colon ends in `END` or `BEGIN`: so for the key `DTEND`.
   */
  lemma UnmarkedIff(p: Property)
    requires PropertyOk(p) && Unmarked(Escape(p.value))
    ensures Unmarked(PropertyLine(p))
            <==> !("VEVENT" <= p.value && (EndsIn(p.key + p.params, "END") || EndsIn(p.key + p.params, "BEGIN")))
  {
    hide Find, Escape, Trimmed;
    var before := p.key + p.params;
    assert ':' !in before;
    MarkerIn(before, Escape(p.value), "END");
    MarkerIn(before, Escape(p.value), "BEGIN");
    assert "END" + ":VEVENT" == END && "BEGIN" + ":VEVENT" == BEGIN;
    LettersStay("VEVENT", p.value);
  }

  // ---- what the reader makes of such a line ----

  lemma {:induction false} LinesOfCut(lines: seq<string>, last: string)
    requires last != "" && '\n' !in last && forall l :: l in lines ==> '\n' !in l && StripCr(l) == l
    ensures Lines(LinesText(lines) + last) == lines + [last]
  {
    hide StripCr, Lines;
    if lines == [] {
      OneLineOnly(last);
      assert "" + last == last;
    } else {
      var l, rest := lines[0], LinesText(lines[1..]) + last;
      LinesOfCut(lines[1..], last);
      FirstLine(l, "\n", rest);
      assert LinesText(lines) + last == l + ("\n" + rest);
      assert lines + [last] == [l] + (lines[1..] + [last]);
    }
  }

  lemma {:induction false} PropertyIgnores(upper: Upper, lines: seq<string>, last: string, key: string)
    requires !Matches(upper, last, key)
    ensures PropertyOf(upper, lines + [last], key) == PropertyOf(upper, lines, key)
  {
    hide Matches;
    if lines == [] {
      assert lines + [last] == [last] && [last][1..] == [];
    } else {
      assert (lines + [last])[0] == lines[0] && (lines + [last])[1..] == lines[1..] + [last];
      PropertyIgnores(upper, lines[1..], last, key);
    }
  }

  lemma NoKeyInTwo(upper: Upper, key: string)
    requires AsciiUpper(upper) && IsKey(key) && |key| >= 2
    ensures !Matches(upper, "DT", key)
  {
    UpperOfKey(upper, "DT", "");
    UpperOfKey(upper, key, "");
    assert "DT" + "" == "DT" && key + "" == key;
  }

  /** The properties of an event before its end. */
  function Leads(e: CalendarEvent, p: Params): seq<Property> {
    [Property("UID", p.uid, e.uid), Property("SUMMARY", p.summary, e.summary), Property("DTSTART", p.dtstart, e.dtstart)]
  }

  function Shortened(e: CalendarEvent): CalendarEvent { e.(dtend := "", description := None, location := None) }

  lemma LookupOfLeads(e: CalendarEvent, p: Params)
    ensures var ps := Leads(e, p);
            && Lookup(ps, "UID") == NonEmpty(e.uid) && Lookup(ps, "SUMMARY") == NonEmpty(e.summary)
            && Lookup(ps, "DTSTART") == NonEmpty(e.dtstart) && Lookup(ps, "DTEND") == None
            && Lookup(ps, "DESCRIPTION") == None && Lookup(ps, "LOCATION") == None
  {
    DistinctKeys();
    var a, b, c := Leads(e, p)[0], Leads(e, p)[1], Leads(e, p)[2];
    assert Leads(e, p) == [a] + ([b] + ([c] + []));
    hide Lookup;
    forall key: string ensures Lookup(Leads(e, p), key)
      == if a.key == key then NonEmpty(a.value) else if b.key == key then NonEmpty(b.value)
         else if c.key == key then NonEmpty(c.value) else None
    {
      LookupCons(c, [], key);
      LookupCons(b, [c] + [], key);
      LookupCons(a, [b] + ([c] + []), key);
      LookupNothing(key);
    }
  }

  lemma LookupNothing(key: string)
    ensures Lookup([], key) == None
  {
  }

  lemma PropertyOfCut(upper: Upper, ps: seq<Property>, key: string)
    requires AsciiUpper(upper) && IsKey(key) && |key| >= 2 && forall q :: q in ps ==> PropertyOk(q)
    ensures PropertyOf(upper, [""] + PropertyLines(ps) + ["DT"], key) == Lookup(ps, key)
  {
    hide PropertyOk, PropertyOf, Lookup, AsciiUpper, IsKey;
    PropertyAfterEmptyLine(upper, ps, key);
    NoKeyInTwo(upper, key);
    PropertyIgnores(upper, [""] + PropertyLines(ps), "DT", key);
  }

  lemma CutEventReads(upper: Upper, e: CalendarEvent, p: Params)
    requires AsciiUpper(upper) && forall q :: q in Leads(e, p) ==> PropertyOk(q)
    ensures EventIn(upper, [""] + PropertyLines(Leads(e, p)) + ["DT"]) == Shortened(e)
  {
    hide PropertyOf, PropertyOk, Leads, AsciiUpper, IsKey, Lookup;
    KeysAreKeys();
    LookupOfLeads(e, p);
    var ps := Leads(e, p);
    PropertyOfCut(upper, ps, "UID");
    PropertyOfCut(upper, ps, "SUMMARY");
    PropertyOfCut(upper, ps, "DTSTART");
    PropertyOfCut(upper, ps, "DTEND");
    PropertyOfCut(upper, ps, "DESCRIPTION");
    PropertyOfCut(upper, ps, "LOCATION");
  }

  /** The end marker is found where the line `DTEND:VEVENT...` spells it. */
  lemma FindInDtend(lines: seq<string>, rest: string)
    requires lines != [] && forall l :: l in lines ==> !Contains(l, END)
    ensures Find(LinesText(lines) + "DT" + END + rest, END) == Some(|LinesText(lines)| + 2)
  {
    hide Find, At, LinesText;
    var x := LinesText(lines);
    var s := x + "DT" + END + rest;
    NotInLines(lines, END);
    EndsWithLf(lines);
    TextNotEmpty(lines);
    AtMiddle(x + "DT", END, rest);
    var a := x[..|x| - 1];
    var b := "DT" + END + rest;
    assert x == a + "\n" && s == a + "\n" + b;
    NotAtOnce(b, rest);
    forall i: nat | i < |x| + 2 ensures !At(s, END, i) {
      if At(s, END, i) {
        AtAcross(a, b, END, i);
        if At(a, END, i) { AtExtend(a, "\n", END, i); }
      }
    }
  }

  lemma TextNotEmpty(lines: seq<string>)
    requires lines != []
    ensures LinesText(lines) != ""
  {
  }

  lemma NotAtOnce(b: string, rest: string)
    requires b == "DT" + END + rest
    ensures !At(b, END, 0) && !At(b, END, 1)
  {
    assert b[0] == 'D' && b[1] == 'T' && END[0] == 'E';
    NotAt(b, END, 0, 0);
    NotAt(b, END, 1, 0);
  }

  /** The text of the block of such an event, cut at the marker its DTEND line spells. */
  lemma DtendText(e: CalendarEvent, p: Params) returns (rest: string)
    requires p.dtend == "" && "VEVENT" <= e.dtend
    ensures BlockHead(e, p) == LinesText([""] + PropertyLines(Leads(e, p))) + "DT" + END + rest
  {
    hide Escape, PropertyLines, LinesText, PropertyLine;
    var leads := Leads(e, p);
    var d := Property("DTEND", p.dtend, e.dtend);
    var opt := Optional("DESCRIPTION", p.description, e.description) + Optional("LOCATION", p.location, e.location);
    assert Properties(e, p) == leads + ([d] + opt);
    hide Properties, Leads, Optional;
    PropertyLinesConcat(leads, [d] + opt);
    PropertyLinesCons(d, opt);
    var front, l, tail := [""] + PropertyLines(leads), PropertyLine(d), PropertyLines(opt);
    assert HeadLines(e, p) == front + ([l] + tail);
    LinesTextConcat(front, [l] + tail);
    LinesTextCons(l, tail);
    var v := DtendLine(d);
    rest := v + "\n" + LinesText(tail);
    assert LinesText(front) + (l + "\n" + LinesText(tail)) == LinesText(front) + "DT" + END + rest;
  }

  lemma PropertyLinesCons(p: Property, ps: seq<Property>)
    ensures PropertyLines([p] + ps) == [PropertyLine(p)] + PropertyLines(ps)
  {
    assert ([p] + ps)[1..] == ps;
  }

  lemma LinesTextCons(l: string, lines: seq<string>)
    ensures LinesText([l] + lines) == l + "\n" + LinesText(lines)
  {
    assert ([l] + lines)[1..] == lines;
  }

  lemma DtendLine(d: Property) returns (v: string)
    requires d.key == "DTEND" && d.params == "" && "VEVENT" <= d.value
    ensures PropertyLine(d) == "DT" + END + v
  {
    hide Escape;
    LettersStay("VEVENT", d.value);
    v := Escape(d.value)[6..];
    assert Escape(d.value) == "VEVENT" + v;
    assert "DTEND" + "" + ":" + ("VEVENT" + v) == "DT" + END + v;
  }

  lemma {:induction false} PropertyLinesConcat(a: seq<Property>, b: seq<Property>)
    ensures PropertyLines(a + b) == PropertyLines(a) + PropertyLines(b)
  {
    hide PropertyLine;
    if a == [] {
      assert a + b == b;
    } else {
      assert (a + b)[0] == a[0] && (a + b)[1..] == a[1..] + b;
      PropertyLinesConcat(a[1..], b);
    }
  }

  /** Properties fit to print, with markers only where the DTEND line spells one. */
  predicate MarkedByDtend(e: CalendarEvent, p: Params) {
    && !Unnamed(e) && PropertiesOk(e, p) && p.dtend == "" && "VEVENT" <= e.dtend && Unmarked(Escape(e.dtend))
    && forall q :: q in Properties(e, p) && q.key != "DTEND" ==> Unmarked(PropertyLine(q))
  }

  lemma LeadsOk(e: CalendarEvent, p: Params)
    requires MarkedByDtend(e, p)
    ensures forall q :: q in Leads(e, p) ==> PropertyOk(q) && Unmarked(PropertyLine(q))
    ensures forall q :: q in Properties(e, p) ==> !Contains(PropertyLine(q), BEGIN)
  {
    hide PropertyOk, Unmarked, PropertyLine, Find;
    DistinctKeys();
    assert forall q :: q in Leads(e, p) ==> q in Properties(e, p) && q.key != "DTEND";
    var d := Property("DTEND", p.dtend, e.dtend);
    assert d in Properties(e, p);
    NoBeginInDtend(d);
    forall q | q in Properties(e, p) ensures !Contains(PropertyLine(q), BEGIN) {
      if q.key == "DTEND" { assert q == d; } else { UnmarkedNoBegin(PropertyLine(q)); }
    }
  }

  lemma UnmarkedNoBegin(l: string)
    requires Unmarked(l)
    ensures !Contains(l, BEGIN) && !Contains(l, END)
  {
  }

  lemma NoBeginInDtend(d: Property)
    requires d.key == "DTEND" && d.params == "" && Unmarked(Escape(d.value))
    ensures !Contains(PropertyLine(d), BEGIN)
  {
    hide Find, Escape;
    MarkerIn("DTEND", Escape(d.value), "BEGIN");
    assert "BEGIN" + ":VEVENT" == BEGIN && "DTEND" + "" == "DTEND";
    assert "DTEND"[0] != "BEGIN"[0];
  }

  lemma {:induction false} LinesWithout(ps: seq<Property>, pat: string)
    requires forall q :: q in ps ==> !Contains(PropertyLine(q), pat)
    ensures forall l :: l in PropertyLines(ps) ==> !Contains(l, pat)
  {
    hide PropertyLine, Find;
    if ps != [] { LinesWithout(ps[1..], pat); }
  }

  lemma CutBlockReads(upper: Upper, e: CalendarEvent, p: Params, after: string)
    requires AsciiUpper(upper) && MarkedByDtend(e, p)
    ensures BlockEvents(upper, BlockHead(e, p) + after) == [Shortened(e)]
  {
    hide Find, Lines, PropertyOf, PropertyOk, PropertyLine, AsciiUpper, HeadLines, Escape, Leads, Properties;
    var rest := DtendText(e, p);
    LeadsOk(e, p);
    var lines := [""] + PropertyLines(Leads(e, p));
    PrintedLines(Leads(e, p));
    ShortUnmarked("");
    FindInDtend(lines, rest + after);
    var x := LinesText(lines);
    var block := BlockHead(e, p) + after;
    assert block == x + "DT" + END + (rest + after) && block[..|x| + 2] == x + "DT";
    LinesOfCut(lines, "DT");
    CutEventReads(upper, e, p);
  }

  /**
   The reader cuts such a block at the marker: the value of DTEND and the properties after it
   are lost, in every folding. So the event is not read back.
   */
  lemma DtendCanSpellMarker(upper: Upper, e: CalendarEvent, p: Params, breaks: seq<Break>)
    requires AsciiUpper(upper) && MarkedByDtend(e, p)
    requires |breaks| == |LinesText(CalendarLines([e], [p]))|
    ensures Parsed(upper, Fold(LinesText(CalendarLines([e], [p])), breaks)) == [Shortened(e)] != [e]
  {
    hide Find, AsciiUpper, Fold, Unfold, SplitBy, AllEvents, BlockEvents, MarkedByDtend, PropertiesOk, BlockHead, Properties;
    MarkedOk(e, p);
    UnfoldOfCalendar([e], [p], breaks);
    var h := "BEGIN:VCALENDAR" + "\n";
    var block := BlockText(e, p) + TRAILER + "\n";
    CalendarText(e, p);
    HeaderIsSegment(upper);
    MarkedBlockOnce(e, p);
    FindAfterLine(h, BEGIN, block);
    SplitOnce(h, block);
    CutBlockReads(upper, e, p, END + "\n" + TRAILER + "\n");
    assert BlockHead(e, p) + (END + "\n" + TRAILER + "\n") == block;
    TwoBlocks(upper, h, block);
  }

  lemma MarkedOk(e: CalendarEvent, p: Params)
    requires MarkedByDtend(e, p)
    ensures PropertiesOk(e, p) && e.dtend != ""
  {
  }

  lemma CalendarText(e: CalendarEvent, p: Params)
    ensures LinesText(CalendarLines([e], [p])) == "BEGIN:VCALENDAR" + "\n" + BEGIN + (BlockText(e, p) + TRAILER + "\n")
  {
    hide BlockText, EventLines;
    assert [e][1..] == [] && [p][1..] == [];
    assert BodyLines([e], [p]) == EventLines(e, p) + [TRAILER];
    EventText(e, p, [TRAILER]);
    OneLine(TRAILER);
    assert CalendarLines([e], [p])[1..] == EventLines(e, p) + [TRAILER];
  }

  lemma SplitOnce(h: string, block: string)
    requires Find(h + BEGIN + block, BEGIN) == Some(|h|) && !Contains(block, BEGIN)
    ensures SplitBy(h + BEGIN + block, BEGIN) == [h, block]
  {
    hide Find;
    var s := h + BEGIN + block;
    assert s[..|h|] == h && s[|h| + |BEGIN|..] == block;
    assert SplitBy(block, BEGIN) == [block];
  }

  lemma TwoBlocks(upper: Upper, a: string, b: string)
    ensures AllEvents(upper, [a, b]) == BlockEvents(upper, a) + BlockEvents(upper, b)
  {
    hide BlockEvents;
    assert [a, b][1..] == [b] && [b][1..] == [];
    assert AllEvents(upper, [b]) == BlockEvents(upper, b) + [] == BlockEvents(upper, b);
  }

  lemma MarkedBlockOnce(e: CalendarEvent, p: Params)
    requires MarkedByDtend(e, p)
    ensures !Contains(BlockText(e, p) + TRAILER + "\n", BEGIN)
  {
    hide Find, MarkedByDtend, PropertyLine, Properties;
    LeadsOk(e, p);
    LinesWithout(Properties(e, p), BEGIN);
    ShortUnmarked("");
    TrailerUnmarked();
    var lines := HeadLines(e, p);
    TwoLines(END, TRAILER);
    LinesTextConcat(lines, [END, TRAILER]);
    assert LinesText(lines + [END, TRAILER]) == BlockText(e, p) + TRAILER + "\n";
    NotInLines(lines + [END, TRAILER], BEGIN);
  }

  /** There are such events. */
  lemma MarkedEventExists()
    ensures var e := CalendarEvent("U", "", "", "VEVENT", None, None);
            MarkedByDtend(e, Params("", "", "", "", "", ""))
  {
    hide Find, Escape;
    var e, p := CalendarEvent("U", "", "", "VEVENT", None, None), Params("", "", "", "", "", "");
    var a, b, c, d := Property("UID", "", "U"), Property("SUMMARY", "", ""), Property("DTSTART", "", ""), Property("DTEND", "", "VEVENT");
    assert Optional("DESCRIPTION", "", None) + Optional("LOCATION", "", None) == [];
    assert Properties(e, p) == [a, b, c, d];
    KeysAreKeys();
    EscapePlain("U");
    EscapePlain("");
    EscapePlain("VEVENT");
    assert PropertyOk(a) && PropertyOk(b) && PropertyOk(c) && PropertyOk(d);
    assert PropertyLine(a) == "UID:U" && PropertyLine(b) == "SUMMARY:" && PropertyLine(c) == "DTSTART:";
    hide PropertyOk, PropertyLine, Properties, Unmarked;
    ShortUnmarked("VEVENT");
    ShortUnmarked("UID:U");
    ShortUnmarked("SUMMARY:");
    ShortUnmarked("DTSTART:");
  }

  lemma AtMiddle(x: string, pat: string, y: string)
    ensures At(x + pat + y, pat, |x|)
  {
    assert (x + pat + y)[|x|..|x| + |pat|] == pat;
  }

  lemma {:induction false} EscapePlain(s: string)
    requires forall i :: 0 <= i < |s| ==> EscapedChar(s[i]) == [s[i]]
    ensures Escape(s) == s
  {
    if s != "" {
      EscapePlain(s[1..]);
      assert [s[0]] + s[1..] == s;
    }
  }
}
