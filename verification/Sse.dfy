/**
 The incremental parser of the agentic progress stream: a byte buffer, a splitter at blank
 lines (a subset of section 9.2.6 of the WHATWG HTML Living Standard) and a fold over the
 decoded events. JSON decoding is a parameter.
 */
module Sse {
  import opened Text
  import opened Utf8
  import opened Sequences

  /** The fields of a decoded JSON object that the parser looks at; `None` is absent or ill-typed. */
  datatype Event = Event(
    kind: Option<string>, toolName: Option<string>, durationMs: Option<nat>, status: Option<string>,
    guardName: Option<string>, action: Option<string>, response: Option<string>)

  /** A `None` is text that is not JSON. */
  type JsonDecoder = string -> Option<Event>

  datatype Step = Step(toolName: string, durationMs: nat, status: string)

  datatype SecurityEvent = SecurityEvent(guardName: string, action: string, toolName: string)

  /** Everything the events build up; `calls` lists the names given to the `on_tool` callback. */
  datatype Progress = Progress(
    response: Option<string>, execLog: seq<Step>, securityEvents: seq<SecurityEvent>, signaled: bool, calls: seq<string>)

  const START := Progress(None, [], [], false, [])

  const DELIM: seq<byte> := [LF, LF]

  // ---- framing ----

  ghost predicate DelimAt(b: seq<byte>, i: int) { 0 <= i && i + 1 < |b| && b[i] == LF && b[i + 1] == LF }

  ghost predicate NoDelim(b: seq<byte>) { forall i :: !DelimAt(b, i) }

  /** The first position of a delimiter, or the length of `b`. */
  function FindDelim(b: seq<byte>): (i: nat)
    ensures i <= |b| && (i < |b| ==> DelimAt(b, i))
    ensures forall j :: 0 <= j < i ==> !DelimAt(b, j)
  {
    if |b| < 2 then |b|
    else if b[0] == LF && b[1] == LF then 0
    else
      var i := 1 + FindDelim(b[1..]);
      assert forall j :: 0 <= j < i ==> !DelimAt(b, j) by {
        forall j | 0 <= j < i ensures !DelimAt(b, j) { if j > 0 { assert !DelimAt(b[1..], j - 1); } }
      }
      assert i < |b| ==> DelimAt(b[1..], i - 1);
      i
  }

  datatype Split = Split(frames: seq<seq<byte>>, rest: seq<byte>)

  /** All complete frames of `b`, and the bytes after the last delimiter. */
  function SplitFrames(b: seq<byte>): (r: Split)
    ensures NoDelim(r.rest)
  {
    var i := FindDelim(b);
    if i == |b| then Split([], b)
    else
      var r := SplitFrames(b[i + 2..]);
      Split([b[..i]] + r.frames, r.rest)
  }

  ghost function JoinFrames(frames: seq<seq<byte>>): seq<byte> {
    if frames == [] then [] else frames[0] + DELIM + JoinFrames(frames[1..])
  }

  /** No delimiter starts inside the frame, not even with its last byte. */
  ghost predicate FrameShape(f: seq<byte>) { NoDelim(f + [LF]) }

  /** The frame before the first delimiter. */
  lemma FirstFrame(b: seq<byte>)
    requires FindDelim(b) < |b|
    ensures var i := FindDelim(b); FrameShape(b[..i]) && b == b[..i] + DELIM + b[i + 2..]
  {
    hide FindDelim;
    var i := FindDelim(b);
    CutAt(b, i);
    DelimFree(b, i);
  }

  lemma CutAt(b: seq<byte>, i: nat)
    requires DelimAt(b, i)
    ensures b == b[..i] + DELIM + b[i + 2..]
  {
    assert b[i..] == DELIM + b[i + 2..];
  }

  lemma DelimFree(b: seq<byte>, i: nat)
    requires i < |b| && b[i] == LF && forall j :: 0 <= j < i ==> !DelimAt(b, j)
    ensures FrameShape(b[..i])
  {
    var f := b[..i] + [LF];
    forall j ensures !DelimAt(f, j) { if 0 <= j < i { assert !DelimAt(b, j); } }
  }

  /** A frame of the right shape, once delimited, is the first one split off. */
  lemma SplitStep(f: seq<byte>, b: seq<byte>)
    requires FrameShape(f)
    ensures SplitFrames(f + DELIM + b) == Split([f] + SplitFrames(b).frames, SplitFrames(b).rest)
  {
    var s := f + DELIM + b;
    forall j | 0 <= j < |f| ensures !DelimAt(s, j) { assert !DelimAt(f + [LF], j); }
    assert DelimAt(s, |f|);
    assert FindDelim(s) == |f| && s[..|f|] == f && s[|f| + 2..] == b;
  }

  /** Splitting loses nothing, and cuts at the first delimiter each time. */
  lemma {:induction false} SplitSound(b: seq<byte>)
    ensures var r := SplitFrames(b);
            && JoinFrames(r.frames) + r.rest == b
            && forall k :: 0 <= k < |r.frames| ==> FrameShape(r.frames[k])
  {
    hide FindDelim, NoDelim, FrameShape, SplitFrames;
    var i := FindDelim(b);
    if i < |b| {
      var f, tail := b[..i], SplitFrames(b[i + 2..]);
      SplitUnfold(b);
      FirstFrame(b);
      SplitSound(b[i + 2..]);
      assert ([f] + tail.frames)[1..] == tail.frames;
      calc {
        JoinFrames([f] + tail.frames) + tail.rest;
        f + DELIM + JoinFrames(tail.frames) + tail.rest;
        f + DELIM + (JoinFrames(tail.frames) + tail.rest);
      }
    } else {
      NothingToSplit(b);
      assert JoinFrames([]) + b == b;
    }
  }

  /** There is only one way to cut bytes into frames of this shape and a rest without delimiter. */
  lemma {:induction false} SplitUnique(frames: seq<seq<byte>>, rest: seq<byte>)
    requires NoDelim(rest) && forall k :: 0 <= k < |frames| ==> FrameShape(frames[k])
    ensures SplitFrames(JoinFrames(frames) + rest) == Split(frames, rest)
  {
    if frames == [] {
      assert JoinFrames(frames) + rest == rest;
      assert !DelimAt(rest, FindDelim(rest));
    } else {
      var tail := JoinFrames(frames[1..]) + rest;
      assert JoinFrames(frames) + rest == frames[0] + DELIM + tail;
      SplitStep(frames[0], tail);
      SplitUnique(frames[1..], rest);
      assert [frames[0]] + frames[1..] == frames;
    }
  }

  lemma NothingToSplit(b: seq<byte>)
    requires FindDelim(b) == |b|
    ensures SplitFrames(b) == Split([], b)
  {
  }

  lemma SplitUnfold(b: seq<byte>)
    requires FindDelim(b) < |b|
    ensures var i := FindDelim(b);
            SplitFrames(b) == Split([b[..i]] + SplitFrames(b[i + 2..]).frames, SplitFrames(b[i + 2..]).rest)
  {
  }

  /** The heart of chunk independence: splitting can stop anywhere and go on later. */
  lemma {:induction false} SplitResumes(a: seq<byte>, b: seq<byte>)
    ensures var first := SplitFrames(a);
            var second := SplitFrames(first.rest + b);
            SplitFrames(a + b) == Split(first.frames + second.frames, second.rest)
  {
    hide FindDelim, NoDelim, FrameShape, SplitFrames;
    var i := FindDelim(a);
    if i < |a| {
      var f, tail := a[..i], a[i + 2..];
      FirstFrame(a);
      SplitResumes(tail, b);
      SplitStep(f, tail);
      SplitStep(f, tail + b);
      assert a + b == f + DELIM + (tail + b);
      var first := SplitFrames(tail);
      var second := SplitFrames(first.rest + b);
      assert [f] + (first.frames + second.frames) == [f] + first.frames + second.frames;
    } else {
      NothingToSplit(a);
      assert [] + SplitFrames(a + b).frames == SplitFrames(a + b).frames;
    }
  }

  // ---- events ----

  /** The position of the latest untimed step of the given name, or the length of the log. */
  function LatestUntimed(log: seq<Step>, name: string): (i: nat)
    ensures i <= |log|
    ensures i < |log| ==> log[i].durationMs == 0 && log[i].toolName == name
    ensures forall j :: 0 <= j < |log| && (j > i || i == |log|) ==> !(log[j].durationMs == 0 && log[j].toolName == name)
  {
    LatestUntimedIn(log, name, |log|)
  }

  function LatestUntimedIn(log: seq<Step>, name: string, n: nat): (i: nat)
    requires n <= |log|
    ensures i < n || i == |log|
    ensures i < |log| ==> log[i].durationMs == 0 && log[i].toolName == name
    ensures forall j :: 0 <= j < n && (j > i || i == |log|) ==> !(log[j].durationMs == 0 && log[j].toolName == name)
  {
    if n == 0 then |log|
    else if log[n - 1].durationMs == 0 && log[n - 1].toolName == name then n - 1
    else LatestUntimedIn(log, name, n - 1)
  }

  function Started(e: Event): bool { e.kind == Some("tool_call_started") }

  function Completed(e: Event): bool { e.kind == Some("tool_call_complete") }

  function Final(e: Event): bool { e.kind == Some("complete") }

  function Apply(p: Progress, e: Event): Progress {
    if Started(e) then
      var name := GetOr(e.toolName, "");
      p.(execLog := p.execLog + [Step(name, 0, "ok")],
         signaled := true,
         calls := if p.signaled then p.calls else p.calls + [name])
    else if Completed(e) then
      var i := LatestUntimed(p.execLog, GetOr(e.toolName, ""));
      if i == |p.execLog| then p
      else p.(execLog := p.execLog[i := Step(p.execLog[i].toolName, GetOr(e.durationMs, 0), GetOr(e.status, "ok"))])
    else if e.kind == Some("security_event_occurred") then
      p.(securityEvents := p.securityEvents
                           + [SecurityEvent(GetOr(e.guardName, ""), GetOr(e.action, ""), GetOr(e.toolName, ""))])
    else if Final(e) then
      p.(response := Some(GetOr(e.response, "")))
    else p
  }

  function Fold(p: Progress, events: seq<Event>): Progress
    decreases events
  {
    if events == [] then p else Fold(Apply(p, events[0]), events[1..])
  }

  // ---- frames to events ----

  const DATA := "data:"

  function Payload(lines: seq<string>): string {
    if lines == [] then ""
    else LinePayload(lines[0]) + Payload(lines[1..])
  }

  function LinePayload(line: string): string { if DATA <= line then TrimStart(line[5..]) else "" }

  /** The event of a frame, if it is valid UTF-8 and carries a payload that decodes. */
  function EventOf(decode: JsonDecoder, frame: seq<byte>): Option<Event> {
    if !Valid(frame) then None
    else
      var payload := Payload(Lines(Utf8.Decode(frame)));
      if payload == "" then None else decode(payload)
  }

  function Singleton(e: Option<Event>): seq<Event> { if e.Some? then [e.value] else [] }

  function EventsOf(decode: JsonDecoder, frames: seq<seq<byte>>): seq<Event> {
    if frames == [] then [] else Singleton(EventOf(decode, frames[0])) + EventsOf(decode, frames[1..])
  }

  lemma {:induction false} EventsOfConcat(decode: JsonDecoder, a: seq<seq<byte>>, b: seq<seq<byte>>)
    ensures EventsOf(decode, a + b) == EventsOf(decode, a) + EventsOf(decode, b)
  {
    hide EventOf, Singleton;
    if a == [] {
      assert a + b == b;
    } else {
      assert (a + b)[1..] == a[1..] + b && (a + b)[0] == a[0];
      EventsOfConcat(decode, a[1..], b);
    }
  }

  lemma {:induction false} FoldConcat(p: Progress, a: seq<Event>, b: seq<Event>)
    ensures Fold(p, a + b) == Fold(Fold(p, a), b)
    decreases a
  {
    if a == [] {
      assert a + b == b;
    } else {
      assert (a + b)[1..] == a[1..] + b;
      FoldConcat(Apply(p, a[0]), a[1..], b);
    }
  }

  // ---- the parser ----

  class AgenticSseState {
    var buf: seq<byte>
    var response: Option<string>
    var execLog: seq<Step>
    var securityEvents: seq<SecurityEvent>
    var signaled: bool
    var calls: seq<string>
    const decode: JsonDecoder

    constructor (decode: JsonDecoder)
      ensures buf == [] && View() == START && this.decode == decode
    {
      this.decode := decode;
      buf, response, execLog, securityEvents, signaled, calls := [], None, [], [], false, [];
    }

    ghost function View(): Progress
      reads this
    {
      Progress(response, execLog, securityEvents, signaled, calls)
    }

    /** `push_chunk`: append, then drain and handle one complete frame after another. */
    method PushChunk(chunk: seq<byte>)
      modifies this
      ensures Pushed(decode, Parser(old(buf), old(View())), chunk) == Parser(buf, View())
    {
      hide SplitFrames, FindDelim, EventsOf, Handled, Fold, Apply, Valid;
      ghost var before := View();
      buf := buf + chunk;
      ghost var whole := SplitFrames(buf);
      var idx := FindDelim(buf);
      while idx < |buf|
        invariant idx == FindDelim(buf)
        invariant SplitFrames(buf).rest == whole.rest
        invariant Fold(before, EventsOf(decode, whole.frames))
                  == Fold(View(), EventsOf(decode, SplitFrames(buf).frames))
        decreases |buf|
      {
        SplitUnfold(buf);
        ghost var view := View();
        var drained := buf[..idx + 2];
        var frame := drained[..idx];
        assert frame == buf[..idx];
        buf := buf[idx + 2..];
        FoldFrame(decode, view, frame, SplitFrames(buf).frames);
        if Valid(frame) {
          HandleFrame(Utf8.Decode(frame));
        }
        ApplyFrame(decode, view, frame);
        idx := FindDelim(buf);
      }
      NothingToSplit(buf);
      FoldNothing(decode, View());
    }

    /** `handle_frame`: collect the payload of the `data:` lines, decode it, act on the event. */
    method HandleFrame(frame: string)
      modifies this
      ensures buf == old(buf)
      ensures View() == (var payload := Payload(Lines(frame));
                         if payload == "" || decode(payload).None? then old(View())
                         else Apply(old(View()), decode(payload).value))
    {
      hide Payload, Lines, LatestUntimed;
      var payload := JoinData(Lines(frame));
      if payload == "" { return; }
      var decoded := decode(payload);
      if decoded.None? { return; }
      var e := decoded.value;
      match e.kind
      case Some("tool_call_started") =>
        var name := GetOr(e.toolName, "");
        execLog := execLog + [Step(name, 0, "ok")];
        if !signaled {
          signaled := true;
          calls := calls + [name];
        }
      case Some("tool_call_complete") =>
        var i := FindStep(GetOr(e.toolName, ""));
        if i < |execLog| {
          execLog := execLog[i := execLog[i].(durationMs := GetOr(e.durationMs, 0), status := GetOr(e.status, "ok"))];
        }
      case Some("security_event_occurred") =>
        securityEvents := securityEvents
          + [SecurityEvent(GetOr(e.guardName, ""), GetOr(e.action, ""), GetOr(e.toolName, ""))];
      case Some("complete") =>
        response := Some(GetOr(e.response, ""));
      case _ =>
    }

    /** Joins what follows `data:` on each line that starts with it. */
    static method JoinData(lines: seq<string>) returns (payload: string)
      ensures payload == Payload(lines)
    {
      hide TrimStart;
      payload := "";
      for k := 0 to |lines|
        invariant payload + Payload(lines[k..]) == Payload(lines)
      {
        if DATA <= lines[k] {
          payload := payload + TrimStart(lines[k][5..]);
        }
        assert lines[k..][1..] == lines[k + 1..];
      }
      assert lines[|lines|..] == [];
    }

    /** The reverse search for a step that is not timed yet. */
    method FindStep(name: string) returns (i: nat)
      ensures i == LatestUntimed(execLog, name)
    {
      i := |execLog|;
      var n: nat := |execLog|;
      while n > 0
        invariant n <= |execLog|
        invariant LatestUntimed(execLog, name) == LatestUntimedIn(execLog, name, n)
      {
        n := n - 1;
        if execLog[n].durationMs == 0 && execLog[n].toolName == name { return n; }
      }
    }

    /** `finish`. */
    method Finish() returns (r: Option<(string, seq<Step>, seq<SecurityEvent>)>)
      ensures r == Finished(View())
    {
      match response
      case Some(text) => r := Some((text, execLog, securityEvents));
      case None => r := None;
    }
  }

  /** The parser's whole state as a value: the buffer and what has been built up. */
  datatype Parser = Parser(buf: seq<byte>, progress: Progress)

  /** What one `PushChunk` does. */
  ghost function Pushed(decode: JsonDecoder, s: Parser, chunk: seq<byte>): Parser {
    var r := SplitFrames(s.buf + chunk);
    Parser(r.rest, Fold(s.progress, EventsOf(decode, r.frames)))
  }

  ghost function PushedAll(decode: JsonDecoder, s: Parser, chunks: seq<seq<byte>>): Parser
    decreases chunks
  {
    if chunks == [] then s else PushedAll(decode, Pushed(decode, s, chunks[0]), chunks[1..])
  }

  function Finished(p: Progress): Option<(string, seq<Step>, seq<SecurityEvent>)> {
    if p.response.Some? then Some((p.response.value, p.execLog, p.securityEvents)) else None
  }

  /** The effect of one frame, in the terms of `HandleFrame`. */
  function Handled(decode: JsonDecoder, p: Progress, frame: seq<byte>): Progress {
    var e := EventOf(decode, frame);
    if e.Some? then Apply(p, e.value) else p
  }

  lemma FoldFrame(decode: JsonDecoder, p: Progress, frame: seq<byte>, frames: seq<seq<byte>>)
    ensures Fold(p, EventsOf(decode, [frame] + frames)) == Fold(Handled(decode, p, frame), EventsOf(decode, frames))
  {
    hide EventOf, Apply;
    var e := EventOf(decode, frame);
    assert ([frame] + frames)[1..] == frames;
    if e.Some? { assert ([e.value] + EventsOf(decode, frames))[1..] == EventsOf(decode, frames); }
    else { assert [] + EventsOf(decode, frames) == EventsOf(decode, frames); }
  }

  lemma ApplyFrame(decode: JsonDecoder, p: Progress, frame: seq<byte>)
    ensures !Valid(frame) ==> Handled(decode, p, frame) == p
    ensures Valid(frame) ==>
              Handled(decode, p, frame)
              == (var payload := Payload(Lines(Utf8.Decode(frame)));
                  if payload == "" || decode(payload).None? then p else Apply(p, decode(payload).value))
  {
  }

  lemma FoldNothing(decode: JsonDecoder, p: Progress)
    ensures Fold(p, EventsOf(decode, [])) == p
  {
  }

  // ---- main results: framing ----

  /** Two pushes are one push of the joined bytes, from any state whatever. */
  lemma PushTwice(decode: JsonDecoder, s: Parser, a: seq<byte>, b: seq<byte>)
    ensures Pushed(decode, Pushed(decode, s, a), b) == Pushed(decode, s, a + b)
  {
    hide SplitFrames, EventsOf, Fold;
    var first := SplitFrames(s.buf + a);
    var second := SplitFrames(first.rest + b);
    SplitResumes(s.buf + a, b);
    assert s.buf + a + b == s.buf + (a + b);
    EventsOfConcat(decode, first.frames, second.frames);
    FoldConcat(s.progress, EventsOf(decode, first.frames), EventsOf(decode, second.frames));
  }

  /**
   However the network cuts the stream, the parser ends in the same state: buffer, log,
   security events, response and callback calls are those of pushing the stream at once.
   */
  lemma {:induction false} ChunkIndependence(decode: JsonDecoder, s: Parser, chunks: seq<seq<byte>>)
    requires NoDelim(s.buf)
    ensures PushedAll(decode, s, chunks) == Pushed(decode, s, Flatten(chunks))
    ensures NoDelim(PushedAll(decode, s, chunks).buf)
    decreases chunks
  {
    if chunks == [] {
      SplitUnique([], s.buf);
      assert JoinFrames([]) + s.buf == s.buf == s.buf + [];
    } else {
      ChunkIndependence(decode, Pushed(decode, s, chunks[0]), chunks[1..]);
      PushTwice(decode, s, chunks[0], Flatten(chunks[1..]));
    }
  }

  /** In particular a stream of frames, cut anywhere, folds exactly the events of those frames. */
  lemma StreamOfFrames(decode: JsonDecoder, frames: seq<seq<byte>>, rest: seq<byte>, chunks: seq<seq<byte>>)
    requires NoDelim(rest) && forall k :: 0 <= k < |frames| ==> FrameShape(frames[k])
    requires Flatten(chunks) == JoinFrames(frames) + rest
    ensures PushedAll(decode, Parser([], START), chunks) == Parser(rest, Fold(START, EventsOf(decode, frames)))
  {
    ChunkIndependence(decode, Parser([], START), chunks);
    SplitUnique(frames, rest);
    assert [] + Flatten(chunks) == Flatten(chunks);
  }

  // ---- main results: UTF-8 ----

  /**
   A stream is valid UTF-8 exactly when each of its frames and the rest are: no frame of a
   valid stream is dropped at decoding, wherever the chunks were cut.
   */
  lemma {:induction false} FramesAreUtf8(b: seq<byte>)
    ensures Valid(b) <==> Valid(SplitFrames(b).rest) && AllValid(SplitFrames(b).frames)
  {
    hide FindDelim, NoDelim, FrameShape, Valid, SplitFrames, AllValid;
    var i := FindDelim(b);
    if i < |b| {
      FirstFrame(b);
      SplitUnfold(b);
      FramesAreUtf8(b[i + 2..]);
      Delimited(b[..i], b[i + 2..]);
      AllValidCons(b[..i], SplitFrames(b[i + 2..]).frames);
    } else {
      NothingToSplit(b);
      AllValidNone();
    }
  }

  ghost predicate AllValid(frames: seq<seq<byte>>) { forall k :: 0 <= k < |frames| ==> Valid(frames[k]) }

  lemma AllValidNone()
    ensures AllValid([])
  {
  }

  lemma AllValidCons(f: seq<byte>, frames: seq<seq<byte>>)
    ensures AllValid([f] + frames) <==> Valid(f) && AllValid(frames)
  {
    var all := [f] + frames;
    assert all[0] == f && forall k :: 0 <= k < |frames| ==> all[k + 1] == frames[k];
    if AllValid(all) { forall k | 0 <= k < |frames| ensures Valid(frames[k]) { assert Valid(all[k + 1]); } }
  }

  lemma Delimited(f: seq<byte>, b: seq<byte>)
    ensures Valid(f + DELIM + b) <==> Valid(f) && Valid(b)
  {
    var s := f + (DELIM + b);
    assert f + DELIM + b == s;
    assert DELIM[1..] == [LF] && [LF][1..] == [] && Valid([LF]) && Valid(DELIM);
    Concat(DELIM, b);
    if Valid(s) { BoundaryCut(s, |f|); assert s[|f|..] == DELIM + b && s[..|f|] == f; }
    if Valid(f) { Concat(f, DELIM + b); }
  }

  // ---- main results: a server's stream ----

  /** A line a server may write: a piece of payload, or a line the parser passes over. */
  datatype Field = Data(piece: string) | Other(text: string)

  predicate FieldOk(f: Field) {
    match f
    case Data(p) => WholeLine(p)
    case Other(t) => WholeLine(t) && t != "" && !(DATA <= t)
  }

  ghost predicate FieldsOk(fields: seq<Field>) { forall f :: f in fields ==> FieldOk(f) }

  /** No line feed inside and no carriage return at the end. */
  predicate WholeLine(l: string) { '\n' !in l && StripCr(l) == l }

  function LineText(f: Field): string { match f case Data(p) => "data: " + p case Other(t) => t }

  function FieldLines(fields: seq<Field>): seq<string> {
    if fields == [] then [] else [LineText(fields[0])] + FieldLines(fields[1..])
  }

  function FrameText(lines: seq<string>): string {
    if lines == [] then "" else if |lines| == 1 then lines[0] else lines[0] + "\n" + FrameText(lines[1..])
  }

  /** The pieces put together, each without the white space it starts with. */
  function Pieces(fields: seq<Field>): string {
    if fields == [] then "" else (if fields[0].Data? then TrimStart(fields[0].piece) else "") + Pieces(fields[1..])
  }

  function PrintedFrame(fields: seq<Field>): seq<byte> { Encode(FrameText(FieldLines(fields))) }

  ghost predicate FrameLines(lines: seq<string>) { forall l :: l in lines ==> l != "" && WholeLine(l) }

  lemma {:induction false} FieldLinesOk(fields: seq<Field>)
    requires FieldsOk(fields)
    ensures FrameLines(FieldLines(fields))
    ensures Payload(FieldLines(fields)) == Pieces(fields)
  {
    hide TrimStart;
    if fields != [] {
      FieldLinesOk(fields[1..]);
      FieldLineOk(fields[0]);
    }
  }

  lemma FieldLineOk(f: Field)
    requires FieldOk(f)
    ensures LineText(f) != "" && WholeLine(LineText(f))
    ensures LinePayload(LineText(f)) == if f.Data? then TrimStart(f.piece) else ""
  {
    if f.Data? {
      DataFieldOk(f.piece);
      hide *;
      LineTextIs(f);
    } else {
      OtherLine(f.text);
      hide WholeLine, LinePayload;
    }
  }

  lemma LineTextIs(f: Field)
    ensures f.Data? ==> LineText(f) == "data: " + f.piece && LineText(f) != ""
  {
  }

  lemma OtherLine(t: string)
    requires !(DATA <= t)
    ensures LinePayload(t) == ""
  {
  }

  lemma DataFieldOk(p: string)
    requires WholeLine(p)
    ensures WholeLine("data: " + p) && LinePayload("data: " + p) == TrimStart(p)
  {
    DataLine(p);
    hide TrimStart, StripCr;
  }

  lemma DataLine(piece: string)
    ensures var l := "data: " + piece;
            && DATA <= l && TrimStart(l[5..]) == TrimStart(piece)
            && (StripCr(piece) == piece ==> StripCr(l) == l)
  {
    var l := "data: " + piece;
    assert l[..5] == DATA && l[5..] == " " + piece && l[5..][1..] == piece;
    assert l[|l| - 1] == if piece == "" then ' ' else piece[|piece| - 1];
    SpaceGoes(piece);
  }

  lemma SpaceGoes(s: string)
    ensures TrimStart(" " + s) == TrimStart(s)
  {
    assert (" " + s)[1..] == s;
  }

  lemma {:induction false} LinesOfFrame(lines: seq<string>)
    requires FrameLines(lines)
    ensures Lines(FrameText(lines)) == lines
  {
    hide StripCr;
    if |lines| == 1 {
      assert lines[0] in lines && [lines[0]] == lines;
    } else if |lines| > 1 {
      var l, rest := lines[0], FrameText(lines[1..]);
      LinesOfFrame(lines[1..]);
      assert l in lines;
      IndexOfFirst(l, '\n', rest);
      var s := l + ['\n'] + rest;
      assert s == FrameText(lines) && s[..|l|] == l && s[|l| + 1..] == rest;
    }
  }

  /** No empty line inside. */
  predicate NoBlankLine(s: string) { forall i :: 0 <= i && i + 1 < |s| ==> s[i] != '\n' || s[i + 1] != '\n' }

  lemma {:induction false} FrameHasNoBlankLine(lines: seq<string>)
    requires FrameLines(lines)
    ensures var s := FrameText(lines) + "\n";
            NoBlankLine(s) && (lines != [] ==> s[0] != '\n')
  {
    if |lines| == 1 {
      assert lines[0] in lines;
    } else if |lines| > 1 {
      var l, rest := lines[0], FrameText(lines[1..]) + "\n";
      FrameHasNoBlankLine(lines[1..]);
      assert l in lines;
      assert FrameText(lines) + "\n" == l + ("\n" + rest);
    }
  }

  lemma EncodedHead(c: char)
    ensures EncodeChar(c)[0] == LF <==> c == '\n'
    ensures forall i :: 0 <= i < |EncodeChar(c)| ==> EncodeChar(c)[i] == LF ==> c == '\n' && |EncodeChar(c)| == 1
  {
  }

  lemma {:induction false} EncodedNoDelim(s: string)
    requires NoBlankLine(s)
    ensures NoDelim(Encode(s)) && (s != "" ==> Encode(s) != [] && (Encode(s)[0] == LF <==> s[0] == '\n'))
  {
    if s != "" {
      var head, rest := EncodeChar(s[0]), Encode(s[1..]);
      assert forall i :: 0 <= i < |s| - 1 ==> s[1..][i] == s[i + 1];
      EncodedNoDelim(s[1..]);
      EncodedHead(s[0]);
      forall i ensures !DelimAt(head + rest, i) {
        if i >= |head| { assert !DelimAt(rest, i - |head|); }
      }
    }
  }

  lemma PrintedShape(fields: seq<Field>)
    requires FieldsOk(fields)
    ensures FrameShape(PrintedFrame(fields))
  {
    FieldLinesOk(fields);
    var s := FrameText(FieldLines(fields));
    FrameHasNoBlankLine(FieldLines(fields));
    EncodedNoDelim(s + "\n");
    EncodeConcat(s, "\n");
    assert Encode("\n") == [LF];
  }

  /** What the server means by a frame: its pieces, put together and decoded. */
  function Meant(decode: JsonDecoder, fields: seq<Field>): Option<Event> {
    if Pieces(fields) == "" then None else decode(Pieces(fields))
  }

  lemma EventOfPrinted(decode: JsonDecoder, fields: seq<Field>)
    requires FieldsOk(fields)
    ensures EventOf(decode, PrintedFrame(fields)) == Meant(decode, fields)
  {
    FieldLinesOk(fields);
    LinesOfFrame(FieldLines(fields));
    DecodeOfEncode(FrameText(FieldLines(fields)));
    hide Encode, Decode, Valid, Lines, Payload, FrameText, FieldLines, Pieces, FieldsOk;
  }

  function PrintedFrames(messages: seq<seq<Field>>): seq<seq<byte>> {
    if messages == [] then [] else [PrintedFrame(messages[0])] + PrintedFrames(messages[1..])
  }

  function MeantAll(decode: JsonDecoder, messages: seq<seq<Field>>): seq<Event> {
    if messages == [] then [] else Singleton(Meant(decode, messages[0])) + MeantAll(decode, messages[1..])
  }

  ghost predicate AllOk(messages: seq<seq<Field>>) { forall m :: m in messages ==> FieldsOk(m) }

  lemma {:induction false} PrintedFramesRead(decode: JsonDecoder, messages: seq<seq<Field>>)
    requires AllOk(messages)
    ensures EventsOf(decode, PrintedFrames(messages)) == MeantAll(decode, messages)
    ensures forall k :: 0 <= k < |PrintedFrames(messages)| ==> FrameShape(PrintedFrames(messages)[k])
  {
    hide FieldsOk, PrintedFrame, EventOf, Meant, FrameShape, Singleton;
    if messages != [] {
      assert messages[0] in messages;
      PrintedShape(messages[0]);
      EventOfPrinted(decode, messages[0]);
      PrintedFramesRead(decode, messages[1..]);
      assert PrintedFrames(messages)[1..] == PrintedFrames(messages[1..]);
    }
  }

  /**
   End to end: whatever a server writes as frames of `data:` lines, in UTF-8, each ended by a
   blank line, and wherever the network cuts it, the parser folds exactly the events meant.
   */
  lemma StreamOfMessages(decode: JsonDecoder, messages: seq<seq<Field>>, chunks: seq<seq<byte>>)
    requires AllOk(messages) && Flatten(chunks) == JoinFrames(PrintedFrames(messages))
    ensures PushedAll(decode, Parser([], START), chunks) == Parser([], Fold(START, MeantAll(decode, messages)))
  {
    PrintedFramesRead(decode, messages);
    hide AllOk, PrintedFrames, MeantAll, PushedAll, EventsOf, FrameShape;
    assert JoinFrames(PrintedFrames(messages)) + [] == JoinFrames(PrintedFrames(messages));
    StreamOfFrames(decode, PrintedFrames(messages), [], chunks);
  }

  // ---- main results: the event fold ----

  ghost function StartedNames(events: seq<Event>): seq<string> {
    if events == [] then []
    else (if Started(events[0]) then [GetOr(events[0].toolName, "")] else []) + StartedNames(events[1..])
  }

  ghost function LogNames(log: seq<Step>): seq<string> { seq(|log|, i requires 0 <= i < |log| => log[i].toolName) }

  /** One log entry per started tool, in order and under its name. */
  lemma {:induction false} LogFollowsStarts(p: Progress, events: seq<Event>)
    ensures LogNames(Fold(p, events).execLog) == LogNames(p.execLog) + StartedNames(events)
    decreases events
  {
    if events != [] {
      var q := Apply(p, events[0]);
      LogFollowsStarts(q, events[1..]);
      if Started(events[0]) {
        assert LogNames(q.execLog) == LogNames(p.execLog) + [GetOr(events[0].toolName, "")];
      } else {
        assert LogNames(q.execLog) == LogNames(p.execLog);
      }
    }
  }

  /**
   A completion changes nothing but the latest untimed entry of its name, and that entry's
   duration and status become the reported ones; without such an entry it changes nothing.
   */
  lemma CompletionTouchesLatest(p: Progress, e: Event)
    requires Completed(e)
    ensures var log, log', name := p.execLog, Apply(p, e).execLog, GetOr(e.toolName, "");
            && Apply(p, e) == p.(execLog := log') && |log'| == |log|
            && forall i :: 0 <= i < |log| ==>
                 log'[i] == if && log[i].durationMs == 0 && log[i].toolName == name
                               && forall j :: i < j < |log| ==> !(log[j].durationMs == 0 && log[j].toolName == name)
                            then Step(name, GetOr(e.durationMs, 0), GetOr(e.status, "ok"))
                            else log[i]
  {
    var i := LatestUntimed(p.execLog, GetOr(e.toolName, ""));
  }

  /** An entry that has a duration is never written again, whatever events follow. */
  lemma {:induction false} TimedStepsStay(p: Progress, events: seq<Event>, i: nat)
    requires i < |p.execLog| && p.execLog[i].durationMs != 0
    ensures var log := Fold(p, events).execLog; i < |log| && log[i] == p.execLog[i]
    decreases events
  {
    if events != [] { TimedStepsStay(Apply(p, events[0]), events[1..], i); }
  }

  ghost predicate TimedBy(s: Step, e: Event) {
    Completed(e) && s == Step(GetOr(e.toolName, ""), GetOr(e.durationMs, 0), GetOr(e.status, "ok"))
  }

  /** A log entry is as it was, as a start makes it, or as some completion of its name reports it. */
  ghost predicate Accounted(p: Progress, events: seq<Event>, i: nat, s: Step) {
    || (i < |p.execLog| && s == p.execLog[i])
    || (i >= |p.execLog| && s.durationMs == 0 && s.status == "ok")
    || exists k :: 0 <= k < |events| && TimedBy(s, events[k])
  }

  /** Nothing in the log is made up: every entry's duration and status come from its start or a completion. */
  lemma {:induction false} LogIsAccounted(p: Progress, events: seq<Event>)
    ensures var log := Fold(p, events).execLog;
            |p.execLog| <= |log| && forall i :: 0 <= i < |log| ==> Accounted(p, events, i, log[i])
    decreases events
  {
    if events != [] {
      var q, tail, log := Apply(p, events[0]), events[1..], Fold(p, events).execLog;
      LogIsAccounted(q, tail);
      forall i | 0 <= i < |log| ensures Accounted(p, events, i, log[i]) {
        assert Accounted(q, tail, i, log[i]);
        if k :| 0 <= k < |tail| && TimedBy(log[i], tail[k]) {
          assert TimedBy(log[i], events[k + 1]);
        } else if i < |q.execLog| && log[i] == q.execLog[i] {
          StepAccounted(p, events[0], i);
          if TimedBy(log[i], events[0]) { assert 0 <= 0 < |events|; }
        }
      }
    }
  }

  lemma StepAccounted(p: Progress, e: Event, i: nat)
    requires i < |Apply(p, e).execLog|
    ensures |p.execLog| <= |Apply(p, e).execLog|
    ensures var s := Apply(p, e).execLog[i];
            || (i < |p.execLog| && s == p.execLog[i])
            || (i >= |p.execLog| && s.durationMs == 0 && s.status == "ok")
            || TimedBy(s, e)
  {
  }

  /** The security events, as reported, in order. */
  ghost function Reported(events: seq<Event>): seq<Event> {
    if events == [] then []
    else (if events[0].kind == Some("security_event_occurred") then [events[0]] else []) + Reported(events[1..])
  }

  lemma {:induction false} SecurityFollowsReports(events: seq<Event>)
    ensures var found, reported := Fold(START, events).securityEvents, Reported(events);
            && |found| == |reported|
            && forall i :: 0 <= i < |found| ==>
                 && found[i].guardName == GetOr(reported[i].guardName, "")
                 && found[i].action == GetOr(reported[i].action, "")
                 && found[i].toolName == GetOr(reported[i].toolName, "")
  {
    SecurityFrom(START, events);
  }

  lemma {:induction false} SecurityFrom(p: Progress, events: seq<Event>)
    ensures var found, reported, n := Fold(p, events).securityEvents, Reported(events), |p.securityEvents|;
            && |found| == n + |reported| && p.securityEvents <= found
            && forall i :: 0 <= i < |reported| ==>
                 found[n + i] == SecurityEvent(GetOr(reported[i].guardName, ""), GetOr(reported[i].action, ""),
                                               GetOr(reported[i].toolName, ""))
    decreases events
  {
    if events != [] {
      var q := Apply(p, events[0]);
      SecurityFrom(q, events[1..]);
    }
  }

  /** The callback runs once, with the first started tool's name, or never. */
  lemma CallbackOnce(events: seq<Event>)
    ensures var names := StartedNames(events);
            Fold(START, events).calls == if names == [] then [] else [names[0]]
  {
    CallbackFrom(START, events);
  }

  lemma {:induction false} CallbackFrom(p: Progress, events: seq<Event>)
    ensures var names := StartedNames(events);
            Fold(p, events).calls == if p.signaled || names == [] then p.calls else p.calls + [names[0]]
    decreases events
  {
    if events != [] { CallbackFrom(Apply(p, events[0]), events[1..]); }
  }

  ghost predicate LastFinal(events: seq<Event>, i: nat) {
    i < |events| && Final(events[i]) && forall j :: i < j < |events| ==> !Final(events[j])
  }

  /** `finish` succeeds exactly when a `complete` event was seen, with the text of the last one. */
  lemma FinishIffComplete(events: seq<Event>)
    ensures var p := Fold(START, events);
            && (Finished(p).Some? <==> exists i :: 0 <= i < |events| && Final(events[i]))
            && (forall i: nat :: LastFinal(events, i) ==>
                  Finished(p) == Some((GetOr(events[i].response, ""), p.execLog, p.securityEvents)))
  {
    ResponseFrom(START, events);
  }

  lemma {:induction false} ResponseFrom(p: Progress, events: seq<Event>)
    ensures var r := Fold(p, events).response;
            && ((forall i :: 0 <= i < |events| ==> !Final(events[i])) ==> r == p.response)
            && ((exists i :: 0 <= i < |events| && Final(events[i])) ==> r.Some?)
            && (forall i: nat :: LastFinal(events, i) ==> r == Some(GetOr(events[i].response, "")))
    decreases events
  {
    if events != [] {
      var tail := events[1..];
      ResponseFrom(Apply(p, events[0]), tail);
      forall i: nat | LastFinal(events, i)
        ensures Fold(p, events).response == Some(GetOr(events[i].response, ""))
      {
        if i > 0 {
          assert LastFinal(tail, i - 1);
        } else {
          assert forall j :: 0 <= j < |tail| ==> tail[j] == events[j + 1];
        }
      }
      if i :| 0 <= i < |events| && Final(events[i]) {
        if i > 0 { assert Final(tail[i - 1]); }
        else if k :| 0 <= k < |tail| && Final(tail[k]) {}
      }
    }
  }
}
