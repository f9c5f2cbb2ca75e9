/**
 The usage of a streamed answer, read event by event as it passes (scripts/misura_m14_3.py,
 `SseUsage` and `usage`).

 The text is ASCII, so that a chunk decodes by itself. The framing is the part of section 9.2.6 of
 the WHATWG HTML standard in which every line ends with a line feed: a blank line ends an event.
 What the JSON of a data line says is a parameter.
 */
module Sse {
  import opened Options
  import opened Calls

  // ------------------------------------------------------------------------------------------
  // What a frame says
  // ------------------------------------------------------------------------------------------

  /** The numbers a `usage` object holds; `None` for a key it lacks, or that is null. */
  datatype Usage = Usage(input: Option<nat>, output: Option<nat>, cacheRead: Option<nat>,
                         write5m: Option<nat>, write1h: Option<nat>, creation: Option<nat>)

  datatype Frame =
    | Unread
    | MessageStart(usage: Usage)
    | ToolUse(name: string)
    | MessageDelta(stop: Option<string>, usage: Usage)
    | MessageStop
    | Error(kind: string)
    | Other

  /** Python's `found or known` on numbers: a zero is as good as nothing. */
  function OrKnown(found: Option<nat>, known: nat): nat {
    if found.Some? && found.value != 0 then found.value else known
  }

  /** `usage`: what an answer declares, over what was known; the numbers are repeated, not added. */
  function Used(call: Call, found: Usage): Call {
    var five := if found.write5m.None? && found.write1h.None? then found.creation else found.write5m;
    call.(inputTokens := OrKnown(found.input, call.inputTokens),
          outputTokens := OrKnown(found.output, call.outputTokens),
          cacheRead := OrKnown(found.cacheRead, call.cacheRead),
          cacheWrite5m := OrKnown(five, call.cacheWrite5m),
          cacheWrite1h := OrKnown(found.write1h, call.cacheWrite1h))
  }

  /** `_data`: what one frame does to the call. */
  function Applied(call: Call, frame: Frame): Call {
    match frame
    case Unread => call
    case MessageStart(found) => Used(call, found)
    case ToolUse(name) => call.(toolUses := call.toolUses + [name])
    case MessageDelta(stop, found) =>
      Used(call.(stopReason := if stop.Some? && stop.value != "" then stop else call.stopReason), found)
    case MessageStop => call.(complete := true)
    case Error(kind) => call.(errorType := Some(kind))
    case Other => call
  }

  function FramesRead(call: Call, frames: seq<Frame>): Call
    decreases |frames|
  {
    if frames == [] then call else Applied(FramesRead(call, frames[..|frames| - 1]), frames[|frames| - 1])
  }

  lemma {:induction false} FramesReadInTwo(call: Call, a: seq<Frame>, b: seq<Frame>)
    ensures FramesRead(call, a + b) == FramesRead(FramesRead(call, a), b)
    decreases |b|
  {
    if b == [] {
      assert a + b == a;
    } else {
      assert (a + b)[..|a + b| - 1] == a + b[..|b| - 1];
      FramesReadInTwo(call, a, b[..|b| - 1]);
    }
  }

  // ------------------------------------------------------------------------------------------
  // What frames declare
  // ------------------------------------------------------------------------------------------

  /** The numbers of a call that an answer declares. */
  datatype Part = InputTokens | OutputTokens | CacheRead | CacheWrite5m | CacheWrite1h

  function NumberOf(call: Call, part: Part): nat {
    match part
    case InputTokens => call.inputTokens
    case OutputTokens => call.outputTokens
    case CacheRead => call.cacheRead
    case CacheWrite5m => call.cacheWrite5m
    case CacheWrite1h => call.cacheWrite1h
  }

  /** The number a `usage` object declares: none for a zero. What it writes in the cache, without saying
      for how long, is written for five minutes. */
  function DeclaredBy(found: Usage, part: Part): Option<nat> {
    var key := match part
               case InputTokens => found.input
               case OutputTokens => found.output
               case CacheRead => found.cacheRead
               case CacheWrite5m =>
                 if found.write5m == None && found.write1h == None then found.creation else found.write5m
               case CacheWrite1h => found.write1h;
    if key == Some(0) then None else key
  }

  function Declares(frame: Frame, part: Part): Option<nat> {
    match frame
    case MessageStart(found) => DeclaredBy(found, part)
    case MessageDelta(_, found) => DeclaredBy(found, part)
    case _ => None
  }

  function Declared(frames: seq<Frame>, part: Part): seq<Option<nat>> {
    seq(|frames|, i requires 0 <= i < |frames| => Declares(frames[i], part))
  }

  /** The reason to stop that a frame tells, and the error. */
  function StopIn(frame: Frame): Option<Option<string>> {
    if frame.MessageDelta? && frame.stop.Some? && frame.stop.value != "" then Some(frame.stop) else None
  }

  function ErrorIn(frame: Frame): Option<Option<string>> {
    if frame.Error? then Some(Some(frame.kind)) else None
  }

  function Stops(frames: seq<Frame>): seq<Option<Option<string>>> {
    seq(|frames|, i requires 0 <= i < |frames| => StopIn(frames[i]))
  }

  function Errors(frames: seq<Frame>): seq<Option<Option<string>>> {
    seq(|frames|, i requires 0 <= i < |frames| => ErrorIn(frames[i]))
  }

  function ToolNames(frames: seq<Frame>): seq<string> {
    if frames == [] then []
    else (if frames[0].ToolUse? then [frames[0].name] else []) + ToolNames(frames[1..])
  }

  /** The last that was said, or what was known before when nothing was. */
  ghost predicate IsLastOf<T>(said: seq<Option<T>>, before: T, now: T) {
    || (now == before && forall i :: 0 <= i < |said| ==> said[i].None?)
    || exists i :: 0 <= i < |said| && said[i] == Some(now) && forall j :: i < j < |said| ==> said[j].None?
  }

  ghost predicate NumbersAreLast(frames: seq<Frame>, before: Call, now: Call) {
    forall part: Part :: IsLastOf(Declared(frames, part), NumberOf(before, part), NumberOf(now, part))
  }

  /** `now` is `before` with what the frames declare: of each number, and of the reason to stop and the
      error, the last one; every tool named, in order; and an end if one came. */
  ghost predicate IsToldBy(frames: seq<Frame>, before: Call, now: Call) {
    && NumbersAreLast(frames, before, now)
    && IsLastOf(Stops(frames), before.stopReason, now.stopReason)
    && IsLastOf(Errors(frames), before.errorType, now.errorType)
    && now.toolUses == before.toolUses + ToolNames(frames)
    && (now.complete <==> before.complete || MessageStop in frames)
    && now.forwarded == before.forwarded && now.model == before.model && now.maxTokens == before.maxTokens
  }

  lemma OneSaidMore<T>(said: seq<Option<T>>, before: T, now: T, next: Option<T>)
    requires IsLastOf(said, before, now)
    ensures IsLastOf(said + [next], before, if next.Some? then next.value else now)
  {
    if next.Some? {
      assert (said + [next])[|said|] == next;
    } else if i :| 0 <= i < |said| && said[i] == Some(now) && forall j :: i < j < |said| ==> said[j].None? {
      assert (said + [next])[i] == Some(now);
    }
  }

  lemma NumbersStayLast(frames: seq<Frame>, before: Call, now: Call, frame: Frame)
    requires NumbersAreLast(frames, before, now)
    ensures NumbersAreLast(frames + [frame], before, Applied(now, frame))
  {
    forall part: Part
      ensures IsLastOf(Declared(frames + [frame], part), NumberOf(before, part), NumberOf(Applied(now, frame), part))
    {
      OneSaidMore(Declared(frames, part), NumberOf(before, part), NumberOf(now, part), Declares(frame, part));
      assert Declared(frames + [frame], part) == Declared(frames, part) + [Declares(frame, part)];
      NumberAfter(now, frame, part);
    }
  }

  lemma NumberAfter(call: Call, frame: Frame, part: Part)
    ensures NumberOf(Applied(call, frame), part)
         == if Declares(frame, part).Some? then Declares(frame, part).value else NumberOf(call, part)
  {
  }

  lemma {:induction false} OneToolMore(frames: seq<Frame>, frame: Frame)
    ensures ToolNames(frames + [frame]) == ToolNames(frames) + if frame.ToolUse? then [frame.name] else []
  {
    if frames != [] {
      assert (frames + [frame])[1..] == frames[1..] + [frame];
      OneToolMore(frames[1..], frame);
    }
  }

  lemma WordsStayLast(frames: seq<Frame>, before: Call, now: Call, frame: Frame)
    requires IsLastOf(Stops(frames), before.stopReason, now.stopReason)
    requires IsLastOf(Errors(frames), before.errorType, now.errorType)
    ensures IsLastOf(Stops(frames + [frame]), before.stopReason, Applied(now, frame).stopReason)
    ensures IsLastOf(Errors(frames + [frame]), before.errorType, Applied(now, frame).errorType)
  {
    assert Stops(frames + [frame]) == Stops(frames) + [StopIn(frame)];
    assert Errors(frames + [frame]) == Errors(frames) + [ErrorIn(frame)];
    OneSaidMore(Stops(frames), before.stopReason, now.stopReason, StopIn(frame));
    OneSaidMore(Errors(frames), before.errorType, now.errorType, ErrorIn(frame));
  }

  lemma OneFrameMore(frames: seq<Frame>, before: Call, now: Call, frame: Frame)
    requires IsToldBy(frames, before, now)
    ensures IsToldBy(frames + [frame], before, Applied(now, frame))
  {
    NumbersStayLast(frames, before, now, frame);
    WordsStayLast(frames, before, now, frame);
    OneToolMore(frames, frame);
  }

  /** The numbers are repeated and not added: after any frames each number is the last one declared that
      is not zero, or the one before them. */
  lemma {:induction false} FramesTell(call: Call, frames: seq<Frame>)
    ensures IsToldBy(frames, call, FramesRead(call, frames))
    decreases |frames|
  {
    if frames != [] {
      var before, last := frames[..|frames| - 1], frames[|frames| - 1];
      FramesTell(call, before);
      OneFrameMore(before, call, FramesRead(call, before), last);
      assert frames == before + [last];
    }
  }

  lemma LastIsOne<T>(said: seq<Option<T>>, before: T, a: T, b: T)
    requires IsLastOf(said, before, a) && IsLastOf(said, before, b)
    ensures a == b
  {
  }

  /** Nothing else is told by the same frames. */
  lemma ToldIsOne(frames: seq<Frame>, before: Call, a: Call, b: Call)
    requires IsToldBy(frames, before, a) && IsToldBy(frames, before, b)
    ensures a == b
  {
    forall part: Part
      ensures NumberOf(a, part) == NumberOf(b, part)
    {
      LastIsOne(Declared(frames, part), NumberOf(before, part), NumberOf(a, part), NumberOf(b, part));
    }
    LastIsOne(Stops(frames), before.stopReason, a.stopReason, b.stopReason);
    LastIsOne(Errors(frames), before.errorType, a.errorType, b.errorType);
    SameNumbers(a, b);
  }

  lemma SameNumbers(a: Call, b: Call)
    requires forall part: Part :: NumberOf(a, part) == NumberOf(b, part)
    ensures a.inputTokens == b.inputTokens && a.outputTokens == b.outputTokens && a.cacheRead == b.cacheRead
    ensures a.cacheWrite5m == b.cacheWrite5m && a.cacheWrite1h == b.cacheWrite1h
  {
    assert NumberOf(a, InputTokens) == NumberOf(b, InputTokens);
    assert NumberOf(a, OutputTokens) == NumberOf(b, OutputTokens);
    assert NumberOf(a, CacheRead) == NumberOf(b, CacheRead);
    assert NumberOf(a, CacheWrite5m) == NumberOf(b, CacheWrite5m);
    assert NumberOf(a, CacheWrite1h) == NumberOf(b, CacheWrite1h);
  }

  // ------------------------------------------------------------------------------------------
  // Lines
  // ------------------------------------------------------------------------------------------

  predicate EndsLine(c: char) {
    c in {'\n', '\r', '\U{000B}', '\U{000C}', '\U{001C}', '\U{001D}', '\U{001E}'}
  }

  predicate IsSpace(c: char) {
    EndsLine(c) || c in {' ', '\t', '\U{001F}'}
  }

  /** The first line of a text, without what ends it, and the text after it. */
  function FirstLine(text: string): (r: (string, string))
    ensures text != "" ==> |r.1| < |text|
  {
    if text == "" then ("", "")
    else if text[0] == '\r' && |text| > 1 && text[1] == '\n' then ("", text[2..])
    else if EndsLine(text[0]) then ("", text[1..])
    else
      var (line, rest) := FirstLine(text[1..]);
      ([text[0]] + line, rest)
  }

  /** Python's `splitlines`. */
  function Lines(text: string): seq<string>
    decreases |text|
  {
    if text == "" then []
    else
      var (line, rest) := FirstLine(text);
      [line] + Lines(rest)
  }

  predicate HoldsNoEnd(line: string) {
    forall i :: 0 <= i < |line| ==> !EndsLine(line[i])
  }

  predicate IsEndOfLine(end: string) {
    end == "\r\n" || (|end| == 1 && EndsLine(end[0]))
  }

  /** A line that ends with a carriage return is not followed by the line feed that belongs to it. */
  predicate WellCut(end: string, rest: string) {
    end == "\r" ==> rest == "" || rest[0] != '\n'
  }

  function Ended(lines: seq<string>, ends: seq<string>): string
    requires |lines| == |ends|
  {
    if lines == [] then "" else lines[0] + ends[0] + Ended(lines[1..], ends[1..])
  }

  lemma {:induction false} FirstLineIs(text: string) returns (end: string)
    requires text != ""
    ensures var (line, rest) := FirstLine(text);
            && text == line + end + rest && HoldsNoEnd(line) && WellCut(end, rest)
            && (IsEndOfLine(end) || (end == "" && rest == "" && line != ""))
    decreases |text|
  {
    if text[0] == '\r' && |text| > 1 && text[1] == '\n' {
      end := text[..2];
    } else if EndsLine(text[0]) {
      end := text[..1];
    } else if |text| == 1 {
      end := "";
      assert text[1..] == "";
    } else {
      end := FirstLineIs(text[1..]);
      var (line, rest) := FirstLine(text[1..]);
      assert text == [text[0]] + text[1..] == [text[0]] + line + end + rest;
    }
  }

  /** Lines with their ends: no line holds one, and only the last may lack its own. */
  ghost predicate AreLines(lines: seq<string>, ends: seq<string>)
    requires |lines| == |ends|
  {
    lines != [] ==>
      && HoldsNoEnd(lines[0]) && WellCut(ends[0], Ended(lines[1..], ends[1..]))
      && (IsEndOfLine(ends[0]) || (ends[0] == "" && |lines| == 1 && lines[0] != ""))
      && AreLines(lines[1..], ends[1..])
  }

  /** The lines of a text, with the ends between them, make the text again. */
  lemma {:induction false} LinesMakeTheText(text: string) returns (ends: seq<string>)
    ensures |ends| == |Lines(text)| && AreLines(Lines(text), ends) && Ended(Lines(text), ends) == text
    decreases |text|
  {
    if text == "" {
      ends := [];
    } else {
      var first := FirstLineIs(text);
      var (line, rest) := FirstLine(text);
      var others := LinesMakeTheText(rest);
      ends := [first] + others;
      assert ends[1..] == others && Lines(text)[1..] == Lines(rest);
    }
  }

  /** And no other lines do. */
  lemma {:induction false} NoOtherLines(lines: seq<string>, ends: seq<string>)
    requires |lines| == |ends| && AreLines(lines, ends)
    ensures Lines(Ended(lines, ends)) == lines
    decreases |lines|
  {
    if lines != [] {
      NoOtherLines(lines[1..], ends[1..]);
      FirstLineOf(lines[0], ends[0], Ended(lines[1..], ends[1..]));
      assert lines == [lines[0]] + lines[1..];
    }
  }

  lemma FirstEndOf(end: string, rest: string)
    requires IsEndOfLine(end) && WellCut(end, rest)
    ensures FirstLine(end + rest) == ("", rest)
  {
    var text := end + rest;
    if |end| == 1 {
      assert end == [end[0]] && text[1..] == rest && text[0] == end[0];
      assert rest != "" ==> text[1] == rest[0];
    } else {
      assert text[0] == '\r' && text[1] == '\n' && text[2..] == rest;
    }
  }

  lemma {:induction false} FirstLineOf(line: string, end: string, rest: string)
    requires HoldsNoEnd(line) && WellCut(end, rest)
    requires IsEndOfLine(end) || (end == "" && rest == "" && line != "")
    ensures FirstLine(line + end + rest) == (line, rest)
    decreases |line|
  {
    var text := line + end + rest;
    if line == "" {
      FirstEndOf(end, rest);
      assert text == end + rest;
    } else {
      assert text[0] == line[0] && !EndsLine(line[0]) && line == [line[0]] + line[1..];
      assert text[1..] == line[1..] + end + rest;
      if line[1..] == "" && end == "" {
        assert text[1..] == "";
      } else {
        FirstLineOf(line[1..], end, rest);
      }
    }
  }

  function Stripped(text: string): string
    decreases |text|
  {
    if text != "" && IsSpace(text[0]) then Stripped(text[1..])
    else if text != "" && IsSpace(text[|text| - 1]) then Stripped(text[..|text| - 1])
    else text
  }

  predicate AreSpaces(text: string) {
    forall i :: 0 <= i < |text| ==> IsSpace(text[i])
  }

  /** What is stripped is the spaces at both ends, and nothing else. */
  lemma {:induction false} StrippedIs(text: string) returns (head: string, tail: string)
    ensures text == head + Stripped(text) + tail && AreSpaces(head) && AreSpaces(tail)
    ensures Stripped(text) != "" ==>
              !IsSpace(Stripped(text)[0]) && !IsSpace(Stripped(text)[|Stripped(text)| - 1])
    decreases |text|
  {
    if text != "" && IsSpace(text[0]) {
      head, tail := StrippedIs(text[1..]);
      head := [text[0]] + head;
    } else if text != "" && IsSpace(text[|text| - 1]) {
      head, tail := StrippedIs(text[..|text| - 1]);
      tail := tail + [text[|text| - 1]];
    } else {
      head, tail := "", "";
    }
  }

  const DATA := "data:"

  /** What a list of lines does to the call: each line of data is one frame. */
  function LinesRead(read: string -> Frame, call: Call, lines: seq<string>): Call
    decreases |lines|
  {
    if lines == [] then call
    else
      var last := lines[|lines| - 1];
      var before := LinesRead(read, call, lines[..|lines| - 1]);
      if DATA <= last then Applied(before, read(Stripped(last[|DATA|..]))) else before
  }

  function EventsRead(read: string -> Frame, call: Call, events: seq<string>): Call
    decreases |events|
  {
    if events == [] then call
    else
      LinesRead(read, EventsRead(read, call, events[..|events| - 1]), Lines(events[|events| - 1]))
  }

  lemma {:induction false} EventsReadInTwo(read: string -> Frame, call: Call, a: seq<string>, b: seq<string>)
    ensures EventsRead(read, call, a + b) == EventsRead(read, EventsRead(read, call, a), b)
    decreases |b|
  {
    if b == [] {
      assert a + b == a;
    } else {
      assert (a + b)[..|a + b| - 1] == a + b[..|b| - 1];
      EventsReadInTwo(read, call, a, b[..|b| - 1]);
    }
  }

  /** The frames of a list of lines: one for each line of data, and of a list of events. */
  function FramesOf(read: string -> Frame, lines: seq<string>): seq<Frame> {
    if lines == [] then [] else FrameOf(read, lines[0]) + FramesOf(read, lines[1..])
  }

  function FrameOf(read: string -> Frame, line: string): seq<Frame> {
    if "data:" <= line then [read(Stripped(line[5..]))] else []
  }

  function FramesOfEvents(read: string -> Frame, events: seq<string>): seq<Frame> {
    if events == [] then [] else FramesOf(read, Lines(events[0])) + FramesOfEvents(read, events[1..])
  }

  lemma {:induction false} FramesOfInTwo(read: string -> Frame, a: seq<string>, b: seq<string>)
    ensures FramesOf(read, a + b) == FramesOf(read, a) + FramesOf(read, b)
  {
    if a == [] {
      assert a + b == b;
    } else {
      assert (a + b)[1..] == a[1..] + b;
      FramesOfInTwo(read, a[1..], b);
      AddedInTurn(FrameOf(read, a[0]), FramesOf(read, a[1..]), FramesOf(read, b));
    }
  }

  lemma {:induction false} FramesOfEventsInTwo(read: string -> Frame, a: seq<string>, b: seq<string>)
    ensures FramesOfEvents(read, a + b) == FramesOfEvents(read, a) + FramesOfEvents(read, b)
  {
    if a == [] {
      assert a + b == b;
    } else {
      assert (a + b)[1..] == a[1..] + b;
      FramesOfEventsInTwo(read, a[1..], b);
      AddedInTurn(FramesOf(read, Lines(a[0])), FramesOfEvents(read, a[1..]), FramesOfEvents(read, b));
    }
  }

  lemma FramesOfOne(read: string -> Frame, line: string)
    ensures FramesOf(read, [line]) == FrameOf(read, line)
  {
    assert FramesOf(read, [line][1..]) == [];
  }

  lemma FramesOfOneEvent(read: string -> Frame, event: string)
    ensures FramesOfEvents(read, [event]) == FramesOf(read, Lines(event))
  {
    assert FramesOfEvents(read, [event][1..]) == [];
  }

  lemma OneFrameRead(call: Call, frames: seq<Frame>, frame: Frame)
    ensures FramesRead(call, frames + [frame]) == Applied(FramesRead(call, frames), frame)
  {
    assert (frames + [frame])[..|frames|] == frames;
  }

  lemma OneLineRead(read: string -> Frame, call: Call, lines: seq<string>, line: string)
    ensures LinesRead(read, call, lines + [line]) == FramesRead(LinesRead(read, call, lines), FrameOf(read, line))
  {
    assert (lines + [line])[..|lines|] == lines;
    if DATA <= line {
      OneFrameRead(LinesRead(read, call, lines), [], read(Stripped(line[5..])));
    }
  }

  lemma {:induction false} LinesAreFrames(read: string -> Frame, call: Call, lines: seq<string>)
    ensures LinesRead(read, call, lines) == FramesRead(call, FramesOf(read, lines))
    decreases |lines|
  {
    if lines != [] {
      var before, last := lines[..|lines| - 1], lines[|lines| - 1];
      assert lines == before + [last];
      LinesAreFrames(read, call, before);
      OneLineRead(read, call, before, last);
      FramesReadInTwo(call, FramesOf(read, before), FrameOf(read, last));
      FramesOfInTwo(read, before, [last]);
      FramesOfOne(read, last);
    }
  }

  lemma {:induction false} EventsAreFrames(read: string -> Frame, call: Call, events: seq<string>)
    ensures EventsRead(read, call, events) == FramesRead(call, FramesOfEvents(read, events))
    decreases |events|
  {
    if events != [] {
      var before, last := events[..|events| - 1], events[|events| - 1];
      EventsAreFrames(read, call, before);
      FramesOfEventsInTwo(read, before, [last]);
      FramesOfOneEvent(read, last);
      assert events == before + [last];
      LinesAreFrames(read, EventsRead(read, call, before), Lines(last));
      FramesReadInTwo(call, FramesOfEvents(read, before), FramesOf(read, Lines(last)));
    }
  }

  /** What is read of lines and of events is what their frames declare. */
  lemma LinesTell(read: string -> Frame, call: Call, lines: seq<string>)
    ensures IsToldBy(FramesOf(read, lines), call, LinesRead(read, call, lines))
  {
    LinesAreFrames(read, call, lines);
    FramesTell(call, FramesOf(read, lines));
  }

  lemma EventsTell(read: string -> Frame, call: Call, events: seq<string>)
    ensures IsToldBy(FramesOfEvents(read, events), call, EventsRead(read, call, events))
  {
    EventsAreFrames(read, call, events);
    FramesTell(call, FramesOfEvents(read, events));
  }

  // ------------------------------------------------------------------------------------------
  // Framing
  // ------------------------------------------------------------------------------------------

  const BLANK := "\n\n"

  /** A line feed that ends a blank line begins at `i`. */
  predicate BreakAt(text: string, i: nat) {
    i + 1 < |text| && text[i] == '\n' && text[i + 1] == '\n'
  }

  /** Where the first blank line begins: Python's `find`. */
  function Break(text: string): (at: Option<nat>)
    ensures at.Some? ==> BreakAt(text, at.value) && forall i: nat :: i < at.value ==> !BreakAt(text, i)
    ensures at.None? ==> forall i: nat :: !BreakAt(text, i)
  {
    BreakFrom(text, 0)
  }

  function BreakFrom(text: string, from: nat): (at: Option<nat>)
    requires from <= |text|
    ensures at.Some? ==> BreakAt(text, at.value) && forall i: nat :: from <= i < at.value ==> !BreakAt(text, i)
    ensures at.None? ==> forall i: nat :: from <= i ==> !BreakAt(text, i)
    decreases |text| - from
  {
    if from == |text| then None
    else if BreakAt(text, from) then Some(from)
    else BreakFrom(text, from + 1)
  }

  lemma BreakIsFirst(text: string, at: nat)
    requires BreakAt(text, at) && forall i: nat :: i < at ==> !BreakAt(text, i)
    ensures Break(text) == Some(at)
  {
  }

  /** The events of a text, and what is left of it while the next blank line has not come. */
  function Cut(text: string): (seq<string>, string)
    decreases |text|
  {
    match Break(text)
    case None => ([], text)
    case Some(at) =>
      var (events, rest) := Cut(text[at + 2..]);
      ([text[..at]] + events, rest)
  }

  /** What is cut off next comes after what was. */
  lemma CutOne(events: seq<string>, text: string)
    requires Break(text).Some?
    ensures var at := Break(text).value;
            && events + Cut(text).0 == events + [text[..at]] + Cut(text[at + 2..]).0
            && Cut(text).1 == Cut(text[at + 2..]).1
  {
    var at := Break(text).value;
    var tail := text[at + 2..];
    assert Cut(text) == ([text[..at]] + Cut(tail).0, Cut(tail).1);
    AddedInTurn(events, [text[..at]], Cut(tail).0);
  }

  lemma AddedInTurn<T>(a: seq<T>, b: seq<T>, c: seq<T>)
    ensures a + (b + c) == a + b + c
  {
  }

  lemma OneEventMore(read: string -> Frame, call: Call, events: seq<string>, event: string)
    ensures EventsRead(read, call, events + [event]) == LinesRead(read, EventsRead(read, call, events), Lines(event))
  {
    assert (events + [event])[..|events|] == events;
  }

  /** A text whose first event ends at `at`. */
  lemma CutStep(event: string, tail: string)
    requires IsEvent(event)
    ensures Break(event + BLANK + tail) == Some(|event|)
    ensures Cut(event + BLANK + tail) == ([event] + Cut(tail).0, Cut(tail).1)
  {
    var text := event + BLANK + tail;
    forall i: nat | i < |event|
      ensures !BreakAt(text, i)
    {
      assert !BreakAt(event + "\n", i);
    }
    BreakIsFirst(text, |event|);
    assert text[..|event|] == event && text[|event| + 2..] == tail;
  }

  /** A text with a blank line is its first event, the blank line, and the rest. */
  lemma FirstEvent(text: string) returns (event: string, tail: string)
    requires Break(text).Some?
    ensures IsEvent(event) && text == event + BLANK + tail
  {
    var at := Break(text).value;
    event, tail := text[..at], text[at + 2..];
    forall i: nat
      ensures !BreakAt(event + "\n", i)
    {
      assert i < at ==> !BreakAt(text, i);
    }
  }

  /** An event as it stands in a text: no blank line in it, nor begun by its last line feed. */
  predicate IsEvent(event: string) {
    Break(event + "\n").None?
  }

  /** Reading a text and then more of it is reading both at once: the same events, and the same rest. */
  lemma {:induction false} CutInTwo(text: string, more: string)
    ensures Cut(text + more).0 == Cut(text).0 + Cut(Cut(text).1 + more).0
    ensures Cut(text + more).1 == Cut(Cut(text).1 + more).1
    decreases |text|
  {
    if Break(text).None? {
      assert Cut(text) == ([], text);
    } else {
      var event, tail := FirstEvent(text);
      CutInTwo(tail, more);
      CutStepInTwo(event, tail, more);
    }
  }

  lemma CutStepInTwo(event: string, tail: string, more: string)
    requires IsEvent(event)
    requires Cut(tail + more).0 == Cut(tail).0 + Cut(Cut(tail).1 + more).0
    requires Cut(tail + more).1 == Cut(Cut(tail).1 + more).1
    ensures var text := event + BLANK + tail;
            && Cut(text + more).0 == Cut(text).0 + Cut(Cut(text).1 + more).0
            && Cut(text + more).1 == Cut(Cut(text).1 + more).1
  {
    CutStep(event, tail);
    CutStep(event, tail + more);
    Appended(event, BLANK, tail, more);
    Appended([event], Cut(tail).0, Cut(Cut(tail).1 + more).0, []);
  }

  lemma Appended<T>(a: seq<T>, b: seq<T>, c: seq<T>, d: seq<T>)
    ensures a + b + c + d == a + b + (c + d) && a + b + c == a + (b + c)
  {
  }

  function Joined(events: seq<string>, rest: string): string {
    if events == [] then rest else events[0] + BLANK + Joined(events[1..], rest)
  }

  ghost predicate AreEvents(events: seq<string>) {
    forall i :: 0 <= i < |events| ==> IsEvent(events[i])
  }

  /** The events and the rest make the text again, each event ends at the first blank line after it
      begins, and none is left. */
  lemma {:induction false} CutMakesTheText(text: string)
    ensures Joined(Cut(text).0, Cut(text).1) == text
    ensures AreEvents(Cut(text).0) && Break(Cut(text).1).None?
    decreases |text|
  {
    if Break(text).Some? {
      var event, tail := FirstEvent(text);
      CutStep(event, tail);
      CutMakesTheText(tail);
      assert Cut(text).0[1..] == Cut(tail).0;
    }
  }

  /** No other list of events and rest makes the text. */
  lemma {:induction false} CutIsTheOnlyFraming(events: seq<string>, rest: string)
    requires AreEvents(events) && Break(rest).None?
    ensures Cut(Joined(events, rest)) == (events, rest)
    decreases |events|
  {
    if events != [] {
      CutStep(events[0], Joined(events[1..], rest));
      CutIsTheOnlyFraming(events[1..], rest);
      assert events == [events[0]] + events[1..];
    }
  }

  // ------------------------------------------------------------------------------------------
  // The reader
  // ------------------------------------------------------------------------------------------

  /** A call as the gateway and the reader of its answer share it. */
  class LiveCall {
    var now: Call

    constructor (call: Call)
      ensures now == call
    {
      now := call;
    }
  }

  class SseUsage {
    const read: string -> Frame
    const call: LiveCall
    var buffer: string
    /** Everything fed so far, and the call as it was before it. */
    ghost var text: string
    ghost var before: Call

    /** The reader's state depends on the text fed, and not on how it was cut into chunks. */
    ghost predicate Valid()
      reads this, call
    {
      buffer == Cut(text).1 && call.now == EventsRead(read, before, Cut(text).0)
    }

    constructor (read: string -> Frame, call: LiveCall)
      ensures Valid() && text == "" && before == call.now && this.call == call && this.read == read
    {
      this.read, this.call, buffer := read, call, "";
      text, before := "", call.now;
    }

    /** `feed`: every event the chunk completes is read, and the rest waits. */
    method Feed(chunk: string)
      requires Valid()
      modifies this, call
      ensures Valid() && text == old(text) + chunk && before == old(before)
      ensures buffer == Cut(old(buffer) + chunk).1
      ensures call.now == EventsRead(read, old(call.now), Cut(old(buffer) + chunk).0)
      ensures IsToldBy(FramesOfEvents(read, Cut(text).0), before, call.now)
    {
      CutInTwo(text, chunk);
      EventsTell(read, before, Cut(text + chunk).0);
      EventsReadInTwo(read, before, Cut(text).0, Cut(buffer + chunk).0);
      buffer := buffer + chunk;
      Drain();
      text := text + chunk;
    }

    method Drain()
      modifies this`buffer, call
      ensures buffer == Cut(old(buffer)).1
      ensures call.now == EventsRead(read, old(call.now), Cut(old(buffer)).0)
    {
      ghost var events: seq<string> := [];
      var at := Break(buffer);
      while at.Some?
        invariant at == Break(buffer)
        invariant Cut(old(buffer)).0 == events + Cut(buffer).0 && Cut(old(buffer)).1 == Cut(buffer).1
        invariant call.now == EventsRead(read, old(call.now), events)
        decreases |buffer|
      {
        var event := buffer[..at.value];
        CutOne(events, buffer);
        OneEventMore(read, old(call.now), events, event);
        buffer := buffer[at.value + 2..];
        ReadLines(event);
        events := events + [event];
        at := Break(buffer);
      }
      assert Cut(buffer) == ([], buffer) && events + [] == events;
    }

    method ReadLines(event: string)
      modifies call
      ensures call.now == LinesRead(read, old(call.now), Lines(event))
      ensures IsToldBy(FramesOf(read, Lines(event)), old(call.now), call.now)
    {
      var lines := Lines(event);
      LinesTell(read, call.now, lines);
      for i := 0 to |lines|
        invariant call.now == LinesRead(read, old(call.now), lines[..i])
      {
        assert lines[..i + 1][..i] == lines[..i];
        if DATA <= lines[i] {
          call.now := Applied(call.now, read(Stripped(lines[i][|DATA|..])));
        }
      }
      assert lines[..|lines|] == lines;
    }
  }

  // ------------------------------------------------------------------------------------------
  // Chunks
  // ------------------------------------------------------------------------------------------

  /** The state of a reader, by value. */
  datatype Reader = Reader(call: Call, buffer: string)

  function FedOnce(read: string -> Frame, reader: Reader, chunk: string): Reader {
    var (events, rest) := Cut(reader.buffer + chunk);
    Reader(EventsRead(read, reader.call, events), rest)
  }

  function FedAll(read: string -> Frame, reader: Reader, chunks: seq<string>): Reader
    decreases |chunks|
  {
    if chunks == [] then reader else FedAll(read, FedOnce(read, reader, chunks[0]), chunks[1..])
  }

  function Whole(chunks: seq<string>): string {
    if chunks == [] then "" else chunks[0] + Whole(chunks[1..])
  }

  /** Feeding chunks one by one is feeding the whole text at once. */
  lemma {:induction false} ChunksDoNotMatter(read: string -> Frame, reader: Reader, chunks: seq<string>)
    requires Break(reader.buffer).None?
    ensures FedAll(read, reader, chunks) == FedOnce(read, reader, Whole(chunks))
    decreases |chunks|
  {
    if chunks == [] {
      assert reader.buffer + "" == reader.buffer;
    } else {
      var first, rest := reader.buffer + chunks[0], Whole(chunks[1..]);
      CutInTwo(first, rest);
      assert reader.buffer + Whole(chunks) == first + rest;
      CutMakesTheText(first);
      EventsReadInTwo(read, reader.call, Cut(first).0, Cut(Cut(first).1 + rest).0);
      ChunksDoNotMatter(read, FedOnce(read, reader, chunks[0]), chunks[1..]);
    }
  }

  /** Two ways to cut the same answer count the same dollars. */
  lemma SameTextSameCost(read: string -> Frame, call: Call, a: seq<string>, b: seq<string>)
    requires Whole(a) == Whole(b)
    ensures FedAll(read, Reader(call, ""), a) == FedAll(read, Reader(call, ""), b)
    ensures Counted(FedAll(read, Reader(call, ""), a).call) == Counted(FedAll(read, Reader(call, ""), b).call)
  {
    ChunksDoNotMatter(read, Reader(call, ""), a);
    ChunksDoNotMatter(read, Reader(call, ""), b);
  }
}
