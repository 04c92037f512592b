/**
 The event-stream reader of src/lib/authedSse.ts: an incremental splitter over a
 text that arrives in pieces, and the parser of one frame.
 */
module AuthedSse {
  import opened Wrappers
  import opened JsText

  datatype SseEvent = SseEvent(event: string, data: string)

  // ----- one frame -----

  /** `rawLine.replace(/\r$/, "")`: at most one carriage return is removed. */
  function StripCr(line: string): string {
    if line != "" && line[|line| - 1] == '\r' then line[..|line| - 1] else line
  }

  function StripAll(lines: seq<string>): (r: seq<string>)
    ensures |r| == |lines|
    ensures forall i :: 0 <= i < |r| ==> r[i] == StripCr(lines[i])
  {
    seq(|lines|, i requires 0 <= i < |lines| => StripCr(lines[i]))
  }

  const EVENT_FIELD := "event:"
  const DATA_FIELD := "data:"

  /** The value of a line that starts with the given field name. */
  function FieldValue(line: string, field: string): Option<string> {
    if field <= line then Some(line[|field|..]) else None
  }

  /** The value of the last `event:` line, or the default name. */
  function EventName(lines: seq<string>): string {
    if lines == [] then "message"
    else
      var field := FieldValue(lines[|lines| - 1], EVENT_FIELD);
      if field.Some? then Trim(field.value) else EventName(lines[..|lines| - 1])
  }

  /** The values of all `data:` lines, in order; a line is first tried as an `event:` line. */
  function DataValues(lines: seq<string>): seq<string> {
    if lines == [] then []
    else DataValues(lines[..|lines| - 1]) + DataOf(lines[|lines| - 1])
  }

  function DataOf(line: string): seq<string> {
    var field := FieldValue(line, DATA_FIELD);
    if FieldValue(line, EVENT_FIELD).Some? || field.None? then [] else [TrimStart(field.value)]
  }

  function ParsedLines(lines: seq<string>): Option<SseEvent> {
    if DataValues(lines) == [] then None
    else Some(SseEvent(EventName(lines), Join(DataValues(lines), '\n')))
  }

  function ParsedFrame(frame: string): Option<SseEvent> {
    ParsedLines(StripAll(Split(frame, '\n')))
  }

  lemma StepLine(lines: seq<string>, line: string)
    ensures EventName(lines + [line]) ==
            var field := FieldValue(line, EVENT_FIELD);
            if field.Some? then Trim(field.value) else EventName(lines)
    ensures DataValues(lines + [line]) == DataValues(lines) + DataOf(line)
  {
    var all := lines + [line];
    assert all[..|all| - 1] == lines && all[|all| - 1] == line;
  }

  lemma NoLines()
    ensures EventName([]) == "message" && DataValues([]) == []
  {
  }

  lemma DataOfCases(line: string)
    ensures FieldValue(line, EVENT_FIELD).Some? || FieldValue(line, DATA_FIELD).None? ==> DataOf(line) == []
    ensures FieldValue(line, EVENT_FIELD).None? && FieldValue(line, DATA_FIELD).Some? ==>
              DataOf(line) == [TrimStart(FieldValue(line, DATA_FIELD).value)]
  {
  }

  lemma ParsedFrameIs(frame: string, values: seq<string>, name: string)
    requires values == DataValues(StripAll(Split(frame, '\n'))) && name == EventName(StripAll(Split(frame, '\n')))
    ensures ParsedFrame(frame) == if values == [] then None else Some(SseEvent(name, Join(values, '\n')))
  {
  }

  method ParseSseFrame(frame: string) returns (parsed: Option<SseEvent>)
    ensures parsed == ParsedFrame(frame)
  {
    hide *;
    var event := "message";
    var dataLines: seq<string> := [];
    var rawLines := Split(frame, '\n');
    ghost var lines := StripAll(rawLines);
    NoLines();
    for i := 0 to |rawLines|
      invariant event == EventName(lines[..i])
      invariant dataLines == DataValues(lines[..i])
    {
      var line := StripCr(rawLines[i]);
      StepLine(lines[..i], line);
      assert lines[..i + 1] == lines[..i] + [line];
      DataOfCases(line);
      var eventField := FieldValue(line, EVENT_FIELD);
      var dataField := FieldValue(line, DATA_FIELD);
      if eventField.Some? {
        event := Trim(eventField.value);
      } else if dataField.Some? {
        dataLines := dataLines + [TrimStart(dataField.value)];
      }
    }
    assert lines[..|rawLines|] == lines;
    ParsedFrameIs(frame, dataLines, event);
    if |dataLines| == 0 {
      parsed := None;
    } else {
      parsed := Some(SseEvent(event, Join(dataLines, '\n')));
    }
  }

  // ----- splitting at blank lines -----

  predicate At(t: string, i: nat, c: char) {
    i < |t| && t[i] == c
  }

  /** Length of the match of `\r?\n\r?\n` at the start of the text; 0 when there is none. */
  function SeparatorLen(t: string): (k: nat)
    ensures k <= |t| && k <= 4
  {
    if At(t, 0, '\n') then
      if At(t, 1, '\n') then 2
      else if At(t, 1, '\r') && At(t, 2, '\n') then 3
      else 0
    else if At(t, 0, '\r') && At(t, 1, '\n') then
      if At(t, 2, '\n') then 3
      else if At(t, 2, '\r') && At(t, 3, '\n') then 4
      else 0
    else 0
  }

  /** `text.split(/\r?\n\r?\n/)`: the pieces between leftmost matches; the last one is unterminated. */
  function SplitFrames(text: string): (pieces: seq<string>)
    ensures pieces != []
    decreases |text|
  {
    var k := SeparatorLen(text);
    if text == "" then [""]
    else if k > 0 then [""] + SplitFrames(text[k..])
    else
      var rest := SplitFrames(text[1..]);
      Glue([text[0]], rest)
  }

  function Complete(text: string): seq<string> {
    var pieces := SplitFrames(text);
    pieces[..|pieces| - 1]
  }

  function Remainder(text: string): string {
    var pieces := SplitFrames(text);
    pieces[|pieces| - 1]
  }

  /** A frame without data and a ping are not handed on. */
  function Handed(parsed: Option<SseEvent>): seq<SseEvent> {
    if parsed.None? || parsed.value.event == "ping" then [] else [parsed.value]
  }

  function DeliverOne(frame: string): seq<SseEvent> {
    Handed(ParsedFrame(frame))
  }

  function Deliver(frames: seq<string>): seq<SseEvent> {
    if frames == [] then [] else DeliverOne(frames[0]) + Deliver(frames[1..])
  }

  /** The whole text read at once. */
  function OneShot(text: string): seq<SseEvent> {
    Deliver(Complete(text))
  }

  function Concat(chunks: seq<string>): string {
    if chunks == [] then "" else Concat(chunks[..|chunks| - 1]) + chunks[|chunks| - 1]
  }

  lemma {:induction false} DeliverAppend(a: seq<string>, b: seq<string>)
    ensures Deliver(a + b) == Deliver(a) + Deliver(b)
  {
    hide DeliverOne;
    if a == [] {
      assert a + b == b;
    } else {
      assert (a + b)[1..] == a[1..] + b;
      DeliverAppend(a[1..], b);
    }
  }

  lemma {:induction false} SinglePiece(text: string)
    requires |SplitFrames(text)| == 1
    ensures SplitFrames(text) == [text]
    decreases |text|
  {
    if text != "" {
      SinglePiece(text[1..]);
      assert [text[0]] + text[1..] == text;
    }
  }

  predicate NoSeparator(text: string) {
    forall i :: 0 <= i < |text| ==> SeparatorLen(text[i..]) == 0
  }

  lemma {:induction false} NoSeparatorSinglePiece(text: string)
    requires NoSeparator(text)
    ensures SplitFrames(text) == [text]
    decreases |text|
  {
    if text != "" {
      assert text[0..] == text;
      forall i | 0 <= i < |text[1..]| ensures SeparatorLen(text[1..][i..]) == 0 {
        assert text[1..][i..] == text[i + 1..];
      }
      NoSeparatorSinglePiece(text[1..]);
      assert [text[0]] + text[1..] == text;
    }
  }

  /** A separator that needs the second text to complete leaves the first one unsplit. */
  lemma StraddlingSeparator(a: string, b: string)
    requires a != "" && SeparatorLen(a) == 0 && SeparatorLen(a + b) > 0
    ensures SplitFrames(a) == [a]
  {
    var t := a + b;
    assert forall i :: 0 <= i < |a| ==> t[i] == a[i];
    assert |a| <= 3;
    forall i | 0 <= i < |a| ensures SeparatorLen(a[i..]) == 0 {
      assert i == 0 ==> a[i..] == a;
    }
    NoSeparatorSinglePiece(a);
  }

  lemma SeparatorInFirst(a: string, b: string)
    requires SeparatorLen(a) > 0
    ensures SeparatorLen(a + b) == SeparatorLen(a)
  {
    assert forall i :: 0 <= i < |a| ==> (a + b)[i] == a[i];
  }

  lemma SplitAtSeparator(text: string)
    requires SeparatorLen(text) > 0
    ensures SplitFrames(text) == [""] + SplitFrames(text[SeparatorLen(text)..])
    ensures |SplitFrames(text)| > 1 && Complete(text) == [""] + Complete(text[SeparatorLen(text)..])
    ensures Remainder(text) == Remainder(text[SeparatorLen(text)..])
  {
  }

  lemma SplitAtCharacter(text: string)
    requires text != "" && SeparatorLen(text) == 0
    ensures SplitFrames(text) == Glue([text[0]], SplitFrames(text[1..]))
    ensures |SplitFrames(text)| > 1 ==>
              && |Complete(text[1..])| > 0
              && Complete(text) == Glue([text[0]], Complete(text[1..]))
              && Remainder(text) == Remainder(text[1..])
  {
    hide SeparatorLen;
    var rest := SplitFrames(text[1..]);
    assert SplitFrames(text) == Glue([text[0]], rest);
    if |rest| > 1 {
      GlueFront([text[0]], rest);
    }
  }

  lemma GlueFront(head: string, rest: seq<string>)
    requires |rest| > 1
    ensures Glue(head, rest)[..|rest| - 1] == Glue(head, rest[..|rest| - 1])
  {
  }

  /** Feeding more text only continues the split of what was left over. */
  lemma {:induction false} SplitIncremental(a: string, b: string)
    ensures SplitFrames(a + b) == Complete(a) + SplitFrames(Remainder(a) + b)
    decreases |a|
  {
    if |SplitFrames(a)| == 1 {
      SinglePiece(a);
      assert Complete(a) == [];
    } else if SeparatorLen(a) > 0 {
      SplitIncrementalSeparator(a, b);
    } else {
      SplitIncrementalCharacter(a, b);
    }
  }

  lemma {:induction false} SplitIncrementalSeparator(a: string, b: string)
    requires SeparatorLen(a) > 0
    ensures SplitFrames(a + b) == Complete(a) + SplitFrames(Remainder(a) + b)
    decreases |a|, 0
  {
    hide *;
    var rest := a[SeparatorLen(a)..];
    SeparatorInFirst(a, b);
    assert (a + b)[SeparatorLen(a)..] == rest + b;
    SplitIncremental(rest, b);
    SplitAtSeparator(a);
    SplitAtSeparator(a + b);
  }

  lemma {:induction false} SplitIncrementalCharacter(a: string, b: string)
    requires a != "" && SeparatorLen(a) == 0 && |SplitFrames(a)| > 1
    ensures SplitFrames(a + b) == Complete(a) + SplitFrames(Remainder(a) + b)
    decreases |a|, 0
  {
    hide SplitFrames, SeparatorLen, Complete, Remainder, Glue;
    if SeparatorLen(a + b) > 0 {
      StraddlingSeparator(a, b);
    }
    var rest := a[1..];
    assert (a + b)[1..] == rest + b && (a + b)[0] == a[0];
    SplitIncremental(rest, b);
    SplitAtCharacter(a);
    SplitAtCharacter(a + b);
    GlueAppend([a[0]], Complete(rest), SplitFrames(Remainder(rest) + b));
  }

  // ----- the reading loop -----

  /** Text of the chunks consumed so far, one chunk longer. */
  lemma ConcatStep(chunks: seq<string>, i: nat)
    requires i < |chunks|
    ensures Concat(chunks[..i + 1]) == Concat(chunks[..i]) + chunks[i]
  {
    assert chunks[..i + 1][..i] == chunks[..i];
  }

  lemma IncrementalStep(text: string, chunk: string)
    ensures Complete(text + chunk) == Complete(text) + Complete(Remainder(text) + chunk)
    ensures Remainder(text + chunk) == Remainder(Remainder(text) + chunk)
    ensures OneShot(text + chunk) == OneShot(text) + Deliver(Complete(Remainder(text) + chunk))
  {
    SplitIncremental(text, chunk);
    DeliverAppend(Complete(text), Complete(Remainder(text) + chunk));
  }

  lemma DeliverStep(frames: seq<string>, j: nat)
    requires j < |frames|
    ensures Deliver(frames[..j + 1]) == Deliver(frames[..j]) + Handed(ParsedFrame(frames[j]))
  {
    assert frames[..j + 1] == frames[..j] + [frames[j]];
    DeliverAppend(frames[..j], [frames[j]]);
    assert Deliver([frames[j]]) == DeliverOne(frames[j]);
  }

  lemma HandedCases(parsed: Option<SseEvent>)
    ensures parsed.Some? && parsed.value.event != "ping" ==> Handed(parsed) == [parsed.value]
    ensures parsed.None? || parsed.value.event == "ping" ==> Handed(parsed) == []
  {
  }

  lemma DeliverNothing()
    ensures Deliver([]) == []
  {
  }

  method HandleFrames(frames: seq<string>) returns (events: seq<SseEvent>)
    ensures events == Deliver(frames)
  {
    hide *;
    events := [];
    DeliverNothing();
    for j := 0 to |frames|
      invariant events == Deliver(frames[..j])
    {
      DeliverStep(frames, j);
      var parsed := ParseSseFrame(frames[j]);
      HandedCases(parsed);
      if parsed.Some? && parsed.value.event != "ping" {
        events := events + [parsed.value];
      }
    }
    assert frames[..|frames|] == frames;
  }

  lemma StartOfText(chunks: seq<string>)
    ensures Concat(chunks[..0]) == "" && Remainder("") == "" && OneShot("") == []
  {
    assert Complete("") == [];
  }

  lemma PiecesOf(text: string)
    ensures SplitFrames(text) != []
    ensures Remainder(text) == SplitFrames(text)[|SplitFrames(text)| - 1]
    ensures Complete(text) == SplitFrames(text)[..|SplitFrames(text)| - 1]
  {
  }

  /**
   Reads the decoded chunks of a response body. `abortedAt` is the first iteration at
   which the loop finds the abort signal raised. Whatever the chunking, the events are
   those of the text read so far, split at once.
   */
  method ReadSseBody(chunks: seq<string>, abortedAt: nat) returns (delivered: seq<SseEvent>)
    ensures delivered == OneShot(Concat(if abortedAt < |chunks| then chunks[..abortedAt] else chunks))
  {
    hide *;
    delivered := [];
    var buffer := "";
    var i := 0;
    StartOfText(chunks);
    while i < |chunks| && i != abortedAt
      invariant i <= |chunks| && i <= abortedAt
      invariant buffer == Remainder(Concat(chunks[..i]))
      invariant delivered == OneShot(Concat(chunks[..i]))
    {
      IncrementalStep(Concat(chunks[..i]), chunks[i]);
      ConcatStep(chunks, i);
      buffer := buffer + chunks[i];
      PiecesOf(buffer);
      var frames := SplitFrames(buffer);
      buffer := frames[|frames| - 1];
      var events := HandleFrames(frames[..|frames| - 1]);
      delivered := delivered + events;
      i := i + 1;
    }
    assert chunks[..|chunks|] == chunks;
  }

  /** Reading further never retracts an event: an aborted read delivers a prefix. */
  lemma DeliveredGrows(chunks: seq<string>, i: nat, j: nat)
    requires i <= j <= |chunks|
    ensures OneShot(Concat(chunks[..i])) <= OneShot(Concat(chunks[..j]))
    decreases j
  {
    hide *;
    if i < j {
      ConcatStep(chunks, j - 1);
      IncrementalStep(Concat(chunks[..j - 1]), chunks[j - 1]);
      DeliveredGrows(chunks, i, j - 1);
    }
  }

  // ----- printing -----

  /** How a server writes a frame: its line ending, and whether a space follows the field name. */
  datatype Style = Style(crlf: bool, space: bool) {
    function Eol(): string {
      if crlf then "\r\n" else "\n"
    }

    function Pad(): string {
      if space then " " else ""
    }
  }

  datatype Printed = Printed(event: SseEvent, style: Style)

  function DataLine(value: string, style: Style): string {
    DATA_FIELD + (style.Pad() + value)
  }

  function EventLine(name: string, style: Style): string {
    EVENT_FIELD + (style.Pad() + name)
  }

  function DataLines(values: seq<string>, style: Style): (lines: seq<string>)
    ensures |lines| == |values|
  {
    if values == [] then []
    else DataLines(values[..|values| - 1], style) + [DataLine(values[|values| - 1], style)]
  }

  function FrameLines(p: Printed): seq<string> {
    [EventLine(p.event.event, p.style)] + DataLines(Split(p.event.data, '\n'), p.style)
  }

  function EmitLines(lines: seq<string>, eol: string): string {
    if lines == [] then "" else lines[0] + eol + EmitLines(lines[1..], eol)
  }

  function Emit(p: Printed): string {
    EmitLines(FrameLines(p), p.style.Eol()) + p.style.Eol()
  }

  function EmitAll(ps: seq<Printed>): string {
    if ps == [] then "" else Emit(ps[0]) + EmitAll(ps[1..])
  }

  function Events(ps: seq<Printed>): (es: seq<SseEvent>)
    ensures |es| == |ps|
    ensures forall i :: 0 <= i < |es| ==> es[i] == ps[i].event
  {
    if ps == [] then [] else [ps[0].event] + Events(ps[1..])
  }

  /** The events the reader hands over unchanged when no data line ends in a carriage return. */
  predicate Faithful(e: SseEvent) {
    && Without(e.event, '\n') && Trim(e.event) == e.event && e.event != "ping"
    && forall line :: line in Split(e.data, '\n') ==> TrimStart(line) == line
  }

  // ----- a printed frame splits off whole -----

  /** A line of a printed frame: no line end in it, and text that cannot continue one. */
  predicate PlainLine(line: string) {
    Without(line, '\n') && line != "" && line[0] != '\r'
  }

  predicate PlainLines(lines: seq<string>) {
    lines != [] && forall i :: 0 <= i < |lines| ==> PlainLine(lines[i])
  }

  /** `lines` joined by the line ending. */
  function JoinEol(lines: seq<string>, eol: string): string
    requires lines != []
  {
    if |lines| == 1 then lines[0] else lines[0] + eol + JoinEol(lines[1..], eol)
  }

  /** A carriage return at the end of `line` does not begin a separator with the text `t` behind it. */
  predicate EndsBefore(line: string, t: string) {
    StripCr(line) == line || SeparatorLen("\r" + t) == 0
  }

  lemma NoSeparatorHere(line: string, t: string)
    requires line != "" && Without(line, '\n') && EndsBefore(line, t)
    ensures SeparatorLen(line + t) == 0
    ensures EndsBefore(line[1..], t) && Without(line[1..], '\n')
  {
    assert (line + t)[0] == line[0] != '\n';
    if |line| > 1 {
      assert (line + t)[1] == line[1] != '\n';
    } else if line[0] == '\r' {
      assert line == "\r";
    }
  }

  lemma {:induction false} SplitThroughLine(line: string, t: string)
    requires Without(line, '\n') && EndsBefore(line, t)
    ensures SplitFrames(line + t) == Glue(line, SplitFrames(t))
  {
    hide SplitFrames, SeparatorLen, EndsBefore, Without, Glue;
    if line == "" {
      assert line + t == t;
      GlueNothing(SplitFrames(t));
    } else {
      assert (line + t)[1..] == line[1..] + t && (line + t)[0] == line[0];
      NoSeparatorHere(line, t);
      SplitThroughLine(line[1..], t);
      SplitAtCharacter(line + t);
      GlueGlue([line[0]], line[1..], SplitFrames(t));
      assert [line[0]] + line[1..] == line;
    }
  }

  lemma GlueNothing(pieces: seq<string>)
    requires pieces != []
    ensures Glue("", pieces) == pieces
  {
    assert "" + pieces[0] == pieces[0];
  }

  /** One line end followed by the next line of a frame is not a separator. */
  lemma SplitThroughEol(style: Style, next: string)
    requires next != "" && next[0] != '\r' && next[0] != '\n'
    ensures SplitFrames(style.Eol() + next) == Glue(style.Eol(), SplitFrames(next))
  {
    var t := "\n" + next;
    assert t[1..] == next;
    SplitAtCharacter(t);
    if style.crlf {
      var u := "\r\n" + next;
      assert u[1..] == t && u[2] == next[0];
      SplitAtCharacter(u);
      GlueGlue("\r", "\n", SplitFrames(next));
      assert "\r" + "\n" == "\r\n" && [u[0]] == "\r" && [t[0]] == "\n";
    } else {
      assert [t[0]] == "\n";
    }
  }

  lemma SplitAtBlankLine(style: Style, rest: string)
    ensures SplitFrames(style.Eol() + (style.Eol() + rest)) == [""] + SplitFrames(rest)
  {
    var t := style.Eol() + (style.Eol() + rest);
    assert SeparatorLen(t) == 2 * |style.Eol()|;
    assert t[SeparatorLen(t)..] == rest;
    SplitAtSeparator(t);
  }

  /**
   A line as a line end leaves it: a carriage return the line itself ends in is read as
   part of a bare line feed, and is safe in front of a carriage return and a line feed.
   */
  function BeforeEol(line: string, style: Style): string {
    if style.crlf then line else StripCr(line)
  }

  /** The lines of a frame as they stand in its piece: the separator takes what ends the last one. */
  function InFrame(lines: seq<string>, style: Style): (r: seq<string>)
    requires lines != []
    ensures |r| == |lines|
  {
    lines[..|lines| - 1] + [BeforeEol(lines[|lines| - 1], style)]
  }

  /** The lines of a frame as the parser sees them: it removes one more carriage return from the last. */
  function KeptLines(lines: seq<string>, style: Style): (r: seq<string>)
    ensures |r| == |lines|
    ensures forall i :: 0 <= i < |r| ==>
              r[i] == if i == |r| - 1 then StripCr(BeforeEol(lines[i], style)) else BeforeEol(lines[i], style)
  {
    seq(|lines|, i requires 0 <= i < |lines| =>
      if i == |lines| - 1 then StripCr(BeforeEol(lines[i], style)) else BeforeEol(lines[i], style))
  }

  lemma SplitThroughLastLine(line: string, style: Style, rest: string)
    requires PlainLine(line)
    ensures SplitFrames(line + (style.Eol() + (style.Eol() + rest)))
            == [BeforeEol(line, style)] + SplitFrames(rest)
  {
    hide SplitFrames;
    var t := style.Eol() + (style.Eol() + rest);
    if style.crlf || StripCr(line) == line {
      assert style.crlf ==> ("\r" + t)[1] == '\r';
      SplitThroughLine(line, t);
      SplitAtBlankLine(style, rest);
      assert line + "" == line;
    } else {
      var body, u := StripCr(line), "\r" + t;
      assert line + t == body + u;
      assert u == "\r\n\n" + rest;
      assert SeparatorLen(u) == 3 && u[3..] == rest;
      SplitAtSeparator(u);
      assert ("\r" + u)[1] == '\r';
      SplitThroughLine(body, u);
      assert body + "" == body;
    }
  }

  lemma {:induction false} SplitPrintedFrame(lines: seq<string>, style: Style, rest: string)
    requires PlainLines(lines)
    ensures SplitFrames(EmitLines(lines, style.Eol()) + (style.Eol() + rest))
            == [JoinEol(InFrame(lines, style), style.Eol())] + SplitFrames(rest)
    decreases |lines|
  {
    hide SplitFrames, BeforeEol;
    var eol := style.Eol();
    var tail := EmitLines(lines[1..], eol) + (eol + rest);
    assert EmitLines(lines, eol) + (eol + rest) == lines[0] + (eol + tail);
    if |lines| == 1 {
      assert tail == eol + rest;
      SplitThroughLastLine(lines[0], style, rest);
    } else {
      assert tail[0] == lines[1][0];
      NoSeparatorAtEol(lines[0], style, tail);
      SplitThroughLine(lines[0], eol + tail);
      SplitThroughEol(style, tail);
      SplitPrintedFrame(lines[1..], style, rest);
      GlueGlue(lines[0], eol, SplitFrames(tail));
      assert InFrame(lines, style)[1..] == InFrame(lines[1..], style);
    }
  }

  lemma NoSeparatorAtEol(line: string, style: Style, next: string)
    requires next != "" && next[0] != '\r' && next[0] != '\n'
    ensures EndsBefore(line, style.Eol() + next)
  {
    var t := "\r" + (style.Eol() + next);
    if style.crlf {
      assert t[1] == '\r';
    } else {
      assert t[1] == '\n' && t[2] == next[0];
    }
  }

  // ----- and parses back -----

  lemma StripRestores(line: string, style: Style)
    ensures StripCr(line + if style.crlf then "\r" else "") == BeforeEol(line, style)
  {
    if style.crlf {
      assert (line + "\r")[..|line|] == line;
    } else {
      assert line + "" == line;
    }
  }

  lemma BeforeEolWithout(line: string, style: Style)
    requires Without(line, '\n')
    ensures Without(BeforeEol(line, style), '\n') && Without(StripCr(BeforeEol(line, style)), '\n')
  {
  }

  lemma KeptStep(lines: seq<string>, style: Style)
    requires |lines| > 1
    ensures KeptLines(lines, style) == [BeforeEol(lines[0], style)] + KeptLines(lines[1..], style)
  {
    hide BeforeEol, StripCr;
    var kept, tail := KeptLines(lines, style), KeptLines(lines[1..], style);
    assert forall i :: 0 < i < |lines| ==> kept[i] == tail[i - 1];
  }

  lemma StripAllStep(first: string, rest: seq<string>)
    ensures StripAll([first] + rest) == [StripCr(first)] + StripAll(rest)
  {
    hide StripCr;
  }

  /** The text of a frame, its first line written out. */
  lemma InFrameStep(lines: seq<string>, style: Style, cr: string)
    requires |lines| > 1 && style.Eol() == cr + "\n"
    ensures JoinEol(InFrame(lines, style), style.Eol())
            == (lines[0] + cr) + ("\n" + JoinEol(InFrame(lines[1..], style), style.Eol()))
  {
    hide BeforeEol;
    assert InFrame(lines, style)[1..] == InFrame(lines[1..], style);
  }

  lemma SplitFirstLine(head: string, tail: string)
    requires Without(head, '\n')
    ensures Split(head + ("\n" + tail), '\n') == [head] + Split(tail, '\n')
  {
    SplitGlue(head, "\n" + tail, '\n');
    assert ("\n" + tail)[1..] == tail;
    assert head + "" == head;
  }

  lemma {:induction false} LinesOfFrame(lines: seq<string>, style: Style)
    requires PlainLines(lines)
    ensures StripAll(Split(JoinEol(InFrame(lines, style), style.Eol()), '\n')) == KeptLines(lines, style)
    decreases |lines|
  {
    if |lines| == 1 {
      hide StripCr, BeforeEol;
      var last := BeforeEol(lines[0], style);
      BeforeEolWithout(lines[0], style);
      SplitGlue(last, "", '\n');
      assert last + "" == last;
    } else {
      hide StripCr, BeforeEol, Split, StripAll, KeptLines, InFrame, JoinEol;
      var cr := if style.crlf then "\r" else "";
      var tail := JoinEol(InFrame(lines[1..], style), style.Eol());
      InFrameStep(lines, style, cr);
      SplitFirstLine(lines[0] + cr, tail);
      StripAllStep(lines[0] + cr, Split(tail, '\n'));
      LinesOfFrame(lines[1..], style);
      StripRestores(lines[0], style);
      KeptStep(lines, style);
    }
  }

  predicate Flush(value: string) {
    Without(value, '\n') && TrimStart(value) == value
  }

  /** Data lines as the parser leaves them. */
  predicate FlushValues(values: seq<string>) {
    forall i :: 0 <= i < |values| ==> Flush(values[i])
  }

  function TrimAll(values: seq<string>): seq<string> {
    if values == [] then [] else TrimAll(values[..|values| - 1]) + [TrimStart(values[|values| - 1])]
  }

  lemma FieldOfPrinted(field: string, rest: string)
    ensures FieldValue(field + rest, field) == Some(rest)
  {
    assert (field + rest)[|field|..] == rest;
  }

  lemma DataLineIsNoEvent(rest: string)
    ensures FieldValue(DATA_FIELD + rest, EVENT_FIELD) == None
  {
    assert (DATA_FIELD + rest)[0] == 'd';
    assert EVENT_FIELD[0] == 'e';
  }

  lemma PadTrimmed(value: string, style: Style)
    ensures TrimStart(style.Pad() + value) == TrimStart(value) && Trim(style.Pad() + value) == Trim(value)
  {
    if style.space {
      TrimStartDropsSpace(value);
    } else {
      assert "" + value == value;
    }
  }

  lemma DataOfPrinted(value: string, style: Style)
    ensures DataOf(DataLine(value, style)) == [TrimStart(value)]
    ensures FieldValue(DataLine(value, style), EVENT_FIELD) == None
  {
    hide TrimStart, Trim, FieldValue;
    var rest := style.Pad() + value;
    FieldOfPrinted(DATA_FIELD, rest);
    DataLineIsNoEvent(rest);
    PadTrimmed(value, style);
  }

  lemma FirstLine(first: string)
    requires FieldValue(first, EVENT_FIELD).Some?
    ensures DataValues([first]) == []
    ensures EventName([first]) == Trim(FieldValue(first, EVENT_FIELD).value)
  {
    StepLine([], first);
    assert [] + [first] == [first];
  }

  lemma SnocAssoc(first: string, lines: seq<string>, line: string)
    ensures [first] + (lines + [line]) == ([first] + lines) + [line]
  {
  }

  lemma {:induction false} DataOfLines(first: string, values: seq<string>, style: Style)
    requires FieldValue(first, EVENT_FIELD).Some?
    ensures DataValues([first] + DataLines(values, style)) == TrimAll(values)
    ensures EventName([first] + DataLines(values, style)) == Trim(FieldValue(first, EVENT_FIELD).value)
    decreases |values|
  {
    if values == [] {
      assert [first] + DataLines(values, style) == [first];
      FirstLine(first);
    } else {
      var shorter := DataLines(values[..|values| - 1], style);
      var line := DataLine(values[|values| - 1], style);
      DataOfLines(first, values[..|values| - 1], style);
      DataOfPrinted(values[|values| - 1], style);
      AppendDataLine([first] + shorter, line);
      SnocAssoc(first, shorter, line);
    }
  }

  lemma AppendDataLine(lines: seq<string>, line: string)
    requires FieldValue(line, EVENT_FIELD).None?
    ensures DataValues(lines + [line]) == DataValues(lines) + DataOf(line)
    ensures EventName(lines + [line]) == EventName(lines)
  {
    StepLine(lines, line);
  }

  lemma {:induction false} TrimAllKeeps(values: seq<string>)
    requires FlushValues(values)
    ensures TrimAll(values) == values
  {
    if values != [] {
      var front, last := values[..|values| - 1], values[|values| - 1];
      assert values == front + [last];
      assert Flush(last);
      TrimAllKeeps(front);
    }
  }

  lemma ParsedLinesIs(lines: seq<string>, name: string, values: seq<string>)
    requires DataValues(lines) == values && values != [] && EventName(lines) == name
    ensures ParsedLines(lines) == Some(SseEvent(name, Join(values, '\n')))
  {
  }

  lemma EventOfPrinted(name: string, style: Style)
    requires Trim(name) == name
    ensures FieldValue(EventLine(name, style), EVENT_FIELD).Some?
    ensures Trim(FieldValue(EventLine(name, style), EVENT_FIELD).value) == name
  {
    FieldOfPrinted(EVENT_FIELD, style.Pad() + name);
    PadTrimmed(name, style);
  }

  /** The fields of an event, printed line by line, parse back to it. */
  lemma ParsePrinted(name: string, values: seq<string>, style: Style)
    requires Trim(name) == name && values != [] && FlushValues(values)
    ensures ParsedLines([EventLine(name, style)] + DataLines(values, style))
            == Some(SseEvent(name, Join(values, '\n')))
  {
    hide *;
    TrimAllKeeps(values);
    EventOfPrinted(name, style);
    DataOfLines(EventLine(name, style), values, style);
    ParsedLinesIs([EventLine(name, style)] + DataLines(values, style), name, values);
  }

  lemma PlainField(field: string, rest: string)
    requires field != "" && field[0] != '\r' && Without(field, '\n') && Without(rest, '\n')
    ensures PlainLine(field + rest)
  {
    assert (field + rest)[0] == field[0];
  }

  lemma FieldsPlain()
    ensures EVENT_FIELD != "" && EVENT_FIELD[0] != '\r' && Without(EVENT_FIELD, '\n')
    ensures DATA_FIELD != "" && DATA_FIELD[0] != '\r' && Without(DATA_FIELD, '\n')
  {
  }

  lemma {:induction false} DataLinesAt(values: seq<string>, style: Style, i: nat)
    requires i < |values|
    ensures DataLines(values, style)[i] == DataLine(values[i], style)
    decreases |values|
  {
    if i < |values| - 1 {
      DataLinesAt(values[..|values| - 1], style, i);
    }
  }

  lemma FrameLinesPlain(p: Printed)
    requires Faithful(p.event)
    ensures PlainLines(FrameLines(p))
  {
    hide Split, PlainLine, TrimStart, Trim;
    var values := Split(p.event.data, '\n');
    FieldsPlain();
    PlainField(EVENT_FIELD, p.style.Pad() + p.event.event);
    forall i | 0 <= i < |values| ensures PlainLine(DataLines(values, p.style)[i]) {
      DataLinesAt(values, p.style, i);
      PlainField(DATA_FIELD, p.style.Pad() + values[i]);
    }
  }

  // ----- what is left of the lines -----

  lemma StripField(prefix: string, value: string)
    requires prefix != "" && prefix[|prefix| - 1] != '\r'
    ensures StripCr(prefix + value) == prefix + StripCr(value)
  {
    var line := prefix + value;
    assert line[|line| - 1] == if value == "" then prefix[|prefix| - 1] else value[|value| - 1];
  }

  lemma StripDataLine(value: string, style: Style)
    ensures StripCr(DataLine(value, style)) == DataLine(StripCr(value), style)
  {
    var prefix := DATA_FIELD + style.Pad();
    assert prefix[|prefix| - 1] == if style.space then ' ' else ':';
    StripField(prefix, value);
    assert DataLine(value, style) == prefix + value && DataLine(StripCr(value), style) == prefix + StripCr(value);
  }

  lemma KeptDataLine(value: string, style: Style)
    ensures BeforeEol(DataLine(value, style), style) == DataLine(BeforeEol(value, style), style)
    ensures StripCr(BeforeEol(DataLine(value, style), style)) == DataLine(StripCr(BeforeEol(value, style)), style)
  {
    hide StripCr, DataLine;
    StripDataLine(value, style);
    StripDataLine(BeforeEol(value, style), style);
  }

  lemma TrimmedHasNoCr(name: string)
    requires Trim(name) == name
    ensures StripCr(name) == name
  {
  }

  lemma KeptEventLine(name: string, style: Style)
    requires Trim(name) == name
    ensures BeforeEol(EventLine(name, style), style) == EventLine(name, style)
  {
    hide Trim, StripCr;
    TrimmedHasNoCr(name);
    var prefix := EVENT_FIELD + style.Pad();
    assert prefix[|prefix| - 1] == if style.space then ' ' else ':';
    StripField(prefix, name);
    assert EventLine(name, style) == prefix + name;
  }

  lemma KeptFrameLines(name: string, values: seq<string>, style: Style)
    requires Trim(name) == name && values != []
    ensures KeptLines([EventLine(name, style)] + DataLines(values, style), style)
            == [EventLine(name, style)] + DataLines(KeptLines(values, style), style)
  {
    hide StripCr, BeforeEol, Trim, DataLine, EventLine, DataLines;
    var lines := [EventLine(name, style)] + DataLines(values, style);
    var kept := KeptLines(values, style);
    KeptEventLine(name, style);
    forall i | 0 <= i < |values|
      ensures KeptLines(lines, style)[i + 1] == DataLines(kept, style)[i]
    {
      DataLinesAt(values, style, i);
      DataLinesAt(kept, style, i);
      KeptDataLine(values[i], style);
    }
  }

  lemma StripFlush(value: string)
    requires Flush(value)
    ensures Flush(StripCr(value))
  {
    if value != "" {
      assert !IsSpace(value[0]) && IsSpace('\r');
    }
  }

  lemma KeptLineFlush(value: string, style: Style)
    requires Flush(value)
    ensures Flush(BeforeEol(value, style)) && Flush(StripCr(BeforeEol(value, style)))
  {
    hide StripCr, Flush;
    StripFlush(value);
    StripFlush(BeforeEol(value, style));
  }

  lemma KeptFlush(values: seq<string>, style: Style)
    requires FlushValues(values)
    ensures FlushValues(KeptLines(values, style))
  {
    hide Flush, StripCr, BeforeEol, KeptLines;
    forall i | 0 <= i < |values| ensures Flush(KeptLines(values, style)[i]) {
      KeptLineFlush(values[i], style);
    }
  }

  /** What arrives of a printed event. */
  function ReceivedEvent(p: Printed): SseEvent {
    SseEvent(p.event.event, Join(KeptLines(Split(p.event.data, '\n'), p.style), '\n'))
  }

  function ReceivedEvents(ps: seq<Printed>): (es: seq<SseEvent>)
    ensures |es| == |ps|
    ensures forall i :: 0 <= i < |es| ==> es[i] == ReceivedEvent(ps[i])
  {
    if ps == [] then [] else [ReceivedEvent(ps[0])] + ReceivedEvents(ps[1..])
  }

  /** A data line may end in a carriage return only in front of another line of a CRLF frame. */
  predicate KeepsLines(p: Printed) {
    var values := Split(p.event.data, '\n');
    forall i :: 0 <= i < |values| ==> StripCr(values[i]) == values[i] || (p.style.crlf && i < |values| - 1)
  }

  lemma KeptWithout(values: seq<string>, style: Style)
    requires AllWithout(values, '\n')
    ensures AllWithout(KeptLines(values, style), '\n')
  {
    hide Without, StripCr, BeforeEol, KeptLines;
    forall i | 0 <= i < |values| ensures Without(KeptLines(values, style)[i], '\n') {
      BeforeEolWithout(values[i], style);
    }
  }

  lemma ReceivedUnchanged(p: Printed)
    ensures ReceivedEvent(p) == p.event <==> KeepsLines(p)
  {
    var values := Split(p.event.data, '\n');
    var kept := KeptLines(values, p.style);
    JoinAfterSplit(p.event.data, '\n');
    KeptWithout(values, p.style);
    SplitAfterJoin(kept, '\n');
    if KeepsLines(p) {
      assert kept == values;
    }
    if kept == values {
      forall i | 0 <= i < |values| ensures StripCr(values[i]) == values[i] || (p.style.crlf && i < |values| - 1) {
        assert kept[i] == values[i];
      }
    }
  }

  lemma FrameLinesAre(p: Printed)
    ensures FrameLines(p) == [EventLine(p.event.event, p.style)] + DataLines(Split(p.event.data, '\n'), p.style)
  {
  }

  lemma FaithfulValues(e: SseEvent)
    requires Faithful(e)
    ensures FlushValues(Split(e.data, '\n'))
    ensures Trim(e.event) == e.event && e.event != "ping"
  {
    var values := Split(e.data, '\n');
    assert forall i :: 0 <= i < |values| ==> values[i] in values;
  }

  lemma ParseReceived(p: Printed)
    requires Faithful(p.event)
    ensures ParsedLines(KeptLines(FrameLines(p), p.style)) == Some(ReceivedEvent(p))
  {
    hide FlushValues, Trim, Faithful, FrameLines, EventLine, DataLines, KeptLines, ParsedLines, Join;
    var name, values := p.event.event, Split(p.event.data, '\n');
    FaithfulValues(p.event);
    FrameLinesAre(p);
    KeptFrameLines(name, values, p.style);
    KeptFlush(values, p.style);
    ParsePrinted(name, KeptLines(values, p.style), p.style);
  }

  lemma DeliverPrinted(p: Printed, rest: string)
    requires Faithful(p.event)
    ensures OneShot(Emit(p) + rest) == [ReceivedEvent(p)] + OneShot(rest)
  {
    hide SplitFrames, FrameLines, EmitLines, JoinEol, PlainLines, ParsedLines, Faithful, StripAll, KeptLines, InFrame;
    var lines := FrameLines(p);
    FrameLinesPlain(p);
    PlainNotEmpty(lines);
    var frame := JoinEol(InFrame(lines, p.style), p.style.Eol());
    assert Emit(p) + rest == EmitLines(lines, p.style.Eol()) + (p.style.Eol() + rest);
    SplitPrintedFrame(lines, p.style, rest);
    assert Complete(Emit(p) + rest) == [frame] + Complete(rest);
    LinesOfFrame(lines, p.style);
    ParseReceived(p);
    FaithfulValues(p.event);
    assert DeliverOne(frame) == [ReceivedEvent(p)];
  }

  lemma PlainNotEmpty(lines: seq<string>)
    requires PlainLines(lines)
    ensures lines != []
  {
  }

  lemma {:induction false} PrintedArrives(ps: seq<Printed>)
    requires forall p :: p in ps ==> Faithful(p.event)
    ensures OneShot(EmitAll(ps)) == ReceivedEvents(ps)
    decreases |ps|
  {
    hide ReceivedEvent, Faithful;
    if ps == [] {
      assert Complete("") == [];
    } else {
      assert ps[0] in ps && forall p :: p in ps[1..] ==> p in ps;
      PrintedArrives(ps[1..]);
      DeliverPrinted(ps[0], EmitAll(ps[1..]));
    }
  }

  const LOSING := Printed(SseEvent("message", "x\r"), Style(false, true))

  /** An input that changes: printed with bare line feeds, the carriage return that ends the data is lost. */
  lemma CarriageReturnLost()
    ensures Faithful(LOSING.event) && OneShot(Emit(LOSING)) == [SseEvent("message", "x")]
  {
    hide *;
    LosingFaithful();
    LosingReceived();
    DeliverPrinted(LOSING, "");
    assert Emit(LOSING) + "" == Emit(LOSING);
    StartOfText([]);
  }

  lemma LosingLines()
    ensures LOSING == Printed(SseEvent("message", "x\r"), Style(false, true))
    ensures Split(LOSING.event.data, '\n') == ["x\r"]
  {
    SplitGlue("x\r", "", '\n');
    assert "x\r" + "" == "x\r";
  }

  lemma LosingFaithful()
    ensures Faithful(LOSING.event)
  {
    hide IsSpace, Split;
    LosingLines();
    PlainLetters();
  }

  lemma PlainLetters()
    ensures !IsSpace('x') && !IsSpace('m') && !IsSpace('e')
  {
  }

  lemma LosingReceived()
    ensures ReceivedEvent(LOSING) == SseEvent("message", "x")
  {
    hide Split;
    LosingLines();
    assert "x\r"[..1] == "x" && StripCr("x\r") == "x" && StripCr("x") == "x";
    assert KeptLines(["x\r"], LOSING.style) == ["x"];
  }

  // ----- what can be delivered at all -----

  lemma {:induction false} EventNameRange(lines: seq<string>)
    requires AllWithout(lines, '\n')
    ensures Without(EventName(lines), '\n') && Trim(EventName(lines)) == EventName(lines)
  {
    if lines == [] {
      var name := "message";
      assert !IsSpace(name[0]) && !IsSpace(name[|name| - 1]);
    } else {
      EventNameRange(lines[..|lines| - 1]);
      var last := lines[|lines| - 1];
      var field := FieldValue(last, EVENT_FIELD);
      if field.Some? {
        TrimStable(field.value);
        TrimWithout(field.value);
      }
    }
  }

  lemma TrimWithout(s: string)
    requires Without(s, '\n')
    ensures Without(Trim(s), '\n') && Without(TrimStart(s), '\n')
  {
  }

  lemma DataOfRange(line: string)
    requires Without(line, '\n')
    ensures FlushValues(DataOf(line))
  {
    hide TrimStart, Trim, FieldValue, DataOf;
    DataOfCases(line);
    var field := FieldValue(line, DATA_FIELD);
    if FieldValue(line, EVENT_FIELD).None? && field.Some? {
      ValueWithout(line, DATA_FIELD);
      TrimStartStable(field.value);
      TrimWithout(field.value);
    }
  }

  lemma ValueWithout(line: string, field: string)
    requires Without(line, '\n') && FieldValue(line, field).Some?
    ensures Without(FieldValue(line, field).value, '\n')
  {
  }

  lemma {:induction false} DataValuesRange(lines: seq<string>)
    requires AllWithout(lines, '\n')
    ensures FlushValues(DataValues(lines))
  {
    if lines != [] {
      DataValuesRange(lines[..|lines| - 1]);
      DataOfRange(lines[|lines| - 1]);
    }
  }

  lemma StrippedLines(frame: string)
    ensures AllWithout(StripAll(Split(frame, '\n')), '\n')
  {
  }

  lemma FaithfulFrom(name: string, values: seq<string>)
    requires Without(name, '\n') && Trim(name) == name && name != "ping"
    requires FlushValues(values) && values != []
    ensures Faithful(SseEvent(name, Join(values, '\n')))
  {
    SplitAfterJoin(values, '\n');
  }

  /** Whatever the text, a delivered event is one that printing would preserve. */
  lemma ParsedFaithful(frame: string)
    ensures forall e :: e in DeliverOne(frame) ==> Faithful(e)
  {
    var lines := StripAll(Split(frame, '\n'));
    var name, values := EventName(lines), DataValues(lines);
    StrippedLines(frame);
    EventNameRange(lines);
    DataValuesRange(lines);
    ParsedFrameIs(frame, values, name);
    HandedCases(ParsedFrame(frame));
    if values != [] && name != "ping" {
      FaithfulFrom(name, values);
    }
  }

  lemma {:induction false} DeliveredFaithful(frames: seq<string>)
    ensures forall e :: e in Deliver(frames) ==> Faithful(e)
  {
    if frames != [] {
      ParsedFaithful(frames[0]);
      DeliveredFaithful(frames[1..]);
    }
  }

  /**
   End to end: the pieces of a printed stream, cut anywhere, deliver the printed events
   exactly when every one of them is faithful and keeps its lines in the style it is
   printed in.
   */
  lemma StreamRoundTrip(ps: seq<Printed>, chunks: seq<string>)
    requires Concat(chunks) == EmitAll(ps)
    ensures OneShot(Concat(chunks)) == Events(ps) <==> forall p :: p in ps ==> Faithful(p.event) && KeepsLines(p)
  {
    hide *;
    if OneShot(Concat(chunks)) == Events(ps) {
      OnlyFaithfulArrive(ps, Concat(chunks));
    }
    if forall p :: p in ps ==> Faithful(p.event) {
      PrintedArrives(ps);
      forall p | p in ps ensures ReceivedEvent(p) == p.event <==> KeepsLines(p) {
        ReceivedUnchanged(p);
      }
      if ReceivedEvents(ps) == Events(ps) {
        forall p | p in ps ensures KeepsLines(p) {
          var i :| 0 <= i < |ps| && ps[i] == p;
          assert ReceivedEvents(ps)[i] == Events(ps)[i];
        }
      }
    }
  }

  lemma OnlyFaithfulArrive(ps: seq<Printed>, text: string)
    requires OneShot(text) == Events(ps)
    ensures forall p :: p in ps ==> Faithful(p.event)
  {
    hide Faithful;
    DeliveredFaithful(Complete(text));
    forall p | p in ps ensures Faithful(p.event) {
      var i :| 0 <= i < |ps| && ps[i] == p;
      assert Events(ps)[i] in OneShot(text);
    }
  }

  // ----- what splitting and parsing mean for any text -----

  predicate LineEnd(s: string) {
    s == "\n" || s == "\r\n"
  }

  /** An empty line: two line ends in a row. */
  ghost predicate Separator(s: string) {
    exists a: string, b: string :: LineEnd(a) && LineEnd(b) && s == a + b
  }

  lemma SeparatorLenMeans(t: string)
    ensures SeparatorLen(t) > 0 ==> Separator(t[..SeparatorLen(t)])
  {
    if At(t, 0, '\n') && At(t, 1, '\n') {
      assert t[..2] == "\n" + "\n";
    } else if At(t, 0, '\n') && At(t, 1, '\r') && At(t, 2, '\n') {
      assert t[..3] == "\n" + "\r\n";
    } else if At(t, 0, '\r') && At(t, 1, '\n') && At(t, 2, '\n') {
      assert t[..3] == "\r\n" + "\n";
    } else if At(t, 0, '\r') && At(t, 1, '\n') && At(t, 2, '\r') && At(t, 3, '\n') {
      assert t[..4] == "\r\n" + "\r\n";
    }
  }

  lemma SeparatorLenOf(a: string, b: string, rest: string)
    requires LineEnd(a) && LineEnd(b)
    ensures SeparatorLen(a + b + rest) == |a + b| && |a + b| > 0
  {
    var t := a + b + rest;
    assert t[..|a|] == a && t[|a|..|a| + |b|] == b;
    assert forall i :: 0 <= i < |a| ==> t[i] == a[i];
    assert forall i :: 0 <= i < |b| ==> t[|a| + i] == b[i];
  }

  /** The match at the start of a text is the empty line it starts with, and there is at most one. */
  lemma SeparatorHere(t: string, sep: string)
    ensures Separator(sep) && sep <= t <==> SeparatorLen(t) > 0 && sep == t[..SeparatorLen(t)]
  {
    SeparatorLenMeans(t);
    if Separator(sep) && sep <= t {
      var a: string, b: string :| LineEnd(a) && LineEnd(b) && sep == a + b;
      assert t == a + b + t[|sep|..];
      SeparatorLenOf(a, b, t[|sep|..]);
    }
  }

  /** No empty line starts among the first n characters. */
  ghost predicate NoneBefore(text: string, n: nat)
    requires n <= |text|
  {
    forall i, sep: string :: 0 <= i < n && Separator(sep) ==> !(sep <= text[i..])
  }

  /** The pieces lie between the empty lines found from left to right, the last one up to the end of the text. */
  ghost predicate Leftmost(text: string, pieces: seq<string>)
    decreases |pieces|
  {
    && pieces != [] && pieces[0] <= text && NoneBefore(text, |pieces[0]|)
    && (if |pieces| == 1 then pieces[0] == text
        else exists sep: string :: Separator(sep) && pieces[0] + sep <= text
                                   && Leftmost(text[|pieces[0] + sep|..], pieces[1..]))
  }

  lemma {:induction false} SplitSkips(text: string, n: nat)
    requires n <= |text| && NoneBefore(text, n)
    ensures SplitFrames(text) == Glue(text[..n], SplitFrames(text[n..]))
    decreases n
  {
    if n == 0 {
      assert text[0..] == text && text[..0] == "";
      GlueNothing(SplitFrames(text));
    } else {
      assert text[0..] == text;
      SeparatorHere(text, text[..SeparatorLen(text)]);
      SplitAtCharacter(text);
      forall i, sep: string | 0 <= i < n - 1 && Separator(sep) ensures !(sep <= text[1..][i..]) {
        assert text[1..][i..] == text[i + 1..];
      }
      SplitSkips(text[1..], n - 1);
      assert text[1..][n - 1..] == text[n..] && [text[0]] + text[1..][..n - 1] == text[..n];
      GlueGlue([text[0]], text[1..][..n - 1], SplitFrames(text[n..]));
    }
  }

  lemma {:induction false} LeftmostSplit(text: string)
    ensures Leftmost(text, SplitFrames(text))
    decreases |text|
  {
    hide SeparatorLen, Separator, Glue;
    assert text[0..] == text;
    if text == "" {
    } else if SeparatorLen(text) > 0 {
      var sep := text[..SeparatorLen(text)];
      SeparatorHere(text, sep);
      LeftmostSplit(text[|sep|..]);
      assert "" + sep == sep && ([""] + SplitFrames(text[|sep|..]))[1..] == SplitFrames(text[|sep|..]);
    } else {
      LeftmostSplit(text[1..]);
      LeftmostGlue(text, SplitFrames(text[1..]));
    }
  }

  lemma LeftmostMeans(text: string, pieces: seq<string>) returns (sep: string)
    requires Leftmost(text, pieces)
    ensures pieces != [] && pieces[0] <= text && NoneBefore(text, |pieces[0]|)
    ensures |pieces| == 1 ==> pieces[0] == text
    ensures |pieces| > 1 ==> Separator(sep) && pieces[0] + sep <= text
                             && Leftmost(text[|pieces[0] + sep|..], pieces[1..])
  {
    sep := "";
    if |pieces| > 1 {
      sep :| Separator(sep) && pieces[0] + sep <= text && Leftmost(text[|pieces[0] + sep|..], pieces[1..]);
    }
  }

  lemma LeftmostFrom(text: string, pieces: seq<string>, sep: string)
    requires pieces != [] && pieces[0] <= text && NoneBefore(text, |pieces[0]|)
    requires |pieces| == 1 ==> pieces[0] == text
    requires |pieces| > 1 ==> Separator(sep) && pieces[0] + sep <= text
                              && Leftmost(text[|pieces[0] + sep|..], pieces[1..])
    ensures Leftmost(text, pieces)
  {
  }

  lemma NoneBeforeStep(text: string, n: nat)
    requires n < |text| && SeparatorLen(text) == 0 && NoneBefore(text[1..], n)
    ensures NoneBefore(text, n + 1)
  {
    hide SeparatorLen, Separator;
    forall i, sep: string | 0 <= i < n + 1 && Separator(sep) ensures !(sep <= text[i..]) {
      if i == 0 {
        assert text[0..] == text;
        SeparatorHere(text, sep);
      } else {
        assert text[i..] == text[1..][i - 1..];
      }
    }
  }

  lemma LeftmostGlue(text: string, rest: seq<string>)
    requires text != "" && SeparatorLen(text) == 0 && Leftmost(text[1..], rest)
    ensures Leftmost(text, Glue([text[0]], rest))
  {
    hide *;
    var sep := LeftmostMeans(text[1..], rest);
    var pieces := Glue([text[0]], rest);
    NoneBeforeStep(text, |rest[0]|);
    if |rest| > 1 {
      assert pieces[0] + sep == [text[0]] + (rest[0] + sep);
      assert text[|pieces[0] + sep|..] == text[1..][|rest[0] + sep|..];
    }
    LeftmostFrom(text, pieces, sep);
  }

  /** Splitting is what the regular expression says: cut at the empty lines, found from left to right. */
  lemma {:induction false} SplitIsLeftmost(text: string, pieces: seq<string>)
    ensures Leftmost(text, pieces) <==> pieces == SplitFrames(text)
    decreases |pieces|
  {
    hide *;
    LeftmostSplit(text);
    if Leftmost(text, pieces) {
      var sep := LeftmostMeans(text, pieces);
      var n := |pieces[0]|;
      assert text[..n] == pieces[0];
      SplitSkips(text, n);
      if |pieces| == 1 {
        assert text[n..] == "";
        GluedPieces(pieces[0], []);
      } else {
        assert pieces[0] + sep == text[..n] + sep;
        assert sep <= text[n..] && text[n..][|sep|..] == text[|pieces[0] + sep|..];
        SeparatorHere(text[n..], sep);
        SplitAtSeparator(text[n..]);
        SplitIsLeftmost(text[|pieces[0] + sep|..], pieces[1..]);
        GluedPieces(pieces[0], pieces[1..]);
      }
    }
  }

  lemma GluedPieces(first: string, rest: seq<string>)
    ensures Glue(first, [""] + rest) == [first] + rest && SplitFrames("") == [""]
  {
    assert first + "" == first;
  }

  /** At most one carriage return is taken off the end of a line. */
  predicate LineOf(raw: string, line: string) {
    raw == line + "\r" || (raw == line && (raw == "" || raw[|raw| - 1] != '\r'))
  }

  ghost predicate LinesOf(frame: string, lines: seq<string>) {
    exists raw: seq<string> :: raw != [] && AllWithout(raw, '\n') && Join(raw, '\n') == frame && |lines| == |raw|
                               && forall i :: 0 <= i < |raw| ==> LineOf(raw[i], lines[i])
  }

  lemma LinesAre(frame: string, lines: seq<string>)
    requires LinesOf(frame, lines)
    ensures lines == StripAll(Split(frame, '\n'))
  {
    var raw: seq<string> :| raw != [] && AllWithout(raw, '\n') && Join(raw, '\n') == frame && |lines| == |raw|
                            && forall i :: 0 <= i < |raw| ==> LineOf(raw[i], lines[i]);
    SplitAfterJoin(raw, '\n');
    forall i | 0 <= i < |raw| ensures lines[i] == StripCr(raw[i]) {
      assert LineOf(raw[i], lines[i]);
    }
  }

  /** The name of a frame: that of its last `event:` line, or `message` when there is none. */
  ghost predicate NameFrom(lines: seq<string>, name: string) {
    || (name == "message" && forall i :: 0 <= i < |lines| ==> !("event:" <= lines[i]))
    || (exists i :: && 0 <= i < |lines| && "event:" <= lines[i] && Trimmed(lines[i][6..], name)
                    && forall j :: i < j < |lines| ==> !("event:" <= lines[j]))
  }

  /** The `data:` lines are those at the given positions, and these are their values. */
  ghost predicate ValuesAt(lines: seq<string>, at: seq<nat>, values: seq<string>) {
    && |values| == |at| && Positions(at, |lines|)
    && (forall i :: 0 <= i < |lines| ==> ("data:" <= lines[i] <==> i in at))
    && (forall k :: 0 <= k < |at| ==> "data:" <= lines[at[k]] && LeftTrimmed(lines[at[k]][5..], values[k]))
  }

  lemma {:induction false} NameOfLines(lines: seq<string>)
    ensures NameFrom(lines, EventName(lines))
  {
    hide Trimmed;
    if lines != [] {
      var n := |lines| - 1;
      if "event:" <= lines[n] {
        TrimIs(lines[n][6..]);
      } else {
        NameOfLines(lines[..n]);
        NameStep(lines, EventName(lines[..n]));
      }
    }
  }

  lemma NameStep(lines: seq<string>, name: string)
    requires lines != [] && !("event:" <= lines[|lines| - 1]) && NameFrom(lines[..|lines| - 1], name)
    ensures NameFrom(lines, name)
  {
    hide Trimmed;
    var n := |lines| - 1;
    if exists i :: 0 <= i < n && "event:" <= lines[i] {
      var i :| && 0 <= i < n && "event:" <= lines[..n][i] && Trimmed(lines[..n][i][6..], name)
               && forall j :: i < j < n ==> !("event:" <= lines[..n][j]);
      assert lines[..n][i] == lines[i];
      forall j | i < j < |lines| ensures !("event:" <= lines[j]) {
        assert j < n ==> lines[..n][j] == lines[j];
      }
    } else {
      assert forall i :: 0 <= i < n ==> lines[..n][i] == lines[i];
    }
  }

  /** The positions of the lines that carry data. */
  function DataAt(lines: seq<string>): seq<nat> {
    if lines == [] then []
    else DataAt(lines[..|lines| - 1]) + if DataOf(lines[|lines| - 1]) == [] then [] else [|lines| - 1]
  }

  lemma DataOfMeans(line: string)
    ensures "data:" <= line ==> |DataOf(line)| == 1 && LeftTrimmed(line[5..], DataOf(line)[0])
    ensures !("data:" <= line) ==> DataOf(line) == []
  {
    hide LeftTrimmed, TrimStart;
    assert EVENT_FIELD[0] == 'e';
    if "data:" <= line {
      assert line[0] == "data:"[0] == 'd';
      TrimStartIs(line[5..]);
    }
  }

  lemma {:induction false} ValuesOfLines(lines: seq<string>)
    ensures ValuesAt(lines, DataAt(lines), DataValues(lines))
  {
    hide LeftTrimmed, DataOf;
    if lines != [] {
      var n := |lines| - 1;
      ValuesOfLines(lines[..n]);
      DataOfMeans(lines[n]);
      ValuesStep(lines[..n], lines[n], DataAt(lines[..n]), DataValues(lines[..n]), DataOf(lines[n]));
      assert lines[..n] + [lines[n]] == lines;
    }
  }

  lemma ValuesStep(lines: seq<string>, line: string, at: seq<nat>, values: seq<string>, added: seq<string>)
    requires ValuesAt(lines, at, values)
    requires "data:" <= line ==> |added| == 1 && LeftTrimmed(line[5..], added[0])
    requires !("data:" <= line) ==> added == []
    ensures ValuesAt(lines + [line], at + if added == [] then [] else [|lines|], values + added)
  {
    hide LeftTrimmed;
    var all, allAt := lines + [line], at + if added == [] then [] else [|lines|];
    forall i | 0 <= i < |all| ensures "data:" <= all[i] <==> i in allAt {
      if i < |lines| {
        assert all[i] == lines[i] && (i in at <==> i in allAt);
      } else {
        assert i !in at;
      }
    }
  }

  /**
   What a frame of any text says: the name of its last `event:` line, and its data values
   in order on lines of their own; nothing when there is no `data:` line.
   */
  lemma ParsedFrameFields(frame: string, lines: seq<string>)
    requires LinesOf(frame, lines)
    ensures match ParsedFrame(frame)
            case None => forall line :: line in lines ==> !("data:" <= line)
            case Some(e) => NameFrom(lines, e.event) &&
                            exists at: seq<nat>, values: seq<string> ::
                              values != [] && ValuesAt(lines, at, values) && e.data == Join(values, '\n')
  {
    hide NameFrom, EventName, DataValues, DataAt, LeftTrimmed, Join;
    LinesAre(frame, lines);
    ParsedFrameIs(frame, DataValues(lines), EventName(lines));
    NameOfLines(lines);
    ValuesOfLines(lines);
    if DataValues(lines) == [] {
      forall line | line in lines ensures !("data:" <= line) {
        var i :| 0 <= i < |lines| && lines[i] == line;
        assert i !in DataAt(lines);
      }
    }
  }

  /** The frames at the given positions are handed on; every other one has no data or is a ping. */
  predicate HandedAt(frames: seq<string>, at: seq<nat>, events: seq<SseEvent>) {
    && |events| == |at| && Positions(at, |frames|)
    && (forall k :: 0 <= k < |at| ==> ParsedFrame(frames[at[k]]) == Some(events[k]) && events[k].event != "ping")
    && (forall i :: 0 <= i < |frames| && i !in at ==>
          ParsedFrame(frames[i]).None? || ParsedFrame(frames[i]).value.event == "ping")
  }

  lemma {:induction false} HandedFrames(frames: seq<string>) returns (at: seq<nat>)
    ensures HandedAt(frames, at, Deliver(frames))
  {
    hide ParsedFrame;
    at := [];
    for n := 0 to |frames|
      invariant HandedAt(frames[..n], at, Deliver(frames[..n]))
    {
      DeliverStep(frames, n);
      HandedCases(ParsedFrame(frames[n]));
      HandedStep(frames, n, at, Deliver(frames[..n]));
      if ParsedFrame(frames[n]).Some? && ParsedFrame(frames[n]).value.event != "ping" {
        at := at + [n];
      }
    }
    assert frames[..|frames|] == frames;
  }

  lemma HandedStep(frames: seq<string>, n: nat, at: seq<nat>, events: seq<SseEvent>)
    requires n < |frames| && HandedAt(frames[..n], at, events)
    ensures var parsed := ParsedFrame(frames[n]);
            if parsed.Some? && parsed.value.event != "ping"
            then HandedAt(frames[..n + 1], at + [n], events + [parsed.value])
            else HandedAt(frames[..n + 1], at, events)
  {
    hide ParsedFrame;
    assert frames[..n + 1] == frames[..n] + [frames[n]];
  }

  /** Which events a text delivers: those of its complete frames, in order, without the pings. */
  lemma DeliveredEvents(text: string, frames: seq<string>, rest: string)
    requires Leftmost(text, frames + [rest])
    ensures exists at: seq<nat> :: HandedAt(frames, at, OneShot(text))
  {
    hide HandedAt, Leftmost;
    SplitIsLeftmost(text, frames + [rest]);
    assert Complete(text) == frames;
    var at := HandedFrames(frames);
    assert HandedAt(frames, at, OneShot(text));
  }
}
