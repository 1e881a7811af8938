/**
  The server-sent-events parser that the provider adapters share, and the frame
  printer that it undoes. The JSON decoder is a parameter; None is its error.
 */
module Sse {
  import opened Domain
  import opened Ordering

  /** The characters that Python's `str.lstrip` removes. */
  predicate IsBlank(c: char) {
    || c == ' '
    || '\t' <= c <= '\r'
    || '\U{1c}' <= c <= '\U{1f}'
    || c in {'\U{85}', '\U{a0}', '\U{1680}', '\U{2028}', '\U{2029}', '\U{202f}', '\U{205f}', '\U{3000}'}
    || '\U{2000}' <= c <= '\U{200a}'
  }

  /** The same characters by their code points, as Unicode numbers them. */
  lemma BlanksByCode(c: char)
    ensures var n := c as int;
      IsBlank(c) <==>
        || 9 <= n <= 13 || 28 <= n <= 32 || n == 133 || n == 160 || n == 5760 || 8192 <= n <= 8202
        || n == 8232 || n == 8233 || n == 8239 || n == 8287 || n == 12288
  {}

  function LStrip(s: string): (r: string)
    ensures r == "" || !IsBlank(r[0])
  {
    if s != "" && IsBlank(s[0]) then LStrip(s[1..]) else s
  }

  const DATA := "data:"
  const DONE := "[DONE]"

  predicate IsData(line: string) { |line| >= 5 && line[..5] == DATA }

  function Join(lines: seq<string>): string {
    if lines == [] then ""
    else if |lines| == 1 then lines[0]
    else lines[0] + "\n" + Join(lines[1..])
  }

  /** What the caller has received so far; after a decoding error there is no more. */
  datatype Delivery = Delivery(events: seq<Json>, failed: bool)

  datatype Scan = Scan(dataLines: seq<string>, out: Delivery)

  const START := Scan([], Delivery([], false))

  /** One payload reaches the caller if it decodes to an object; `[DONE]` is not decoded. */
  function Deliver(decode: string -> Option<Json>, out: Delivery, payload: string): Delivery {
    if payload == DONE then out
    else
      match decode(payload)
      case None => out.(failed := true)
      case Some(NonObject(_)) => out
      case Some(value) => out.(events := out.events + [value])
  }

  function Flush(decode: string -> Option<Json>, s: Scan): Scan {
    if s.out.failed || s.dataLines == [] then s
    else Scan([], Deliver(decode, s.out, Join(s.dataLines)))
  }

  function Feed(decode: string -> Option<Json>, s: Scan, line: string): Scan {
    if s.out.failed then s
    else if line == "" then Flush(decode, s)
    else if IsData(line) then s.(dataLines := s.dataLines + [LStrip(line[5..])])
    else s
  }

  function FeedAll(decode: string -> Option<Json>, s: Scan, lines: seq<string>): Scan {
    if lines == [] then s else Feed(decode, FeedAll(decode, s, lines[..|lines| - 1]), lines[|lines| - 1])
  }

  function Parse(decode: string -> Option<Json>, lines: seq<string>): Delivery {
    Flush(decode, FeedAll(decode, START, lines)).out
  }

  /** The generator, run to its end or to the decoding error. */
  method IterSseJson(decode: string -> Option<Json>, lines: seq<string>) returns (events: seq<Json>, failed: bool)
    ensures Delivery(events, failed) == Parse(decode, lines)
  {
    events, failed := [], false;
    var dataLines: seq<string> := [];
    var i := 0;
    while i < |lines|
      invariant 0 <= i <= |lines| && !failed
      invariant FeedAll(decode, START, lines[..i]) == Scan(dataLines, Delivery(events, false))
    {
      var line := lines[i];
      FeedConcat(decode, START, lines[..i + 1], lines[i + 1..]);
      assert lines[..i + 1] + lines[i + 1..] == lines;
      assert lines[..i + 1][..i] == lines[..i];
      i := i + 1;
      if line == "" {
        if dataLines != [] {
          var payload := Join(dataLines);
          dataLines := [];
          if payload != DONE {
            match decode(payload) {
              case None =>
                FailureSticks(decode, FeedAll(decode, START, lines[..i]), lines[i..]);
                return events, true;
              case Some(Object(body)) => events := events + [Object(body)];
              case Some(NonObject(_)) =>
            }
          }
        }
        continue;
      }
      if IsData(line) {
        dataLines := dataLines + [LStrip(line[5..])];
      }
    }
    assert lines[..i] == lines;
    if dataLines != [] {
      var payload := Join(dataLines);
      if payload != DONE {
        match decode(payload) {
          case None => return events, true;
          case Some(Object(body)) => events := events + [Object(body)];
          case Some(NonObject(_)) =>
        }
      }
    }
  }

  lemma {:induction false} FeedConcat(decode: string -> Option<Json>, s: Scan, a: seq<string>, b: seq<string>)
    ensures FeedAll(decode, s, a + b) == FeedAll(decode, FeedAll(decode, s, a), b)
  {
    if b == [] {
      assert a + b == a;
    } else {
      assert (a + b)[..|a + b| - 1] == a + b[..|b| - 1];
      FeedConcat(decode, s, a, b[..|b| - 1]);
    }
  }

  lemma {:induction false} FailureSticks(decode: string -> Option<Json>, s: Scan, lines: seq<string>)
    requires s.out.failed
    ensures FeedAll(decode, s, lines) == s
  {
    if lines != [] { FailureSticks(decode, s, lines[..|lines| - 1]); }
  }

  // -------------------------------------------------------------------------
  // Parsing is compositional at blank lines

  function After(first: Delivery, second: Delivery): Delivery {
    if first.failed then first else Delivery(first.events + second.events, second.failed)
  }

  /** What was delivered before does not influence what is delivered next. */
  lemma {:induction false} ScanForgetsThePast(decode: string -> Option<Json>, past: Delivery, dataLines: seq<string>, lines: seq<string>)
    requires !past.failed
    ensures var alone := FeedAll(decode, Scan(dataLines, START.out), lines);
      FeedAll(decode, Scan(dataLines, past), lines) == Scan(alone.dataLines, After(past, alone.out))
  {
    if lines != [] { ScanForgetsThePast(decode, past, dataLines, lines[..|lines| - 1]); }
  }

  /** A blank line separates: what follows is parsed as if it stood alone. */
  lemma ParseSplitsAtBlankLines(decode: string -> Option<Json>, a: seq<string>, b: seq<string>)
    ensures Parse(decode, a + [""] + b) == After(Parse(decode, a + [""]), Parse(decode, b))
  {
    FeedConcat(decode, START, a + [""], b);
    assert (a + [""])[..|a|] == a;
    var mid := FeedAll(decode, START, a + [""]);
    if mid.out.failed {
      FailureSticks(decode, mid, b);
    } else {
      assert mid.dataLines == [];
      ScanForgetsThePast(decode, mid.out, [], b);
    }
  }

  /** The last frame is delivered whether or not a blank line ends it. */
  lemma FinalBlankLineIsOptional(decode: string -> Option<Json>, lines: seq<string>)
    ensures Parse(decode, lines + [""]) == Parse(decode, lines)
  {
    assert (lines + [""])[..|lines|] == lines;
  }

  // -------------------------------------------------------------------------
  // The printer

  /** A line of a frame: data, with or without a space after the colon, or a line to be ignored. */
  datatype Line = Data(text: string, spaced: bool) | Ignored(text: string)
  {
    predicate Valid() {
      match this
      case Data(text, _) => text == "" || !IsBlank(text[0])
      case Ignored(text) => text != "" && !IsData(text)
    }

    function Print(): string {
      match this
      case Data(text, spaced) => DATA + (if spaced then " " else "") + text
      case Ignored(text) => text
    }
  }

  type Frame = seq<Line>

  ghost predicate ValidFrame(frame: Frame) { forall i :: 0 <= i < |frame| ==> frame[i].Valid() }

  function PrintFrame(frame: Frame): seq<string> {
    if frame == [] then [""] else [frame[0].Print()] + PrintFrame(frame[1..])
  }

  function PrintAll(frames: seq<Frame>): seq<string> {
    if frames == [] then [] else PrintFrame(frames[0]) + PrintAll(frames[1..])
  }

  function DataOf(frame: Frame): seq<string> {
    if frame == [] then []
    else (if frame[0].Data? then [frame[0].text] else []) + DataOf(frame[1..])
  }

  /** The payloads of the frames that carry data. */
  function Payloads(frames: seq<Frame>): seq<string> {
    if frames == [] then []
    else (if DataOf(frames[0]) != [] then [Join(DataOf(frames[0]))] else []) + Payloads(frames[1..])
  }

  /** The payloads handed over one by one, up to the first that does not decode. */
  function DeliverAll(decode: string -> Option<Json>, payloads: seq<string>): Delivery {
    if payloads == [] then START.out
    else After(Deliver(decode, START.out, payloads[0]), DeliverAll(decode, payloads[1..]))
  }

  lemma PrintedLineIsRead(decode: string -> Option<Json>, s: Scan, line: Line)
    requires line.Valid() && !s.out.failed
    ensures Feed(decode, s, line.Print()) == s.(dataLines := s.dataLines + if line.Data? then [line.text] else [])
  {
    if line.Data? {
      var printed := line.Print();
      assert printed[..5] == DATA;
      assert printed[5..] == (if line.spaced then " " else "") + line.text;
      if line.spaced { assert printed[5..][1..] == line.text; }
      assert LStrip(printed[5..]) == line.text;
    } else {
      assert s.dataLines + [] == s.dataLines;
    }
  }

  lemma FeedFirst(decode: string -> Option<Json>, s: Scan, line: string, rest: seq<string>)
    ensures FeedAll(decode, s, [line] + rest) == FeedAll(decode, Feed(decode, s, line), rest)
  {
    assert [line][..0] == [];
    FeedConcat(decode, s, [line], rest);
  }

  lemma AppendData(before: seq<string>, frame: Frame)
    requires frame != []
    ensures before + (if frame[0].Data? then [frame[0].text] else []) + DataOf(frame[1..]) == before + DataOf(frame)
  {}

  lemma FeedBlank(decode: string -> Option<Json>, s: Scan)
    ensures FeedAll(decode, s, [""]) == Flush(decode, s)
  {
    assert [""][..0] == [];
  }

  lemma {:induction false} PrintedFrameIsRead(decode: string -> Option<Json>, s: Scan, frame: Frame)
    requires ValidFrame(frame) && !s.out.failed
    ensures FeedAll(decode, s, PrintFrame(frame)) == Flush(decode, s.(dataLines := s.dataLines + DataOf(frame)))
    decreases |frame|
  {
    hide Feed;
    hide Flush;
    hide IsBlank;
    hide IsData;
    if frame == [] {
      FeedBlank(decode, s);
      assert s.dataLines + DataOf(frame) == s.dataLines;
    } else {
      PrintedLineIsRead(decode, s, frame[0]);
      var next := Feed(decode, s, frame[0].Print());
      FeedFirst(decode, s, frame[0].Print(), PrintFrame(frame[1..]));
      PrintedFrameIsRead(decode, next, frame[1..]);
      AppendData(s.dataLines, frame);
    }
  }

  lemma {:induction false} PrintedFrameEndsBlank(frame: Frame)
    ensures PrintFrame(frame) != [] && PrintFrame(frame)[|PrintFrame(frame)| - 1] == ""
  {
    if frame != [] { PrintedFrameEndsBlank(frame[1..]); }
  }

  /** The parser undoes the printer: it delivers the payloads of the frames, in order. */
  lemma {:induction false} ParseUndoesPrint(decode: string -> Option<Json>, frames: seq<Frame>)
    requires forall i :: 0 <= i < |frames| ==> ValidFrame(frames[i])
    ensures Parse(decode, PrintAll(frames)) == DeliverAll(decode, Payloads(frames))
  {
    if frames != [] {
      var frame, rest := frames[0], frames[1..];
      var printed := PrintFrame(frame);
      PrintedFrameEndsBlank(frame);
      assert printed == printed[..|printed| - 1] + [""];
      ParseSplitsAtBlankLines(decode, printed[..|printed| - 1], PrintAll(rest));
      PrintedFrameIsRead(decode, START, frame);
      assert START.dataLines + DataOf(frame) == DataOf(frame);
      ParseUndoesPrint(decode, rest);
      if DataOf(frame) == [] {
        assert Payloads(frames) == Payloads(rest);
      } else {
        assert Payloads(frames)[1..] == Payloads(rest);
      }
    }
  }

  function ObjectOf(decode: string -> Option<Json>): string -> Option<Json> {
    (payload: string) =>
      if payload != DONE && decode(payload).Some? && decode(payload).value.Object? then decode(payload) else None
  }

  /** When every payload decodes, exactly the objects are delivered, in order. */
  lemma {:induction false} DecodableStreamsDeliverTheirObjects(decode: string -> Option<Json>, payloads: seq<string>)
    requires forall i :: 0 <= i < |payloads| && payloads[i] != DONE ==> decode(payloads[i]).Some?
    ensures DeliverAll(decode, payloads) == Delivery(Collect(ObjectOf(decode), payloads), false)
  {
    if payloads != [] {
      var head, rest := payloads[0], payloads[1..];
      DecodableStreamsDeliverTheirObjects(decode, rest);
      assert payloads == [head] + rest;
      CollectConcat(ObjectOf(decode), [head], rest);
      assert [head][..0] == [];
      assert Collect(ObjectOf(decode), [head]) ==
             (if ObjectOf(decode)(head).Some? then [ObjectOf(decode)(head).value] else []);
    }
  }

  // -------------------------------------------------------------------------
  // The standard

  /** Section 9.2.6 of the WHATWG HTML standard removes at most one leading space. */
  function StandardStrip(s: string): string { if s != "" && s[0] == ' ' then s[1..] else s }

  /** The parser reads a data line as the standard does exactly when no further blank follows. */
  lemma AgreesWithStandardIff(s: string)
    ensures LStrip(s) == StandardStrip(s) <==> StandardStrip(s) == "" || !IsBlank(StandardStrip(s)[0])
  {
    if s != "" && IsBlank(s[0]) {
      LStripShortens(s[1..]);
    }
  }

  lemma {:induction false} LStripShortens(s: string)
    ensures |LStrip(s)| <= |s|
    ensures LStrip(s) == s <==> s == "" || !IsBlank(s[0])
  {
    if s != "" && IsBlank(s[0]) { LStripShortens(s[1..]); }
  }

  /** One frame of one line: `[DONE]` is skipped, and any other payload is decoded. */
  lemma OnlyDoneIsSkipped(decode: string -> Option<Json>, payload: string)
    requires payload != "" && !IsBlank(payload[0])
    ensures Parse(decode, ["data: " + payload, ""]) ==
            if payload == "[DONE]" then Delivery([], false)
            else match decode(payload)
              case None => Delivery([], true)
              case Some(Object(body)) => Delivery([Object(body)], false)
              case Some(NonObject(_)) => Delivery([], false)
  {
    var line := "data: " + payload;
    assert line[..5] == DATA && line[5..] == " " + payload && line[5..][1..] == payload;
    assert IsBlank(' ') && LStrip(line[5..]) == LStrip(payload) == payload;
    assert [line, ""][..1] == [line] && [line][..0] == [];
    assert FeedAll(decode, START, [line]) == Scan([payload], Delivery([], false));
  }
}
