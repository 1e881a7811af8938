/**
  The parser against section 9.2.6 of the WHATWG HTML standard, on whole streams of
  lines. Both cut the lines into payloads at blank lines; they differ in how they read
  a data line, and in what they do with a last frame that no blank line ends.
 */
module SseStandard {
  import opened Domain
  import opened Sse

  // -------------------------------------------------------------------------
  // The standard

  /** The position of the first colon, or the length of the line. */
  function ColonAt(line: string): (k: nat)
    ensures k <= |line|
    ensures forall i :: 0 <= i < k ==> line[i] != ':'
    ensures k < |line| ==> line[k] == ':'
  {
    if line == "" || line[0] == ':' then 0 else 1 + ColonAt(line[1..])
  }

  /** The value that a line adds to the data: its field is named "data"; without a colon the value is empty. */
  function StandardValue(line: string): Option<string> {
    var k := ColonAt(line);
    if line[..k] != "data" then None
    else if k < |line| then Some(StandardStrip(line[k + 1..]))
    else Some("")
  }

  /** The payloads dispatched so far, and the data buffer. */
  datatype Buffered = Buffered(dispatched: seq<string>, buffer: string)

  function StandardFeed(s: Buffered, line: string): Buffered {
    if line == "" then
      if s.buffer == "" then s else Buffered(s.dispatched + [s.buffer[..|s.buffer| - 1]], "")
    else
      match StandardValue(line)
      case None => s
      case Some(value) => s.(buffer := s.buffer + value + "\n")
  }

  function StandardScan(lines: seq<string>): Buffered {
    if lines == [] then Buffered([], "") else StandardFeed(StandardScan(lines[..|lines| - 1]), lines[|lines| - 1])
  }

  /** What is still in the buffer at the end of the stream is discarded. */
  function StandardPayloads(lines: seq<string>): seq<string> { StandardScan(lines).dispatched }

  // -------------------------------------------------------------------------
  // The parser, by payloads

  function CodeValue(line: string): Option<string> { if IsData(line) then Some(LStrip(line[5..])) else None }

  datatype Collected = Collected(payloads: seq<string>, dataLines: seq<string>)

  function Flushed(s: Collected): Collected {
    if s.dataLines == [] then s else Collected(s.payloads + [Join(s.dataLines)], [])
  }

  function CodeFeed(s: Collected, line: string): Collected {
    if line == "" then Flushed(s)
    else
      match CodeValue(line)
      case None => s
      case Some(value) => s.(dataLines := s.dataLines + [value])
  }

  function CodeScan(lines: seq<string>): Collected {
    if lines == [] then Collected([], []) else CodeFeed(CodeScan(lines[..|lines| - 1]), lines[|lines| - 1])
  }

  /** The last frame is flushed whether or not a blank line ends it. */
  function CodePayloads(lines: seq<string>): seq<string> { Flushed(CodeScan(lines)).payloads }

  lemma DeliverComposes(decode: string -> Option<Json>, out: Delivery, payload: string)
    requires !out.failed
    ensures Deliver(decode, out, payload) == After(out, Deliver(decode, START.out, payload))
  {}

  lemma {:induction false} DeliverAllSnoc(decode: string -> Option<Json>, payloads: seq<string>, payload: string)
    ensures DeliverAll(decode, payloads + [payload]) == After(DeliverAll(decode, payloads), Deliver(decode, START.out, payload))
  {
    if payloads == [] {
      assert [payload][1..] == [];
      assert DeliverAll(decode, [payload]) == After(Deliver(decode, START.out, payload), START.out);
    } else {
      assert (payloads + [payload])[1..] == payloads[1..] + [payload];
      DeliverAllSnoc(decode, payloads[1..], payload);
    }
  }

  /** The scan of the parser has delivered the payloads collected so far, up to the first that does not decode. */
  lemma {:induction false} ScanDeliversPayloads(decode: string -> Option<Json>, lines: seq<string>)
    ensures var s, c := FeedAll(decode, START, lines), CodeScan(lines);
      && s.out == DeliverAll(decode, c.payloads)
      && (!s.out.failed ==> s.dataLines == c.dataLines)
  {
    if lines != [] {
      var before := lines[..|lines| - 1];
      ScanDeliversPayloads(decode, before);
      var s, c := FeedAll(decode, START, before), CodeScan(before);
      if lines[|lines| - 1] == "" { FlushDelivers(decode, s, c); }
    }
  }

  lemma FlushDelivers(decode: string -> Option<Json>, s: Scan, c: Collected)
    requires s.out == DeliverAll(decode, c.payloads) && (!s.out.failed ==> s.dataLines == c.dataLines)
    ensures Flush(decode, s).out == DeliverAll(decode, Flushed(c).payloads)
    ensures !Flush(decode, s).out.failed ==> Flush(decode, s).dataLines == Flushed(c).dataLines
  {
    if c.dataLines != [] {
      DeliverAllSnoc(decode, c.payloads, Join(c.dataLines));
      if !s.out.failed { DeliverComposes(decode, s.out, Join(c.dataLines)); }
    }
  }

  /** For every stream the parser delivers exactly its payloads. */
  lemma ParseDeliversPayloads(decode: string -> Option<Json>, lines: seq<string>)
    ensures Parse(decode, lines) == DeliverAll(decode, CodePayloads(lines))
  {
    ScanDeliversPayloads(decode, lines);
    FlushDelivers(decode, FeedAll(decode, START, lines), CodeScan(lines));
  }

  // -------------------------------------------------------------------------
  // Line by line

  lemma {:induction false} ColonIsWhere(line: string, k: nat)
    requires k < |line| && line[k] == ':' && forall i :: 0 <= i < k ==> line[i] != ':'
    ensures ColonAt(line) == k
  {}

  lemma StandardReadsData(line: string)
    ensures StandardValue(line) ==
      if line == "data" then Some("") else if IsData(line) then Some(StandardStrip(line[5..])) else None
  {
    if line == "data" {
      assert ColonAt(line) == 4;
    } else if IsData(line) {
      assert line[4] == line[..5][4] == ':';
      assert forall i :: 0 <= i < 4 ==> line[i] == line[..5][i];
      ColonIsWhere(line, 4);
      assert line[..4] == "data";
    } else {
      assert |line| >= 5 ==> line[..5] == line[..4] + [line[4]];
    }
  }

  /** A line is read alike exactly when it is not a bare `data`, and no blank follows the space that a data line may have. */
  lemma ReadAlikeIff(line: string)
    ensures CodeValue(line) == StandardValue(line) <==>
            && line != "data"
            && (IsData(line) ==> var value := StandardStrip(line[5..]); value == "" || !IsBlank(value[0]))
  {
    StandardReadsData(line);
    if IsData(line) { AgreesWithStandardIff(line[5..]); }
  }

  lemma {:induction false} LStripIsSuffix(s: string)
    ensures |LStrip(s)| <= |s| && LStrip(s) == s[|s| - |LStrip(s)|..]
  {
    if s != "" && IsBlank(s[0]) {
      LStripIsSuffix(s[1..]);
      var n := |LStrip(s)|;
      assert s[1..][|s| - 1 - n..] == s[|s| - n..];
    }
  }

  function Weight(value: Option<string>): nat { if value.Some? then |value.value| + 1 else 0 }

  /** The parser never reads more than the standard, and what is as long is the same. */
  lemma ParserReadsLess(line: string)
    ensures Weight(CodeValue(line)) <= Weight(StandardValue(line))
    ensures Weight(CodeValue(line)) == Weight(StandardValue(line)) ==> CodeValue(line) == StandardValue(line)
  {
    StandardReadsData(line);
    if IsData(line) {
      var s := line[5..];
      LStripIsSuffix(s);
      if s != "" && s[0] == ' ' {
        assert LStrip(s) == LStrip(s[1..]);
        LStripIsSuffix(s[1..]);
      }
    }
  }

  // -------------------------------------------------------------------------
  // Whole streams

  function Total(payloads: seq<string>): nat {
    if payloads == [] then 0 else Total(payloads[..|payloads| - 1]) + |payloads[|payloads| - 1]| + 1
  }

  lemma TotalSnoc(payloads: seq<string>, payload: string)
    ensures Total(payloads + [payload]) == Total(payloads) + |payload| + 1
  {
    assert (payloads + [payload])[..|payloads|] == payloads;
  }

  function CodeWeight(lines: seq<string>): nat {
    if lines == [] then 0 else CodeWeight(lines[..|lines| - 1]) + Weight(CodeValue(lines[|lines| - 1]))
  }

  function StandardWeight(lines: seq<string>): nat {
    if lines == [] then 0 else StandardWeight(lines[..|lines| - 1]) + Weight(StandardValue(lines[|lines| - 1]))
  }

  lemma BlankHasNoValue()
    ensures CodeValue("") == None && StandardValue("") == None
  {
    StandardReadsData("");
  }

  /** The data lines as the standard's buffer holds them. */
  function BufferOf(dataLines: seq<string>): string { if dataLines == [] then "" else Join(dataLines) + "\n" }

  lemma {:induction false} JoinSnoc(lines: seq<string>, line: string)
    ensures Join(lines + [line]) == if lines == [] then line else Join(lines) + "\n" + line
  {
    if |lines| >= 2 {
      assert (lines + [line])[1..] == lines[1..] + [line];
      JoinSnoc(lines[1..], line);
    } else if |lines| == 1 {
      assert (lines + [line])[1..] == [line];
    }
  }

  lemma BufferSnoc(dataLines: seq<string>, value: string)
    ensures BufferOf(dataLines + [value]) == BufferOf(dataLines) + value + "\n"
  {
    JoinSnoc(dataLines, value);
  }

  lemma {:induction false} StandardWeighs(lines: seq<string>)
    ensures Total(StandardScan(lines).dispatched) + |StandardScan(lines).buffer| == StandardWeight(lines)
  {
    if lines != [] {
      var before, line := lines[..|lines| - 1], lines[|lines| - 1];
      StandardWeighs(before);
      var s := StandardScan(before);
      BlankHasNoValue();
      hide StandardValue;
      if line == "" && s.buffer != "" { TotalSnoc(s.dispatched, s.buffer[..|s.buffer| - 1]); }
    }
  }

  lemma {:induction false} CodeWeighs(lines: seq<string>)
    ensures Total(CodeScan(lines).payloads) + |BufferOf(CodeScan(lines).dataLines)| == CodeWeight(lines)
  {
    if lines != [] {
      var before, line := lines[..|lines| - 1], lines[|lines| - 1];
      CodeWeighs(before);
      var s := CodeScan(before);
      BlankHasNoValue();
      hide CodeValue;
      if line == "" {
        if s.dataLines != [] { TotalSnoc(s.payloads, Join(s.dataLines)); }
      } else if CodeValue(line).Some? {
        BufferSnoc(s.dataLines, CodeValue(line).value);
      }
    }
  }

  ghost predicate AllReadAlike(lines: seq<string>) {
    forall i :: 0 <= i < |lines| ==> CodeValue(lines[i]) == StandardValue(lines[i])
  }

  lemma {:induction false} WeightsCompare(lines: seq<string>)
    ensures CodeWeight(lines) <= StandardWeight(lines)
    ensures CodeWeight(lines) == StandardWeight(lines) ==> AllReadAlike(lines)
  {
    if lines != [] {
      WeightsCompare(lines[..|lines| - 1]);
      ParserReadsLess(lines[|lines| - 1]);
      hide CodeValue;
      hide StandardValue;
    }
  }

  lemma {:induction false} ReadAlikeScanAlike(lines: seq<string>)
    requires AllReadAlike(lines)
    ensures StandardScan(lines) == Buffered(CodeScan(lines).payloads, BufferOf(CodeScan(lines).dataLines))
  {
    if lines != [] {
      var before, line := lines[..|lines| - 1], lines[|lines| - 1];
      assert forall i :: 0 <= i < |before| ==> before[i] == lines[i];
      ReadAlikeScanAlike(before);
      var s := CodeScan(before);
      hide StandardValue;
      hide CodeValue;
      assert CodeValue(line) == StandardValue(line);
      if line == "" {
        if s.dataLines != [] { assert (Join(s.dataLines) + "\n")[..|Join(s.dataLines)|] == Join(s.dataLines); }
      } else if CodeValue(line).Some? {
        BufferSnoc(s.dataLines, CodeValue(line).value);
      }
    }
  }

  lemma EndWithBlank(lines: seq<string>)
    ensures StandardScan(lines + [""]) == StandardFeed(StandardScan(lines), "")
  {
    assert (lines + [""])[..|lines|] == lines;
  }

  /**
    For every stream, the parser yields what the standard yields of the stream with
    its last frame ended exactly when all lines are read alike: no two differences
    ever cancel out.
   */
  lemma PayloadsAgreeIff(lines: seq<string>)
    ensures CodePayloads(lines) == StandardPayloads(lines + [""]) <==> AllReadAlike(lines)
  {
    EndWithBlank(lines);
    if AllReadAlike(lines) {
      ReadAlikeScanAlike(lines);
      var s := CodeScan(lines);
      if s.dataLines != [] { assert (Join(s.dataLines) + "\n")[..|Join(s.dataLines)|] == Join(s.dataLines); }
    }
    if CodePayloads(lines) == StandardPayloads(lines + [""]) {
      FlushedTotals(lines);
      WeightsCompare(lines);
    }
  }

  /** Nothing is lost when the last frame is ended. */
  lemma FlushedTotals(lines: seq<string>)
    ensures Total(CodePayloads(lines)) == CodeWeight(lines)
    ensures Total(StandardPayloads(lines + [""])) == StandardWeight(lines)
  {
    CodeWeighs(lines);
    StandardWeighs(lines);
    EndWithBlank(lines);
    var c, s := CodeScan(lines), StandardScan(lines);
    if c.dataLines != [] { TotalSnoc(c.payloads, Join(c.dataLines)); }
    if s.buffer != "" { TotalSnoc(s.dispatched, s.buffer[..|s.buffer| - 1]); }
  }

  /** And on streams whose lines are read alike, the two agree exactly when no data is pending at the end. */
  lemma UnendedFrameIsTheOnlyOtherDifference(lines: seq<string>)
    requires AllReadAlike(lines)
    ensures CodePayloads(lines) == StandardPayloads(lines) <==> StandardScan(lines).buffer == ""
  {
    PayloadsAgreeIff(lines);
    EndWithBlank(lines);
  }
}
