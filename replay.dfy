/** What the readers make of the transcripts the writers produce: a Hypothesis
    record replayed through `load_fuzz_data` yields its length twice, a plain
    scan of the same log yields it once, and a GAN transcript yields nothing. */
module Replay {
  import opened Text
  import opened PyBytes
  import opened Utf8
  import opened Transcript
  import opened HypothesisFuzz
  import opened GanModel

  // ------------------------------------------------ characters a line lacks

  lemma {:induction false} TimestampLacks(ts: string, c: char)
    requires IsTimestamp(ts) && !IsDigit(c) && c !in "[]-:, "
    ensures c !in ts
  {
  }

  lemma {:induction false} DigitsLack(n: nat, c: char)
    requires !IsDigit(c)
    ensures c !in NatToString(n)
  {
    NatToStringDigits(n);
  }

  lemma {:induction false} IntDigitsLack(n: int, c: char)
    requires !IsDigit(c) && c != '-'
    ensures c !in IntToString(n)
  {
    IntToStringDigits(n);
  }

  /** The outcome text of a record: the reason phrase or the exception message. */
  function OutcomeText(o: Outcome): string
  {
    match o
    case Response(_, reason) => reason
    case RequestError(message) => message
  }

  /** What a logged trial must satisfy for its record to read back: the clock
      gives a timestamp, neither the repr nor the outcome text holds a marker the
      readers key on, and the outcome text holds no line break. */
  predicate ReadsBack(ts: string, raw: seq<byte>, o: Outcome)
  {
    && IsTimestamp(ts)
    && !Contains(Repr(raw), BytesMarker)
    && !Contains(Repr(raw), SendingMarker)
    && !Contains(OutcomeText(o), SendingMarker)
    && !Contains(OutcomeText(o), TransmittedMarker)
    && NoBreak(OutcomeText(o))
  }

  // ------------------------------------------------ the file as it is read

  /** The fixed parts of the record lines hold no line break. */
  lemma {:induction false} MarkersLack(c: char)
    requires c == '\n' || c == '\r'
    ensures c !in SendingMarker && c !in TransmittedMarker && c !in BytesMarker
  {
  }

  lemma {:induction false} OutcomeMarkersLack(c: char)
    requires c == '\n' || c == '\r'
    ensures c !in AnomalyMarker && c !in ExceptionMarker && c !in " HTTP "
  {
  }

  lemma {:induction false} EndMarkersLack(c: char)
    requires c == '\n' || c == '\r'
    ensures c !in InfoTag && c !in ClosingMarker && c !in SleepingMarker
  {
  }

  lemma {:induction false} GapsLack(c: char)
    requires c == '\n' || c == '\r'
    ensures c !in Gap && c !in " " && c !in " #" && c !in "..." && c !in " 0.2s..."
  {
  }

  lemma {:induction false} BreakLacks(ts: string, c: char)
    requires IsTimestamp(ts) && (c == '\n' || c == '\r')
    ensures c !in ts && c !in Gap && c !in InfoTag && c !in SendingMarker && c !in TransmittedMarker
    ensures c !in BytesMarker && c !in AnomalyMarker && c !in ExceptionMarker
    ensures c !in ClosingMarker && c !in SleepingMarker
    ensures c !in " " && c !in " #" && c !in "..." && c !in " HTTP " && c !in " 0.2s..."
  {
    TimestampLacks(ts, c);
    MarkersLack(c);
    OutcomeMarkersLack(c);
    EndMarkersLack(c);
    GapsLack(c);
  }

  /** A repr is printable, so it holds no line break. */
  lemma {:induction false} ReprNoBreak(raw: seq<byte>)
    ensures NoBreak(Repr(raw))
  {
    ReprPrintable(raw);
  }

  lemma {:induction false} OutcomeNoBreak(ts: string, o: Outcome, c: char)
    requires IsTimestamp(ts) && (c == '\n' || c == '\r') && NoBreak(OutcomeText(o))
    ensures c !in OutcomeLine(ts, o)
  {
    BreakLacks(ts, c);
    match o {
      case Response(status, reason) => IntDigitsLack(status, c);
      case RequestError(message) =>
    }
  }

  lemma {:induction false} LinesLack(ts: string, id: nat, raw: seq<byte>, o: Outcome, c: char)
    requires ReadsBack(ts, raw, o) && (c == '\n' || c == '\r')
    ensures c !in SendingLine(ts, id) && c !in TransmittedLine(ts, raw) && c !in OutcomeLine(ts, o)
    ensures c !in ClosingLine(ts) && c !in SleepingLine(ts)
  {
    BreakLacks(ts, c);
    DigitsLack(id, c);
    DigitsLack(|raw|, c);
    ReprNoBreak(raw);
    OutcomeNoBreak(ts, o, c);
  }

  /** No line of a record that reads back holds a line break. */
  lemma {:induction false} RecordNoBreaks(ts: string, id: nat, raw: seq<byte>, o: Outcome)
    requires ReadsBack(ts, raw, o)
    ensures forall k :: 0 <= k < |Record(ts, id, raw, o)| ==> NoBreak(Record(ts, id, raw, o)[k])
  {
    LinesLack(ts, id, raw, o, '\n');
    LinesLack(ts, id, raw, o, '\r');
  }

  /** No line of a log whose cases read back holds a line break. */
  lemma {:induction false} LogNoBreaks(target: string, cases: seq<(nat, Trial)>)
    requires AllReadBack(target, cases)
    ensures forall j :: 0 <= j < |LogLines(target, cases)| ==> NoBreak(LogLines(target, cases)[j])
  {
    if cases != [] {
      var init := cases[..|cases| - 1];
      var (id, t) := cases[|cases| - 1];
      assert AllReadBack(target, init) by {
        forall i | 0 <= i < |init| ensures init[i] == cases[i] { }
      }
      LogNoBreaks(target, init);
      var prev := LogLines(target, init);
      var rec := Record(t.ts, id, RawBytes(target, t.input), t.outcome);
      RecordNoBreaks(t.ts, id, RawBytes(target, t.input), t.outcome);
      forall j | 0 <= j < |prev + rec| ensures NoBreak((prev + rec)[j])
      {
        if j >= |prev| {
          assert (prev + rec)[j] == rec[j - |prev|];
        } else {
          assert (prev + rec)[j] == prev[j];
        }
      }
    }
  }

  /** The lines Python reads back from the log file Hypothesis wrote. */
  function ReadLog(target: string, cases: seq<(nat, Trial)>): seq<string>
  {
    SplitLines(Unlines(LogLines(target, cases)))
  }

  /** Read back with universal newlines, the log file gives exactly the lines
      written to it. */
  lemma {:induction false} ReadLogLines(target: string, cases: seq<(nat, Trial)>)
    requires AllReadBack(target, cases)
    ensures ReadLog(target, cases) == LogLines(target, cases)
  {
    LogNoBreaks(target, cases);
    SplitUnlines(LogLines(target, cases));
  }

  /** A reason phrase holding a bare carriage return does not read back as one
      line: the text after it comes back as a line of its own, which the loaders
      inspect like any written line. */
  lemma {:induction false} BrokenReasonSplits(ts: string, status: int, a: string, b: string, rest: string)
    requires IsTimestamp(ts) && NoBreak(a) && NoBreak(b) && b != []
    ensures SplitLines(OutcomeLine(ts, Response(status, a + "\r" + b)) + "\n" + rest)
         == [OutcomeLine(ts, Response(status, a))] + [b] + SplitLines(rest)
  {
    var head := OutcomeLine(ts, Response(status, a));
    OutcomeNoBreak(ts, Response(status, a), '\n');
    OutcomeNoBreak(ts, Response(status, a), '\r');
    var prefix := ts + Gap + AnomalyMarker + " HTTP " + IntToString(status) + " ";
    AppendAssoc(prefix, a, "\r" + b);
    AppendAssoc(a, "\r", b);
    AppendAssoc(prefix + a, "\r", b);
    assert OutcomeLine(ts, Response(status, a + "\r" + b)) == head + "\r" + b;
    AppendAssoc(head + "\r", b, "\n" + rest);
    AppendAssoc(head, "\r", b + "\n" + rest);
    AppendAssoc(b, "\n", rest);
    assert OutcomeLine(ts, Response(status, a + "\r" + b)) + "\n" + rest == head + "\r" + (b + "\n" + rest);
    SplitLinesCr(head, b + "\n" + rest);
    SplitLinesLf(b, rest);
  }

  // ------------------------------------------------ the six lines, one by one

  lemma {:induction false} SendingLineKind(ts: string, id: nat)
    requires IsTimestamp(ts)
    ensures OpensSession(SendingLine(ts, id))
  {
    var digits := NatToString(id);
    var head := ts + Gap + SendingMarker;
    ContainsEnd(ts + Gap, SendingMarker);
    ContainsGrow(head, " #", SendingMarker);
    ContainsGrow(head + " #", digits, SendingMarker);
    ContainsGrow(head + " #" + digits, "...", SendingMarker);
    TimestampLacks(ts, 'T');
    DigitsLack(id, 'T');
    SendingLetters();
    TransmittedLetters();
    PunctuationLacks('T');
    MissingChar(SendingLine(ts, id), TransmittedMarker, 'T');
  }

  lemma {:induction false} TransmittedLineKind(ts: string, raw: seq<byte>)
    requires IsTimestamp(ts) && !Contains(Repr(raw), SendingMarker)
    ensures !IsSending(TransmittedLine(ts, raw)) && IsTransmitted(TransmittedLine(ts, raw))
  {
    var digits := NatToString(|raw|);
    var prefix := ts + Gap + TransmittedMarker + " " + digits + " " + BytesMarker + " ";
    TransmittedMarkers(ts, raw);
    TimestampLacks(ts, 'I');
    DigitsLack(|raw|, 'I');
    SendingLetters();
    TransmittedLetters();
    PunctuationLacks('I');
    StartsInTail(prefix, Repr(raw), SendingMarker);
  }

  /** What an Anomaly line holds before the reason: the marker, and neither the
      first letter of the Sending marker nor an `r`. */
  lemma {:induction false} AnomalyPrefix(ts: string, status: int)
    requires IsTimestamp(ts)
    ensures Contains(ts + Gap + AnomalyMarker + " HTTP " + IntToString(status) + " ", AnomalyMarker)
    ensures 'I' !in ts + Gap + AnomalyMarker + " HTTP " + IntToString(status) + " "
    ensures 'r' !in ts + Gap + AnomalyMarker + " HTTP " + IntToString(status) + " "
  {
    var code := IntToString(status);
    var head := ts + Gap + AnomalyMarker;
    ContainsEnd(ts + Gap, AnomalyMarker);
    ContainsGrow(head, " HTTP ", AnomalyMarker);
    ContainsGrow(head + " HTTP ", code, AnomalyMarker);
    ContainsGrow(head + " HTTP " + code, " ", AnomalyMarker);
    AnomalyPrefixLacks(ts, status, 'I');
    AnomalyPrefixLacks(ts, status, 'r');
  }

  lemma {:induction false} AnomalyPrefixLacks(ts: string, status: int, c: char)
    requires IsTimestamp(ts) && (c == 'I' || c == 'r')
    ensures c !in ts + Gap + AnomalyMarker + " HTTP " + IntToString(status) + " "
  {
    OutcomeLetters();
    PunctuationLacks(c);
    assert c !in " HTTP ";
    TimestampLacks(ts, c);
    IntDigitsLack(status, c);
  }

  lemma {:induction false} AnomalyLineKind(ts: string, status: int, reason: string)
    requires IsTimestamp(ts)
    requires !Contains(reason, SendingMarker) && !Contains(reason, TransmittedMarker)
    ensures SetsFlag(OutcomeLine(ts, Response(status, reason)))
  {
    var prefix := ts + Gap + AnomalyMarker + " HTTP " + IntToString(status) + " ";
    AnomalyPrefix(ts, status);
    ContainsGrow(prefix, reason, AnomalyMarker);
    SendingLetters();
    TransmittedLetters();
    StartsInTail(prefix, reason, SendingMarker);
    MissingChar(prefix, TransmittedMarker, 'r');
    assert prefix[|prefix| - 1] == ' ';
    NoStraddle(prefix, reason, TransmittedMarker);
  }

  lemma {:induction false} ExceptionLineKind(ts: string, message: string)
    requires IsTimestamp(ts)
    requires !Contains(message, SendingMarker) && !Contains(message, TransmittedMarker)
    ensures SetsFlag(OutcomeLine(ts, RequestError(message)))
  {
    var head := ts + Gap + ExceptionMarker;
    var prefix := head + " ";
    ContainsEnd(ts + Gap, ExceptionMarker);
    ContainsGrow(head, " ", ExceptionMarker);
    ContainsGrow(prefix, message, ExceptionMarker);
    SendingLetters();
    TransmittedLetters();
    OutcomeLetters();
    PunctuationLacks('I');
    PunctuationLacks('T');
    TimestampLacks(ts, 'I');
    TimestampLacks(ts, 'T');
    StartsInTail(prefix, message, SendingMarker);
    StartsInTail(prefix, message, TransmittedMarker);
  }

  lemma {:induction false} OutcomeLineKind(ts: string, o: Outcome)
    requires IsTimestamp(ts)
    requires !Contains(OutcomeText(o), SendingMarker) && !Contains(OutcomeText(o), TransmittedMarker)
    ensures SetsFlag(OutcomeLine(ts, o))
  {
    match o {
      case Response(status, reason) => AnomalyLineKind(ts, status, reason);
      case RequestError(message) => ExceptionLineKind(ts, message);
    }
  }

  /** A line lacking 'z', 'T', 'A' and 'E' carries none of the Sending,
      Transmitted, Anomaly and Exception markers. */
  lemma {:induction false} PlainLineKind(line: string)
    requires 'z' !in line && 'T' !in line && 'A' !in line && 'E' !in line
    ensures !IsSending(line) && !IsTransmitted(line) && !IsOutcome(line)
  {
    SendingLetters();
    TransmittedLetters();
    OutcomeLetters();
    MissingChar(line, SendingMarker, 'z');
    MissingChar(line, TransmittedMarker, 'T');
    MissingChar(line, AnomalyMarker, 'A');
    MissingChar(line, ExceptionMarker, 'E');
  }

  /** The timestamp and the fixed text of a Closing or Sleeping line lack the
      letters that tell the markers apart. */
  lemma {:induction false} EndLetters(ts: string, c: char)
    requires IsTimestamp(ts) && (c == 'z' || c == 'T' || c == 'A' || c == 'E')
    ensures c !in ClosingLine(ts) && c !in SleepingLine(ts)
  {
    TimestampLacks(ts, c);
    PunctuationLacks(c);
    InfoLacks(c);
  }

  lemma {:induction false} ClosingLineKind(ts: string)
    requires IsTimestamp(ts)
    ensures IsPlainEnd(ClosingLine(ts))
  {
    EndLetters(ts, 'z');
    EndLetters(ts, 'T');
    EndLetters(ts, 'A');
    EndLetters(ts, 'E');
    PlainLineKind(ClosingLine(ts));
    ContainsEnd(ts + Gap + InfoTag, ClosingMarker);
    ContainsGrow(ts + Gap + InfoTag + ClosingMarker, "...", ClosingMarker);
  }

  lemma {:induction false} SleepingLineKind(ts: string)
    requires IsTimestamp(ts)
    ensures IsPlainEnd(SleepingLine(ts))
  {
    EndLetters(ts, 'z');
    EndLetters(ts, 'T');
    EndLetters(ts, 'A');
    EndLetters(ts, 'E');
    PlainLineKind(SleepingLine(ts));
    ContainsEnd(ts + Gap + InfoTag, SleepingMarker);
    ContainsGrow(ts + Gap + InfoTag + SleepingMarker, " 0.2s...", SleepingMarker);
  }

  // ------------------------------------------------ one record

  lemma {:induction false} LengthsStep(ls: seq<string>, k: nat)
    requires k < |ls|
    ensures Lengths(ls[..k + 1]) == Lengths(ls[..k]) + LineLengths(ls[k])
  {
    assert ls[..k + 1][..k] == ls[..k];
  }

  lemma {:induction false} NoLength(l: string)
    requires !IsTransmitted(l)
    ensures LineLengths(l) == []
  {
    LineLengthsCases(l);
  }

  /** A Transmitted line holds both markers the readers look for. */
  lemma {:induction false} TransmittedMarkers(ts: string, raw: seq<byte>)
    ensures IsCandidate(TransmittedLine(ts, raw))
  {
    var head := ts + Gap + TransmittedMarker;
    var digits := NatToString(|raw|);
    var pre := head + " " + digits + " ";
    ContainsEnd(ts + Gap, TransmittedMarker);
    ContainsGrow(head, " ", TransmittedMarker);
    ContainsGrow(head + " ", digits, TransmittedMarker);
    ContainsGrow(head + " " + digits, " ", TransmittedMarker);
    ContainsGrow(pre, BytesMarker, TransmittedMarker);
    ContainsGrow(pre + BytesMarker, " ", TransmittedMarker);
    ContainsGrow(pre + BytesMarker + " ", Repr(raw), TransmittedMarker);
    ContainsEnd(pre, BytesMarker);
    ContainsGrow(pre + BytesMarker, " ", BytesMarker);
    ContainsGrow(pre + BytesMarker + " ", Repr(raw), BytesMarker);
  }

  lemma {:induction false} TransmittedLength(ts: string, raw: seq<byte>)
    requires !Contains(Repr(raw), BytesMarker)
    ensures LineLengths(TransmittedLine(ts, raw)) == [|raw|]
  {
    TransmittedMarkers(ts, raw);
    TransmittedCount(ts, raw);
    LineLengthsCases(TransmittedLine(ts, raw));
  }

  /** A repr that itself holds "bytes:" hides the length: the readers split at
      its last "bytes:", which lies inside the repr, and the text after it is
      no literal unless it opens with `b`. A header value such as `bytes: x`
      puts the marker there. */
  lemma {:induction false} MarkerInReprLosesLength(ts: string, raw: seq<byte>, r1: string, r2: string)
    requires Repr(raw) == r1 + BytesMarker + r2
    requires !Contains(r2, BytesMarker) && (Strip(r2) == [] || Strip(r2)[0] != 'b')
    ensures IsCandidate(TransmittedLine(ts, raw)) && LineLengths(TransmittedLine(ts, raw)) == []
  {
    TransmittedMarkers(ts, raw);
    var a := ts + Gap + TransmittedMarker + " " + NatToString(|raw|) + " " + BytesMarker + " " + r1;
    assert TransmittedLine(ts, raw) == a + BytesMarker + r2;
    AfterInnerMarker(a, r2);
    NoOpening(Strip(r2));
  }

  /** The text after the last "bytes:" is whatever follows a marker with no
      marker after it. */
  lemma {:induction false} AfterInnerMarker(a: string, r2: string)
    requires !Contains(r2, BytesMarker)
    ensures AfterLast(a + BytesMarker + r2, BytesMarker) == r2
  {
    var t := BytesMarker + r2;
    forall j | 0 < j < |BytesMarker|
      ensures !OccursAt(t, BytesMarker, j)
    {
      assert t[j] == BytesMarker[j] != 'b';
      if j + |BytesMarker| <= |t| {
        assert t[j..j + |BytesMarker|][0] == t[j];
      }
    }
    AfterLastInfix(a, BytesMarker, r2);
  }

  /** Text that does not open with `b` is no literal to the readers. */
  lemma {:induction false} NoOpening(t: string)
    requires t == [] || t[0] != 'b'
    ensures ReadLiteral(t) == NoLiteral
  {
    assert !StartsWith(t, "b'") && !StartsWith(t, "b\"");
  }

  /** The bytes of `bytes: x` are eight long, yet their Transmitted line yields
      no length. */
  lemma {:induction false} HeaderMarkerLosesLength(ts: string)
    ensures var raw := [0x62, 0x79, 0x74, 0x65, 0x73, 0x3a, 0x20, 0x78];
            |raw| == 8 && LineLengths(TransmittedLine(ts, raw)) == []
  {
    var raw: seq<byte> := [0x62, 0x79, 0x74, 0x65, 0x73, 0x3a, 0x20, 0x78];
    HeaderRepr(raw);
    StripHeaderTail();
    MarkerInReprLosesLength(ts, raw, "b'", " x'");
  }

  lemma {:induction false} HeaderRepr(raw: seq<byte>)
    requires raw == [0x62, 0x79, 0x74, 0x65, 0x73, 0x3a, 0x20, 0x78]
    ensures Repr(raw) == "b'" + BytesMarker + " x'"
  {
    assert QuoteFor(raw) == '\'';
    EscapePlain(raw, '\'');
    assert EscapeAll(raw, '\'') == BytesMarker + " x";
  }

  lemma {:induction false} StripHeaderTail()
    ensures !Contains(" x'", BytesMarker) && Strip(" x'")[0] == 'x'
  {
    MissingChar(" x'", BytesMarker, 'b');
    StripAfterBlanks(" ", "x'");
  }

  /** Printable bytes other than the quote and the backslash stand for
      themselves in a repr. */
  lemma {:induction false} EscapePlain(b: seq<byte>, q: char)
    requires q == '\'' || q == '"'
    requires forall k :: 0 <= k < |b| ==> 0x20 <= b[k] < 0x7f && b[k] != q as int && b[k] != Backslash
    ensures |EscapeAll(b, q)| == |b|
    ensures forall k :: 0 <= k < |b| ==> EscapeAll(b, q)[k] == b[k] as char
  {
    if b != [] {
      EscapePlain(b[1..], q);
      assert EscapeByte(b[0], q) == [b[0] as char];
    }
  }

  /** A line that opens a session. */
  predicate OpensSession(l: string)
  {
    IsSending(l) && !IsTransmitted(l)
  }

  /** A Transmitted line that yields the length `n`. */
  predicate CarriesLength(l: string, n: nat)
  {
    !IsSending(l) && IsTransmitted(l) && LineLengths(l) == [n]
  }

  /** An Exception or Anomaly line that sets the session's flag. */
  predicate SetsFlag(l: string)
  {
    !IsSending(l) && !IsTransmitted(l) && IsOutcome(l)
  }

  /** A Closing or Sleeping line that carries no earlier marker. */
  predicate IsPlainEnd(l: string)
  {
    !IsSending(l) && !IsTransmitted(l) && !IsOutcome(l) && IsEnd(l)
  }

  /** The shape of a record as the parser sees it: a Sending line, a
      Transmitted line carrying `n`, an outcome line, two end lines, a blank. */
  predicate RecordShape(rec: seq<string>, n: nat)
  {
    && |rec| == 6
    && OpensSession(rec[0]) && CarriesLength(rec[1], n) && SetsFlag(rec[2])
    && IsPlainEnd(rec[3]) && IsPlainEnd(rec[4]) && rec[5] == ""
  }

  lemma {:induction false} ShapeLengths(rec: seq<string>, n: nat)
    requires RecordShape(rec, n)
    ensures Lengths(rec[..4]) == [n] && Lengths(rec[..5]) == [n]
  {
    NoLength(rec[0]);
    NoLength(rec[2]);
    NoLength(rec[3]);
    NoLength(rec[4]);
    assert rec[..0] == [];
    LengthsStep(rec, 0);
    LengthsStep(rec, 1);
    LengthsStep(rec, 2);
    LengthsStep(rec, 3);
    LengthsStep(rec, 4);
  }

  /** A session opened by a Sending line, continued by a Transmitted line and
      then an outcome line: the flag is set and nothing is emitted yet. */
  lemma {:induction false} ShapeOpens(st: ParserState, rec: seq<string>, n: nat)
    requires RecordShape(rec, n)
    ensures Run(st, rec[..3]) == ParserState(rec[..3], true, st.out)
  {
    assert rec[..0] == [];
    RunStep(st, rec, 0);
    var s1 := Run(st, rec[..1]);
    assert s1 == ParserState(rec[..1], false, st.out);
    RunStep(st, rec, 1);
    var s2 := Run(st, rec[..2]);
    assert rec[..1] + [rec[1]] == rec[..2];
    assert s2 == ParserState(rec[..2], false, st.out);
    RunStep(st, rec, 2);
    assert rec[..2] + [rec[2]] == rec[..3];
  }

  /** An end line in a session that saw an anomaly emits the session's lengths. */
  lemma {:induction false} EndStep(s: ParserState, l: string, m: seq<nat>)
    requires s.including && IsPlainEnd(l) && Lengths(s.session + [l]) == m
    ensures Step(s, l) == ParserState(s.session + [l], true, s.out + m)
  {
  }

  lemma {:induction false} RunSnoc(st: ParserState, a: seq<string>, l: string)
    ensures Run(st, a + [l]) == Step(Run(st, a), l)
  {
    assert (a + [l])[..|a|] == a;
  }

  /** The Closing line of a record emits its length. */
  lemma {:induction false} ShapeClosing(st: ParserState, rec: seq<string>, n: nat)
    requires RecordShape(rec, n)
    ensures Step(ParserState(rec[..3], true, st.out), rec[3])
         == ParserState(rec[..3] + [rec[3]], true, st.out + [n])
  {
    ShapeLengths(rec, n);
    assert rec[..3] + [rec[3]] == rec[..4];
    EndStep(ParserState(rec[..3], true, st.out), rec[3], [n]);
  }

  /** The Sleeping line of a record emits its length again. */
  lemma {:induction false} ShapeSleeping(st: ParserState, rec: seq<string>, n: nat)
    requires RecordShape(rec, n)
    ensures Step(ParserState(rec[..3] + [rec[3]], true, st.out + [n]), rec[4])
         == ParserState(rec[..3] + [rec[3]] + [rec[4]], true, st.out + [n] + [n])
  {
    var a := rec[..3] + [rec[3]];
    assert a + [rec[4]] == rec[..5];
    ShapeLengths(rec, n);
    assert IsPlainEnd(rec[4]);
    EndStep(ParserState(a, true, st.out + [n]), rec[4], [n]);
  }

  /** A blank line changes nothing. */
  lemma {:induction false} BlankStep(s: ParserState)
    ensures Step(s, "") == s
  {
  }

  /** Chaining two steps whose results are known. */
  lemma {:induction false} EndPair(st: ParserState, a: seq<string>, l3: string, l4: string, n: nat)
    requires Run(st, a) == ParserState(a, true, st.out)
    requires Step(ParserState(a, true, st.out), l3) == ParserState(a + [l3], true, st.out + [n])
    requires Step(ParserState(a + [l3], true, st.out + [n]), l4)
          == ParserState(a + [l3] + [l4], true, st.out + [n] + [n])
    ensures Run(st, a + [l3] + [l4]) == ParserState(a + [l3] + [l4], true, st.out + [n] + [n])
  {
    RunSnoc(st, a, l3);
    RunSnoc(st, a + [l3], l4);
  }

  lemma {:induction false} ShapeReadBack(st: ParserState, rec: seq<string>, n: nat)
    requires RecordShape(rec, n)
    ensures Run(st, rec) == ParserState(rec[..5], true, st.out + [n, n])
  {
    ShapeOpens(st, rec, n);
    ShapeClosing(st, rec, n);
    ShapeSleeping(st, rec, n);
    var a := rec[..3] + [rec[3]] + [rec[4]];
    EndPair(st, rec[..3], rec[3], rec[4], n);
    BlankStep(Run(st, a));
    assert a == rec[..5];
    assert a + [""] == rec;
    RunSnoc(st, a, "");
    assert st.out + [n] + [n] == st.out + [n, n];
  }

  /** Every record whose trial reads back has that shape, with the length of
      its bytes on the Transmitted line. */
  lemma {:induction false} RecordHasShape(ts: string, id: nat, raw: seq<byte>, o: Outcome)
    requires ReadsBack(ts, raw, o)
    ensures RecordShape(Record(ts, id, raw, o), |raw|)
  {
    FirstLines(ts, id, raw, o);
    ClosingLineKind(ts);
    SleepingLineKind(ts);
    ShapeOfLines(SendingLine(ts, id), TransmittedLine(ts, raw), OutcomeLine(ts, o), ClosingLine(ts), SleepingLine(ts), |raw|);
  }

  lemma {:induction false} FirstLines(ts: string, id: nat, raw: seq<byte>, o: Outcome)
    requires ReadsBack(ts, raw, o)
    ensures OpensSession(SendingLine(ts, id))
    ensures CarriesLength(TransmittedLine(ts, raw), |raw|)
    ensures SetsFlag(OutcomeLine(ts, o))
  {
    SendingLineKind(ts, id);
    TransmittedLineKind(ts, raw);
    TransmittedLength(ts, raw);
    OutcomeLineKind(ts, o);
  }

  lemma {:induction false} ShapeOfLines(l0: string, l1: string, l2: string, l3: string, l4: string, n: nat)
    requires OpensSession(l0) && CarriesLength(l1, n) && SetsFlag(l2) && IsPlainEnd(l3) && IsPlainEnd(l4)
    ensures RecordShape([l0, l1, l2, l3, l4, ""], n)
  {
  }

  /** Replaying one record through `load_fuzz_data` emits the length of its
      bytes twice, at the Closing line and again at the Sleeping line, and
      leaves the session open with the anomaly flag set. */
  lemma {:induction false} RecordReadBack(st: ParserState, ts: string, id: nat, raw: seq<byte>, o: Outcome)
    requires ReadsBack(ts, raw, o)
    ensures Run(st, Record(ts, id, raw, o))
         == ParserState(Record(ts, id, raw, o)[..5], true, st.out + [|raw|, |raw|])
  {
    RecordHasShape(ts, id, raw, o);
    ShapeReadBack(st, Record(ts, id, raw, o), |raw|);
  }

  /** A session whose flag is clear keeps it clear, and emits nothing, through a
      line that opens a session, carries "Transmitted", ends it plainly, or is
      blank. */
  lemma {:induction false} FlagStaysClear(s: ParserState, l: string)
    requires !s.including && KeepsClear(l)
    ensures !Step(s, l).including && Step(s, l).out == s.out
  {
    if l == "" {
      BlankStep(s);
    }
  }

  /** An outcome line whose text holds "Transmitted" or the Sending marker is
      taken by an earlier branch of the loader than the anomaly test. */
  lemma {:induction false} MarkedOutcomeLine(ts: string, o: Outcome)
    requires Contains(OutcomeText(o), TransmittedMarker) || Contains(OutcomeText(o), SendingMarker)
    ensures IsTransmitted(OutcomeLine(ts, o)) || IsSending(OutcomeLine(ts, o))
  {
    var l := OutcomeLine(ts, o);
    var pre := match o
      case Response(status, _) => ts + Gap + AnomalyMarker + " HTTP " + IntToString(status) + " "
      case RequestError(_) => ts + Gap + ExceptionMarker + " ";
    assert l == pre + OutcomeText(o);
    var n := |pre|;
    assert l[n..|l|] == OutcomeText(o);
    if Contains(OutcomeText(o), TransmittedMarker) {
      ContainsWithin(l, n, |l|, TransmittedMarker);
    } else {
      ContainsWithin(l, n, |l|, SendingMarker);
    }
  }

  /** A record whose outcome text holds "Transmitted" or the Sending marker never
      sets the anomaly flag, so `load_fuzz_data` takes nothing from it. */
  lemma {:induction false} MarkedOutcomeLoadsNothing(st: ParserState, ts: string, id: nat, raw: seq<byte>, o: Outcome)
    requires IsTimestamp(ts)
    requires Contains(OutcomeText(o), TransmittedMarker) || Contains(OutcomeText(o), SendingMarker)
    ensures Run(st, Record(ts, id, raw, o)).out == st.out
  {
    SendingLineKind(ts, id);
    TransmittedMarkers(ts, raw);
    MarkedOutcomeLine(ts, o);
    ClosingLineKind(ts);
    SleepingLineKind(ts);
    ClearRun(st, Record(ts, id, raw, o));
  }

  /** A line that leaves a clear anomaly flag clear. */
  predicate KeepsClear(l: string)
  {
    IsSending(l) || IsTransmitted(l) || IsPlainEnd(l) || l == ""
  }

  /** Six lines that open a session and then keep its flag clear emit nothing. */
  lemma {:induction false} ClearRun(st: ParserState, rec: seq<string>)
    requires |rec| == 6 && IsSending(rec[0])
    requires KeepsClear(rec[1]) && KeepsClear(rec[2]) && KeepsClear(rec[3])
    requires KeepsClear(rec[4]) && KeepsClear(rec[5])
    ensures Run(st, rec).out == st.out
  {
    var tail := rec[1..];
    assert rec == [rec[0]] + tail;
    RunAppend(st, [rec[0]], tail);
    assert [rec[0]][..0] == [];
    var s1 := Run(st, [rec[0]]);
    assert s1 == Step(st, rec[0]);
    forall k | 0 <= k < |tail| ensures KeepsClear(tail[k])
    {
      assert tail[k] == rec[k + 1];
    }
    RunKeepsClear(s1, tail);
  }

  /** Lines that keep the flag clear leave a clear session clear and emit
      nothing. */
  lemma {:induction false} RunKeepsClear(s: ParserState, ls: seq<string>)
    requires !s.including
    requires forall k :: 0 <= k < |ls| ==> KeepsClear(ls[k])
    ensures !Run(s, ls).including && Run(s, ls).out == s.out
    decreases |ls|
  {
    if ls != [] {
      var init := ls[..|ls| - 1];
      RunKeepsClear(s, init);
      FlagStaysClear(Run(s, init), ls[|ls| - 1]);
    }
  }

  // ------------------------------------------------ a whole Hypothesis log

  /** The byte lengths of the logged cases, in log order. */
  function CaseLengths(target: string, cases: seq<(nat, Trial)>): (r: seq<nat>)
    ensures |r| == |cases|
  {
    if cases == [] then []
    else
      var t := cases[|cases| - 1].1;
      CaseLengths(target, cases[..|cases| - 1]) + [|RawBytes(target, t.input)|]
  }

  /** Every element written twice in a row. */
  function Twice(ns: seq<nat>): (r: seq<nat>)
    ensures |r| == 2 * |ns|
  {
    if ns == [] then [] else Twice(ns[..|ns| - 1]) + [ns[|ns| - 1], ns[|ns| - 1]]
  }

  /** Position `2k` and `2k + 1` of `Twice(ns)` both hold `ns[k]`. */
  lemma {:induction false} TwiceElements(ns: seq<nat>)
    ensures forall k :: 0 <= k < |ns| ==> Twice(ns)[2 * k] == ns[k] && Twice(ns)[2 * k + 1] == ns[k]
  {
    if ns != [] {
      var init := ns[..|ns| - 1];
      TwiceElements(init);
      forall k | 0 <= k < |ns|
        ensures Twice(ns)[2 * k] == ns[k] && Twice(ns)[2 * k + 1] == ns[k]
      {
        if k < |init| {
          assert ns[k] == init[k];
        }
      }
    }
  }

  /** Every logged case of a run reads back. */
  predicate AllReadBack(target: string, cases: seq<(nat, Trial)>)
  {
    forall i :: 0 <= i < |cases| ==>
      ReadsBack(cases[i].1.ts, RawBytes(target, cases[i].1.input), cases[i].1.outcome)
  }

  /** What one record adds to the parser's output. */
  lemma {:induction false} RecordOut(st: ParserState, ts: string, id: nat, raw: seq<byte>, o: Outcome)
    requires ReadsBack(ts, raw, o)
    ensures Run(st, Record(ts, id, raw, o)).out == st.out + [|raw|, |raw|]
  {
    RecordReadBack(st, ts, id, raw, o);
  }

  /** The length of the last case's bytes. */
  function LastLength(target: string, cases: seq<(nat, Trial)>): nat
    requires cases != []
  {
    |RawBytes(target, cases[|cases| - 1].1.input)|
  }

  /** The log of a run is the log of all but its last case followed by the
      record of the last case, which adds its length twice. */
  lemma {:induction false} LastCaseOut(st: ParserState, target: string, cases: seq<(nat, Trial)>)
    requires cases != []
    requires var t := cases[|cases| - 1].1; ReadsBack(t.ts, RawBytes(target, t.input), t.outcome)
    ensures Run(st, LogLines(target, cases)).out
         == Run(st, LogLines(target, cases[..|cases| - 1])).out + [LastLength(target, cases), LastLength(target, cases)]
  {
    var (id, t) := cases[|cases| - 1];
    var raw := RawBytes(target, t.input);
    var prev := LogLines(target, cases[..|cases| - 1]);
    var rec := Record(t.ts, id, raw, t.outcome);
    assert LogLines(target, cases) == prev + rec;
    RunAppend(st, prev, rec);
    RecordOut(Run(st, prev), t.ts, id, raw, t.outcome);
  }

  /** `Twice` of the case lengths grows by the last length, twice. */
  lemma {:induction false} TwiceLast(target: string, cases: seq<(nat, Trial)>)
    requires cases != []
    ensures Twice(CaseLengths(target, cases))
         == Twice(CaseLengths(target, cases[..|cases| - 1])) + [LastLength(target, cases), LastLength(target, cases)]
  {
    var c := CaseLengths(target, cases);
    assert c[..|c| - 1] == CaseLengths(target, cases[..|cases| - 1]);
  }

  /** Replaying a Hypothesis log through `load_fuzz_data` yields the length of
      every logged request twice, in log order, after whatever came before. */
  lemma {:induction false} LogReplay(st: ParserState, target: string, cases: seq<(nat, Trial)>)
    requires AllReadBack(target, cases)
    ensures Run(st, LogLines(target, cases)).out == st.out + Twice(CaseLengths(target, cases))
  {
    if cases != [] {
      var init := cases[..|cases| - 1];
      assert AllReadBack(target, init) by {
        forall i | 0 <= i < |init| ensures init[i] == cases[i] { }
      }
      LogReplay(st, target, init);
      LastCaseOut(st, target, cases);
      TwiceLast(target, cases);
      var n := LastLength(target, cases);
      AppendAssoc(st.out, Twice(CaseLengths(target, init)), [n, n]);
    }
  }

  /** So the GAN, reading the log file back, trains on every logged request
      length twice. */
  lemma {:induction false} LoadHypothesisLog(target: string, trials: seq<Trial>, fails: bool)
    requires AllReadBack(target, LoggedCases(trials))
    ensures LoadSpec(Readable(ReadLog(target, LoggedCases(trials)), fails))
         == Twice(CaseLengths(target, LoggedCases(trials)))
  {
    ReadLogLines(target, LoggedCases(trials));
    LogReplay(Start, target, LoggedCases(trials));
  }

  /** The lines of one record yield its length once to a reader that scans
      every line for a literal, as `train_from_log` does. */
  lemma {:induction false} RecordScan(ts: string, id: nat, raw: seq<byte>, o: Outcome)
    requires ReadsBack(ts, raw, o)
    ensures Lengths(Record(ts, id, raw, o)) == [|raw|]
  {
    var rec := Record(ts, id, raw, o);
    RecordHasShape(ts, id, raw, o);
    ShapeLengths(rec, |raw|);
    LengthsStep(rec, 5);
    assert rec[..6] == rec;
    assert LineLengths("") == [];
  }

  /** Scanning a Hypothesis log line by line yields each logged length once. */
  lemma {:induction false} LogScan(target: string, cases: seq<(nat, Trial)>)
    requires AllReadBack(target, cases)
    ensures Lengths(LogLines(target, cases)) == CaseLengths(target, cases)
  {
    if cases != [] {
      var init := cases[..|cases| - 1];
      var (id, t) := cases[|cases| - 1];
      var raw := RawBytes(target, t.input);
      assert AllReadBack(target, init) by {
        forall i | 0 <= i < |init| ensures init[i] == cases[i] { }
      }
      LogScan(target, init);
      LengthsAppend(LogLines(target, init), Record(t.ts, id, raw, t.outcome));
      RecordScan(t.ts, id, raw, t.outcome);
    }
  }

  // ------------------------------------------------ a GAN transcript

  /** A line without 'A' and 'E' is no outcome line. */
  lemma {:induction false} PlainKeeps(line: string)
    requires 'A' !in line && 'E' !in line
    ensures KeepsFlag(line)
  {
    OutcomeLetters();
    MissingChar(line, AnomalyMarker, 'A');
    MissingChar(line, ExceptionMarker, 'E');
  }

  lemma {:induction false} GanSendingKeeps(ts: string, i: nat)
    requires IsTimestamp(ts)
    ensures KeepsFlag(GanSendingLine(ts, i))
  {
    TimestampLacks(ts, 'A');
    TimestampLacks(ts, 'E');
    DigitsLack(i, 'A');
    DigitsLack(i, 'E');
    PunctuationLacks('A');
    PunctuationLacks('E');
    InfoLacks('A');
    InfoLacks('E');
    assert 'A' !in "Sending generated case #" && 'E' !in "Sending generated case #";
    PlainKeeps(GanSendingLine(ts, i));
  }

  lemma {:induction false} TransmittedKeeps(ts: string, raw: seq<byte>)
    ensures KeepsFlag(TransmittedLine(ts, raw))
  {
    TransmittedMarkers(ts, raw);
  }

  lemma {:induction false} EndKeeps(ts: string)
    requires IsTimestamp(ts)
    ensures KeepsFlag(ClosingLine(ts)) && KeepsFlag(SleepingLine(ts)) && KeepsFlag("")
  {
    ClosingLineKind(ts);
    SleepingLineKind(ts);
    assert !IsOutcome("");
  }

  /** No line of a generated-case record can set the parser's flag. */
  lemma {:induction false} CaseRecordKeepsFlag(ts: string, i: nat, payload: string)
    requires IsTimestamp(ts)
    ensures forall k :: 0 <= k < 5 ==> KeepsFlag(CaseRecord(ts, i, payload)[k])
  {
    GanSendingKeeps(ts, i);
    TransmittedKeeps(ts, Encode(GanRequest(payload)));
    EndKeeps(ts);
  }

  /** Every line of the generated-case file keeps the flag clear. */
  lemma {:induction false} GanLogKeepsFlag(clock: seq<string>, payloads: seq<string>)
    requires |clock| == |payloads|
    requires forall k :: 0 <= k < |clock| ==> IsTimestamp(clock[k])
    ensures forall j :: 0 <= j < |GanLog(clock, payloads)| ==> KeepsFlag(GanLog(clock, payloads)[j])
  {
    if payloads != [] {
      var k := |payloads| - 1;
      var prev := GanLog(clock[..k], payloads[..k]);
      var rec := CaseRecord(clock[k], k, payloads[k]);
      GanLogKeepsFlag(clock[..k], payloads[..k]);
      CaseRecordKeepsFlag(clock[k], k, payloads[k]);
      forall j | 0 <= j < |prev + rec| ensures KeepsFlag((prev + rec)[j])
      {
        if j >= |prev| {
          assert (prev + rec)[j] == rec[j - |prev|];
        } else {
          assert (prev + rec)[j] == prev[j];
        }
      }
    }
  }

  lemma {:induction false} GanSendingLacks(ts: string, i: nat, c: char)
    requires IsTimestamp(ts) && (c == '\n' || c == '\r')
    ensures c !in GanSendingLine(ts, i)
  {
    BreakLacks(ts, c);
    DigitsLack(i, c);
    assert c !in "Sending generated case #";
  }

  /** No line of a generated-case record holds a line break. */
  lemma {:induction false} CaseRecordNoBreaks(ts: string, i: nat, payload: string)
    requires IsTimestamp(ts)
    ensures forall k :: 0 <= k < |CaseRecord(ts, i, payload)| ==> NoBreak(CaseRecord(ts, i, payload)[k])
  {
    var raw := Encode(GanRequest(payload));
    GanSendingLacks(ts, i, '\n');
    GanSendingLacks(ts, i, '\r');
    BreakLacks(ts, '\n');
    BreakLacks(ts, '\r');
    DigitsLack(|raw|, '\n');
    DigitsLack(|raw|, '\r');
    ReprNoBreak(raw);
  }

  /** Read back with universal newlines, the generated-case file gives exactly
      the lines written to it. */
  lemma {:induction false} ReadGanLog(clock: seq<string>, payloads: seq<string>)
    requires |clock| == |payloads|
    requires forall k :: 0 <= k < |clock| ==> IsTimestamp(clock[k])
    ensures SplitLines(Unlines(GanLog(clock, payloads))) == GanLog(clock, payloads)
  {
    GanLogNoBreaks(clock, payloads);
    SplitUnlines(GanLog(clock, payloads));
  }

  /** No line of the generated-case file holds a line break. */
  lemma {:induction false} GanLogNoBreaks(clock: seq<string>, payloads: seq<string>)
    requires |clock| == |payloads|
    requires forall k :: 0 <= k < |clock| ==> IsTimestamp(clock[k])
    ensures forall j :: 0 <= j < |GanLog(clock, payloads)| ==> NoBreak(GanLog(clock, payloads)[j])
  {
    if payloads != [] {
      var k := |payloads| - 1;
      var prev := GanLog(clock[..k], payloads[..k]);
      var rec := CaseRecord(clock[k], k, payloads[k]);
      GanLogNoBreaks(clock[..k], payloads[..k]);
      CaseRecordNoBreaks(clock[k], k, payloads[k]);
      forall j | 0 <= j < |prev + rec| ensures NoBreak((prev + rec)[j])
      {
        if j >= |prev| {
          assert (prev + rec)[j] == rec[j - |prev|];
        } else {
          assert (prev + rec)[j] == prev[j];
        }
      }
    }
  }

  /** The file `generate_test_cases` writes holds no Exception or Anomaly line,
      so `load_fuzz_data` finds nothing in it. */
  lemma {:induction false} GanLogLoadsNothing(clock: seq<string>, payloads: seq<string>, fails: bool)
    requires |clock| == |payloads|
    requires forall k :: 0 <= k < |clock| ==> IsTimestamp(clock[k])
    ensures LoadSpec(Readable(SplitLines(Unlines(GanLog(clock, payloads))), fails)) == []
  {
    ReadGanLog(clock, payloads);
    GanLogKeepsFlag(clock, payloads);
    NoOutcomeNoOutput(Start, GanLog(clock, payloads));
  }
}
