/** The GAN pipeline's text logic: the session parser `load_fuzz_data` that turns
    an anomaly transcript into byte lengths, the fallback training data of
    `train_gan`, and the transcript `generate_test_cases` writes.  The network
    itself is a source of integer samples. */
module GanModel {
  import opened Wrappers
  import opened Text
  import opened PyBytes
  import opened Utf8
  import opened Transcript

  // ------------------------------------------------------------ the parser

  /** The parser's variables between two lines: the lines of the current
      session, whether it saw an anomaly, and the lengths emitted so far. */
  datatype ParserState = ParserState(session: seq<string>, including: bool, out: seq<nat>)

  const Start := ParserState([], false, [])

  predicate IsSending(l: string)
  {
    Contains(l, SendingMarker)
  }

  predicate IsTransmitted(l: string)
  {
    Contains(l, TransmittedMarker)
  }

  predicate IsOutcome(l: string)
  {
    Contains(l, ExceptionMarker) || Contains(l, AnomalyMarker)
  }

  predicate IsEnd(l: string)
  {
    Contains(l, ClosingMarker) || Contains(l, SleepingMarker)
  }

  /** One line of `load_fuzz_data`: the markers are looked for in the order Sending,
      Transmitted, Exception/Anomaly, Closing/Sleeping, and a line matching none
      of them changes nothing. */
  function Step(st: ParserState, line: string): (r: ParserState)
    ensures st.out <= r.out
    ensures IsSending(line) ==> r == ParserState([line], false, st.out)
    ensures !IsSending(line) && IsTransmitted(line) ==> r.including == st.including && r.out == st.out
    ensures r.out != st.out ==> IsEnd(line) && st.including && r.out == st.out + Lengths(st.session + [line])
  {
    if IsSending(line) then ParserState([line], false, st.out)
    else if IsTransmitted(line) then st.(session := st.session + [line])
    else if IsOutcome(line) then st.(session := st.session + [line], including := true)
    else if IsEnd(line) then
      var session := st.session + [line];
      st.(session := session, out := if st.including then st.out + Lengths(session) else st.out)
    else st
  }

  /** The parser after a list of lines. */
  function Run(st: ParserState, ls: seq<string>): ParserState
  {
    if ls == [] then st else Step(Run(st, ls[..|ls| - 1]), ls[|ls| - 1])
  }

  lemma {:induction false} RunAppend(st: ParserState, a: seq<string>, b: seq<string>)
    ensures Run(st, a + b) == Run(Run(st, a), b)
    decreases |b|
  {
    if b == [] {
      assert a + b == a;
    } else {
      var c, init, last := a + b, b[..|b| - 1], b[|b| - 1];
      assert c[..|c| - 1] == a + init && c[|c| - 1] == last;
      calc {
        Run(st, c);
        Step(Run(st, a + init), last);
        { RunAppend(st, a, init); }
        Step(Run(Run(st, a), init), last);
        Run(Run(st, a), b);
      }
    }
  }

  /** Emitted lengths are never withdrawn or reordered: the output only grows
      at its end. */
  lemma {:induction false} OutputGrows(st: ParserState, ls: seq<string>)
    ensures st.out <= Run(st, ls).out
  {
    if ls != [] {
      OutputGrows(st, ls[..|ls| - 1]);
    }
  }

  /** A line that cannot set the anomaly flag: it is a Sending or Transmitted
      line, or it carries neither outcome marker. */
  predicate KeepsFlag(l: string)
  {
    IsSending(l) || IsTransmitted(l) || !IsOutcome(l)
  }

  /** Without any Exception or Anomaly line the flag stays clear and nothing is
      emitted, whatever the lines hold. */
  lemma {:induction false} NoOutcomeNoOutput(st: ParserState, ls: seq<string>)
    requires !st.including
    requires forall i :: 0 <= i < |ls| ==> KeepsFlag(ls[i])
    ensures !Run(st, ls).including && Run(st, ls).out == st.out
  {
    if ls != [] {
      NoOutcomeNoOutput(st, ls[..|ls| - 1]);
    }
  }

  /** A session cut off by the next Sending line before any Closing or Sleeping
      line contributes nothing, even if it saw an anomaly. */
  lemma {:induction false} CutOffSession(st: ParserState, mid: seq<string>, next: string)
    requires forall i :: 0 <= i < |mid| ==> !IsEnd(mid[i])
    requires IsSending(next)
    ensures Run(st, mid + [next]) == ParserState([next], false, st.out)
  {
    RunAppend(st, mid, [next]);
    assert Run(st, mid).out == st.out by {
      NoEndNoOutput(st, mid);
    }
  }

  lemma {:induction false} NoEndNoOutput(st: ParserState, ls: seq<string>)
    requires forall i :: 0 <= i < |ls| ==> !IsEnd(ls[i])
    ensures Run(st, ls).out == st.out
  {
    if ls != [] {
      NoEndNoOutput(st, ls[..|ls| - 1]);
    }
  }

  /** What `load_fuzz_data` returns for a log file. */
  function LoadSpec(file: LogFile): seq<nat>
  {
    match file
    case Readable(lines, _) => Run(Start, lines).out
    case _ => []
  }

  /** A missing or unopenable log gives the empty list; a read error part-way
      keeps what was parsed before it. */
  lemma {:induction false} LoadUnreadable(lines: seq<string>)
    ensures LoadSpec(Missing) == [] && LoadSpec(Unopenable) == []
    ensures LoadSpec(Readable(lines, true)) == LoadSpec(Readable(lines, false))
  {
  }

  /** The inner loop of `load_fuzz_data`: every Transmitted line of the session
      whose literal evaluates appends its length, in session order. */
  method EmitSession(testCases: seq<nat>, session: seq<string>) returns (r: seq<nat>)
    ensures r == testCases + Lengths(session)
  {
    r := testCases;
    var j := 0;
    while j < |session|
      invariant 0 <= j <= |session|
      invariant r == testCases + Lengths(session[..j])
    {
      var l := session[j];
      var more: seq<nat> := [];
      if IsCandidate(l) {
        var read := ReadLength(l);
        if read.Length? {
          more := [read.n];
        }
      }
      LineLengthsCases(l);
      assert more == LineLengths(l);
      EmitStep(testCases, session, j, r, more);
      r := r + more;
      j := j + 1;
    }
    assert session[..j] == session;
  }

  lemma {:induction false} EmitStep(testCases: seq<nat>, session: seq<string>, j: nat, r: seq<nat>, more: seq<nat>)
    requires j < |session| && r == testCases + Lengths(session[..j]) && more == LineLengths(session[j])
    ensures r + more == testCases + Lengths(session[..j + 1])
  {
    var s := session[..j + 1];
    assert s[..|s| - 1] == session[..j] && s[|s| - 1] == session[j];
    assert Lengths(s) == Lengths(session[..j]) + more;
  }

  lemma {:induction false} RunStep(st: ParserState, lines: seq<string>, i: nat)
    requires i < |lines|
    ensures Run(st, lines[..i + 1]) == Step(Run(st, lines[..i]), lines[i])
  {
    assert lines[..i + 1][..i] == lines[..i];
  }

  /** `load_fuzz_data`: the line loop with its session list and anomaly flag,
      and the inner loop over the session at every Closing or Sleeping line. */
  method LoadFuzzData(file: LogFile) returns (testCases: seq<nat>)
    ensures testCases == LoadSpec(file)
  {
    testCases := [];
    match file {
      case Readable(lines, _) =>
        var session: seq<string> := [];
        var including := false;
        var i := 0;
        while i < |lines|
          invariant 0 <= i <= |lines|
          invariant ParserState(session, including, testCases) == Run(Start, lines[..i])
        {
          RunStep(Start, lines, i);
          var line := lines[i];
          if Contains(line, SendingMarker) {
            session := [line];
            including := false;
          } else if Contains(line, TransmittedMarker) {
            session := session + [line];
          } else if Contains(line, ExceptionMarker) || Contains(line, AnomalyMarker) {
            session := session + [line];
            including := true;
          } else if Contains(line, ClosingMarker) || Contains(line, SleepingMarker) {
            session := session + [line];
            if including {
              testCases := EmitSession(testCases, session);
            }
          }
          i := i + 1;
        }
        assert lines[..i] == lines;
      case _ =>
    }
  }

  // ------------------------------------------------------------ training data

  const FallbackData: seq<nat> := [10, 20, 30, 40, 50]

  /** The data `train_gan` trains on: the loaded lengths, or the fixed fallback
      when there are none. */
  function TrainingData(data: seq<nat>): (r: seq<nat>)
    ensures r != []
    ensures data != [] ==> r == data
    ensures data == [] ==> r == FallbackData
  {
    if data == [] then FallbackData else data
  }

  // ------------------------------------------------------------ generation

  /** The alphabet `random.choices` draws payload characters from: ASCII
      letters of both cases and decimal digits. */
  predicate IsAlnum(c: char)
  {
    'A' <= c <= 'Z' || 'a' <= c <= 'z' || '0' <= c <= '9'
  }

  predicate IsPayload(p: string, n: nat)
  {
    |p| == n && forall k :: 0 <= k < |p| ==> IsAlnum(p[k])
  }

  /** `max(1, int(sample))`, with the generator's output already truncated
      toward zero. */
  function CaseLength(sample: int): (n: nat)
    ensures n >= 1 && n >= sample
    ensures n == sample || n == 1
  {
    if sample < 1 then 1 else sample
  }

  /** The payload length of every sample, in order. */
  function SampleLengths(samples: seq<int>): (r: seq<nat>)
    ensures |r| == |samples|
    ensures forall k :: 0 <= k < |r| ==> r[k] == CaseLength(samples[k])
  {
    seq(|samples|, k requires 0 <= k < |samples| => CaseLength(samples[k]))
  }

  const GanTail := " HTTP/1.1\r\n" + "Host: fuzzed.target.local\r\n" + "User-Agent: GAN-Fuzzer\r\n\r\n"

  /** The fixed frame of a generated request, around its payload. */
  function GanRequest(payload: string): string
  {
    "GET /" + payload + GanTail
  }

  lemma {:induction false} GanTailAscii()
    ensures IsAscii(GanTail) && |GanTail| == 64
  {
    var t1 := " HTTP/1.1\r\n";
    var t2 := "Host: fuzzed.target.local\r\n";
    var t3 := "User-Agent: GAN-Fuzzer\r\n\r\n";
    assert GanTail == t1 + t2 + t3;
    assert IsAscii(t1) && IsAscii(t2) && IsAscii(t3);
    AsciiConcat(t1, t2);
    AsciiConcat(t1 + t2, t3);
  }

  /** The frame adds exactly 69 bytes to the payload. */
  lemma {:induction false} GanFrame(p: string, n: nat)
    requires IsPayload(p, n)
    ensures |Encode(GanRequest(p))| == n + 69
  {
    assert GanRequest(p) == "GET /" + p + GanTail;
    GanTailAscii();
    assert IsAscii("GET /") && IsAscii(p);
    AsciiConcat("GET /", p);
    AsciiConcat("GET /" + p, GanTail);
    EncodeAscii(GanRequest(p));
  }

  function GanSendingLine(ts: string, i: nat): string
  {
    ts + Gap + InfoTag + "Sending generated case #" + NatToString(i) + "..."
  }

  /** The five lines written for case `i`: four records and the blank line left
      by the final double newline. */
  function CaseRecord(ts: string, i: nat, payload: string): seq<string>
  {
    [ GanSendingLine(ts, i),
      TransmittedLine(ts, Encode(GanRequest(payload))),
      ClosingLine(ts),
      SleepingLine(ts),
      "" ]
  }

  /** The file of generated cases: the records of the payloads in index order. */
  function GanLog(clock: seq<string>, payloads: seq<string>): seq<string>
    requires |clock| == |payloads|
  {
    if payloads == [] then []
    else
      var k := |payloads| - 1;
      GanLog(clock[..k], payloads[..k]) + CaseRecord(clock[k], k, payloads[k])
  }

  lemma {:induction false} GanLogStep(clock: seq<string>, payloads: seq<string>, i: nat, payload: string)
    requires i < |clock| && |payloads| == i
    ensures GanLog(clock[..i + 1], payloads + [payload])
         == GanLog(clock[..i], payloads) + CaseRecord(clock[i], i, payload)
  {
    assert clock[..i + 1][..i] == clock[..i];
    assert (payloads + [payload])[..i] == payloads;
  }

  lemma {:induction false} PayloadsStep(s: seq<int>, payloads: seq<string>, payload: string)
    requires |payloads| < |s| && IsPayload(payload, CaseLength(s[|payloads|]))
    requires forall k :: 0 <= k < |payloads| ==> IsPayload(payloads[k], CaseLength(s[k]))
    ensures forall k :: 0 <= k < |payloads| + 1 ==> IsPayload((payloads + [payload])[k], CaseLength(s[k]))
  {
    forall k | 0 <= k < |payloads| + 1
      ensures IsPayload((payloads + [payload])[k], CaseLength(s[k]))
    {
      if k < |payloads| {
        assert (payloads + [payload])[k] == payloads[k];
      }
    }
  }

  /** `generate_test_cases`: no generator gives nothing; otherwise each sample
      becomes a random alphanumeric payload of length `max(1, sample)`, and the
      output file is rewritten with one record per case. */
  method GenerateTestCases(samples: Option<seq<int>>, clock: seq<string>)
    returns (written: Option<seq<string>>, payloads: seq<string>)
    requires samples.Some? ==> |clock| == |samples.value|
    ensures samples.None? ==> written.None? && payloads == []
    ensures samples.Some? ==>
              && |payloads| == |samples.value|
              && (forall i :: 0 <= i < |payloads| ==> IsPayload(payloads[i], CaseLength(samples.value[i])))
              && written == Some(GanLog(clock, payloads))
  {
    payloads := [];
    if samples.None? {
      return None, [];
    }
    var s := samples.value;
    var lines: seq<string> := [];
    var i := 0;
    while i < |s|
      invariant 0 <= i <= |s| && |payloads| == i
      invariant forall k :: 0 <= k < i ==> IsPayload(payloads[k], CaseLength(s[k]))
      invariant lines == GanLog(clock[..i], payloads)
    {
      var length := CaseLength(s[i]);
      assert IsPayload(seq(length, _ => 'A'), length);
      var payload :| IsPayload(payload, length);
      GanLogStep(clock, payloads, i, payload);
      lines := lines + CaseRecord(clock[i], i, payload);
      PayloadsStep(s, payloads, payload);
      payloads := payloads + [payload];
      i := i + 1;
    }
    assert clock[..i] == clock;
    written := Some(lines);
  }
}
