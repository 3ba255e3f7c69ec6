/** The simulated DeepSeek generator of `deepseek_generator.py`. It learns request
    lengths from a transcript, draws new lengths around them (or at random when
    it learned none) and writes one GET request per length to a text file. */
module DeepSeekGenerator {
  import opened Wrappers
  import opened Text
  import opened PyBytes
  import opened Transcript
  import opened GanModel
  import opened HypothesisFuzz
  import opened Replay

  const DefaultModel := "deepseek-r1:8b"

  // ------------------------------------------------------------ paths

  /** `_resolve_log_path`: an explicit path is used as given (the test is
      `is not None`, so even an empty one), otherwise `fuzz_output/fuzz.log`
      under the project root. */
  function ResolveLogPath(logFile: Option<string>, root: string): (p: string)
    ensures logFile.Some? ==> p == logFile.value
    ensures logFile.None? ==> EndsWith(p, "/fuzz.log")
  {
    if logFile.Some? then logFile.value else JoinPath(JoinPath(root, "fuzz_output"), "fuzz.log")
  }

  /** Left to its default, the trainer reads the boofuzz log name `fuzz.log`, never
      the `fuzz2.log` the Hypothesis engine writes into the same directory. */
  lemma {:induction false} DefaultLogIsNotHypothesisLog(root: string)
    ensures ResolveLogPath(None, root) != LogPath("", JoinPath(root, "fuzz_output"))
  {
    var p := ResolveLogPath(None, root);
    var q := LogPath("", JoinPath(root, "fuzz_output"));
    assert p[|p| - 5] == "/fuzz.log"[4];
    assert q[|q| - 5] == ("/" + LogName)[5];
  }

  // ------------------------------------------------------------ learning

  /** What `train_from_log` leaves in `learned_lengths`: the length of every
      candidate line that evaluates, in file order, whatever the session or
      anomaly markers around it; nothing for a missing or unopenable file. */
  function Learned(file: LogFile): seq<nat>
  {
    if file.Readable? then Lengths(file.lines) else []
  }

  /** `max(1, x + j)`: a learned length moved by the jitter `j`. */
  function Jitter(x: nat, j: int): nat
  {
    if x + j < 1 then 1 else x + j
  }

  /** `v` is some learned length moved by a jitter in [-2, 2]. */
  predicate Jittered(v: nat, xs: seq<nat>)
  {
    exists i, j :: 0 <= i < |xs| && -2 <= j <= 2 && v == Jitter(xs[i], j)
  }

  /** A jittered value is at least 1 and within 2 of the length it came from;
      the clamp to 1 only applies to lengths below 3, where 1 is still that
      close. */
  lemma {:induction false} JitteredNear(v: nat, xs: seq<nat>)
    requires Jittered(v, xs)
    ensures v >= 1
    ensures exists i :: 0 <= i < |xs| && xs[i] - 2 <= v <= xs[i] + 2
  {
    var i, j :| 0 <= i < |xs| && -2 <= j <= 2 && v == Jitter(xs[i], j);
    assert xs[i] - 2 <= v <= xs[i] + 2;
  }

  // ------------------------------------------------------------ requests

  /** The fixed part of a request after its payload; each field name is kept
      apart from the colon that follows it. */
  const DeepSeekTail := " HTTP/1.1\r\n" + "Host" + ": fuzzed.target.local\r\n" + "User-Agent" + ": DeepSeek-Fuzzer\r\n" + "\r\n"

  /** `_build_fuzz_request(index, length)` once its payload is drawn: a header line
      naming the case and its length, then a GET request for `/payload`. */
  function RequestText(index: nat, length: nat, payload: string): string
  {
    "[Generated case " + NatToString(index) + "] Length" + ": " + NatToString(length) + "\n"
    + "GET /" + payload + DeepSeekTail
  }

  /** The text `save_generated_cases` writes: each request followed by a newline,
      in index order. */
  function SavedText(lengths: seq<nat>, payloads: seq<string>): string
    requires |lengths| == |payloads|
  {
    if lengths == [] then ""
    else
      var k := |lengths| - 1;
      SavedText(lengths[..k], payloads[..k]) + RequestText(k, lengths[k], payloads[k]) + "\n"
  }

  lemma {:induction false} SavedStep(lengths: seq<nat>, payloads: seq<string>, i: nat, payload: string)
    requires |lengths| > i && |payloads| == i
    ensures SavedText(lengths[..i + 1], payloads + [payload])
         == SavedText(lengths[..i], payloads) + RequestText(i, lengths[i], payload) + "\n"
  {
    assert lengths[..i + 1][..i] == lengths[..i];
    assert (payloads + [payload])[..i] == payloads;
  }

  // ------------------------------------------------------------ the generator

  class Generator {
    const modelName: string
    var learnedLengths: seq<nat>

    constructor (modelName: string)
      ensures this.modelName == modelName && learnedLengths == []
    {
      this.modelName := modelName;
      learnedLengths := [];
    }

    /** `train_from_log` on the file found at the resolved path. The lengths are
        cleared first, so they never depend on an earlier training; a missing
        file returns quietly, an unopenable one raises with nothing learned, and
        a read error raises after the lines before it were learned. */
    method TrainFromLog(file: LogFile) returns (raised: bool)
      modifies this
      ensures learnedLengths == Learned(file)
      ensures raised <==> file.Unopenable? || (file.Readable? && file.fails)
    {
      learnedLengths := [];
      match file {
        case Missing =>
          raised := false;
        case Unopenable =>
          raised := true;
        case Readable(lines, fails) =>
          var i := 0;
          while i < |lines|
            invariant 0 <= i <= |lines|
            invariant learnedLengths == Lengths(lines[..i])
          {
            LengthsStep(lines, i);
            LineLengthsCases(lines[i]);
            var line := lines[i];
            if Contains(line, TransmittedMarker) && Contains(line, BytesMarker) {
              var byteStr := LiteralText(line);
              if StartsWith(byteStr, "b'") || StartsWith(byteStr, "b\"") {
                match EvalLiteral(byteStr) {
                  case Some(b) =>
                    learnedLengths := learnedLengths + [|b|];
                  case None =>
                }
              }
            }
            i := i + 1;
          }
          assert lines[..i] == lines;
          raised := fails;
      }
    }

    /** `generate(num_cases)`: exactly `n` lengths, drawn from [5, 100] when
        nothing was learned and otherwise a learned length with a jitter. */
    method Generate(n: nat) returns (r: seq<nat>)
      ensures |r| == n
      ensures learnedLengths == [] ==> forall k :: 0 <= k < n ==> 5 <= r[k] <= 100
      ensures learnedLengths != [] ==> forall k :: 0 <= k < n ==> Jittered(r[k], learnedLengths)
    {
      r := [];
      if learnedLengths == [] {
        while |r| < n
          invariant |r| <= n
          invariant forall k :: 0 <= k < |r| ==> 5 <= r[k] <= 100
        {
          var v: nat :| 5 <= v <= 100;
          r := r + [v];
        }
      } else {
        while |r| < n
          invariant |r| <= n
          invariant forall k :: 0 <= k < |r| ==> Jittered(r[k], learnedLengths)
        {
          var i :| 0 <= i < |learnedLengths|;
          var j :| -2 <= j <= 2;
          var v := Jitter(learnedLengths[i], j);
          assert Jittered(v, learnedLengths);
          r := r + [v];
        }
      }
    }

    /** `_build_fuzz_request(index, length)`: the payload is `length` characters
        drawn from the letters and digits. */
    method BuildFuzzRequest(index: nat, length: nat) returns (request: string, payload: string)
      ensures IsPayload(payload, length)
      ensures request == RequestText(index, length, payload)
    {
      assert IsPayload(seq(length, _ => 'x'), length);
      payload :| IsPayload(payload, length);
      request := "[Generated case " + NatToString(index) + "] Length" + ": " + NatToString(length) + "\n"
                 + "GET /" + payload + DeepSeekTail;
    }

    /** The write loop of `save_generated_cases`: one request per length, each
        followed by a newline, in index order. */
    method WriteRequests(lengths: seq<nat>) returns (payloads: seq<string>, content: string)
      ensures |payloads| == |lengths|
      ensures forall k :: 0 <= k < |lengths| ==> IsPayload(payloads[k], lengths[k])
      ensures content == SavedText(lengths, payloads)
    {
      content := "";
      payloads := [];
      var i := 0;
      while i < |lengths|
        invariant 0 <= i <= |lengths| && |payloads| == i
        invariant forall k :: 0 <= k < i ==> IsPayload(payloads[k], lengths[k])
        invariant content == SavedText(lengths[..i], payloads)
      {
        var request, payload := BuildFuzzRequest(i, lengths[i]);
        SavedStep(lengths, payloads, i, payload);
        content := content + request + "\n";
        payloads := payloads + [payload];
        i := i + 1;
      }
      assert lengths[..i] == lengths;
    }

    /** `save_generated_cases(num_cases)`: the file at the output path is replaced
        by the requests for freshly generated lengths. */
    method SaveGeneratedCases(n: nat, root: string)
      returns (outputPath: string, lengths: seq<nat>, payloads: seq<string>, content: string)
      ensures outputPath == GeneratedPath(root)
      ensures |lengths| == n && |payloads| == n
      ensures learnedLengths == [] ==> forall k :: 0 <= k < n ==> 5 <= lengths[k] <= 100
      ensures learnedLengths != [] ==> forall k :: 0 <= k < n ==> Jittered(lengths[k], learnedLengths)
      ensures forall k :: 0 <= k < n ==> IsPayload(payloads[k], lengths[k])
      ensures content == SavedText(lengths, payloads)
    {
      lengths := Generate(n);
      outputPath := GeneratedPath(root);
      payloads, content := WriteRequests(lengths);
    }
  }

  // ------------------------------------------------------------ replaying the output

  /** Every colon of `t` follows a character other than `s`. */
  predicate ColonSafe(t: string)
  {
    forall i :: 0 <= i < |t| && t[i] == ':' ==> 0 < i && t[i - 1] != 's'
  }

  lemma {:induction false} ColonSafeAppend(a: string, b: string)
    requires ColonSafe(a) && ColonSafe(b)
    ensures ColonSafe(a + b)
  {
    forall i | 0 <= i < |a + b| && (a + b)[i] == ':'
      ensures 0 < i && (a + b)[i - 1] != 's'
    {
      if i >= |a| {
        assert (a + b)[i] == b[i - |a|];
        if i - |a| > 0 {
          assert (a + b)[i - 1] == b[i - |a| - 1];
        }
      }
    }
  }

  lemma {:induction false} NoColon(s: string)
    requires ':' !in s
    ensures ColonSafe(s)
  {
  }

  /** A colon joined after a character other than `s`, followed by text without
      a colon. */
  lemma {:induction false} JoinColon(a: string, v: string)
    requires ColonSafe(a) && a != [] && a[|a| - 1] != 's' && ':' !in v
    ensures ColonSafe(a + (":" + v))
  {
    var t := a + (":" + v);
    forall i | |a| < i < |t|
      ensures t[i] != ':'
    {
      assert t[i] == v[i - |a| - 1];
    }
    forall i | 0 <= i < |a|
      ensures t[i] == a[i]
    {
    }
  }

  /** "bytes:" needs a colon right after an `s`. */
  lemma {:induction false} ColonSafeLacksMarker(t: string)
    requires ColonSafe(t)
    ensures !Contains(t, BytesMarker)
  {
    forall i | 0 <= i <= |t| - |BytesMarker|
      ensures !OccursAt(t, BytesMarker, i)
    {
      assert t[i..i + 6][4] == t[i + 4] && t[i..i + 6][5] == t[i + 5];
      assert BytesMarker[4] == 's' && BytesMarker[5] == ':';
    }
  }

  lemma {:induction false} DigitsColonSafe(n: nat)
    ensures ColonSafe(NatToString(n))
  {
    NatToStringDigits(n);
  }

  lemma {:induction false} PayloadColonSafe(p: string, n: nat)
    requires IsPayload(p, n)
    ensures ColonSafe(p)
  {
  }

  /** Text without colons, then two fields whose names do not end in `s`, each
      followed by its colon and a value without one, then text without colons. */
  lemma {:induction false} FieldsColonSafe(t: string, n1: string, v1: string, n2: string, v2: string, e: string)
    requires ':' !in t && ':' !in n1 && ':' !in v1 && ':' !in n2 && ':' !in v2 && ':' !in e
    requires n1 != [] && n1[|n1| - 1] != 's' && n2 != [] && n2[|n2| - 1] != 's'
    ensures ColonSafe(t + n1 + (":" + v1) + n2 + (":" + v2) + e)
  {
    NoColon(t);
    NoColon(n1);
    ColonSafeAppend(t, n1);
    assert (t + n1)[|t + n1| - 1] == n1[|n1| - 1];
    JoinColon(t + n1, v1);
    NoColon(n2);
    ColonSafeAppend(t + n1 + (":" + v1), n2);
    assert (t + n1 + (":" + v1) + n2)[|t + n1 + (":" + v1) + n2| - 1] == n2[|n2| - 1];
    JoinColon(t + n1 + (":" + v1) + n2, v2);
    NoColon(e);
    ColonSafeAppend(t + n1 + (":" + v1) + n2 + (":" + v2), e);
  }

  lemma {:induction false} TailPieces()
    ensures ':' !in " HTTP/1.1\r\n" && ':' !in "Host" && ':' !in " fuzzed.target.local\r\n"
    ensures ':' !in "User-Agent" && ':' !in " DeepSeek-Fuzzer\r\n" && ':' !in "\r\n"
  {
  }

  lemma {:induction false} TailColons()
    ensures ": fuzzed.target.local\r\n" == ":" + " fuzzed.target.local\r\n"
    ensures ": DeepSeek-Fuzzer\r\n" == ":" + " DeepSeek-Fuzzer\r\n"
  {
  }

  lemma {:induction false} TailColonSafe()
    ensures ColonSafe(DeepSeekTail)
  {
    TailPieces();
    TailColons();
    FieldsColonSafe(" HTTP/1.1\r\n", "Host", " fuzzed.target.local\r\n", "User-Agent", " DeepSeek-Fuzzer\r\n", "\r\n");
  }

  /** No request holds a colon right after an `s`. */
  lemma {:induction false} RequestColonSafe(index: nat, length: nat, payload: string)
    requires IsPayload(payload, length)
    ensures ColonSafe(RequestText(index, length, payload))
  {
    var a := "[Generated case ";
    var b := NatToString(index);
    var d := NatToString(length);
    NoColon(a);
    DigitsColonSafe(index);
    ColonSafeAppend(a, b);
    NoColon("] Length");
    ColonSafeAppend(a + b, "] Length");
    assert ": " == ":" + " ";
    JoinColon(a + b + "] Length", " ");
    var c := "] Length" + ": ";
    assert a + b + "] Length" + ": " == a + b + c;
    DigitsColonSafe(length);
    NoColon("\n");
    NoColon("GET /");
    PayloadColonSafe(payload, length);
    TailColonSafe();
    ColonSafeAppend(a + b + c, d);
    ColonSafeAppend(a + b + c + d, "\n");
    ColonSafeAppend(a + b + c + d + "\n", "GET /");
    ColonSafeAppend(a + b + c + d + "\n" + "GET /", payload);
    ColonSafeAppend(a + b + c + d + "\n" + "GET /" + payload, DeepSeekTail);
  }

  lemma {:induction false} SavedColonSafe(lengths: seq<nat>, payloads: seq<string>)
    requires |lengths| == |payloads|
    requires forall k :: 0 <= k < |lengths| ==> IsPayload(payloads[k], lengths[k])
    ensures ColonSafe(SavedText(lengths, payloads))
  {
    if lengths != [] {
      var k := |lengths| - 1;
      SavedColonSafe(lengths[..k], payloads[..k]);
      RequestColonSafe(k, lengths[k], payloads[k]);
      NoColon("\n");
      ColonSafeAppend(SavedText(lengths[..k], payloads[..k]), RequestText(k, lengths[k], payloads[k]));
      ColonSafeAppend(SavedText(lengths[..k], payloads[..k]) + RequestText(k, lengths[k], payloads[k]), "\n");
    }
  }

  /** No line of the saved file holds "bytes:", so no line is a candidate. */
  lemma {:induction false} SavedHasNoCandidates(lengths: seq<nat>, payloads: seq<string>)
    requires |lengths| == |payloads|
    requires forall k :: 0 <= k < |lengths| ==> IsPayload(payloads[k], lengths[k])
    ensures forall l :: l in SplitLines(SavedText(lengths, payloads)) ==> !IsCandidate(l)
  {
    var t := SavedText(lengths, payloads);
    SavedColonSafe(lengths, payloads);
    ColonSafeLacksMarker(t);
    AbsentInLines(t, BytesMarker);
  }

  /** Training on the generator's own output learns nothing: the file has no
      Transmitted lines with a literal. */
  lemma {:induction false} SavedLearnsNothing(lengths: seq<nat>, payloads: seq<string>, fails: bool)
    requires |lengths| == |payloads|
    requires forall k :: 0 <= k < |lengths| ==> IsPayload(payloads[k], lengths[k])
    ensures Learned(Readable(SplitLines(SavedText(lengths, payloads)), fails)) == []
  {
    var ls := SplitLines(SavedText(lengths, payloads));
    SavedHasNoCandidates(lengths, payloads);
    assert forall i :: 0 <= i < |ls| ==> ls[i] in ls;
    LengthsNone(ls);
  }

  /** Trained on a Hypothesis transcript, the generator learns each logged case's
      length once, where `load_fuzz_data` reports it twice. */
  lemma {:induction false} LearnsOncePerCase(target: string, trials: seq<Trial>, fails: bool)
    requires AllReadBack(target, LoggedCases(trials))
    ensures Learned(Readable(ReadLog(target, LoggedCases(trials)), fails)) == CaseLengths(target, LoggedCases(trials))
    ensures LoadSpec(Readable(ReadLog(target, LoggedCases(trials)), fails))
         == Twice(Learned(Readable(ReadLog(target, LoggedCases(trials)), fails)))
  {
    ReadLogLines(target, LoggedCases(trials));
    LogScan(target, LoggedCases(trials));
    LoadHypothesisLog(target, trials, fails);
  }
}
