/** The Hypothesis-driven HTTP fuzzer: the depth-scaled input domain its
    strategies declare, the raw request it previews, the anomaly rule, and the
    six log lines (five records and a blank) it appends for every anomalous or
    failed case.  The engine's sampling, the network and the clock are inputs. */
module HypothesisFuzz {
  import opened Wrappers
  import opened Text
  import opened PyBytes
  import opened Utf8
  import opened Transcript

  const Methods: seq<string> := ["GET", "POST", "PUT", "DELETE", "PATCH", "HEAD", "OPTIONS", "TRACE", "CONNECT"]
  const LogName := "fuzz2.log"

  // ------------------------------------------------------------ input domain

  /** The alphabet of path segments and query strings: letters and decimal digits
      (Unicode categories Ll, Lu and Nd), '-' and '_'.  Outside ASCII every
      character is admitted, which over-approximates those categories. */
  predicate IsWordChar(c: char)
  {
    'a' <= c <= 'z' || 'A' <= c <= 'Z' || IsDigit(c) || c == '-' || c == '_' || c as int >= 0x80
  }

  /** The alphabet of header names and values: ASCII letters, digits and "-_:;.,/ ". */
  predicate IsHeaderChar(c: char)
  {
    'a' <= c <= 'z' || 'A' <= c <= 'Z' || IsDigit(c) || c in "-_:;.,/ "
  }

  predicate WordText(s: string, lo: nat, hi: nat)
  {
    lo <= |s| <= hi && forall k :: 0 <= k < |s| ==> IsWordChar(s[k])
  }

  predicate HeaderText(s: string, lo: nat, hi: nat)
  {
    lo <= |s| <= hi && forall k :: 0 <= k < |s| ==> IsHeaderChar(s[k])
  }

  /** A dictionary in insertion order: no key twice. */
  predicate DistinctKeys(kv: seq<(string, string)>)
  {
    forall i, j :: 0 <= i < j < |kv| ==> kv[i].0 != kv[j].0
  }

  /** One example drawn by the engine: the path is kept as its segments. */
  datatype FuzzInput = FuzzInput(
    verb: string,
    segments: seq<string>,
    query: seq<(string, string)>,
    headers: seq<(string, string)>,
    body: seq<byte>)

  /** The bounds the strategies declare at a given depth. */
  predicate InDomain(depth: nat, x: FuzzInput)
  {
    && x.verb in Methods
    && 1 <= |x.segments| <= 3 + depth
    && (forall i :: 0 <= i < |x.segments| ==> WordText(x.segments[i], 1, 5))
    && |x.query| <= 3 + depth && DistinctKeys(x.query)
    && (forall i :: 0 <= i < |x.query| ==>
          WordText(x.query[i].0, 1, 5 + depth) && WordText(x.query[i].1, 0, 8 + depth))
    && |x.headers| <= 3 + depth && DistinctKeys(x.headers)
    && (forall i :: 0 <= i < |x.headers| ==>
          HeaderText(x.headers[i].0, 1, 12 + depth) && HeaderText(x.headers[i].1, 0, 20 + depth))
    && |x.body| <= 100 + 10 * depth
  }

  /** `"/".join(segs)`. */
  function JoinSlash(segs: seq<string>): string
  {
    if segs == [] then "" else if |segs| == 1 then segs[0] else segs[0] + "/" + JoinSlash(segs[1..])
  }

  /** The path strategy's mapping `"/" + "/".join(segs)`. */
  function Path(segs: seq<string>): string
  {
    "/" + JoinSlash(segs)
  }

  lemma {:induction false} JoinSlashLength(segs: seq<string>, n: nat)
    requires segs != [] && forall i :: 0 <= i < |segs| ==> 1 <= |segs[i]| <= n
    ensures 2 * |segs| - 1 <= |JoinSlash(segs)| <= (n + 1) * |segs| - 1
  {
    if |segs| > 1 {
      JoinSlashLength(segs[1..], n);
    }
  }

  /** A path in the domain at depth `d` starts with '/' and has between 2 and
      6 * (3 + d) characters. */
  lemma {:induction false} PathBounds(depth: nat, x: FuzzInput)
    requires InDomain(depth, x)
    ensures 2 <= |Path(x.segments)| <= 6 * (3 + depth)
    ensures Path(x.segments)[0] == '/'
  {
    JoinSlashLength(x.segments, 5);
  }

  // ------------------------------------------------------------ raw request

  function RequestHead(verb: string, path: string, target: string): string
  {
    verb + " " + path + " HTTP/1.1\r\nHost: " + target + "\r\n"
  }

  function HeaderLine(h: (string, string)): string
  {
    h.0 + ": " + h.1 + "\r\n"
  }

  /** The header lines, in dictionary order. */
  function HeaderBlock(hs: seq<(string, string)>): string
  {
    if hs == [] then "" else HeaderBlock(hs[..|hs| - 1]) + HeaderLine(hs[|hs| - 1])
  }

  /** The text of the preview: request line, Host line, headers, blank line. */
  function Preview(verb: string, path: string, target: string, hs: seq<(string, string)>): string
  {
    RequestHead(verb, path, target) + HeaderBlock(hs) + "\r\n"
  }

  /** The bytes the fuzzer reports for one case. */
  function RawBytes(target: string, x: FuzzInput): seq<byte>
  {
    Encode(Preview(x.verb, Path(x.segments), target, x.headers)) + x.body
  }

  /** Builds `raw_preview` header by header, encodes it and appends the body. */
  method BuildRawBytes(verb: string, path: string, target: string, hs: seq<(string, string)>, body: seq<byte>)
    returns (raw: seq<byte>)
    ensures raw == Encode(Preview(verb, path, target, hs)) + body
    ensures |raw| >= |Preview(verb, path, target, hs)| + |body| && raw[|raw| - |body|..] == body
  {
    var preview := RequestHead(verb, path, target);
    var i := 0;
    while i < |hs|
      invariant 0 <= i <= |hs|
      invariant preview == RequestHead(verb, path, target) + HeaderBlock(hs[..i])
    {
      assert hs[..i + 1][..i] == hs[..i];
      preview := preview + HeaderLine(hs[i]);
      i := i + 1;
    }
    assert hs[..i] == hs;
    preview := preview + "\r\n";
    raw := Encode(preview) + body;
  }

  predicate NoBreaks(s: string)
  {
    '\n' !in s && '\r' !in s
  }

  lemma {:induction false} HeaderBlockFront(hs: seq<(string, string)>)
    requires hs != []
    ensures HeaderBlock(hs) == HeaderLine(hs[0]) + HeaderBlock(hs[1..])
  {
    if |hs| > 1 {
      HeaderBlockFront(hs[..|hs| - 1]);
      assert hs[..|hs| - 1][1..] == hs[1..][..|hs[1..]| - 1];
    } else {
      assert hs[..0] == [];
      assert hs[1..] == [];
    }
  }

  /** The lines of the header block, read back with universal newlines. */
  function HeaderTexts(hs: seq<(string, string)>): seq<string>
  {
    if hs == [] then [] else [hs[0].0 + ": " + hs[0].1] + HeaderTexts(hs[1..])
  }

  lemma {:induction false} NoBreaksField(k: string, v: string)
    requires NoBreaks(k) && NoBreaks(v)
    ensures NoBreaks(k + ": " + v)
  {
  }

  lemma {:induction false} SplitHeaderBlock(hs: seq<(string, string)>, rest: string)
    requires forall i :: 0 <= i < |hs| ==> NoBreaks(hs[i].0) && NoBreaks(hs[i].1)
    ensures SplitLines(HeaderBlock(hs) + rest) == HeaderTexts(hs) + SplitLines(rest)
  {
    if hs != [] {
      var tail := hs[1..];
      forall i | 0 <= i < |tail|
        ensures NoBreaks(tail[i].0) && NoBreaks(tail[i].1)
      {
        assert tail[i] == hs[i + 1];
      }
      var l := hs[0].0 + ": " + hs[0].1;
      var t := HeaderBlock(tail) + rest;
      assert HeaderBlock(hs) + rest == l + "\r\n" + t by {
        HeaderBlockFront(hs);
      }
      NoBreaksField(hs[0].0, hs[0].1);
      SplitLinesCrLf(l, t);
      SplitHeaderBlock(tail, rest);
      assert HeaderTexts(hs) == [l] + HeaderTexts(tail);
      AppendAssoc([l], HeaderTexts(tail), SplitLines(rest));
    } else {
      assert HeaderBlock(hs) + rest == rest;
    }
  }

  lemma {:induction false} NoBreaksRequestLine(verb: string, path: string)
    requires NoBreaks(verb) && NoBreaks(path)
    ensures NoBreaks(verb + " " + path + " HTTP/1.1")
  {
  }

  lemma {:induction false} NoBreaksHostLine(target: string)
    requires NoBreaks(target)
    ensures NoBreaks("Host: " + target)
  {
  }

  lemma {:induction false} SplitBlankLine()
    ensures SplitLines("\r\n") == [""]
  {
    SplitLinesCrLf("", "");
    assert "" + "\r\n" + "" == "\r\n";
  }

  lemma {:induction false} SplitRequestParts(l1: string, l2: string, hs: seq<(string, string)>)
    requires NoBreaks(l1) && NoBreaks(l2)
    requires forall i :: 0 <= i < |hs| ==> NoBreaks(hs[i].0) && NoBreaks(hs[i].1)
    ensures SplitLines(l1 + "\r\n" + (l2 + "\r\n" + (HeaderBlock(hs) + "\r\n")))
         == [l1, l2] + HeaderTexts(hs) + [""]
  {
    var rest := HeaderBlock(hs) + "\r\n";
    var y := l2 + "\r\n" + rest;
    calc {
      SplitLines(l1 + "\r\n" + y);
      == { SplitLinesCrLf(l1, y); }
      [l1] + SplitLines(y);
      == { SplitLinesCrLf(l2, rest); }
      [l1] + ([l2] + SplitLines(rest));
      == { SplitHeaderBlock(hs, "\r\n"); SplitBlankLine(); }
      [l1] + ([l2] + (HeaderTexts(hs) + [""]));
      ==
      [l1, l2] + HeaderTexts(hs) + [""];
    }
  }

  lemma {:induction false} PreviewText(verb: string, path: string, target: string, hs: seq<(string, string)>)
    ensures Preview(verb, path, target, hs)
         == (verb + " " + path + " HTTP/1.1") + "\r\n" + (("Host: " + target) + "\r\n" + (HeaderBlock(hs) + "\r\n"))
  {
  }

  /** Read back line by line, the preview is the request line, the Host line,
      one "k: v" line per header in dictionary order, and a blank line. */
  lemma {:induction false} PreviewLines(verb: string, path: string, target: string, hs: seq<(string, string)>)
    requires NoBreaks(verb) && NoBreaks(path) && NoBreaks(target)
    requires forall i :: 0 <= i < |hs| ==> NoBreaks(hs[i].0) && NoBreaks(hs[i].1)
    ensures SplitLines(Preview(verb, path, target, hs))
         == [verb + " " + path + " HTTP/1.1", "Host: " + target] + HeaderTexts(hs) + [""]
  {
    var l1 := verb + " " + path + " HTTP/1.1";
    var l2 := "Host: " + target;
    var t := l1 + "\r\n" + (l2 + "\r\n" + (HeaderBlock(hs) + "\r\n"));
    PreviewText(verb, path, target, hs);
    NoBreaksRequestLine(verb, path);
    NoBreaksHostLine(target);
    SplitRequestParts(l1, l2, hs);
    assert SplitLines(t) == [l1, l2] + HeaderTexts(hs) + [""];
  }

  // ------------------------------------------------------------ the record

  /** What the network returned: a status and reason phrase, or a
      `RequestException` with its message. */
  datatype Outcome = Response(status: int, reason: string) | RequestError(message: string)

  /** A status is anomalous when it is a server error or not a valid HTTP status. */
  predicate IsAnomalous(status: int)
  {
    status >= 500 || status < 100
  }

  predicate IsLogged(o: Outcome)
  {
    o.RequestError? || IsAnomalous(o.status)
  }

  function OutcomeLine(ts: string, o: Outcome): string
  {
    match o
    case Response(status, reason) => ts + Gap + AnomalyMarker + " HTTP " + IntToString(status) + " " + reason
    case RequestError(message) => ts + Gap + ExceptionMarker + " " + message
  }

  function SendingLine(ts: string, id: nat): string
  {
    ts + Gap + SendingMarker + " #" + NatToString(id) + "..."
  }

  /** The lines appended for a logged case: the last write ends in two newlines,
      which leaves an empty line behind the five records. */
  function Record(ts: string, id: nat, raw: seq<byte>, o: Outcome): seq<string>
  {
    [ SendingLine(ts, id),
      TransmittedLine(ts, raw),
      OutcomeLine(ts, o),
      ClosingLine(ts),
      SleepingLine(ts),
      "" ]
  }

  // ------------------------------------------------------------ the run

  /** The state of one run: the case counter and the lines of the log file,
      which is opened for writing (so truncated) when the run starts. */
  class FuzzRun {
    const target: string
    var count: nat
    var log: seq<string>

    constructor (target: string)
      ensures this.target == target && count == 0 && log == []
    {
      this.target := target;
      count := 0;
      log := [];
    }

    /** One example: the counter is bumped before anything is sent, and the
        record is written only for an anomalous response or a failed request. */
    method FuzzCase(x: FuzzInput, ts: string, outcome: Outcome)
      modifies this
      ensures count == old(count) + 1
      ensures log == old(log) + (if IsLogged(outcome) then Record(ts, count, RawBytes(target, x), outcome) else [])
    {
      count := count + 1;
      var caseId := count;
      var raw := BuildRawBytes(x.verb, Path(x.segments), target, x.headers, x.body);
      match outcome {
        case Response(status, reason) =>
          if status >= 500 || status < 100 {
            log := log + Record(ts, caseId, raw, outcome);
          }
        case RequestError(message) =>
          log := log + Record(ts, caseId, raw, outcome);
      }
    }
  }

  /** One call of the test function: what the engine drew, the clock reading and
      what the network answered. */
  datatype Trial = Trial(input: FuzzInput, ts: string, outcome: Outcome)

  /** The logged trials of a run, each with the case id it was given. */
  function LoggedCases(trials: seq<Trial>): seq<(nat, Trial)>
  {
    if trials == [] then []
    else
      var prev := LoggedCases(trials[..|trials| - 1]);
      var last := trials[|trials| - 1];
      if IsLogged(last.outcome) then prev + [(|trials|, last)] else prev
  }

  /** Only anomalous or failed trials are logged, in order of their ids, each
      under its position. */
  lemma {:induction false} LoggedCasesSound(trials: seq<Trial>)
    ensures forall i, j :: 0 <= i < j < |LoggedCases(trials)| ==> LoggedCases(trials)[i].0 < LoggedCases(trials)[j].0
    ensures forall i :: 0 <= i < |LoggedCases(trials)| ==>
              && 1 <= LoggedCases(trials)[i].0 <= |trials|
              && LoggedCases(trials)[i].1 == trials[LoggedCases(trials)[i].0 - 1]
              && IsLogged(LoggedCases(trials)[i].1.outcome)
  {
    if trials != [] {
      var init := trials[..|trials| - 1];
      LoggedCasesSound(init);
      var prev := LoggedCases(init);
      forall i | 0 <= i < |prev|
        ensures prev[i].1 == trials[prev[i].0 - 1]
      {
        assert init[prev[i].0 - 1] == trials[prev[i].0 - 1];
      }
    }
  }

  /** Every anomalous or failed trial is logged, under its position as id. */
  lemma {:induction false} LoggedCasesComplete(trials: seq<Trial>, k: nat)
    requires k < |trials| && IsLogged(trials[k].outcome)
    ensures (k + 1, trials[k]) in LoggedCases(trials)
  {
    var init := trials[..|trials| - 1];
    if k < |init| {
      assert init[k] == trials[k];
      LoggedCasesComplete(init, k);
    }
  }

  /** The log of a run: the records of its logged cases, in order. */
  function LogLines(target: string, cases: seq<(nat, Trial)>): seq<string>
  {
    if cases == [] then []
    else
      var (id, t) := cases[|cases| - 1];
      LogLines(target, cases[..|cases| - 1]) + Record(t.ts, id, RawBytes(target, t.input), t.outcome)
  }

  /** One more trial extends the log by its record, or by nothing. */
  lemma {:induction false} LogStep(target: string, trials: seq<Trial>, i: nat)
    requires i < |trials|
    ensures LogLines(target, LoggedCases(trials[..i + 1]))
         == LogLines(target, LoggedCases(trials[..i]))
            + (if IsLogged(trials[i].outcome)
               then Record(trials[i].ts, i + 1, RawBytes(target, trials[i].input), trials[i].outcome)
               else [])
  {
    var t := trials[..i + 1];
    assert t[..|t| - 1] == trials[..i];
    var prev := LoggedCases(trials[..i]);
    if IsLogged(trials[i].outcome) {
      var cs := prev + [(i + 1, trials[i])];
      assert LoggedCases(t) == cs;
      assert cs[..|cs| - 1] == prev;
    }
  }

  /** `_resolve_log_path`: the log sits in the given directory, or in the default
      one when none is given (the empty string), and its name does not depend on
      the depth. */
  function LogPath(outputDir: string, defaultDir: string): (p: string)
    requires defaultDir != []
    ensures EndsWith(p, "/" + LogName)
    ensures StartsWith(p, if outputDir != [] then outputDir else defaultDir)
  {
    JoinPath(if outputDir != [] then outputDir else defaultDir, LogName)
  }

  /** `run_hypothesis_fuzz`: the engine calls the test function at most
      `num_examples * depth` times, each time with an input from the declared
      domain.  The log holds exactly the records of the logged trials, whatever
      the file held before. */
  method RunHypothesisFuzz(target: string, numExamples: nat, depth: nat, outputDir: string, defaultDir: string,
                           trials: seq<Trial>)
    returns (logPath: string, log: seq<string>, tested: nat)
    requires defaultDir != []
    requires |trials| <= numExamples * depth
    requires forall i :: 0 <= i < |trials| ==> InDomain(depth, trials[i].input)
    ensures logPath == LogPath(outputDir, defaultDir)
    ensures tested == |trials|
    ensures log == LogLines(target, LoggedCases(trials))
  {
    logPath := LogPath(outputDir, defaultDir);
    var run := new FuzzRun(target);
    var i := 0;
    while i < |trials|
      invariant 0 <= i <= |trials|
      invariant run.target == target && run.count == i
      invariant run.log == LogLines(target, LoggedCases(trials[..i]))
    {
      LogStep(target, trials, i);
      run.FuzzCase(trials[i].input, trials[i].ts, trials[i].outcome);
      i := i + 1;
    }
    assert trials[..i] == trials;
    log := run.log;
    tested := run.count;
  }
}
