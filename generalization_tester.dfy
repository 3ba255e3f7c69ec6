/** `generalization_tester.py`: the generated requests are read back from a
    transcript, each one is sent as the body of a GET to the target's `/`, and
    each reply is classified. */
module Generalization {
  import opened Wrappers
  import opened Text
  import opened PyBytes
  import opened Utf8
  import opened Transcript
  import opened GanModel
  import opened Replay
  import opened DeepSeekGenerator

  // ------------------------------------------------------------ the pattern

  predicate IsQuote(c: char)
  {
    c == '\'' || c == '"'
  }

  /** The end of the run of whitespace that starts at `i` (`\s+` when it is not
      empty). */
  function SpaceEnd(t: string, i: nat): (k: nat)
    requires i <= |t|
    ensures i <= k <= |t|
    ensures forall j :: i <= j < k ==> IsSpace(t[j])
    ensures k < |t| ==> !IsSpace(t[k])
    decreases |t| - i
  {
    if i < |t| && IsSpace(t[i]) then SpaceEnd(t, i + 1) else i
  }

  /** The last quote in `t[lo..hi]`, or -1 when there is none. */
  function LastQuote(t: string, lo: nat, hi: nat): (k: int)
    requires lo <= hi <= |t|
    ensures k == -1 || (lo <= k < hi && IsQuote(t[k]))
    ensures forall j :: (if k < 0 then lo else k + 1) <= j < hi ==> !IsQuote(t[j])
    decreases hi
  {
    if hi <= lo then -1 else if IsQuote(t[hi - 1]) then hi - 1 else LastQuote(t, lo, hi - 1)
  }

  /** Group 1 of `bytes:\s+(b["'].*["'])` when the match starts at `i`: the blank
      run cannot give back a `b`, so it is taken whole; the greedy `.*` ends at
      the last quote before the next newline. */
  function MatchAt(t: string, i: nat): (r: Option<string>)
    ensures r.Some? ==> |r.value| >= 3 && r.value[0] == 'b' && IsQuote(r.value[1])
                        && IsQuote(r.value[|r.value| - 1]) && '\n' !in r.value
  {
    if OccursAt(t, BytesMarker, i) then
      var j := SpaceEnd(t, i + 6);
      if j > i + 6 && j + 1 < |t| && t[j] == 'b' && IsQuote(t[j + 1]) then
        var e := DotEnd(t, j + 2);
        var k := LastQuote(t, j + 2, e);
        if k >= 0 then
          assert forall m :: j + 2 <= m <= k ==> t[m] != '\n';
          Some(t[j..k + 1])
        else None
      else None
    else None
  }

  /** `re.search`: the leftmost position at or after `i` where the pattern matches. */
  function SearchFrom(t: string, i: nat): (r: Option<string>)
    requires i <= |t| + 1
    decreases |t| + 1 - i
  {
    if i > |t| then None
    else if MatchAt(t, i).Some? then MatchAt(t, i)
    else SearchFrom(t, i + 1)
  }

  function Search(t: string): Option<string>
  {
    SearchFrom(t, 0)
  }

  /** Positions where "bytes:" does not occur cannot start a match. */
  lemma {:induction false} SearchSkip(t: string, i: nat, p: nat)
    requires i <= p <= |t|
    requires forall k :: i <= k < p ==> !OccursAt(t, BytesMarker, k)
    ensures SearchFrom(t, i) == SearchFrom(t, p)
    decreases p - i
  {
    if i < p {
      SearchSkip(t, i + 1, p);
    }
  }

  /** With no `y` before it, the first "bytes:" of a line is the one after the
      prefix. */
  lemma {:induction false} FirstMarker(prefix: string, rest: string)
    requires 'y' !in prefix
    ensures forall k :: 0 <= k < |prefix| ==> !OccursAt(prefix + BytesMarker + rest, BytesMarker, k)
    ensures OccursAt(prefix + BytesMarker + rest, BytesMarker, |prefix|)
  {
    var t := prefix + BytesMarker + rest;
    var p := |prefix|;
    forall k | 0 <= k < p
      ensures !OccursAt(t, BytesMarker, k)
    {
      assert t[k..k + 6][1] == t[k + 1];
      if k + 1 < p {
        assert t[k + 1] == prefix[k + 1];
      } else {
        assert t[k + 1] == BytesMarker[0];
      }
    }
    assert t[p..p + 6] == BytesMarker;
  }

  lemma {:induction false} OneSpace(t: string, i: nat)
    requires i + 1 < |t| && IsSpace(t[i]) && !IsSpace(t[i + 1])
    ensures SpaceEnd(t, i) == i + 1
  {
  }

  lemma {:induction false} NoNewline(t: string, i: nat)
    requires i <= |t| && forall m :: i <= m < |t| ==> t[m] != '\n'
    ensures DotEnd(t, i) == |t|
  {
  }

  lemma {:induction false} EndsInQuote(t: string, lo: nat)
    requires lo < |t| && IsQuote(t[|t| - 1])
    ensures LastQuote(t, lo, |t|) == |t| - 1
  {
  }

  /** The match at a marker followed by one blank, a `b`, a quote, and a line
      that ends in a quote is the rest of the text after the blank. */
  lemma {:induction false} MatchAtShape(t: string, i: nat)
    requires OccursAt(t, BytesMarker, i) && i + 9 < |t|
    requires t[i + 6] == ' ' && t[i + 7] == 'b' && IsQuote(t[i + 8]) && IsQuote(t[|t| - 1])
    requires forall m :: i + 9 <= m < |t| ==> t[m] != '\n'
    ensures MatchAt(t, i) == Some(t[i + 7..])
  {
    OneSpace(t, i + 6);
    NoNewline(t, i + 9);
    EndsInQuote(t, i + 9);
    assert SpaceEnd(t, i + 6) == i + 7;
    assert DotEnd(t, i + 9) == |t|;
    assert LastQuote(t, i + 9, |t|) == |t| - 1;
    assert t[i + 7..|t|] == t[i + 7..];
  }

  /** Right after the marker, one blank and a quoted text ending in a quote, with
      no newline, give exactly that text. */
  lemma {:induction false} MatchAfterMarker(prefix: string, r: string)
    requires |r| >= 3 && r[0] == 'b' && IsQuote(r[1]) && IsQuote(r[|r| - 1]) && '\n' !in r
    requires OccursAt(prefix + BytesMarker + (" " + r), BytesMarker, |prefix|)
    ensures MatchAt(prefix + BytesMarker + (" " + r), |prefix|) == Some(r)
  {
    var head := prefix + BytesMarker;
    var tail := " " + r;
    var t := head + tail;
    var p := |prefix|;
    assert |head| == p + 6 && |t| == p + 7 + |r|;
    SliceRight(head, tail, p + 7, |t|);
    assert tail[1..] == r;
    assert t[p + 6] == tail[0];
    assert t[p + 7] == tail[1] && t[p + 8] == tail[2];
    assert t[|t| - 1] == r[|r| - 1];
    forall m | p + 9 <= m < |t|
      ensures t[m] != '\n'
    {
      assert t[m] == tail[m - p - 6] == r[m - p - 7];
    }
    MatchAtShape(t, p);
  }

  /** A line whose first "bytes:" is followed by one blank and a quoted text
      ending in a quote, with no newline, yields exactly that text. */
  lemma {:induction false} SearchAfterMarker(prefix: string, r: string)
    requires 'y' !in prefix
    requires |r| >= 3 && r[0] == 'b' && IsQuote(r[1]) && IsQuote(r[|r| - 1]) && '\n' !in r
    ensures Search(prefix + BytesMarker + " " + r) == Some(r)
  {
    var t := prefix + BytesMarker + " " + r;
    assert t == prefix + BytesMarker + (" " + r);
    FirstMarker(prefix, " " + r);
    SearchSkip(t, 0, |prefix|);
    MatchAfterMarker(prefix, r);
  }

  // ------------------------------------------------------------ extraction

  /** What one line contributes to `extract_payloads_from_log`: a candidate line
      whose match evaluates gives the decoded bytes; any other line, a line
      without a match, or a literal that fails to evaluate gives nothing. */
  function ExtractLine(line: string): (r: seq<string>)
    ensures |r| <= 1
  {
    if IsCandidate(line) then
      match Search(line)
      case Some(literal) =>
        (match EvalLiteral(literal)
         case Some(b) => [DecodeIgnore(b)]
         case None => [])
      case None => []
    else []
  }

  function ExtractAll(lines: seq<string>): (r: seq<string>)
    ensures |r| <= |lines|
  {
    if lines == [] then [] else ExtractAll(lines[..|lines| - 1]) + ExtractLine(lines[|lines| - 1])
  }

  /** `extract_payloads_from_log`: the file is opened without a guard, so a
      missing or unopenable file, or a read error, raises and yields nothing. */
  function ExtractSpec(file: LogFile): Option<seq<string>>
  {
    if file.Readable? && !file.fails then Some(ExtractAll(file.lines)) else None
  }

  lemma {:induction false} ExtractStep(lines: seq<string>, i: nat)
    requires i < |lines|
    ensures ExtractAll(lines[..i + 1]) == ExtractAll(lines[..i]) + ExtractLine(lines[i])
  {
    assert lines[..i + 1][..i] == lines[..i];
  }

  method ExtractPayloadsFromLog(file: LogFile) returns (payloads: Option<seq<string>>)
    ensures payloads == ExtractSpec(file)
  {
    if !file.Readable? {
      return None;
    }
    var lines := file.lines;
    var acc: seq<string> := [];
    var i := 0;
    while i < |lines|
      invariant 0 <= i <= |lines|
      invariant acc == ExtractAll(lines[..i])
    {
      ExtractStep(lines, i);
      var line := lines[i];
      if Contains(line, TransmittedMarker) && Contains(line, BytesMarker) {
        var m := Search(line);
        if m.Some? {
          var rawBytes := EvalLiteral(m.value);
          if rawBytes.Some? {
            acc := acc + [DecodeIgnore(rawBytes.value)];
          }
        }
      }
      i := i + 1;
    }
    assert lines[..i] == lines;
    payloads := if file.fails then None else Some(acc);
  }

  lemma {:induction false} ExtractAppend(a: seq<string>, b: seq<string>)
    ensures ExtractAll(a + b) == ExtractAll(a) + ExtractAll(b)
    decreases |b|
  {
    if b == [] {
      assert a + b == a;
    } else {
      var c := a + b;
      var b' := b[..|b| - 1];
      assert c[..|c| - 1] == a + b';
      assert c[|c| - 1] == b[|b| - 1];
      calc {
        ExtractAll(c);
        ExtractAll(a + b') + ExtractLine(b[|b| - 1]);
        { ExtractAppend(a, b'); }
        ExtractAll(a) + ExtractAll(b') + ExtractLine(b[|b| - 1]);
        { AppendAssoc(ExtractAll(a), ExtractAll(b'), ExtractLine(b[|b| - 1])); }
        ExtractAll(a) + (ExtractAll(b') + ExtractLine(b[|b| - 1]));
        ExtractAll(a) + ExtractAll(b);
      }
    }
  }

  /** A file with no candidate line yields no payload. */
  lemma {:induction false} NoCandidatesNoPayloads(lines: seq<string>)
    requires forall l :: l in lines ==> !IsCandidate(l)
    ensures ExtractAll(lines) == []
  {
    if lines != [] {
      assert forall l :: l in lines[..|lines| - 1] ==> l in lines;
      NoCandidatesNoPayloads(lines[..|lines| - 1]);
    }
  }

  /** The DeepSeek generator's output yields no payload: generalization testing
      of DeepSeek cases sends nothing. */
  lemma {:induction false} DeepSeekOutputYieldsNothing(lengths: seq<nat>, payloads: seq<string>)
    requires |lengths| == |payloads|
    requires forall k :: 0 <= k < |lengths| ==> IsPayload(payloads[k], lengths[k])
    ensures ExtractSpec(Readable(SplitLines(SavedText(lengths, payloads)), false)) == Some([])
  {
    SavedHasNoCandidates(lengths, payloads);
    NoCandidatesNoPayloads(SplitLines(SavedText(lengths, payloads)));
  }

  // ------------------------------------------------------------ reading back the GAN cases

  lemma {:induction false} YLacks()
    ensures 'y' !in Gap && 'y' !in TransmittedMarker && 'y' !in " " && 'y' !in InfoTag
    ensures 'y' in BytesMarker
  {
  }

  lemma {:induction false} YLacksInfo()
    ensures 'y' !in "Sending generated case #" && 'y' !in "..." && 'y' !in ClosingMarker
    ensures 'y' !in SleepingMarker && 'y' !in " 0.2s..."
  {
  }

  lemma {:induction false} NoYNoCandidate(line: string)
    requires 'y' !in line
    ensures !IsCandidate(line)
  {
    YLacks();
    MissingChar(line, BytesMarker, 'y');
  }

  /** The lines around a GAN Transmitted line are not candidates. */
  lemma {:induction false} GanOtherLines(ts: string, i: nat)
    requires IsTimestamp(ts)
    ensures !IsCandidate(GanSendingLine(ts, i)) && !IsCandidate(ClosingLine(ts))
    ensures !IsCandidate(SleepingLine(ts)) && !IsCandidate("")
  {
    YLacks();
    YLacksInfo();
    TimestampLacks(ts, 'y');
    DigitsLack(i, 'y');
    NoYNoCandidate(GanSendingLine(ts, i));
    NoYNoCandidate(ClosingLine(ts));
    NoYNoCandidate(SleepingLine(ts));
    NoYNoCandidate("");
  }

  /** The pattern finds the whole repr on a Transmitted line. */
  lemma {:induction false} SearchTransmitted(ts: string, raw: seq<byte>)
    requires IsTimestamp(ts)
    ensures Search(TransmittedLine(ts, raw)) == Some(Repr(raw))
  {
    var digits := NatToString(|raw|);
    var prefix := ts + Gap + TransmittedMarker + " " + digits + " ";
    assert TransmittedLine(ts, raw) == prefix + BytesMarker + " " + Repr(raw);
    YLacks();
    TimestampLacks(ts, 'y');
    DigitsLack(|raw|, 'y');
    var r := Repr(raw);
    ReprPrintable(raw);
    assert '\n' !in r by {
      forall k | 0 <= k < |r|
        ensures r[k] != '\n'
      {
        assert 0x20 <= r[k] as int;
      }
    }
    SearchAfterMarker(prefix, r);
  }

  /** A Transmitted line gives back the text whose encoding it carries. */
  lemma {:induction false} ExtractTransmitted(ts: string, s: string)
    requires IsTimestamp(ts)
    ensures ExtractLine(TransmittedLine(ts, Encode(s))) == [s]
  {
    var raw := Encode(s);
    TransmittedMarkers(ts, raw);
    SearchTransmitted(ts, raw);
    EvalRepr(raw);
    DecodeEncode(s);
  }

  lemma {:induction false} ExtractFive(l0: string, l1: string, l2: string, l3: string, l4: string)
    requires !IsCandidate(l0) && !IsCandidate(l2) && !IsCandidate(l3) && !IsCandidate(l4)
    ensures ExtractAll([l0, l1, l2, l3, l4]) == ExtractLine(l1)
  {
    var s1 := [l0];
    var s2 := s1 + [l1];
    var s3 := s2 + [l2];
    var s4 := s3 + [l3];
    var s5 := s4 + [l4];
    assert s1[..0] == [];
    assert ExtractAll(s1) == [];
    assert s2[..1] == s1;
    assert ExtractAll(s2) == ExtractLine(l1);
    assert s3[..2] == s2;
    assert ExtractAll(s3) == ExtractLine(l1);
    assert s4[..3] == s3;
    assert ExtractAll(s4) == ExtractLine(l1);
    assert s5[..4] == s4;
    assert s5 == [l0, l1, l2, l3, l4];
  }

  /** One GAN record gives back exactly its request. */
  lemma {:induction false} ExtractCaseRecord(ts: string, i: nat, payload: string)
    requires IsTimestamp(ts)
    ensures ExtractAll(CaseRecord(ts, i, payload)) == [GanRequest(payload)]
  {
    GanOtherLines(ts, i);
    ExtractTransmitted(ts, GanRequest(payload));
    ExtractFive(GanSendingLine(ts, i), TransmittedLine(ts, Encode(GanRequest(payload))),
                ClosingLine(ts), SleepingLine(ts), "");
  }

  /** The requests of a list of GAN payloads, in order. */
  function GanRequests(payloads: seq<string>): (r: seq<string>)
    ensures |r| == |payloads|
  {
    if payloads == [] then [] else GanRequests(payloads[..|payloads| - 1]) + [GanRequest(payloads[|payloads| - 1])]
  }

  lemma {:induction false} GanRequestsElements(payloads: seq<string>)
    ensures forall k :: 0 <= k < |payloads| ==> GanRequests(payloads)[k] == GanRequest(payloads[k])
  {
    if payloads != [] {
      var init := payloads[..|payloads| - 1];
      GanRequestsElements(init);
      forall k | 0 <= k < |payloads|
        ensures GanRequests(payloads)[k] == GanRequest(payloads[k])
      {
        if k < |init| {
          assert init[k] == payloads[k];
        }
      }
    }
  }

  /** Generalization testing of the GAN output sends exactly the generated
      requests, in index order. */
  lemma {:induction false} GanLogReplay(clock: seq<string>, payloads: seq<string>)
    requires |clock| == |payloads|
    requires forall k :: 0 <= k < |clock| ==> IsTimestamp(clock[k])
    ensures ExtractAll(GanLog(clock, payloads)) == GanRequests(payloads)
  {
    if payloads != [] {
      var n := |payloads| - 1;
      var init := payloads[..n];
      var rec := CaseRecord(clock[n], n, payloads[n]);
      assert GanLog(clock, payloads) == GanLog(clock[..n], init) + rec;
      GanLogReplay(clock[..n], init);
      ExtractCaseRecord(clock[n], n, payloads[n]);
      ExtractAppend(GanLog(clock[..n], init), rec);
    }
  }

  /** Reading back the file the GAN wrote gives its requests one by one. */
  lemma {:induction false} GanOutputReplay(clock: seq<string>, payloads: seq<string>)
    requires |clock| == |payloads|
    requires forall k :: 0 <= k < |clock| ==> IsTimestamp(clock[k])
    ensures ExtractSpec(Readable(SplitLines(Unlines(GanLog(clock, payloads))), false)).Some?
    ensures var r := ExtractSpec(Readable(SplitLines(Unlines(GanLog(clock, payloads))), false)).value;
            |r| == |payloads| && forall k :: 0 <= k < |payloads| ==> r[k] == GanRequest(payloads[k])
  {
    ReadGanLog(clock, payloads);
    GanLogReplay(clock, payloads);
    GanRequestsElements(payloads);
  }

  // ------------------------------------------------------------ classification

  /** What the target did with one request: a status and the elapsed time in
      milliseconds, or an exception with its text. */
  datatype Reply = Response(status: int, elapsedMs: nat) | Failure(error: string)

  datatype Status = Code(code: int) | ErrorStatus

  datatype CaseResult = CaseResult(
    index: nat,
    payload: string,
    status: Status,
    responseTime: Option<nat>,
    error: Option<string>,
    suspicious: bool)

  /** The result recorded for the `i`-th payload: a reply records its status and
      time and is suspicious when the status is 500 or more; an exception records
      "ERROR" and its text, no time, and is always suspicious. */
  predicate Classified(r: CaseResult, i: nat, payload: string, reply: Reply)
  {
    && r.index == i && r.payload == payload
    && match reply
       case Response(status, ms) =>
         r.status == Code(status) && r.responseTime == Some(ms) && r.error.None? && (r.suspicious <==> status >= 500)
       case Failure(e) =>
         r.status == ErrorStatus && r.responseTime.None? && r.error == Some(e) && r.suspicious
  }

  /** `sum(r["suspicious"] for r in results)`. */
  function CountSuspicious(rs: seq<CaseResult>): (n: nat)
    ensures n <= |rs|
  {
    if rs == [] then 0
    else CountSuspicious(rs[..|rs| - 1]) + (if rs[|rs| - 1].suspicious then 1 else 0)
  }

  /** The count is the number of results, exactly when every result is suspicious. */
  lemma {:induction false} CountAll(rs: seq<CaseResult>)
    ensures CountSuspicious(rs) == |rs| <==> forall k :: 0 <= k < |rs| ==> rs[k].suspicious
  {
    if rs != [] {
      var init := rs[..|rs| - 1];
      CountAll(init);
      if forall k :: 0 <= k < |rs| ==> rs[k].suspicious {
        assert forall k :: 0 <= k < |init| ==> init[k].suspicious by {
          forall k | 0 <= k < |init|
            ensures init[k].suspicious
          {
            assert init[k] == rs[k];
          }
        }
      } else {
        var k :| 0 <= k < |rs| && !rs[k].suspicious;
        if k < |init| {
          assert init[k] == rs[k];
        }
      }
    }
  }

  /** The count is zero exactly when no result is suspicious. */
  lemma {:induction false} CountNone(rs: seq<CaseResult>)
    ensures CountSuspicious(rs) == 0 <==> forall k :: 0 <= k < |rs| ==> !rs[k].suspicious
  {
    if rs != [] {
      var init := rs[..|rs| - 1];
      CountNone(init);
      if forall k :: 0 <= k < |rs| ==> !rs[k].suspicious {
        assert forall k :: 0 <= k < |init| ==> !init[k].suspicious by {
          forall k | 0 <= k < |init|
            ensures !init[k].suspicious
          {
            assert init[k] == rs[k];
          }
        }
      } else {
        var k :| 0 <= k < |rs| && rs[k].suspicious;
        if k < |init| {
          assert init[k] == rs[k];
        }
      }
    }
  }

  /** `test_generated_cases`: one request per extracted payload, in order; every
      reply or exception is recorded and the loop goes on. The extraction's
      exception propagates. `net` stands for the network: the reply to the
      request with a given index and body. */
  method TestGeneratedCases(file: LogFile, net: (nat, string) -> Reply)
    returns (results: Option<seq<CaseResult>>, suspiciousCount: nat)
    ensures results.Some? <==> ExtractSpec(file).Some?
    ensures results.Some? ==>
              && |results.value| == |ExtractSpec(file).value|
              && forall k :: 0 <= k < |results.value| ==>
                   var p := ExtractSpec(file).value[k];
                   Classified(results.value[k], k, p, net(k, p))
    ensures results.Some? ==> suspiciousCount == CountSuspicious(results.value)
  {
    var extracted := ExtractPayloadsFromLog(file);
    if extracted.None? {
      return None, 0;
    }
    var payloads := extracted.value;
    var rs: seq<CaseResult> := [];
    var i := 0;
    while i < |payloads|
      invariant 0 <= i <= |payloads| && |rs| == i
      invariant forall k :: 0 <= k < i ==> Classified(rs[k], k, payloads[k], net(k, payloads[k]))
    {
      var payload := payloads[i];
      var result;
      match net(i, payload) {
        case Response(status, ms) =>
          result := CaseResult(i, payload, Code(status), Some(ms), None, status >= 500);
        case Failure(e) =>
          result := CaseResult(i, payload, ErrorStatus, None, Some(e), true);
      }
      rs := rs + [result];
      i := i + 1;
    }
    results := Some(rs);
    suspiciousCount := CountSuspicious(rs);
  }
}
