/** What the transcript writers and readers share: the state of a log file on disk,
    the shape of a timestamp, and the per-line extraction of a transmitted length
    that both `load_fuzz_data` and `DeepSeekGenerator.train_from_log` perform. */
module Transcript {
  import opened Wrappers
  import opened Text
  import opened PyBytes

  /** A log file as a reader finds it. `Readable(lines, fails)` yields `lines` and,
      when `fails`, raises an I/O error on the next read. */
  datatype LogFile =
    | Missing
    | Unopenable
    | Readable(lines: seq<string>, fails: bool)

  const SendingMarker := "Info: Sending fuzz case"
  const TransmittedMarker := "Transmitted"
  const BytesMarker := "bytes:"
  const ExceptionMarker := "[Exception]"
  const AnomalyMarker := "[Anomaly]"
  const ClosingMarker := "Closing connection"
  const SleepingMarker := "Sleeping"

  /** The gap the writers leave between a timestamp and the message. */
  const Gap := "     "
  const InfoTag := "Info: "

  /** The two lines that close a request in both writers' transcripts. */
  function ClosingLine(ts: string): string
  {
    ts + Gap + InfoTag + ClosingMarker + "..."
  }

  function SleepingLine(ts: string): string
  {
    ts + Gap + InfoTag + SleepingMarker + " 0.2s..."
  }

  /** Which letters the markers hold and which they lack. */
  lemma {:induction false} SendingLetters()
    ensures SendingMarker[0] == 'I' && 'z' in SendingMarker && 'T' !in SendingMarker
  {
  }

  lemma {:induction false} TransmittedLetters()
    ensures TransmittedMarker[0] == 'T' && 'r' in TransmittedMarker
    ensures 'I' !in TransmittedMarker && ' ' !in TransmittedMarker && 'I' !in BytesMarker
  {
  }

  lemma {:induction false} OutcomeLetters()
    ensures 'A' in AnomalyMarker && 'I' !in AnomalyMarker && 'r' !in AnomalyMarker
    ensures 'E' in ExceptionMarker && 'I' !in ExceptionMarker && 'T' !in ExceptionMarker
  {
  }

  /** No letter occurs in the gap or the short punctuation the writers add. */
  lemma {:induction false} PunctuationLacks(c: char)
    requires 'A' <= c <= 'Z' || 'a' <= c <= 'z'
    ensures c !in Gap && c !in " " && c !in " #" && c !in "..."
  {
  }

  /** The letters that tell the markers apart are missing from the text of the
      Closing and Sleeping lines. */
  lemma {:induction false} InfoLacks(c: char)
    requires c == 'z' || c == 'T' || c == 'A' || c == 'E'
    ensures c !in InfoTag && c !in ClosingMarker && c !in SleepingMarker && c !in " 0.2s..."
  {
  }

  /** `os.path.join(dir, name)` for a relative `name`. */
  function JoinPath(dir: string, name: string): (p: string)
    ensures StartsWith(p, dir) && EndsWith(p, name)
    ensures dir != [] ==> EndsWith(p, "/" + name)
  {
    if dir == [] || dir[|dir| - 1] == '/' then dir + name else dir + "/" + name
  }

  /** Where both generators write their cases: `generated_output/generated_cases.log`
      under the project root. */
  function GeneratedPath(root: string): string
  {
    JoinPath(JoinPath(root, "generated_output"), "generated_cases.log")
  }

  /** The characters of `datetime.now().strftime("[%Y-%m-%d %H:%M:%S,%f]")[:-3]`
      (the slice cuts the closing bracket and the last two microsecond digits). */
  predicate IsTimestamp(ts: string)
  {
    forall k :: 0 <= k < |ts| ==> IsDigit(ts[k]) || ts[k] in "[]-:, "
  }

  /** The line both writers emit for a request: its length, then its repr. */
  function TransmittedLine(ts: string, raw: seq<byte>): string
  {
    ts + Gap + TransmittedMarker + " " + NatToString(|raw|) + " " + BytesMarker + " " + Repr(raw)
  }

  /** A line both readers inspect for a length. */
  predicate IsCandidate(line: string)
  {
    Contains(line, TransmittedMarker) && Contains(line, BytesMarker)
  }

  /** `line.split("bytes:")[-1].strip()`. */
  function LiteralText(line: string): string
  {
    Strip(AfterLast(line, BytesMarker))
  }

  /** What one candidate line contributes: no literal (skipped silently), a
      literal whose evaluation raises (skipped with a warning), or a length. */
  datatype LengthRead = NoLiteral | Malformed | Length(n: nat)

  /** What the readers make of the stripped text after the last "bytes:": a literal
      is recognised by its `b'` or `b"` opening and then evaluated. */
  function ReadLiteral(raw: string): LengthRead
  {
    if StartsWith(raw, "b'") || StartsWith(raw, "b\"") then
      match EvalLiteral(raw)
      case Some(b) => Length(|b|)
      case None => Malformed
    else NoLiteral
  }

  /** The body of the readers' per-line `try` block. */
  function ReadLength(line: string): LengthRead
  {
    ReadLiteral(LiteralText(line))
  }

  /** The text after the last "bytes:" of a line whose tail after the marker is
      a blank followed by text free of the marker is that tail. */
  lemma {:induction false} AfterMarker(prefix: string, r: string)
    requires r != [] && r[0] == 'b' && !Contains(r, BytesMarker)
    ensures AfterLast(prefix + BytesMarker + " " + r, BytesMarker) == " " + r
  {
    var tail := " " + r;
    StartsInTail(" ", r, BytesMarker);
    forall j | 0 < j < |BytesMarker|
      ensures !OccursAt(BytesMarker + tail, BytesMarker, j)
    {
      assert (BytesMarker + tail)[j] != 'b';
    }
    AfterLastInfix(prefix, BytesMarker, tail);
    assert prefix + BytesMarker + " " + r == prefix + BytesMarker + tail;
  }

  /** The stripped text after the last "bytes:" of such a line is exactly the
      text that follows the blank. */
  lemma {:induction false} LiteralOfTail(prefix: string, r: string)
    requires r != [] && r[0] == 'b' && !IsSpace(r[|r| - 1]) && !Contains(r, BytesMarker)
    ensures LiteralText(prefix + BytesMarker + " " + r) == r
  {
    AfterMarker(prefix, r);
    StripAfterBlanks(" ", r);
  }

  /** The readers recover the length of every value from its repr. */
  lemma {:induction false} ReadLiteralRepr(raw: seq<byte>)
    ensures ReadLiteral(Repr(raw)) == Length(|raw|)
  {
    var r := Repr(raw);
    EvalRepr(raw);
    assert r[..2] == "b'" || r[..2] == "b\"";
  }

  /** A line whose text after its last "bytes:" is one blank followed by the repr
      of `raw` yields the length of `raw`. */
  lemma {:induction false} ReadLengthOfRepr(prefix: string, raw: seq<byte>)
    requires !Contains(Repr(raw), BytesMarker)
    ensures ReadLength(prefix + BytesMarker + " " + Repr(raw)) == Length(|raw|)
  {
    var r := Repr(raw);
    assert r[0] == 'b';
    assert !IsSpace(r[|r| - 1]);
    LiteralOfTail(prefix, r);
    ReadLiteralRepr(raw);
  }

  /** The number printed on a Transmitted line is the length of the bytes whose
      repr follows it, and the readers get that same number back from the repr
      unless the repr itself holds "bytes:". */
  lemma {:induction false} TransmittedCount(ts: string, raw: seq<byte>)
    requires !Contains(Repr(raw), BytesMarker)
    ensures ReadLength(TransmittedLine(ts, raw)) == Length(|raw|)
  {
    var prefix := ts + Gap + TransmittedMarker + " " + NatToString(|raw|) + " ";
    assert TransmittedLine(ts, raw) == prefix + BytesMarker + " " + Repr(raw);
    ReadLengthOfRepr(prefix, raw);
  }

  // ------------------------------------------------------------ lengths

  /** What one line contributes when a reader collects lengths: a Transmitted
      line with a literal that evaluates gives its length; any other line, or a
      literal that fails to evaluate, gives nothing. */
  function LineLengths(l: string): (r: seq<nat>)
    ensures |r| <= 1
  {
    if IsCandidate(l) then
      match ReadLength(l)
      case Length(n) => [n]
      case _ => []
    else []
  }

  lemma {:induction false} LineLengthsCases(l: string)
    ensures LineLengths(l) == if IsCandidate(l) && ReadLength(l).Length? then [ReadLength(l).n] else []
  {
  }

  /** The lengths a list of lines yields, in line order and without deduplication. */
  function Lengths(ls: seq<string>): (r: seq<nat>)
    ensures |r| <= |ls|
  {
    if ls == [] then [] else Lengths(ls[..|ls| - 1]) + LineLengths(ls[|ls| - 1])
  }

  lemma {:induction false} LengthsAppend(a: seq<string>, b: seq<string>)
    ensures Lengths(a + b) == Lengths(a) + Lengths(b)
    decreases |b|
  {
    if b == [] {
      assert a + b == a;
    } else {
      var c := a + b;
      var b' := b[..|b| - 1];
      assert c[..|c| - 1] == a + b';
      assert c[|c| - 1] == b[|b| - 1];
      calc {
        Lengths(c);
        Lengths(a + b') + LineLengths(b[|b| - 1]);
        { LengthsAppend(a, b'); }
        Lengths(a) + Lengths(b') + LineLengths(b[|b| - 1]);
        { AppendAssoc(Lengths(a), Lengths(b'), LineLengths(b[|b| - 1])); }
        Lengths(a) + (Lengths(b') + LineLengths(b[|b| - 1]));
        Lengths(a) + Lengths(b);
      }
    }
  }

  /** Lines none of which is a candidate yield no length. */
  lemma {:induction false} LengthsNone(ls: seq<string>)
    requires forall i :: 0 <= i < |ls| ==> !IsCandidate(ls[i])
    ensures Lengths(ls) == []
  {
    if ls != [] {
      LengthsNone(ls[..|ls| - 1]);
    }
  }
}
