/** `utils/depth_selector.py`: the maximum fuzzing depth chosen at the prompt. */
module DepthSelector {
  import opened Wrappers
  import opened Text

  /** The depth used whenever the answer is not an integer from 1 to 5. */
  const DefaultDepth := 3

  /** `select_max_depth()` as a function of what `input()` returned, `None` when
      reading raised. The line is stripped and given to `int()`; a value from 1 to
      5 is the answer, and an out-of-range value or a failed conversion gives the
      default. Every answer other than the default is the integer that was typed. */
  function SelectMaxDepth(input: Option<string>): (d: int)
    ensures 1 <= d <= 5
    ensures d != DefaultDepth ==> input.Some? && ParseInt(Strip(input.value)) == Some(d)
    ensures input.Some? && ParseInt(Strip(input.value)).Some? && 1 <= ParseInt(Strip(input.value)).value <= 5
            ==> d == ParseInt(Strip(input.value)).value
  {
    match input
    case None => DefaultDepth
    case Some(line) =>
      match ParseInt(Strip(line))
      case None => DefaultDepth
      case Some(depth) => if 1 <= depth <= 5 then depth else DefaultDepth
  }

  /** A depth from 1 to 5 typed after any amount of blank space is returned as is. */
  lemma {:induction false} TypedDepthKept(pad: string, d: int)
    requires forall k :: 0 <= k < |pad| ==> IsSpace(pad[k])
    requires 1 <= d <= 5
    ensures SelectMaxDepth(Some(pad + IntToString(d))) == d
  {
    var s := IntToString(d);
    assert s == NatToString(d) && |s| == 1;
    StripAfterBlanks(pad, s);
    ParseIntToString(d);
  }

  /** Any other integer, negative ones included, gives the default depth. */
  lemma {:induction false} OutOfRangeDefault(pad: string, n: int)
    requires forall k :: 0 <= k < |pad| ==> IsSpace(pad[k])
    requires n < 1 || 5 < n
    ensures SelectMaxDepth(Some(pad + IntToString(n))) == DefaultDepth
  {
    var s := IntToString(n);
    IntToStringDigits(n);
    assert !IsSpace(s[0]) && !IsSpace(s[|s| - 1]);
    StripAfterBlanks(pad, s);
    ParseIntToString(n);
  }

  /** Input that is not an integer once stripped, an empty line among it, gives the
      default depth. */
  lemma {:induction false} NonIntegerDefault(line: string)
    requires ParseInt(Strip(line)).None?
    ensures SelectMaxDepth(Some(line)) == DefaultDepth
  {
  }
}
