/** The boofuzz engine: the HTTP request template `create_http_request`
    registers, the logger that writes crashes and failures to `fuzz.log`, and
    `run_boofuzz`, which hands back a directory rather than a log. */
module BoofuzzFuzz {
  import opened Wrappers
  import opened Text
  import opened PyBytes
  import opened Transcript

  const FuzzMethods: seq<string> := ["GET", "POST", "PUT", "DELETE", "PATCH", "HEAD", "OPTIONS", "TRACE", "CONNECT"]
  const BoofuzzLog := "fuzz.log"

  // ------------------------------------------------------------ the template

  /** A primitive of a boofuzz request with its default value: a fuzzable
      string (`s_string`), a fuzzable delimiter (`s_delim`) or fixed text
      (`s_static`). */
  datatype Primitive = Str(value: string) | Delim(value: string) | Static(value: string)

  /** A registered request: its name, the name of its block and its primitives. */
  datatype Definition = Definition(name: string, block: string, prims: seq<Primitive>)

  /** The text boofuzz sends for a list of primitives none of which is mutated. */
  function Render(ps: seq<Primitive>): string
  {
    if ps == [] then [] else Render(ps[..|ps| - 1]) + ps[|ps| - 1].value
  }

  lemma {:induction false} RenderSnoc(a: seq<Primitive>, p: Primitive)
    ensures Render(a + [p]) == Render(a) + p.value
  {
    assert (a + [p])[..|a|] == a;
  }

  lemma {:induction false} RenderAppend(a: seq<Primitive>, b: seq<Primitive>)
    ensures Render(a + b) == Render(a) + Render(b)
    decreases |b|
  {
    if b == [] {
      assert a + b == a;
    } else {
      var c := a + b;
      var b' := b[..|b| - 1];
      assert c[..|c| - 1] == a + b';
      RenderAppend(a, b');
    }
  }

  lemma {:induction false} RenderFour(p0: Primitive, p1: Primitive, p2: Primitive, p3: Primitive)
    ensures Render([p0, p1, p2, p3]) == p0.value + p1.value + p2.value + p3.value
  {
    RenderSnoc([], p0);
    RenderSnoc([p0], p1);
    RenderSnoc([p0, p1], p2);
    RenderSnoc([p0, p1, p2], p3);
    assert [] + [p0] == [p0];
    assert [p0] + [p1] == [p0, p1];
    assert [p0, p1] + [p2] == [p0, p1, p2];
    assert [p0, p1, p2] + [p3] == [p0, p1, p2, p3];
    assert Render([]) + p0.value == p0.value;
  }

  /** The methods that get a form body. */
  predicate HasBody(verb: string)
  {
    verb == "POST" || verb == "PUT" || verb == "PATCH"
  }

  /** A header as the template spells it: a name, the `: ` delimiter, a value
      and the line break. */
  function Field(name: string, value: string): seq<Primitive>
  {
    [Str(name), Delim(": "), Str(value), Static("\r\n")]
  }

  function RequestLine(verb: string, targetIp: string): seq<Primitive>
  {
    [Str(verb), Delim(" "), Str("/index.html"), Delim(" "), Str("HTTP/1.1"), Static("\r\n"), Str("Host: " + targetIp), Static("\r\n")]
  }

  /** The value of the `i`-th extra header: `8 * (i + 1)` letters A. */
  function FuzzValue(i: nat): (v: string)
    ensures |v| == 8 * (i + 1) && forall k :: 0 <= k < |v| ==> v[k] == 'A'
  {
    seq(8 * (i + 1), _ => 'A')
  }

  function FuzzHeader(i: nat): seq<Primitive>
  {
    Field("X-Fuzz-" + NatToString(i), FuzzValue(i))
  }

  /** The extra headers for indices below `n`, in index order. */
  function FuzzHeaders(n: nat): (r: seq<Primitive>)
    ensures |r| == 4 * n
  {
    if n == 0 then [] else FuzzHeaders(n - 1) + FuzzHeader(n - 1)
  }

  const CommonHeaders: seq<Primitive> := Field("User-Agent", "Mozilla/5.0") + Field("Accept", "*/*")

  const FormHeaders: seq<Primitive> :=
    Field("Content-Type", "application/x-www-form-urlencoded") + Field("Content-Length", "13")

  const ConnectionClose: seq<Primitive> := [Str("Connection"), Delim(": "), Str("close"), Static("\r\n\r\n")]

  const FormBody := "param=value"

  /** The optional parts of a request, present only for a method with a body. */
  function Form(verb: string): seq<Primitive>
  {
    if HasBody(verb) then FormHeaders else []
  }

  function BodyPart(verb: string): seq<Primitive>
  {
    if HasBody(verb) then [Str(FormBody)] else []
  }

  /** Everything after the extra headers. */
  function Trailer(verb: string): seq<Primitive>
  {
    CommonHeaders + Form(verb) + ConnectionClose + BodyPart(verb)
  }

  /** The primitive list of the request for `verb` at `depth`. */
  function Template(verb: string, depth: nat, targetIp: string): seq<Primitive>
  {
    RequestLine(verb, targetIp) + FuzzHeaders(depth) + Trailer(verb)
  }

  /** `create_http_request`: the primitives in the order the `s_*` calls add
      them, with one extra header per level of depth. */
  method CreateHttpRequest(verb: string, depth: nat, targetIp: string) returns (d: Definition)
    ensures d.name == "HTTP " + verb && d.block == "request-" + verb
    ensures d.prims == Template(verb, depth, targetIp)
    ensures |d.prims| == 4 * depth + (if HasBody(verb) then 29 else 20)
  {
    var ps := [Str(verb), Delim(" "), Str("/index.html"), Delim(" "), Str("HTTP/1.1"), Static("\r\n"), Str("Host: " + targetIp), Static("\r\n")];
    for i := 0 to depth
      invariant ps == RequestLine(verb, targetIp) + FuzzHeaders(i)
    {
      AppendAssoc(RequestLine(verb, targetIp), FuzzHeaders(i), FuzzHeader(i));
      ps := ps + [Str("X-Fuzz-" + NatToString(i)), Delim(": "), Str(seq(8 * (i + 1), _ => 'A')), Static("\r\n")];
    }
    var trailer := [Str("User-Agent"), Delim(": "), Str("Mozilla/5.0"), Static("\r\n")];
    trailer := trailer + [Str("Accept"), Delim(": "), Str("*/*"), Static("\r\n")];
    if verb in ["POST", "PUT", "PATCH"] {
      trailer := trailer + [Str("Content-Type"), Delim(": "), Str("application/x-www-form-urlencoded"), Static("\r\n")];
      trailer := trailer + [Str("Content-Length"), Delim(": "), Str("13"), Static("\r\n")];
    }
    trailer := trailer + [Str("Connection"), Delim(": "), Str("close"), Static("\r\n\r\n")];
    if verb in ["POST", "PUT", "PATCH"] {
      trailer := trailer + [Str("param=value")];
    }
    assert trailer == Trailer(verb);
    ps := ps + trailer;
    d := Definition("HTTP " + verb, "request-" + verb, ps);
  }

  // ------------------------------------------------------------ what it renders

  lemma {:induction false} RenderField(name: string, value: string)
    ensures Render(Field(name, value)) == name + ": " + value + "\r\n"
  {
    RenderFour(Str(name), Delim(": "), Str(value), Static("\r\n"));
  }

  /** The request opens with the method, the path `/index.html`, the version
      and the Host header, with their delimiters. */
  lemma {:induction false} RequestStart(verb: string, depth: nat, targetIp: string)
    ensures Template(verb, depth, targetIp)[..8]
         == [Str(verb), Delim(" "), Str("/index.html"), Delim(" "), Str("HTTP/1.1"), Static("\r\n"), Str("Host: " + targetIp), Static("\r\n")]
  {
    var head := RequestLine(verb, targetIp);
    var mid := FuzzHeaders(depth);
    SliceLeft(head + mid, Trailer(verb), 0, 8);
    SliceLeft(head, mid, 0, 8);
    assert head[0..8] == head;
  }

  /** The header block ends with `Connection: close` and the blank line, and
      only the form body, for POST, PUT and PATCH, follows it. */
  lemma {:induction false} RequestEnd(verb: string, depth: nat, targetIp: string)
    ensures var t := Template(verb, depth, targetIp);
            var body := if HasBody(verb) then [Str(FormBody)] else [];
            && |t| >= 4 + |body|
            && t[|t| - |body| - 4..] == [Str("Connection"), Delim(": "), Str("close"), Static("\r\n\r\n")] + body
  {
    var front := RequestLine(verb, targetIp) + FuzzHeaders(depth) + CommonHeaders + Form(verb);
    var t := Template(verb, depth, targetIp);
    assert t == front + (ConnectionClose + BodyPart(verb));
  }

  /** Header `i` sits at positions `8 + 4i` to `8 + 4i + 3`, for every `i`
      below the depth. */
  lemma {:induction false} FuzzHeaderAt(verb: string, depth: nat, targetIp: string, i: nat)
    requires i < depth
    ensures Template(verb, depth, targetIp)[8 + 4 * i .. 12 + 4 * i] == FuzzHeader(i)
  {
    var head := RequestLine(verb, targetIp);
    var mid := FuzzHeaders(depth);
    SliceLeft(head + mid, Trailer(verb), 8 + 4 * i, 12 + 4 * i);
    SliceRight(head, mid, 8 + 4 * i, 12 + 4 * i);
    FuzzHeadersAt(depth, i);
  }

  lemma {:induction false} FuzzHeadersAt(n: nat, i: nat)
    requires i < n
    ensures FuzzHeaders(n)[4 * i .. 4 * i + 4] == FuzzHeader(i)
  {
    var prev := FuzzHeaders(n - 1);
    var h := FuzzHeader(n - 1);
    if i < n - 1 {
      FuzzHeadersAt(n - 1, i);
      SliceLeft(prev, h, 4 * i, 4 * i + 4);
    } else {
      SliceRight(prev, h, 4 * i, 4 * i + 4);
      assert h[0..4] == h;
    }
  }

  /** Whether a primitive is the name of an extra header. */
  predicate IsFuzzName(p: Primitive)
  {
    p.Str? && StartsWith(p.value, "X-Fuzz-")
  }

  /** The names of the extra headers among the primitives, in order. */
  function FuzzNames(ps: seq<Primitive>): (r: seq<string>)
    ensures |r| <= |ps|
  {
    if ps == [] then []
    else
      var p := ps[|ps| - 1];
      FuzzNames(ps[..|ps| - 1]) + (if IsFuzzName(p) then [p.value] else [])
  }

  lemma {:induction false} FuzzNamesAppend(a: seq<Primitive>, b: seq<Primitive>)
    ensures FuzzNames(a + b) == FuzzNames(a) + FuzzNames(b)
    decreases |b|
  {
    if b == [] {
      assert a + b == a;
    } else {
      var c := a + b;
      var b' := b[..|b| - 1];
      assert c[..|c| - 1] == a + b';
      FuzzNamesAppend(a, b');
    }
  }

  /** A primitive that is not a string starting with 'X' names no extra header. */
  predicate Unnamed(p: Primitive)
  {
    !p.Str? || p.value == [] || p.value[0] != 'X'
  }

  lemma {:induction false} NoFuzzNames(ps: seq<Primitive>)
    requires forall k :: 0 <= k < |ps| ==> Unnamed(ps[k])
    ensures FuzzNames(ps) == []
  {
    if ps != [] {
      NoFuzzNames(ps[..|ps| - 1]);
    }
  }

  /** A header whose value does not start with 'X' is named by its name alone. */
  lemma {:induction false} FieldNames(name: string, value: string)
    requires IsFuzzName(Str(name)) && (value == [] || value[0] != 'X')
    ensures FuzzNames(Field(name, value)) == [name]
  {
    var f := Field(name, value);
    assert f == [Str(name)] + [Delim(": "), Str(value), Static("\r\n")];
    FuzzNamesAppend([Str(name)], [Delim(": "), Str(value), Static("\r\n")]);
    NoFuzzNames([Delim(": "), Str(value), Static("\r\n")]);
    assert [Str(name)][..0] == [];
  }

  /** The extra header names `X-Fuzz-0` up to `X-Fuzz-(n-1)`. */
  function ExpectedNames(n: nat): (r: seq<string>)
    ensures |r| == n
  {
    if n == 0 then [] else ExpectedNames(n - 1) + ["X-Fuzz-" + NatToString(n - 1)]
  }

  lemma {:induction false} FuzzNamesOfHeaders(n: nat)
    ensures FuzzNames(FuzzHeaders(n)) == ExpectedNames(n)
  {
    if n > 0 {
      FuzzNamesOfHeaders(n - 1);
      var name := "X-Fuzz-" + NatToString(n - 1);
      assert name[..7] == "X-Fuzz-";
      FieldNames(name, FuzzValue(n - 1));
      FuzzNamesAppend(FuzzHeaders(n - 1), FuzzHeader(n - 1));
    }
  }

  /** A header whose name and value do not start with 'X' names nothing. */
  lemma {:induction false} FieldUnnamed(name: string, value: string)
    requires name != [] && name[0] != 'X' && (value == [] || value[0] != 'X')
    ensures FuzzNames(Field(name, value)) == []
  {
    NoFuzzNames(Field(name, value));
  }

  lemma {:induction false} FixedPartsUnnamed(verb: string, targetIp: string)
    requires verb == [] || verb[0] != 'X'
    ensures FuzzNames(RequestLine(verb, targetIp)) == [] && FuzzNames(Trailer(verb)) == []
  {
    NoFuzzNames(RequestLine(verb, targetIp));
    FieldUnnamed("User-Agent", "Mozilla/5.0");
    FieldUnnamed("Accept", "*/*");
    FuzzNamesAppend(Field("User-Agent", "Mozilla/5.0"), Field("Accept", "*/*"));
    if HasBody(verb) {
      FieldUnnamed("Content-Type", "application/x-www-form-urlencoded");
      FieldUnnamed("Content-Length", "13");
      FuzzNamesAppend(Field("Content-Type", "application/x-www-form-urlencoded"), Field("Content-Length", "13"));
    }
    NoFuzzNames(ConnectionClose);
    NoFuzzNames(BodyPart(verb));
    FuzzNamesAppend(CommonHeaders, Form(verb));
    FuzzNamesAppend(CommonHeaders + Form(verb), ConnectionClose);
    FuzzNamesAppend(CommonHeaders + Form(verb) + ConnectionClose, BodyPart(verb));
  }

  /** A request for a method not starting with 'X' carries exactly `depth`
      extra headers, `X-Fuzz-0` up to `X-Fuzz-(depth-1)` in that order. */
  lemma {:induction false} ExtraHeaders(verb: string, depth: nat, targetIp: string)
    requires verb == [] || verb[0] != 'X'
    ensures FuzzNames(Template(verb, depth, targetIp)) == ExpectedNames(depth)
  {
    var head := RequestLine(verb, targetIp);
    FuzzNamesAppend(head + FuzzHeaders(depth), Trailer(verb));
    FuzzNamesAppend(head, FuzzHeaders(depth));
    FixedPartsUnnamed(verb, targetIp);
    FuzzNamesOfHeaders(depth);
  }

  /** Every string of the extra headers starts with 'X' or 'A'. */
  lemma {:induction false} FuzzHeaderStrings(n: nat)
    ensures forall k :: 0 <= k < |FuzzHeaders(n)| && FuzzHeaders(n)[k].Str? ==>
              FuzzHeaders(n)[k].value != [] && (FuzzHeaders(n)[k].value[0] == 'X' || FuzzHeaders(n)[k].value[0] == 'A')
  {
    if n > 0 {
      FuzzHeaderStrings(n - 1);
      var name := "X-Fuzz-" + NatToString(n - 1);
      assert name[0] == 'X';
    }
  }

  /** A string primitive that starts with neither 'X' nor 'A' is not among the
      extra headers. */
  lemma {:induction false} NotExtra(n: nat, s: string)
    requires s != [] && s[0] != 'X' && s[0] != 'A'
    ensures Str(s) !in FuzzHeaders(n)
  {
    FuzzHeaderStrings(n);
    var h := FuzzHeaders(n);
    forall k | 0 <= k < |h| ensures h[k] != Str(s) { }
  }

  /** Every method the engine fuzzes is at most seven letters long and none
      starts with 'X'. */
  lemma {:induction false} MethodsShort(verb: string)
    requires verb in FuzzMethods
    ensures |verb| <= 7 && verb[0] != 'X'
  {
  }

  /** No fixed word of the request line, the common headers or the closing
      header is a form header or the body, whatever the short method. */
  lemma {:induction false} FixedPartsLackForm(verb: string, targetIp: string, s: string)
    requires |s| > 7 && |s| != 10 && s[0] != 'H' && (s[0] == 'C' || s[0] == 'p')
    requires |verb| <= 7
    ensures Str(s) !in RequestLine(verb, targetIp) && Str(s) !in ConnectionClose
    ensures Str(s) !in CommonHeaders
  {
    var host := "Host: " + targetIp;
    assert host[0] == 'H';
    assert Str(s) !in Field("User-Agent", "Mozilla/5.0") by {
      assert "Mozilla/5.0"[0] == 'M' && "User-Agent"[0] == 'U';
    }
    assert Str(s) !in Field("Accept", "*/*");
  }

  /** For the nine methods the engine fuzzes, the Content-Type and
      Content-Length headers and the form body are sent exactly when the method
      is POST, PUT or PATCH. */
  lemma {:induction false} FormIffBody(verb: string, depth: nat, targetIp: string)
    requires verb in FuzzMethods
    ensures Str("Content-Type") in Template(verb, depth, targetIp) <==> HasBody(verb)
    ensures Str("Content-Length") in Template(verb, depth, targetIp) <==> HasBody(verb)
    ensures Str(FormBody) in Template(verb, depth, targetIp) <==> HasBody(verb)
  {
    if HasBody(verb) {
      assert FormHeaders[0] == Str("Content-Type") && FormHeaders[4] == Str("Content-Length");
    } else {
      MethodsShort(verb);
      NotExtra(depth, "Content-Type");
      NotExtra(depth, "Content-Length");
      NotExtra(depth, FormBody);
      FixedPartsLackForm(verb, targetIp, "Content-Type");
      FixedPartsLackForm(verb, targetIp, "Content-Length");
      FixedPartsLackForm(verb, targetIp, FormBody);
    }
  }

  /** One more level of depth renders a strictly longer request. */
  lemma {:induction false} LongerWithDepth(verb: string, depth: nat, targetIp: string)
    ensures |Render(Template(verb, depth + 1, targetIp))| > |Render(Template(verb, depth, targetIp))|
  {
    var head := RequestLine(verb, targetIp) + FuzzHeaders(depth);
    var h := FuzzHeader(depth);
    assert Template(verb, depth + 1, targetIp) == head + h + Trailer(verb);
    RenderAppend(head, Trailer(verb));
    RenderAppend(head + h, Trailer(verb));
    RenderAppend(head, h);
    RenderField("X-Fuzz-" + NatToString(depth), FuzzValue(depth));
  }

  /** The Content-Length header declares 13 bytes, while the body it announces
      has 11. */
  lemma {:induction false} DeclaredLengthDiffers()
    ensures FormHeaders[6] == Str("13") && |FormBody| == 11
  {
  }

  // ------------------------------------------------------------ the logger

  /** `CustomLogger`: what it has written to the shared file handle and what
      it has printed. */
  class CustomLogger {
    var written: string
    var printed: seq<string>

    constructor (written: string)
      ensures this.written == written && printed == []
    {
      this.written := written;
      printed := [];
    }

    /** A failed check is printed and written, with its newline, as a
        `[CRASH]` line. */
    method LogCheckFail(ts: string, message: string)
      modifies this
      ensures written == old(written) + CrashLine(ts, message) + "\n"
      ensures printed == old(printed) + [CrashLine(ts, message)]
    {
      var crashMsg := ts + Gap + "[CRASH] " + message;
      printed := printed + [crashMsg];
      written := written + crashMsg + "\n";
    }

    method LogFail(ts: string, message: string)
      modifies this
      ensures written == old(written) + FailLine(ts, message) + "\n"
      ensures printed == old(printed) + [FailLine(ts, message)]
    {
      var failMsg := ts + Gap + "[FAIL] " + message;
      printed := printed + [failMsg];
      written := written + failMsg + "\n";
    }

    method LogSend(data: seq<byte>)
      modifies this
      ensures written == old(written) && printed == old(printed) + ["[SEND] " + Repr(data)]
    {
      printed := printed + ["[SEND] " + Repr(data)];
    }

    method LogRecv(data: seq<byte>)
      modifies this
      ensures written == old(written) && printed == old(printed) + ["[RECV] " + Repr(data)]
    {
      printed := printed + ["[RECV] " + Repr(data)];
    }

    /** `log_info`, `log_warn` and `log_error` print only a message that is
        present and non-empty. */
    method LogInfo(message: Option<string>)
      modifies this
      ensures written == old(written)
      ensures printed == old(printed) + Notice("[INFO] ", message)
    {
      if message.Some? && message.value != "" {
        printed := printed + ["[INFO] " + message.value];
      }
    }

    method LogWarn(message: Option<string>)
      modifies this
      ensures written == old(written)
      ensures printed == old(printed) + Notice("[WARN] ", message)
    {
      if message.Some? && message.value != "" {
        printed := printed + ["[WARN] " + message.value];
      }
    }

    method LogError(message: Option<string>)
      modifies this
      ensures written == old(written)
      ensures printed == old(printed) + Notice("[ERROR] ", message)
    {
      if message.Some? && message.value != "" {
        printed := printed + ["[ERROR] " + message.value];
      }
    }
  }

  function CrashLine(ts: string, message: string): string
  {
    ts + Gap + "[CRASH] " + message
  }

  function FailLine(ts: string, message: string): string
  {
    ts + Gap + "[FAIL] " + message
  }

  /** What a level method prints: nothing for a missing or empty message. */
  function Notice(tag: string, message: Option<string>): (r: seq<string>)
    ensures |r| <= 1
    ensures r != [] <==> message.Some? && message.value != ""
  {
    if message.Some? && message.value != "" then [tag + message.value] else []
  }

  /** What one fuzzing event leads the logger to do. */
  datatype Event =
    | CheckFail(ts: string, message: string)
    | Fail(ts: string, message: string)
    | Send(data: seq<byte>)
    | Recv(data: seq<byte>)
    | Info(note: Option<string>)
    | Warn(note: Option<string>)
    | Error(note: Option<string>)

  /** The text one event appends to the file. */
  function EventText(e: Event): string
  {
    match e
    case CheckFail(ts, m) => CrashLine(ts, m) + "\n"
    case Fail(ts, m) => FailLine(ts, m) + "\n"
    case _ => ""
  }

  /** The text the events append to the file: the crash and failure lines only. */
  function FileText(events: seq<Event>): string
  {
    if events == [] then "" else FileText(events[..|events| - 1]) + EventText(events[|events| - 1])
  }

  lemma {:induction false} FileTextStep(events: seq<Event>, i: nat)
    requires i < |events|
    ensures FileText(events[..i + 1]) == FileText(events[..i]) + EventText(events[i])
  {
    assert events[..i + 1][..i] == events[..i];
  }

  /** One event handed to the logger method that the fuzzing session calls for it. */
  method Dispatch(logger: CustomLogger, e: Event)
    modifies logger
    ensures logger.written == old(logger.written) + EventText(e)
  {
    match e {
      case CheckFail(ts, m) => logger.LogCheckFail(ts, m);
      case Fail(ts, m) => logger.LogFail(ts, m);
      case Send(data) => logger.LogSend(data);
      case Recv(data) => logger.LogRecv(data);
      case Info(m) => logger.LogInfo(m);
      case Warn(m) => logger.LogWarn(m);
      case Error(m) => logger.LogError(m);
    }
  }

  /** Feeding events to a logger: the file grows by the crash and failure lines
      of the events, in order, and by nothing else. */
  method ReplayEvents(logger: CustomLogger, events: seq<Event>)
    modifies logger
    ensures logger.written == old(logger.written) + FileText(events)
  {
    for i := 0 to |events|
      invariant logger.written == old(logger.written) + FileText(events[..i])
    {
      FileTextStep(events, i);
      Dispatch(logger, events[i]);
      AppendAssoc(old(logger.written), FileText(events[..i]), EventText(events[i]));
    }
    assert events[..|events|] == events;
  }

  /** Events that carry no crash or failure leave the file as it was. */
  lemma {:induction false} QuietEvents(events: seq<Event>)
    requires forall k :: 0 <= k < |events| ==> !events[k].CheckFail? && !events[k].Fail?
    ensures FileText(events) == ""
  {
    if events != [] {
      QuietEvents(events[..|events| - 1]);
    }
  }

  // ------------------------------------------------------------ the run

  /** The loop that starts the workers: one per method, in order, each with the
      log path of the output directory. */
  method StartWorkers(methods: seq<string>, dir: string) returns (workers: seq<(string, string)>)
    ensures |workers| == |methods|
    ensures forall k :: 0 <= k < |workers| ==> workers[k] == (methods[k], JoinPath(dir, BoofuzzLog))
  {
    workers := [];
    var i := 0;
    while i < |methods|
      invariant 0 <= i <= |methods| && |workers| == i
      invariant forall k :: 0 <= k < i ==> workers[k] == (methods[k], JoinPath(dir, BoofuzzLog))
    {
      var logPath := JoinPath(dir, BoofuzzLog);
      workers := workers + [(methods[i], logPath)];
      i := i + 1;
    }
  }

  /** `run_boofuzz`: one worker per method, each appending to `fuzz.log` in the
      output directory, and the directory itself as the result. */
  method RunBoofuzz(outputDir: Option<string>, projectRoot: string)
    returns (result: string, workers: seq<(string, string)>)
    ensures result == (if outputDir.Some? then outputDir.value else JoinPath(projectRoot, "fuzz_output"))
    ensures |workers| == |FuzzMethods|
    ensures forall k :: 0 <= k < |workers| ==> workers[k] == (FuzzMethods[k], JoinPath(result, BoofuzzLog))
  {
    var dir := if outputDir.Some? then outputDir.value else JoinPath(projectRoot, "fuzz_output");
    workers := StartWorkers(FuzzMethods, dir);
    result := dir;
  }
}
