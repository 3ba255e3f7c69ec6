/** `modules/service_detector.py`: naming the HTTP server on a port from the
    `Server` header of its reply to a bare `GET /`. */
module ServiceDetector {
  import opened Wrappers
  import opened Text
  import opened PyBytes
  import opened Utf8

  /** The answer whenever the server cannot be named. */
  const Unknown := "Unknown"

  /** `Server: `, in lower case as `FoldEq` compares it. */
  const ServerPattern := "server: "

  const RequestHead := "GET / HTTP/1.1\r\n" + "Host: "
  const RequestEnd := "\r\n\r\n"

  /** How the exchange with the port ended: the bytes `recv(4096)` returned, or the
      exception that ended it. A TLS failure can only end an exchange with port
      443 or 8443, the ports on which the socket is wrapped in TLS. */
  datatype Attempt =
    | Received(data: seq<byte>)
    | Timeout
    | Refused
    | TlsFailure
    | OtherFailure

  /** The host name sent in the request: the one given, or else the IP address. */
  function HostName(ip: string, hostname: Option<string>): string
  {
    if hostname.Some? then hostname.value else ip
  }

  /** The bytes sent to the port. */
  function ProbeRequest(host: string): seq<byte>
  {
    Encode(RequestHead) + Encode(host) + Encode(RequestEnd)
  }

  /** The request is the text `GET / HTTP/1.1`, a `Host` header naming the host
      (the IP address when no host name is given), and an empty line, encoded in
      UTF-8. */
  lemma {:induction false} ProbeRequestText(ip: string, hostname: Option<string>)
    ensures DecodeIgnore(ProbeRequest(HostName(ip, hostname))) == RequestHead + HostName(ip, hostname) + RequestEnd
    ensures hostname.None? ==> DecodeIgnore(ProbeRequest(HostName(ip, hostname))) == RequestHead + ip + RequestEnd
  {
    var h := HostName(ip, hostname);
    EncodeAppend(RequestHead, h);
    EncodeAppend(RequestHead + h, RequestEnd);
    DecodeEncode(RequestHead + h + RequestEnd);
  }

  /** `re.search(r"Server: (.+)", ..., re.IGNORECASE)` can match at `i`: the header
      name ignoring case, followed by at least one character that is not a newline. */
  predicate ServerAt(t: string, i: nat)
  {
    FoldedAt(t, ServerPattern, i) && i + |ServerPattern| < |t| && t[i + |ServerPattern|] != '\n'
  }

  /** The leftmost position at or after `i` where the search matches. */
  function FirstServer(t: string, i: nat): (k: Option<nat>)
    requires i <= |t|
    ensures k.Some? ==> i <= k.value && ServerAt(t, k.value)
    ensures k.Some? ==> forall j :: i <= j < k.value ==> !ServerAt(t, j)
    ensures k.None? ==> forall j :: i <= j <= |t| ==> !ServerAt(t, j)
    decreases |t| - i
  {
    if i == |t| then None
    else if ServerAt(t, i) then Some(i)
    else FirstServer(t, i + 1)
  }

  /** Group 1 of the leftmost match: the rest of that line, `.+` being greedy. */
  function ServerValue(t: string): (v: Option<string>)
    ensures v.Some? <==> FirstServer(t, 0).Some?
    ensures v.Some? ==>
              var lo := FirstServer(t, 0).value + |ServerPattern|;
              && lo + |v.value| <= |t| && t[lo..lo + |v.value|] == v.value
              && (lo + |v.value| == |t| || t[lo + |v.value|] == '\n')
    ensures v.Some? ==> v.value != [] && '\n' !in v.value
  {
    match FirstServer(t, 0)
    case None => None
    case Some(i) =>
      var lo := i + |ServerPattern|;
      Some(t[lo..DotEnd(t, lo)])
  }

  /** The banner parse of `detect_http_service`: a reply that is not HTTP, or has no
      `Server` header, gives "Unknown"; otherwise the header's value, stripped. */
  function ParseBanner(response: string): (r: string)
    ensures !StartsWith(response, "HTTP/") ==> r == Unknown
    ensures ServerValue(response).None? ==> r == Unknown
    ensures StartsWith(response, "HTTP/") && ServerValue(response).Some? ==> r == Strip(ServerValue(response).value)
  {
    if !StartsWith(response, "HTTP/") then Unknown
    else
      match ServerValue(response)
      case None => Unknown
      case Some(v) => Strip(v)
  }

  /** `detect_http_service`: every exception (a timeout, a refused connection, a TLS
      error while wrapping, anything else) gives "Unknown"; a reply is decoded as
      UTF-8 with undecodable bytes dropped and parsed. */
  function DetectHttpService(attempt: Attempt): (r: string)
    ensures !attempt.Received? ==> r == Unknown
    ensures attempt.Received? && !StartsWith(DecodeIgnore(attempt.data), "HTTP/") ==> r == Unknown
  {
    match attempt
    case Received(data) => ParseBanner(DecodeIgnore(data))
    case _ => Unknown
  }

  /** The service name is "Unknown" or a piece of one line of the reply. */
  lemma {:induction false} BannerFromReply(response: string)
    ensures ParseBanner(response) == Unknown
            || (Contains(response, ParseBanner(response)) && '\n' !in ParseBanner(response))
  {
    if StartsWith(response, "HTTP/") && ServerValue(response).Some? {
      var i := FirstServer(response, 0).value;
      var lo := i + |ServerPattern|;
      var hi := DotEnd(response, lo);
      var v := response[lo..hi];
      StripContained(v);
      ContainsWithin(response, lo, hi, Strip(v));
      var r := Strip(v);
      var a :| 0 <= a <= |v| - |r| && OccursAt(v, r, a);
      forall k | 0 <= k < |r|
        ensures r[k] != '\n'
      {
        assert r[k] == v[a + k];
      }
    }
  }

  /** Every capitalisation of the header name matches the pattern. */
  lemma {:induction false} ServerNameFolds()
    ensures FoldEq("Server: ", ServerPattern)
    ensures FoldEq("SERVER: ", ServerPattern)
    ensures FoldEq("server: ", ServerPattern)
  {
  }

  /** A text with no character that could start the header name holds no match. */
  lemma {:induction false} NoServerBefore(pre: string, t: string)
    requires forall k :: 0 <= k < |pre| ==> !FoldMatch(pre[k], 's')
    requires |pre| <= |t| && t[..|pre|] == pre
    ensures forall j :: 0 <= j < |pre| ==> !ServerAt(t, j)
  {
    forall j | 0 <= j < |pre|
      ensures !ServerAt(t, j)
    {
      assert ServerPattern[0] == 's' && t[j] == pre[j];
      if j + |ServerPattern| <= |t| {
        assert t[j..j + |ServerPattern|][0] == t[j];
      }
    }
  }

  /** Lines that hold no `Server: ` in any capitalisation, the last of them ended
      by a newline, hold no match, whatever follows them: a match cannot run
      across the newline. */
  lemma {:induction false} NoServerInHead(head: string, t: string)
    requires head == [] || head[|head| - 1] == '\n'
    requires forall i :: 0 <= i && i + |ServerPattern| <= |head| ==> !FoldedAt(head, ServerPattern, i)
    requires StartsWith(t, head)
    ensures forall j :: 0 <= j < |head| ==> !ServerAt(t, j)
  {
    forall j | 0 <= j < |head| && j + |ServerPattern| <= |t|
      ensures !FoldedAt(t, ServerPattern, j)
    {
      if j + |ServerPattern| <= |head| {
        assert t[..|head|][j..j + |ServerPattern|] == t[j..j + |ServerPattern|];
        assert !FoldedAt(head, ServerPattern, j);
      } else {
        var m := |head| - 1 - j;
        assert t[j..j + |ServerPattern|][m] == t[|head| - 1] == head[|head| - 1];
        assert !FoldMatch('\n', ServerPattern[m]);
      }
    }
  }

  /** The header line `Server: v`, in any capitalisation `name`, is found when no
      match starts in the text before it; its value runs to the end of the line. */
  lemma {:induction false} ServerHeaderFound(pre: string, name: string, v: string, rest: string)
    requires forall j :: 0 <= j < |pre| ==> !ServerAt(pre + name + v + rest, j)
    requires FoldEq(name, ServerPattern)
    requires v != [] && '\n' !in v
    requires rest == [] || rest[0] == '\n'
    ensures ServerValue(pre + name + v + rest) == Some(v)
  {
    var t := pre + name + v + rest;
    var p := |pre|;
    var lo := p + |ServerPattern|;
    assert t[p..lo] == name;
    assert t[lo] == v[0];
    assert ServerAt(t, p);
    assert FirstServer(t, 0) == Some(p);
    forall j | lo <= j < lo + |v|
      ensures t[j] != '\n'
    {
      assert t[j] == v[j - lo];
    }
    assert lo + |v| < |t| ==> t[lo + |v|] == rest[0];
    assert DotEnd(t, lo) == lo + |v|;
    assert t[lo..lo + |v|] == v;
  }

  /** An HTTP reply in which no match starts before its `Server` header names the
      server in that header, stripped. */
  lemma {:induction false} BannerNamesServer(head: string, v: string, rest: string)
    requires StartsWith(head, "HTTP/")
    requires forall j :: 0 <= j < |head| ==> !ServerAt(head + "Server: " + v + rest, j)
    requires v != [] && '\n' !in v
    requires rest == [] || rest[0] == '\n'
    ensures ParseBanner(head + "Server: " + v + rest) == Strip(v)
  {
    ServerNameFolds();
    ServerHeaderFound(head, "Server: ", v, rest);
    var t := head + "Server: " + v + rest;
    assert t[..5] == head[..5];
  }

  /** The status line of a `400 Bad Request` reply. */
  const BadRequestStatus := "HTTP/1.1 400 Bad Request\r\n"

  /** That status line holds no ':', so no match starts in it. */
  lemma {:induction false} BadRequestClear(head: string)
    requires head == BadRequestStatus
    ensures forall i :: 0 <= i && i + |ServerPattern| <= |head| ==> !FoldedAt(head, ServerPattern, i)
  {
    assert ':' !in head;
    forall i | 0 <= i && i + |ServerPattern| <= |head|
      ensures !FoldedAt(head, ServerPattern, i)
    {
      assert head[i..i + |ServerPattern|][6] == head[i + 6];
    }
  }

  /** `strip` removes the carriage return a CRLF line ending leaves behind. */
  lemma {:induction false} StripCarriageReturn(v: string)
    requires v != [] && !IsSpace(v[0]) && !IsSpace(v[|v| - 1])
    ensures Strip(v + "\r") == v
  {
    var w := v + "\r";
    assert w[0] == v[0] && IsSpace(w[|w| - 1]);
    assert LStrip(w) == w;
    assert w[..|w| - 1] == v;
    assert RStrip(v) == v;
  }

  /** A `400 Bad Request` reply, whose status line holds an 's', names the server
      of its `Server` header all the same, without the carriage return of the
      CRLF line ending. */
  lemma {:induction false} BadRequestBanner(v: string)
    requires v != [] && '\n' !in v && !IsSpace(v[0]) && !IsSpace(v[|v| - 1])
    ensures ParseBanner(BadRequestStatus + "Server: " + v + "\r\n") == v
  {
    var head := BadRequestStatus;
    BadRequestClear(head);
    var t := head + "Server: " + (v + "\r") + "\n";
    assert t == head + "Server: " + v + "\r\n";
    assert t[..|head|] == head;
    NoServerInHead(head, t);
    assert head[..5] == "HTTP/";
    BannerNamesServer(head, v + "\r", "\n");
    StripCarriageReturn(v);
  }

  /** A header whose value is only the carriage return of a CRLF line ending names
      the empty string, which is not "Unknown". */
  lemma {:induction false} BareCarriageReturn(head: string, rest: string)
    requires StartsWith(head, "HTTP/")
    requires forall j :: 0 <= j < |head| ==> !ServerAt(head + "Server: " + "\r" + rest, j)
    requires rest == [] || rest[0] == '\n'
    ensures ParseBanner(head + "Server: " + "\r" + rest) == ""
  {
    BannerNamesServer(head, "\r", rest);
    assert IsSpace('\r');
  }
}
