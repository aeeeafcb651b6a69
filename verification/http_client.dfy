/**
 * The HTTP/1.1 client's connection state and the requests it sends: host
 * and port normalisation when connecting, validation of the request target,
 * and serialisation of the request head with the default headers the client
 * adds on the caller's behalf.
 */
module HttpClient {
  import opened Optional
  import opened HttpText

  newtype Byte = x: int | 0 <= x < 256

  const LF: Byte := 10
  const CR: Byte := 13

  const HOST_MIN_LEN: int := 4
  const PORT_HTTP: int := 80
  const PORT_HTTPS: int := 443
  const RESPONSE_OK: int := 200

  datatype Status =
    | Disconnected | Resolving | CantResolve | Connecting | CantConnect
    | Connected | Requesting | Body | ConnectionError | SslHandshakeError

  datatype Error = Ok | Failed | ErrInvalidParameter | ErrInvalidData | ErrCantConnect | ErrConnection | ErrFileEof

  datatype Method = Get | Head | Post | Put | Delete | Options | Trace | Connect | Patch

  function MethodName(m: Method): (name: string)
    ensures |name| > 0 && ' ' !in name
  {
    match m
    case Get => "GET"
    case Head => "HEAD"
    case Post => "POST"
    case Put => "PUT"
    case Delete => "DELETE"
    case Options => "OPTIONS"
    case Trace => "TRACE"
    case Connect => "CONNECT"
    case Patch => "PATCH"
  }

  /**
   * The client's state. `chunk`, `chunkLeft` and `trailer` belong to the
   * chunked body reader; `responseStr` holds the response head read so far.
   */
  datatype Client = Client(
    status: Status,
    ssl: bool,
    host: string,
    port: int,
    headRequest: bool,
    responseHeaders: seq<string>,
    responseStr: seq<Byte>,
    responseNum: int,
    bodySize: int,
    bodyLeft: int,
    chunked: bool,
    chunk: seq<Byte>,
    chunkLeft: int,
    trailer: bool,
    readUntilEof: bool,
    readChunkSize: int)

  /**
   * Closing forgets the connection and the response in progress. It keeps
   * the host, port and TLS choice, the read size, the transfer coding and
   * the chunk buffer.
   */
  function Close(c: Client): (r: Client)
    ensures r.status == Disconnected && !r.headRequest
    ensures r.responseHeaders == [] && r.responseStr == [] && r.responseNum == 0
    ensures r.bodySize == -1 && r.bodyLeft == 0 && r.chunkLeft == 0 && !r.trailer && !r.readUntilEof
    ensures r.ssl == c.ssl && r.host == c.host && r.port == c.port && r.readChunkSize == c.readChunkSize
    ensures r.chunked == c.chunked && r.chunk == c.chunk
  {
    c.(status := Disconnected, headRequest := false, responseHeaders := [], responseStr := [],
       bodySize := -1, bodyLeft := 0, chunkLeft := 0, trailer := false, readUntilEof := false,
       responseNum := 0)
  }

  lemma {:induction false} CloseIdempotent(c: Client)
    ensures Close(Close(c)) == Close(c)
  {
  }

  // ------------------------------------------------------------ connecting

  /** The host with a case-insensitive "http://" or "https://" removed, and whether it was "https://". */
  function StripScheme(host: string): (r: (string, bool))
    ensures BeginsWithNoCase(host, "http://") ==> r == (host[7..], false)
    ensures !BeginsWithNoCase(host, "http://") && BeginsWithNoCase(host, "https://") ==> r == (host[8..], true)
    ensures !BeginsWithNoCase(host, "http://") && !BeginsWithNoCase(host, "https://") ==> r == (host, false)
  {
    if BeginsWithNoCase(host, "http://") then (host[7..], false)
    else if BeginsWithNoCase(host, "https://") then (host[8..], true)
    else (host, false)
  }

  /** The scheme's standard port stands in for a negative one. */
  function DefaultPort(port: int, ssl: bool): (p: int)
    ensures port >= 0 ==> p == port
    ensures port < 0 && ssl ==> p == PORT_HTTPS
    ensures port < 0 && !ssl ==> p == PORT_HTTP
    ensures p >= 0
  {
    if port >= 0 then port else if ssl then PORT_HTTPS else PORT_HTTP
  }

  /** What connecting did: the error, the new state, and the address the TCP layer was asked to dial. */
  datatype Dialled = Dialled(err: Error, client: Client, dial: Option<(string, int)>)

  /**
   * Connecting, with the port handed to the TCP layer as a parameter so that
   * the code as written and the corrected code share everything else.
   * `isIp` says whether the normalised host is a literal IP address and
   * `dialErr` is what the TCP layer answers to the connection attempt; any
   * error it gives is handed back to the caller unchanged.
   */
  function ConnectWith(c: Client, host: string, port: int, ssl: bool,
                       isIp: string -> bool, dialErr: Error, useNormalisedPort: bool): (r: Dialled)
  {
    var closed := Close(c);
    var (h, https) := StripScheme(host);
    var s := ssl || https;
    if |h| < HOST_MIN_LEN then
      Dialled(ErrInvalidParameter, closed.(host := h, port := port, ssl := s), None)
    else
      var p := DefaultPort(port, s);
      var next := closed.(host := h, port := p, ssl := s);
      if isIp(h) then
        var target := (h, if useNormalisedPort then p else port);
        if dialErr == Ok then Dialled(Ok, next.(status := Connecting), Some(target))
        else Dialled(dialErr, next.(status := CantConnect), Some(target))
      else Dialled(Ok, next.(status := Resolving), None)
  }

  /** Connecting as written: a literal IP address is dialled on the port the caller passed. */
  function ConnectToHostAsWritten(c: Client, host: string, port: int, ssl: bool,
                                  isIp: string -> bool, dialErr: Error): (r: Dialled)
    ensures r.dial.Some? ==> r.dial.value.1 == port
  {
    ConnectWith(c, host, port, ssl, isIp, dialErr, false)
  }

  /** The caller's "use the default port" value -1 reaches the TCP layer unchanged. */
  lemma {:induction false} DefaultPortNotDialled()
    ensures var r := ConnectToHostAsWritten(Close(InitialClient(65536)), "127.0.0.1", -1, false, _ => true, Ok);
            r.err == Ok && r.client.port == PORT_HTTP && r.dial == Some(("127.0.0.1", -1))
  {
    var r := ConnectToHostAsWritten(Close(InitialClient(65536)), "127.0.0.1", -1, false, _ => true, Ok);
    assert !BeginsWithNoCase("127.0.0.1", "http://") by {
      assert ToLower("127.0.0.1")[0] != ToLower("http://")[0];
    }
    assert !BeginsWithNoCase("127.0.0.1", "https://") by {
      assert ToLower("127.0.0.1")[0] != ToLower("https://")[0];
    }
  }

  /**
   * Connecting to a host: the scheme prefix is removed (an "https://" one
   * turns TLS on), a host shorter than HOST_MIN_LEN is refused, a negative
   * port becomes the scheme's standard port, a literal IP address is dialled
   * at once on that port and any other host name is queued for resolution.
   */
  function ConnectToHost(c: Client, host: string, port: int, ssl: bool,
                         isIp: string -> bool, dialErr: Error): (r: Dialled)
    ensures r.client.host == StripScheme(host).0
    ensures r.client.ssl == (ssl || StripScheme(host).1)
    ensures |r.client.host| < HOST_MIN_LEN ==>
              && r.err == ErrInvalidParameter && r.dial.None?
              && r.client == Close(c).(host := r.client.host, port := port, ssl := r.client.ssl)
    ensures |r.client.host| >= HOST_MIN_LEN ==>
              && r.client.port == DefaultPort(port, r.client.ssl) && r.client.port >= 0
              && r.client == Close(c).(host := r.client.host, port := r.client.port, ssl := r.client.ssl, status := r.client.status)
    ensures r.dial.Some? <==> |r.client.host| >= HOST_MIN_LEN && isIp(r.client.host)
    ensures r.dial.Some? ==> r.dial.value == (r.client.host, r.client.port) && r.err == dialErr
    ensures r.err == Ok <==> r.client.status in {Connecting, Resolving}
    ensures r.client.status == Resolving <==> |r.client.host| >= HOST_MIN_LEN && r.dial.None?
    ensures r.client.status == CantConnect <==> r.dial.Some? && dialErr != Ok
  {
    ConnectWith(c, host, port, ssl, isIp, dialErr, true)
  }

  /** The state a new client starts from, with the given read size. */
  function InitialClient(readChunkSize: int): Client
  {
    Client(Disconnected, false, "", -1, false, [], [], 0, -1, 0, false, [], 0, false, false, readChunkSize)
  }

  // --------------------------------------------------------------- requests

  /** The forms of request target the client sends: origin-form and absolute-form. */
  predicate PathOrAbsolute(url: string)
  {
    BeginsWith(url, "/") || BeginsWith(url, "http://") || BeginsWith(url, "https://")
  }

  /**
   * Validation of the request target: CONNECT takes an authority "host:port"
   * whose first ':' is neither the first nor the last character, OPTIONS also
   * takes "*", and every other method a path or an absolute URL.
   */
  function CheckRequestUrl(m: Method, url: string): (ok: bool)
    ensures m == Connect ==> (ok <==> |url| > 0 && url[0] != ':' && exists k :: 0 < k < |url| - 1 && url[k] == ':')
    ensures m == Options ==> (ok <==> url == "*" || PathOrAbsolute(url))
    ensures m != Connect && m != Options ==> (ok <==> PathOrAbsolute(url))
  {
    match m
    case Connect =>
      var pos := FindChar(url, ':');
      0 < pos < |url| - 1
    case Options => url == "*" || PathOrAbsolute(url)
    case _ => PathOrAbsolute(url)
  }

  /** Some caller header names `name`, compared without regard to case. */
  predicate HasHeader(headers: seq<string>, name: string)
  {
    exists i :: 0 <= i < |headers| && BeginsWithNoCase(headers[i], name)
  }

  /** The standard port of the scheme in use is left out of the Host header. */
  predicate StandardPort(ssl: bool, port: int)
  {
    (ssl && port == PORT_HTTPS) || (!ssl && port == PORT_HTTP)
  }

  function HostHeader(host: string, port: int, ssl: bool): (h: string)
    ensures BeginsWith(h, "Host: " + host)
    ensures h == "Host: " + host <==> StandardPort(ssl, port)
  {
    if StandardPort(ssl, port) then "Host: " + host
    else
      var h := "Host: " + host + ":" + Itos(port);
      assert |h| > |"Host: " + host|;
      assert h[..|"Host: " + host|] == "Host: " + host;
      h
  }

  function RequestLine(m: Method, url: string): string
  {
    MethodName(m) + " " + url + " HTTP/1.1"
  }

  /**
   * The lines of a request head: the request line, the caller's headers
   * verbatim, then each default header the caller did not give. The value of
   * User-Agent names the engine and the platform and is a parameter here.
   */
  function RequestLines(c: Client, m: Method, url: string, headers: seq<string>, bodySize: int, userAgent: string): seq<string>
  {
    [RequestLine(m, url)] + headers + Added(c, headers, bodySize, userAgent)
  }

  /** The default headers added after the caller's, each only when the caller gave none of that name. */
  function Added(c: Client, headers: seq<string>, bodySize: int, userAgent: string): seq<string>
  {
    Pick([!HasHeader(headers, "Host:"), bodySize > 0 && !HasHeader(headers, "Content-Length:"),
          !HasHeader(headers, "User-Agent:"), !HasHeader(headers, "Accept:")],
         DefaultLines(c, bodySize, userAgent))
  }

  /** The lines whose flag is set, in order. */
  function Pick(present: seq<bool>, lines: seq<string>): (r: seq<string>)
    requires |present| == |lines|
    ensures |r| <= |lines|
  {
    if |present| == 0 then []
    else (if present[0] then [lines[0]] else []) + Pick(present[1..], lines[1..])
  }

  const CRLF: string := "\r\n"

  /** Each line followed by CRLF. */
  function SerialiseLines(lines: seq<string>): string
  {
    if |lines| == 0 then "" else SerialiseLines(lines[..|lines| - 1]) + lines[|lines| - 1] + CRLF
  }

  /** The request head on the wire: the lines, then an empty line. */
  function Serialise(lines: seq<string>): string
  {
    SerialiseLines(lines) + CRLF
  }

  /** What a request produced: the error, the new state, and the head and body sent. */
  datatype Sent = Sent(err: Error, client: Client, head: string, body: seq<Byte>)

  /**
   * The first pass of building a head: each caller header is copied in turn,
   * and four flags record which default headers are still missing.
   */
  method ScanHeaders(start: string, headers: seq<string>, bodySize: int)
    returns (text: string, addHost: bool, addClen: bool, addAgent: bool, addAccept: bool)
    ensures text == SerialiseLines([start] + headers)
    ensures addHost == !HasHeader(headers, "Host:")
    ensures addClen == (bodySize > 0 && !HasHeader(headers, "Content-Length:"))
    ensures addAgent == !HasHeader(headers, "User-Agent:")
    ensures addAccept == !HasHeader(headers, "Accept:")
  {
    text := start + CRLF;
    addHost, addClen, addAgent, addAccept := true, bodySize > 0, true, true;
    var i := 0;
    while i < |headers|
      invariant 0 <= i <= |headers|
      invariant text == SerialiseLines([start] + headers[..i])
      invariant addHost == !HasHeader(headers[..i], "Host:")
      invariant addClen == (bodySize > 0 && !HasHeader(headers[..i], "Content-Length:"))
      invariant addAgent == !HasHeader(headers[..i], "User-Agent:")
      invariant addAccept == !HasHeader(headers[..i], "Accept:")
    {
      HasHeaderSnoc(headers, i, "Host:");
      HasHeaderSnoc(headers, i, "Content-Length:");
      HasHeaderSnoc(headers, i, "User-Agent:");
      HasHeaderSnoc(headers, i, "Accept:");
      assert ([start] + headers[..i + 1])[..1 + i] == [start] + headers[..i];
      text := text + headers[i] + CRLF;
      if addHost && BeginsWithNoCase(headers[i], "Host:") {
        addHost := false;
      }
      if addClen && BeginsWithNoCase(headers[i], "Content-Length:") {
        addClen := false;
      }
      if addAgent && BeginsWithNoCase(headers[i], "User-Agent:") {
        addAgent := false;
      }
      if addAccept && BeginsWithNoCase(headers[i], "Accept:") {
        addAccept := false;
      }
      i := i + 1;
    }
    assert headers[..|headers|] == headers;
  }

  /** The default headers still missing, one per set flag, in the client's fixed order. */
  function DefaultLines(c: Client, bodySize: int, userAgent: string): seq<string>
  {
    [HostHeader(c.host, c.port, c.ssl), "Content-Length: " + Itos(bodySize), "User-Agent: " + userAgent, "Accept: */*"]
  }

  /** The second pass of building a head: the text of the missing defaults. */
  method MissingDefaults(c: Client, bodySize: int, userAgent: string,
                         addHost: bool, addClen: bool, addAgent: bool, addAccept: bool)
    returns (tail: string)
    ensures tail == SerialiseLines(Pick([addHost, addClen, addAgent, addAccept], DefaultLines(c, bodySize, userAgent)))
  {
    var present := [addHost, addClen, addAgent, addAccept];
    var lines := DefaultLines(c, bodySize, userAgent);
    tail := "";
    var k := 4;
    while k > 0
      invariant 0 <= k <= 4
      invariant tail == SerialiseLines(Pick(present[k..], lines[k..]))
    {
      k := k - 1;
      SerialiseStep(present, lines, k);
      if present[k] {
        tail := lines[k] + CRLF + tail;
      }
    }
    assert present[0..] == present && lines[0..] == lines;
  }

  /** Building the head as the client does: the caller's headers, then the missing defaults, then the empty line. */
  method BuildHead(c: Client, m: Method, url: string, headers: seq<string>, bodySize: int, userAgent: string)
    returns (head: string)
    ensures head == Serialise(RequestLines(c, m, url, headers, bodySize, userAgent))
  {
    var addHost, addClen, addAgent, addAccept;
    head, addHost, addClen, addAgent, addAccept := ScanHeaders(RequestLine(m, url), headers, bodySize);
    var tail := MissingDefaults(c, bodySize, userAgent, addHost, addClen, addAgent, addAccept);
    ghost var pre := [RequestLine(m, url)] + headers;
    ghost var added := Pick([addHost, addClen, addAgent, addAccept], DefaultLines(c, bodySize, userAgent));
    assert Added(c, headers, bodySize, userAgent) == added;
    SerialiseLinesAppend(pre, added);
    head := head + tail + CRLF;
  }

  lemma {:induction false} SerialiseStep(present: seq<bool>, lines: seq<string>, k: nat)
    requires |present| == |lines| && k < |present|
    ensures SerialiseLines(Pick(present[k..], lines[k..]))
            == (if present[k] then lines[k] + CRLF else "") + SerialiseLines(Pick(present[k + 1..], lines[k + 1..]))
  {
    SerialisePick(present[k..], lines[k..]);
    assert present[k..][1..] == present[k + 1..] && lines[k..][1..] == lines[k + 1..];
  }

  lemma {:induction false} SerialisePick(present: seq<bool>, lines: seq<string>)
    requires |present| == |lines| > 0
    ensures SerialiseLines(Pick(present, lines))
            == (if present[0] then lines[0] + CRLF else "") + SerialiseLines(Pick(present[1..], lines[1..]))
  {
    var first := if present[0] then [lines[0]] else [];
    SerialiseLinesAppend(first, Pick(present[1..], lines[1..]));
    if present[0] {
      assert SerialiseLines(first) == SerialiseLines([]) + lines[0] + CRLF;
    }
  }

  lemma {:induction false} SerialiseLinesAppend(a: seq<string>, b: seq<string>)
    ensures SerialiseLines(a + b) == SerialiseLines(a) + SerialiseLines(b)
    decreases |b|
  {
    if |b| > 0 {
      var b' := b[..|b| - 1];
      assert (a + b)[..|a + b| - 1] == a + b';
      SerialiseLinesAppend(a, b');
    } else {
      assert a + b == a;
    }
  }

  lemma {:induction false} HasHeaderSnoc(headers: seq<string>, i: nat, name: string)
    requires i < |headers|
    ensures HasHeader(headers[..i + 1], name) <==> HasHeader(headers[..i], name) || BeginsWithNoCase(headers[i], name)
  {
    if HasHeader(headers[..i + 1], name) {
      var k :| 0 <= k < i + 1 && BeginsWithNoCase(headers[..i + 1][k], name);
      if k < i {
        assert headers[..i][k] == headers[..i + 1][k];
      }
    }
    if HasHeader(headers[..i], name) {
      var k :| 0 <= k < i && BeginsWithNoCase(headers[..i][k], name);
      assert headers[..i + 1][k] == headers[..i][k];
    }
    if BeginsWithNoCase(headers[i], name) {
      assert headers[..i + 1][i] == headers[i];
    }
  }

  /**
   * Sending a request. It is refused, with nothing changed, for a target the
   * method does not accept or when the client is not connected. `sendErr`
   * is the transport's answer to sending the bytes: when it is an error the
   * client is closed, marked as a connection error, and that error is
   * returned unchanged; otherwise it waits for the response, remembering
   * whether this was HEAD.
   */
  method Request(c: Client, m: Method, url: string, headers: seq<string>, body: seq<Byte>,
                 userAgent: string, sendErr: Error) returns (r: Sent)
    ensures !CheckRequestUrl(m, url) || c.status != Connected ==>
              r.err == ErrInvalidParameter && r.client == c && r.head == "" && r.body == []
    ensures CheckRequestUrl(m, url) && c.status == Connected ==>
              && r.err == sendErr
              && r.head == Serialise(RequestLines(c, m, url, headers, |body|, userAgent)) && r.body == body
              && (sendErr == Ok ==> r.client == c.(status := Requesting, headRequest := (m == Head)))
              && (sendErr != Ok ==> r.client == Close(c).(status := ConnectionError))
  {
    if !CheckRequestUrl(m, url) || c.status != Connected {
      return Sent(ErrInvalidParameter, c, "", []);
    }
    var head := BuildHead(c, m, url, headers, |body|, userAgent);
    if sendErr != Ok {
      return Sent(sendErr, Close(c).(status := ConnectionError), head, body);
    }
    r := Sent(Ok, c.(status := Requesting, headRequest := (m == Head)), head, body);
  }

  // ------------------------------------------------- what the head promises

  lemma {:induction false} PrefixNoCase(s: string, p: string)
    requires BeginsWith(s, p)
    ensures BeginsWithNoCase(s, p)
  {
    assert ToLower(s)[..|p|] == ToLower(p);
  }

  /** Two names whose lower-cased first characters differ cannot both begin a line. */
  lemma {:induction false} FirstCharExcludes(s: string, p: string, q: string)
    requires BeginsWith(s, p) && |p| > 0 && |q| > 0
    requires ToLowerChar(p[0]) != ToLowerChar(q[0])
    ensures !BeginsWithNoCase(s, q)
  {
    assert ToLower(s)[0] == ToLowerChar(s[0]) && ToLower(q)[0] == ToLowerChar(q[0]);
  }

  /**
   * Each default header is added exactly when the caller did not give one of
   * that name, Content-Length only for a non-empty body; so the head always
   * names a Host, a User-Agent and an Accept, and a Content-Length exactly
   * when there is a body or the caller gave one.
   */
  lemma {:induction false} DefaultsFillTheGaps(c: Client, headers: seq<string>, bodySize: int, userAgent: string)
    ensures HasHeader(Added(c, headers, bodySize, userAgent), "Host:") <==> !HasHeader(headers, "Host:")
    ensures HasHeader(Added(c, headers, bodySize, userAgent), "Content-Length:") <==>
              bodySize > 0 && !HasHeader(headers, "Content-Length:")
    ensures HasHeader(Added(c, headers, bodySize, userAgent), "User-Agent:") <==> !HasHeader(headers, "User-Agent:")
    ensures HasHeader(Added(c, headers, bodySize, userAgent), "Accept:") <==> !HasHeader(headers, "Accept:")
  {
    var lines := DefaultLines(c, bodySize, userAgent);
    var present := [!HasHeader(headers, "Host:"), bodySize > 0 && !HasHeader(headers, "Content-Length:"),
                    !HasHeader(headers, "User-Agent:"), !HasHeader(headers, "Accept:")];
    assert Added(c, headers, bodySize, userAgent) == Pick(present, lines);
    DefaultPicked(present, lines, c, bodySize, userAgent, 0);
    DefaultPicked(present, lines, c, bodySize, userAgent, 1);
    DefaultPicked(present, lines, c, bodySize, userAgent, 2);
    DefaultPicked(present, lines, c, bodySize, userAgent, 3);
  }

  /** One default line is among the picked ones exactly when its flag is set. */
  lemma {:induction false} DefaultPicked(present: seq<bool>, lines: seq<string>, c: Client, bodySize: int,
                                          userAgent: string, k: nat)
    requires lines == DefaultLines(c, bodySize, userAgent) && |present| == 4 && k < 4
    ensures HasHeader(Pick(present, lines), DEFAULT_NAMES[k]) <==> present[k]
  {
    DefaultLinesNamed(c, bodySize, userAgent);
    PickHas(present, lines, DEFAULT_NAMES, k);
  }

  /** The names the default lines begin with, in the order the client adds them. */
  const DEFAULT_NAMES: seq<string> := ["Host:", "Content-Length:", "User-Agent:", "Accept:"]

  /** Each default line begins with its name, and no two names share a first letter in any case. */
  lemma {:induction false} DefaultLinesNamed(c: Client, bodySize: int, userAgent: string)
    ensures var lines := DefaultLines(c, bodySize, userAgent);
      |lines| == |DEFAULT_NAMES| == 4 &&
      forall i :: 0 <= i < 4 ==> |DEFAULT_NAMES[i]| > 0 && BeginsWith(lines[i], DEFAULT_NAMES[i])
    ensures forall i, j :: 0 <= i < 4 && 0 <= j < 4 && i != j ==>
      ToLowerChar(DEFAULT_NAMES[i][0]) != ToLowerChar(DEFAULT_NAMES[j][0])
  {
    var host := HostHeader(c.host, c.port, c.ssl);
    var clen := "Content-Length: " + Itos(bodySize);
    var agent := "User-Agent: " + userAgent;
    var accept := "Accept: */*";
    assert BeginsWith(host, "Host:") by { assert host[..5] == ("Host: " + c.host)[..5]; }
    assert BeginsWith(clen, "Content-Length:") by { assert clen[..15] == "Content-Length:"; }
    assert BeginsWith(agent, "User-Agent:") by { assert agent[..11] == "User-Agent:"; }
    assert BeginsWith(accept, "Accept:") by { assert accept[..7] == "Accept:"; }
  }

  /**
   * When the lines begin with names whose lower-cased first characters are
   * pairwise different, a name is among the picked lines exactly when its
   * line was picked.
   */
  lemma {:induction false} PickHas(present: seq<bool>, lines: seq<string>, names: seq<string>, j: nat)
    requires |present| == |lines| == |names| && j < |names|
    requires forall i :: 0 <= i < |names| ==> |names[i]| > 0 && BeginsWith(lines[i], names[i])
    requires forall i :: 0 <= i < |names| && i != j ==> ToLowerChar(names[i][0]) != ToLowerChar(names[j][0])
    ensures HasHeader(Pick(present, lines), names[j]) <==> present[j]
    decreases |present|
  {
    var first := if present[0] then [lines[0]] else [];
    HasHeaderAppend(first, Pick(present[1..], lines[1..]), names[j]);
    if j == 0 {
      PickLacks(present[1..], lines[1..], names[1..], names[0]);
      if present[0] {
        PrefixNoCase(lines[0], names[0]);
        assert first[0] == lines[0];
      }
    } else {
      PickHas(present[1..], lines[1..], names[1..], j - 1);
      if present[0] {
        FirstCharExcludes(lines[0], names[0], names[j]);
      }
    }
  }

  /** A name whose lower-cased first character begins none of the lines is not among them. */
  lemma {:induction false} PickLacks(present: seq<bool>, lines: seq<string>, names: seq<string>, name: string)
    requires |present| == |lines| == |names| && |name| > 0
    requires forall i :: 0 <= i < |names| ==> |names[i]| > 0 && BeginsWith(lines[i], names[i])
    requires forall i :: 0 <= i < |names| ==> ToLowerChar(names[i][0]) != ToLowerChar(name[0])
    ensures !HasHeader(Pick(present, lines), name)
    decreases |present|
  {
    if |present| > 0 {
      var first := if present[0] then [lines[0]] else [];
      HasHeaderAppend(first, Pick(present[1..], lines[1..]), name);
      PickLacks(present[1..], lines[1..], names[1..], name);
      if present[0] {
        FirstCharExcludes(lines[0], names[0], name);
      }
    }
  }

  lemma {:induction false} HasHeaderAppend(a: seq<string>, b: seq<string>, name: string)
    ensures HasHeader(a + b, name) <==> HasHeader(a, name) || HasHeader(b, name)
  {
    if HasHeader(a + b, name) {
      var k :| 0 <= k < |a + b| && BeginsWithNoCase((a + b)[k], name);
      if k >= |a| {
        assert b[k - |a|] == (a + b)[k];
      }
    }
    if HasHeader(b, name) {
      var k :| 0 <= k < |b| && BeginsWithNoCase(b[k], name);
      assert (a + b)[|a| + k] == b[k];
    }
    if HasHeader(a, name) {
      var k :| 0 <= k < |a| && BeginsWithNoCase(a[k], name);
      assert (a + b)[k] == a[k];
    }
  }

  /** The head that is sent always ends with the empty line that closes it. */
  lemma {:induction false} SerialisedEndsWithBlankLine(lines: seq<string>)
    ensures |Serialise(lines)| >= 2 && Serialise(lines)[|Serialise(lines)| - 2..] == CRLF
    ensures |lines| > 0 ==> |Serialise(lines)| >= 4 && Serialise(lines)[|Serialise(lines)| - 4..] == CRLF + CRLF
  {
    var t := Serialise(lines);
    if |lines| > 0 {
      assert t == SerialiseLines(lines[..|lines| - 1]) + lines[|lines| - 1] + CRLF + CRLF;
    }
  }
}
