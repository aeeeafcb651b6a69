/**
 * Receiving a response head: bytes are taken one at a time until the head
 * is complete, then its lines are read for the status code, the body length,
 * the transfer coding and the connection option, which together decide how
 * the body is read (section 3.3.3 of RFC 7230).
 */
module HttpResponse {
  import opened HttpText
  import opened HttpClient
  import opened Optional

  /** A head is complete when the bytes so far end with an empty line, written LF LF or CR LF CR LF. */
  predicate HeadComplete(b: seq<Byte>)
  {
    (|b| >= 2 && b[|b| - 2] == LF && b[|b| - 1] == LF)
    || (|b| >= 4 && b[|b| - 4] == CR && b[|b| - 3] == LF && b[|b| - 2] == CR && b[|b| - 1] == LF)
  }

  /** What one poll while requesting did with the bytes available. */
  datatype Received = Waiting(buffer: seq<Byte>) | Complete(head: seq<Byte>, used: nat)

  /**
   * Taking the available bytes one at a time onto the buffer, stopping at
   * the first byte that completes the head.
   */
  method ReceiveHead(buffer: seq<Byte>, avail: seq<Byte>) returns (r: Received)
    ensures r.Waiting? ==> r.buffer == buffer + avail
    ensures r.Waiting? ==> forall k :: 1 <= k <= |avail| ==> !HeadComplete(buffer + avail[..k])
    ensures r.Complete? ==> 1 <= r.used <= |avail| && r.head == buffer + avail[..r.used] && HeadComplete(r.head)
    ensures r.Complete? ==> forall k :: 1 <= k < r.used ==> !HeadComplete(buffer + avail[..k])
  {
    var b := buffer;
    var i := 0;
    while i < |avail|
      invariant 0 <= i <= |avail|
      invariant b == buffer + avail[..i]
      invariant forall k :: 1 <= k <= i ==> !HeadComplete(buffer + avail[..k])
    {
      assert avail[..i + 1] == avail[..i] + [avail[i]];
      b := b + [avail[i]];
      i := i + 1;
      if HeadComplete(b) {
        return Complete(b, i);
      }
    }
    assert avail[..i] == avail;
    return Waiting(b);
  }

  /** The head as text: the bytes up to the first zero byte, one character each. */
  function HeadText(b: seq<Byte>): (t: string)
    ensures |t| <= |b|
    ensures forall k :: 0 <= k < |t| ==> t[k] as int == b[k] as int && b[k] != 0
    ensures |t| < |b| ==> b[|t|] == 0
    decreases |b|
  {
    if |b| == 0 || b[0] == 0 then "" else [b[0] as int as char] + HeadText(b[1..])
  }

  /** What a header line is about, tested in the client's order on the trimmed lower-cased line. */
  datatype LineKind = Length | Coding | Close | Other

  /**
   * A line of the head as the client looks at it: trimmed, classified, with
   * the text after the first ':' of a Content-Length line (index 15 of the
   * lower-cased line), whether a Transfer-Encoding value, compared with its
   * case kept, is exactly "chunked" (the value starts at index 18), whether
   * the raw line begins with "HTTP", and its second space-separated field.
   */
  datatype LineInfo = LineInfo(
    trimmed: string,
    kind: LineKind,
    lengthText: string,
    chunkedCoding: bool,
    httpPrefix: bool,
    codeText: string)

  function Classify(line: string): (info: LineInfo)
    ensures info.trimmed == StripEdges(line)
    ensures info.trimmed == "" ==> info.kind == Other
    ensures info.kind == Length ==> BeginsWith(ToLower(info.trimmed), "content-length:")
    ensures info.kind == Coding ==> BeginsWith(ToLower(info.trimmed), "transfer-encoding:")
    ensures info.kind == Close ==> BeginsWith(ToLower(info.trimmed), "connection: close")
    ensures info.httpPrefix <==> BeginsWith(line, "HTTP")
  {
    var h := StripEdges(line);
    var s := ToLower(h);
    var kind := KindOf(s);
    var lengthText := if kind == Length then StripEdges(s[15..]) else "";
    var chunked := kind == Coding && StripEdges(h[18..]) == "chunked";
    var http := BeginsWith(line, "HTTP");
    LineInfo(h, kind, lengthText, chunked, http, Slice(line, ' ', 1))
  }

  /** Which header a lower-cased, trimmed line is, by its prefix; the first match wins. */
  function KindOf(s: string): (k: LineKind)
    ensures k == Length <==> BeginsWith(s, "content-length:")
    ensures k == Coding <==> !BeginsWith(s, "content-length:") && BeginsWith(s, "transfer-encoding:")
    ensures k == Close ==> BeginsWith(s, "connection: close")
    ensures k == Length ==> |s| >= 15
    ensures k == Coding ==> |s| >= 18
    ensures s == "" ==> k == Other
  {
    if BeginsWith(s, "content-length:") then Length
    else if BeginsWith(s, "transfer-encoding:") then Coding
    else if BeginsWith(s, "connection: close") then Close
    else Other
  }

  /** Line `i` is the status line: the first line, not blank, beginning with "HTTP". */
  predicate IsStatusLine(infos: seq<LineInfo>, i: nat)
    requires i < |infos|
  {
    i == 0 && infos[0].trimmed != "" && infos[0].httpPrefix
  }

  predicate IsChunkedLine(info: LineInfo)
  {
    info.kind == Coding && info.chunkedCoding
  }

  /** The value of the last Content-Length line among the first `n` lines, if any. */
  function LastLength(infos: seq<LineInfo>, n: nat, toInt: string -> int): (v: Option<int>)
    requires n <= |infos|
    ensures v.None? <==> forall k :: 0 <= k < n ==> infos[k].kind != Length
    decreases n
  {
    if n == 0 then None
    else if infos[n - 1].kind == Length then Some(toInt(infos[n - 1].lengthText))
    else LastLength(infos, n - 1, toInt)
  }

  /** A later Content-Length line overrides an earlier one: the last one gives the value. */
  lemma {:induction false} LastLengthIsLast(infos: seq<LineInfo>, n: nat, k: nat, toInt: string -> int)
    requires k < n <= |infos| && infos[k].kind == Length
    requires forall j :: k < j < n ==> infos[j].kind != Length
    ensures LastLength(infos, n, toInt) == Some(toInt(infos[k].lengthText))
    decreases n
  {
    if n - 1 != k {
      LastLengthIsLast(infos, n - 1, k, toInt);
    }
  }

  /** The headers kept from the first `n` lines: every non-blank line but the status line, trimmed. */
  function KeptHeaders(infos: seq<LineInfo>, n: nat): (h: seq<string>)
    requires n <= |infos|
    ensures |h| <= n
    ensures forall k :: 0 <= k < |h| ==> h[k] != ""
    decreases n
  {
    if n == 0 then []
    else if infos[n - 1].trimmed == "" || IsStatusLine(infos, n - 1) then KeptHeaders(infos, n - 1)
    else KeptHeaders(infos, n - 1) + [infos[n - 1].trimmed]
  }

  /** What classification guarantees of every line. */
  predicate WellClassified(infos: seq<LineInfo>)
  {
    forall i :: 0 <= i < |infos| ==>
      StripEdges(infos[i].trimmed) == infos[i].trimmed && (infos[i].trimmed == "" ==> infos[i].kind == Other)
  }

  /** Classified lines keep the guarantees of Classify, and their trimmed text is trimmed already. */
  lemma {:induction false} ClassifiedWell(lines: seq<string>, infos: seq<LineInfo>)
    requires |infos| == |lines|
    requires forall i :: 0 <= i < |lines| ==> infos[i] == Classify(lines[i])
    ensures WellClassified(infos)
  {
    forall i | 0 <= i < |infos|
      ensures StripEdges(infos[i].trimmed) == infos[i].trimmed
    {
      StripEdgesIdempotent(lines[i]);
    }
  }

  /** The lines of a head text, classified. */
  function Infos(text: string): (infos: seq<LineInfo>)
    ensures |infos| == |Split(text, '\n')| > 0
    ensures forall i :: 0 <= i < |infos| ==> infos[i] == Classify(Split(text, '\n')[i])
    ensures WellClassified(infos)
  {
    var lines := Split(text, '\n');
    var infos := seq(|lines|, i requires 0 <= i < |lines| => Classify(lines[i]));
    ClassifiedWell(lines, infos);
    infos
  }

  /** Every kept header is non-empty and already trimmed. */
  lemma {:induction false} KeptHeadersTrimmed(infos: seq<LineInfo>, n: nat)
    requires n <= |infos| && WellClassified(infos)
    ensures forall k :: 0 <= k < |KeptHeaders(infos, n)| ==> StripEdges(KeptHeaders(infos, n)[k]) == KeptHeaders(infos, n)[k]
    decreases n
  {
    if n > 0 {
      KeptHeadersTrimmed(infos, n - 1);
      var prev := KeptHeaders(infos, n - 1);
      var h := KeptHeaders(infos, n);
      if h != prev {
        assert h == prev + [infos[n - 1].trimmed];
        assert StripEdges(infos[n - 1].trimmed) == infos[n - 1].trimmed;
        forall k | 0 <= k < |h|
          ensures StripEdges(h[k]) == h[k]
        {
          if k < |prev| {
            assert h[k] == prev[k];
          }
        }
      }
    }
  }

  /** What reading a head settled about the response and its body. */
  datatype ResponseHead = ResponseHead(
    responseNum: int,
    headers: seq<string>,
    bodySize: int,
    bodyLeft: int,
    chunked: bool,
    readUntilEof: bool,
    status: Status)

  /** What the line scan has gathered so far. */
  datatype Scan = Scan(bodySize: int, bodyLeft: int, chunked: bool, keepAlive: bool, headers: seq<string>, responseNum: int)

  /** `sc` is what the first `i` lines say, by the reference definitions above. */
  predicate ScannedUpTo(infos: seq<LineInfo>, i: nat, toInt: string -> int, sc: Scan)
    requires i <= |infos|
  {
    && sc.headers == KeptHeaders(infos, i)
    && sc.responseNum == (if i > 0 && IsStatusLine(infos, 0) then toInt(infos[0].codeText) else RESPONSE_OK)
    && sc.chunked == (exists k :: 0 <= k < i && IsChunkedLine(infos[k]))
    && sc.keepAlive == !(exists k :: 0 <= k < i && infos[k].kind == Close)
    && sc.bodySize == (match LastLength(infos, i, toInt) case Some(v) => v case None => -1)
    && sc.bodyLeft == (match LastLength(infos, i, toInt) case Some(v) => v case None => 0)
  }

  /**
   * One line of the head: a blank line is skipped; otherwise its kind may set
   * the body size, the chunked flag or the end of keep-alive, and then it is
   * either the status line or a header kept in trimmed form.
   */
  function ScanLine(infos: seq<LineInfo>, i: nat, toInt: string -> int, sc: Scan): Scan
    requires i < |infos|
  {
    var info := infos[i];
    if |info.trimmed| == 0 then sc
    else
      var sc1 := match info.kind
        case Length => var v := toInt(info.lengthText); sc.(bodySize := v, bodyLeft := v)
        case Coding => if info.chunkedCoding then sc.(chunked := true) else sc
        case Close => sc.(keepAlive := false)
        case Other => sc;
      if i == 0 && info.httpPrefix then sc1.(responseNum := toInt(info.codeText))
      else sc1.(headers := sc1.headers + [info.trimmed])
  }

  /** Scanning one more line keeps the scan in step with the reference definitions. */
  lemma {:induction false} ScanLineAdvances(infos: seq<LineInfo>, i: nat, toInt: string -> int, sc: Scan)
    requires i < |infos| && ScannedUpTo(infos, i, toInt, sc)
    requires infos[i].trimmed == "" ==> infos[i].kind == Other
    ensures ScannedUpTo(infos, i + 1, toInt, ScanLine(infos, i, toInt, sc))
  {
    var sc' := ScanLine(infos, i, toInt, sc);
    FlagsStep(infos, i);
    assert sc'.headers == KeptHeaders(infos, i + 1);
    LengthStep(infos, i, toInt, sc);
  }

  lemma {:induction false} FlagsStep(infos: seq<LineInfo>, i: nat)
    requires i < |infos|
    ensures (exists k :: 0 <= k < i + 1 && IsChunkedLine(infos[k])) <==>
              (exists k :: 0 <= k < i && IsChunkedLine(infos[k])) || IsChunkedLine(infos[i])
    ensures (exists k :: 0 <= k < i + 1 && infos[k].kind == Close) <==>
              (exists k :: 0 <= k < i && infos[k].kind == Close) || infos[i].kind == Close
  {
  }

  lemma {:induction false} LengthStep(infos: seq<LineInfo>, i: nat, toInt: string -> int, sc: Scan)
    requires i < |infos|
    requires infos[i].trimmed == "" ==> infos[i].kind == Other
    requires sc.bodySize == (match LastLength(infos, i, toInt) case Some(v) => v case None => -1)
    requires sc.bodyLeft == (match LastLength(infos, i, toInt) case Some(v) => v case None => 0)
    ensures ScanLine(infos, i, toInt, sc).bodySize == (match LastLength(infos, i + 1, toInt) case Some(v) => v case None => -1)
    ensures ScanLine(infos, i, toInt, sc).bodyLeft == (match LastLength(infos, i + 1, toInt) case Some(v) => v case None => 0)
  {
  }

  /**
   * Reading the lines of a head. Content-Length sets the body size (the last
   * one counts), a Transfer-Encoding of "chunked" makes the body chunked,
   * "Connection: close" ends keep-alive, and the status line gives the
   * response code (200 when there is none). A response to HEAD has no body.
   * The body is then read by length or in chunks, or until the server closes
   * the connection when neither is given and keep-alive is off; otherwise
   * there is no body.
   */
  method ReadHeadLines(infos: seq<LineInfo>, headRequest: bool, toInt: string -> int) returns (r: ResponseHead)
    requires |infos| > 0 && WellClassified(infos)
    ensures r.headers == KeptHeaders(infos, |infos|)
    ensures r.responseNum == (if IsStatusLine(infos, 0) then toInt(infos[0].codeText) else RESPONSE_OK)
    ensures r.chunked == (exists k :: 0 <= k < |infos| && IsChunkedLine(infos[k]))
    ensures headRequest ==> r.bodySize == 0 && r.bodyLeft == 0
    ensures !headRequest ==> r.bodySize == match LastLength(infos, |infos|, toInt) case Some(v) => v case None => -1
    ensures !headRequest ==> r.bodyLeft == match LastLength(infos, |infos|, toInt) case Some(v) => v case None => 0
    ensures r.status == Body <==> r.bodySize != -1 || r.chunked || exists k :: 0 <= k < |infos| && infos[k].kind == Close
    ensures r.status != Body ==> r.status == Connected
    ensures r.readUntilEof <==> r.status == Body && r.bodySize == -1 && !r.chunked
  {
    var sc := Scan(-1, 0, false, true, [], RESPONSE_OK);
    var i := 0;
    while i < |infos|
      invariant 0 <= i <= |infos|
      invariant ScannedUpTo(infos, i, toInt, sc)
    {
      assert infos[i].trimmed == "" ==> infos[i].kind == Other;
      ScanLineAdvances(infos, i, toInt, sc);
      sc := ScanLine(infos, i, toInt, sc);
      i := i + 1;
    }
    if headRequest {
      sc := sc.(bodySize := 0, bodyLeft := 0);
    }
    var readUntilEof := false;
    var status;
    if sc.bodySize != -1 || sc.chunked {
      status := Body;
    } else if !sc.keepAlive {
      readUntilEof := true;
      status := Body;
    } else {
      status := Connected;
    }
    r := ResponseHead(sc.responseNum, sc.headers, sc.bodySize, sc.bodyLeft, sc.chunked, readUntilEof, status);
  }

  /** Reading a head text: its lines split at LF, then classified and scanned. */
  method ParseHead(text: string, headRequest: bool, toInt: string -> int) returns (r: ResponseHead)
    ensures r.headers == KeptHeaders(Infos(text), |Infos(text)|)
    ensures r.status == Body <==> r.bodySize != -1 || r.chunked || exists k :: 0 <= k < |Infos(text)| && Infos(text)[k].kind == Close
    ensures r.status != Body ==> r.status == Connected
    ensures headRequest ==> r.bodySize == 0 && r.status == Body && !r.readUntilEof
    ensures r.readUntilEof <==> r.status == Body && r.bodySize == -1 && !r.chunked
  {
    r := ReadHeadLines(Infos(text), headRequest, toInt);
  }

  /** A response with its head read: the client state the body reader starts from. */
  function Apply(c: Client, h: ResponseHead): (r: Client)
    ensures r.status == h.status && r.responseHeaders == h.headers && r.responseNum == h.responseNum
    ensures r.bodySize == h.bodySize && r.bodyLeft == h.bodyLeft && r.chunked == h.chunked
    ensures r.readUntilEof == h.readUntilEof && r.chunkLeft == 0 && !r.trailer && r.responseStr == []
  {
    c.(status := h.status, responseHeaders := h.headers, responseNum := h.responseNum,
       bodySize := h.bodySize, bodyLeft := h.bodyLeft,
       chunked := h.chunked, readUntilEof := h.readUntilEof, chunkLeft := 0, trailer := false,
       responseStr := [])
  }

  /**
   * One poll while the request is outstanding: the available bytes go onto
   * the response buffer until the head is complete, and a complete head is
   * read at once. The bytes after the head are left for the body reader.
   * When the bytes run out before the head is complete, `failed` says
   * whether the next read reports an error (the peer closed or the read
   * failed), which closes the client with a connection error; otherwise the
   * client keeps waiting.
   */
  method PollRequesting(c: Client, avail: seq<Byte>, failed: bool, toInt: string -> int) returns (r: Client, used: nat)
    requires c.status == Requesting
    ensures used <= |avail|
    ensures r.status == Requesting ==> used == |avail| && r == c.(responseStr := c.responseStr + avail)
    ensures r.status == Requesting <==> !failed && forall k :: 1 <= k <= |avail| ==> !HeadComplete(c.responseStr + avail[..k])
    ensures r.status == ConnectionError <==> failed && forall k :: 1 <= k <= |avail| ==> !HeadComplete(c.responseStr + avail[..k])
    ensures r.status == ConnectionError ==> used == |avail| && r == HttpClient.Close(c).(status := ConnectionError)
    ensures r.status !in {Requesting, ConnectionError} ==> HeadComplete(c.responseStr + avail[..used]) && r.responseStr == []
    ensures r.status !in {Requesting, ConnectionError} ==> r.status in {Body, Connected}
  {
    var got := ReceiveHead(c.responseStr, avail);
    match got
    case Waiting(b) =>
      if failed {
        return HttpClient.Close(c).(status := ConnectionError), |avail|;
      }
      return c.(responseStr := b), |avail|;
    case Complete(head, n) =>
      var h := ParseHead(HeadText(head), c.headRequest, toInt);
      return Apply(c, h), n;
  }

  /** Handing over the headers once: an empty list is an error, otherwise the list is returned and cleared. */
  function GetResponseHeaders(c: Client): (r: (Error, seq<string>, Client))
    ensures |c.responseHeaders| == 0 <==> r.0 == ErrInvalidParameter
    ensures r.0 == ErrInvalidParameter ==> r.1 == [] && r.2 == c
    ensures r.0 != ErrInvalidParameter ==> r.0 == Ok && r.1 == c.responseHeaders && r.2 == c.(responseHeaders := [])
  {
    if |c.responseHeaders| == 0 then (ErrInvalidParameter, [], c)
    else (Ok, c.responseHeaders, c.(responseHeaders := []))
  }

  /** The headers can be taken only once: asking again is an error. */
  lemma {:induction false} HeadersTakenOnce(c: Client)
    requires GetResponseHeaders(c).0 == Ok
    ensures GetResponseHeaders(GetResponseHeaders(c).2).0 == ErrInvalidParameter
  {
  }

  const MIN_READ_CHUNK: int := 256
  const MAX_READ_CHUNK: int := 16777216

  /** The read size is kept within [256, 2^24]; any other size is refused and the old one stays. */
  function SetReadChunkSize(c: Client, size: int): (r: Client)
    ensures MIN_READ_CHUNK <= size <= MAX_READ_CHUNK ==> r == c.(readChunkSize := size)
    ensures !(MIN_READ_CHUNK <= size <= MAX_READ_CHUNK) ==> r == c
  {
    if size < 256 || size > 16777216 then c else c.(readChunkSize := size)
  }

  lemma {:induction false} ReadChunkSizeStaysInRange(c: Client, size: int)
    requires MIN_READ_CHUNK <= c.readChunkSize <= MAX_READ_CHUNK
    ensures MIN_READ_CHUNK <= SetReadChunkSize(c, size).readChunkSize <= MAX_READ_CHUNK
  {
  }
}
