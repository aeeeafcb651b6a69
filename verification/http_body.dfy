/**
 * Reading a response body, one call at a time: either a chunked body
 * (section 4.1 of RFC 7230), whose size lines, data and trailer are taken
 * apart byte by byte, or a body of known length or one that runs to the end
 * of the connection, read in pieces of at most the read size.
 *
 * The connection is modelled by the bytes it has available now and whether
 * the peer has closed it after them: a read of `n` bytes gets the first
 * min(n, available) of them and reports end-of-file when it got fewer than
 * asked for on a closed connection.
 */
module HttpBody {
  import opened HttpClient

  const MAX_CHUNK: int := 16777216
  const MAX_SIZE_LINE: int := 32

  /** The result of one read from the connection. */
  function ReadErr(got: int, asked: int, eof: bool): (e: Error)
    ensures e == Ok || e == ErrFileEof
  {
    if got < asked && eof then ErrFileEof else Ok
  }

  predicate EndsCrlf(b: seq<Byte>)
  {
    |b| >= 2 && b[|b| - 2] == CR && b[|b| - 1] == LF
  }

  // ------------------------------------------------------------ hex sizes

  predicate IsHexDigit(b: Byte)
  {
    (48 <= b <= 57) || (97 <= b <= 102) || (65 <= b <= 70)
  }

  predicate AllHex(s: seq<Byte>)
  {
    forall k :: 0 <= k < |s| ==> IsHexDigit(s[k])
  }

  function HexVal(b: Byte): (v: int)
    requires IsHexDigit(b)
    ensures 0 <= v < 16
  {
    if 48 <= b <= 57 then b as int - 48
    else if 97 <= b <= 102 then b as int - 97 + 10
    else b as int - 65 + 10
  }

  /**
   * The size parser as the client runs it: digits accumulate left to right
   * (a shift by four bits and an or, which on these values is `16 * len + v`)
   * and the scan stops at the first byte that is not a hex digit or once the
   * value passes 2^24. The flag says whether the line was accepted.
   */
  function HexScan(line: seq<Byte>, i: nat, len: int): (r: (int, bool))
    requires i <= |line|
    ensures 0 <= len ==> 0 <= r.0
    ensures r.1 && len <= MAX_CHUNK ==> r.0 <= MAX_CHUNK
    decreases |line| - i
  {
    if i == |line| then (len, true)
    else if !IsHexDigit(line[i]) then (len, false)
    else
      var l := 16 * len + HexVal(line[i]);
      if l > MAX_CHUNK then (l, false) else HexScan(line, i + 1, l)
  }

  /** The value of a string of hex digits: the reference reading. */
  function HexValue(s: seq<Byte>): (v: nat)
    requires forall k :: 0 <= k < |s| ==> IsHexDigit(s[k])
    decreases |s|
  {
    if |s| == 0 then 0 else 16 * HexValue(s[..|s| - 1]) + HexVal(s[|s| - 1])
  }

  lemma {:induction false} HexValuePrefix(s: seq<Byte>, k: nat)
    requires k <= |s| && forall j :: 0 <= j < |s| ==> IsHexDigit(s[j])
    ensures HexValue(s[..k]) <= HexValue(s)
    decreases |s| - k
  {
    if k < |s| {
      HexValuePrefix(s, k + 1);
      assert s[..k + 1][..k] == s[..k];
    } else {
      assert s[..k] == s;
    }
  }

  /** On a line of hex digits worth at most 2^24 the scan accepts it with its value. */
  lemma {:induction false} HexScanReadsValue(line: seq<Byte>, i: nat)
    requires i <= |line| && forall j :: 0 <= j < |line| ==> IsHexDigit(line[j])
    requires HexValue(line) <= MAX_CHUNK
    ensures HexScan(line, i, HexValue(line[..i])) == (HexValue(line), true)
    decreases |line| - i
  {
    if i == |line| {
      assert line[..i] == line;
    } else {
      assert line[..i + 1][..i] == line[..i];
      HexValuePrefix(line, i + 1);
      HexScanReadsValue(line, i + 1);
    }
  }

  /** The scan rejects a line holding a byte that is not a hex digit. */
  lemma {:induction false} HexScanRejects(line: seq<Byte>, i: nat, len: int)
    requires i <= |line| && 0 <= len <= MAX_CHUNK
    requires exists j :: i <= j < |line| && !IsHexDigit(line[j])
    ensures !HexScan(line, i, len).1
    decreases |line| - i
  {
    if IsHexDigit(line[i]) {
      var l := 16 * len + HexVal(line[i]);
      if l <= MAX_CHUNK {
        HexScanRejects(line, i + 1, l);
      }
    }
  }

  /** The scan rejects a line of hex digits worth more than 2^24, once the digits read so far pass it. */
  lemma {:induction false} HexScanRejectsLarge(line: seq<Byte>, i: nat)
    requires i <= |line| && AllHex(line) && HexValue(line[..i]) <= MAX_CHUNK
    ensures MAX_CHUNK < HexValue(line) ==> !HexScan(line, i, HexValue(line[..i])).1
    decreases |line| - i
  {
    if i < |line| {
      assert line[..i + 1][..i] == line[..i];
      var l := 16 * HexValue(line[..i]) + HexVal(line[i]);
      assert HexValue(line[..i + 1]) == l;
      if l <= MAX_CHUNK {
        HexScanRejectsLarge(line, i + 1);
      }
    } else {
      assert line[..i] == line;
    }
  }

  /**
   * The size parser against the reference reading: a line is accepted
   * exactly when it is all hex digits worth at most 2^24, and then with that
   * value.
   */
  lemma {:induction false} HexScanAccepts(line: seq<Byte>)
    ensures HexScan(line, 0, 0).1 <==> AllHex(line) && HexValue(line) <= MAX_CHUNK
    ensures HexScan(line, 0, 0).1 ==> HexScan(line, 0, 0).0 == HexValue(line)
  {
    assert line[..0] == [];
    if !AllHex(line) {
      HexScanRejects(line, 0, 0);
    } else if HexValue(line) <= MAX_CHUNK {
      HexScanReadsValue(line, 0);
    } else {
      HexScanRejectsLarge(line, 0);
    }
  }

  function HexDigit(d: nat): (b: Byte)
    requires d < 16
    ensures IsHexDigit(b) && HexVal(b) == d
  {
    if d < 10 then (48 + d) as Byte else (97 + d - 10) as Byte
  }

  /** A size in lower-case hex, most significant digit first, without leading zeros. */
  function HexDigits(n: nat): (s: seq<Byte>)
    ensures 0 < |s| && forall k :: 0 <= k < |s| ==> IsHexDigit(s[k])
    ensures n < 16 ==> |s| == 1
    ensures n >= 16 ==> |s| == |HexDigits(n / 16)| + 1
    decreases n
  {
    if n < 16 then [HexDigit(n)] else HexDigits(n / 16) + [HexDigit(n % 16)]
  }

  lemma {:induction false} HexDigitsValue(n: nat)
    ensures HexValue(HexDigits(n)) == n
    decreases n
  {
    if n >= 16 {
      HexDigitsValue(n / 16);
      var s := HexDigits(n);
      assert s[..|s| - 1] == HexDigits(n / 16);
    }
  }

  function Pow16(k: nat): (p: nat)
    ensures p >= 1
  {
    if k == 0 then 1 else 16 * Pow16(k - 1)
  }

  /** A value below 16^k takes at most k hex digits. */
  lemma {:induction false} HexDigitsBelow(n: nat, k: nat)
    requires n < Pow16(k) && k >= 1
    ensures |HexDigits(n)| <= k
    decreases k
  {
    if n >= 16 {
      assert k >= 2;
      HexDigitsBelow(n / 16, k - 1);
    }
  }

  /** A chunk size the client accepts is written in at most seven hex digits. */
  lemma {:induction false} HexDigitsShort(n: nat)
    requires n <= MAX_CHUNK
    ensures |HexDigits(n)| <= 7
  {
    assert Pow16(1) == 16;
    assert Pow16(2) == 256;
    assert Pow16(3) == 4096;
    assert Pow16(4) == 65536;
    assert Pow16(5) == 1048576;
    assert Pow16(6) == 16777216;
    assert Pow16(7) == 268435456;
    HexDigitsBelow(n, 7);
  }

  // ----------------------------------------------------------- chunked body

  /** The chunked reader's state: the bytes of the line or chunk in hand, the chunk bytes still due, the trailer flag. */
  datatype ChunkState = ChunkState(chunk: seq<Byte>, chunkLeft: int, trailer: bool, status: Status)

  /**
   * The chunk buffer always has room for the bytes still due, a chunk being
   * read ends in two bytes for its CRLF, and no chunk is due in the trailer.
   */
  predicate StateValid(st: ChunkState)
  {
    0 <= st.chunkLeft <= |st.chunk| && (st.chunkLeft > 0 ==> |st.chunk| >= 2) && (st.trailer ==> st.chunkLeft == 0)
  }

  /** What one call of the chunked reader did: the new state, the data returned, the bytes not consumed, the read error. */
  datatype ChunkRead = ChunkRead(st: ChunkState, ret: seq<Byte>, rest: seq<Byte>, err: Error)

  /** What one byte of a size line or of the trailer does: the call goes on with the next byte or ends. */
  datatype ByteStep = Continue(st: ChunkState) | Stop(st: ChunkState)

  /** The buffer cut or padded with zeros to `n` bytes. */
  function Resize(b: seq<Byte>, n: nat): (r: seq<Byte>)
    ensures |r| == n && forall k :: 0 <= k < n && k < |b| ==> r[k] == b[k]
  {
    if n <= |b| then b[..n] else b + seq(n - |b|, _ => 0 as Byte)
  }

  /**
   * One byte of the trailer: lines are collected and dropped; the empty line
   * that ends the trailer completes the body and ends the call.
   */
  function TrailerByte(st: ChunkState, b: Byte): (r: ByteStep)
    requires StateValid(st) && st.trailer
    ensures StateValid(r.st) && r.st.chunkLeft == st.chunkLeft
    ensures r.Stop? <==> st.chunk == [CR] && b == LF
    ensures r.Stop? ==> r.st == st.(chunk := [], trailer := false, status := Connected)
    ensures r.Continue? ==> r.st.status == st.status && r.st.trailer == st.trailer
    ensures r.Continue? && b != LF ==> r.st.chunk == st.chunk + [b]
    ensures r.Continue? && b == LF && |st.chunk| > 0 && st.chunk[|st.chunk| - 1] == CR ==> r.st.chunk == []
  {
    var chunk := st.chunk + [b];
    if EndsCrlf(chunk) then
      if |chunk| == 2 then Stop(st.(chunk := [], trailer := false, status := Connected))
      else Continue(st.(chunk := []))
    else Continue(st.(chunk := chunk))
  }

  /**
   * One byte of a size line. A line longer than 32 bytes is a connection
   * error that ends the call. A complete line is parsed as hex: a size of
   * zero starts the trailer and ends the call, any other size makes room for
   * the chunk and its CRLF. A line the parser rejects is a connection error;
   * with `stopOnBadSize` false it behaves as written, where the value parsed
   * so far is still used as the size, and with it true the call ends there.
   */
  function SizeByte(st: ChunkState, b: Byte, stopOnBadSize: bool): (r: ByteStep)
    requires StateValid(st) && st.chunkLeft == 0 && !st.trailer
    ensures StateValid(r.st)
    ensures |st.chunk| + 1 > MAX_SIZE_LINE ==> r == Stop(st.(chunk := st.chunk + [b], status := ConnectionError))
    ensures r.Continue? && r.st.chunkLeft == 0 ==> r.st == st.(chunk := st.chunk + [b])
    ensures r.Continue? ==> !r.st.trailer
    ensures r.Stop? ==> r.st.trailer || r.st.status == ConnectionError
    ensures r.Stop? && r.st.trailer ==> r.st.chunk == [] && r.st.chunkLeft == 0
    ensures r.st.status == st.status || r.st.status == ConnectionError
    ensures stopOnBadSize && r.Continue? ==> r.st.status == st.status
  {
    var chunk := st.chunk + [b];
    if |chunk| > MAX_SIZE_LINE then Stop(st.(chunk := chunk, status := ConnectionError))
    else if |chunk| > 2 && EndsCrlf(chunk) then
      var (len, ok) := HexScan(chunk[..|chunk| - 2], 0, 0);
      var status := if ok then st.status else ConnectionError;
      if !ok && stopOnBadSize then Stop(st.(chunk := chunk, status := ConnectionError))
      else if len <= 0 then Stop(st.(chunk := [], trailer := true, status := status))
      else Continue(st.(chunk := Resize(chunk, len + 2), chunkLeft := len + 2, status := status))
    else Continue(st.(chunk := chunk))
  }

  /** Whether the byte `b` completes a size line of acceptable length in the buffer `chunk`. */
  predicate CompletesLine(chunk: seq<Byte>, b: Byte)
  {
    2 < |chunk| + 1 <= MAX_SIZE_LINE && EndsCrlf(chunk + [b])
  }

  /**
   * What a size-line byte does, against the reference reading of the line:
   * an incomplete line grows; a complete one of hex digits worth v makes room
   * for v bytes and the CRLF when v > 0 and starts the trailer when v is 0;
   * a complete line that is refused ends the call with a connection error
   * when `stopOnBadSize` is set, and otherwise records the error.
   */
  lemma {:induction false} SizeByteOutcome(st: ChunkState, b: Byte, stopOnBadSize: bool)
    requires StateValid(st) && st.chunkLeft == 0 && !st.trailer
    ensures |st.chunk| + 1 <= MAX_SIZE_LINE && !CompletesLine(st.chunk, b) ==>
              SizeByte(st, b, stopOnBadSize) == Continue(st.(chunk := st.chunk + [b]))
    ensures CompletesLine(st.chunk, b) ==>
              var line := st.chunk[..|st.chunk| - 1];
              AllHex(line) && 0 < HexValue(line) <= MAX_CHUNK ==>
              SizeByte(st, b, stopOnBadSize)
              == Continue(st.(chunk := Resize(st.chunk + [b], HexValue(line) + 2), chunkLeft := HexValue(line) + 2))
    ensures CompletesLine(st.chunk, b) ==>
              var line := st.chunk[..|st.chunk| - 1];
              AllHex(line) && HexValue(line) == 0 ==>
              SizeByte(st, b, stopOnBadSize) == Stop(st.(chunk := [], trailer := true))
    ensures CompletesLine(st.chunk, b) ==>
              var line := st.chunk[..|st.chunk| - 1];
              !(AllHex(line) && HexValue(line) <= MAX_CHUNK) ==>
              SizeByte(st, b, stopOnBadSize).st.status == ConnectionError
              && (stopOnBadSize ==> SizeByte(st, b, stopOnBadSize) == Stop(st.(chunk := st.chunk + [b], status := ConnectionError)))
  {
    var chunk := st.chunk + [b];
    if CompletesLine(st.chunk, b) {
      assert chunk[..|chunk| - 2] == st.chunk[..|st.chunk| - 1];
      HexScanAccepts(st.chunk[..|st.chunk| - 1]);
    }
  }

  function Min(a: int, b: int): int { if a < b then a else b }

  /**
   * Reading chunk data: as many of the bytes still due as are available go
   * into the buffer where the last read stopped. When the chunk is complete
   * it must end in CRLF, else it is a connection error; the data before the
   * CRLF is returned and the buffer emptied. The call always ends here.
   */
  function DataRead(st: ChunkState, avail: seq<Byte>, eof: bool): (r: ChunkRead)
    requires StateValid(st) && st.chunkLeft > 0 && !st.trailer
    ensures StateValid(r.st) && !r.st.trailer
    ensures r.err == ReadErr(Min(|avail|, st.chunkLeft), st.chunkLeft, eof)
    ensures r.rest == avail[Min(|avail|, st.chunkLeft)..]
    ensures |avail| < st.chunkLeft ==> r.ret == [] && r.st.status == st.status && r.st.chunkLeft == st.chunkLeft - |avail|
    ensures r.ret != [] ==> r.st == st.(chunk := [], chunkLeft := 0)
    ensures |avail| >= st.chunkLeft ==> r.st.chunkLeft == 0
    ensures |avail| >= st.chunkLeft ==>
              (r.st == st.(chunk := [], chunkLeft := 0) &&
               r.ret + [CR, LF] == st.chunk[..|st.chunk| - st.chunkLeft] + avail[..st.chunkLeft]) ||
              (r.ret == [] && r.st.status == ConnectionError && !EndsCrlf(r.st.chunk))
  {
    var want := st.chunkLeft;
    var rec := Min(|avail|, want);
    var err := ReadErr(rec, want, eof);
    if rec == 0 then ChunkRead(st, [], avail, err)
    else
      var off := |st.chunk| - want;
      var chunk := st.chunk[..off] + avail[..rec] + st.chunk[off + rec..];
      if rec < want then ChunkRead(st.(chunk := chunk, chunkLeft := want - rec), [], avail[rec..], err)
      else if !EndsCrlf(chunk) then ChunkRead(st.(chunk := chunk, chunkLeft := 0, status := ConnectionError), [], avail[rec..], err)
      else
        assert chunk == st.chunk[..off] + avail[..want];
        ChunkRead(st.(chunk := [], chunkLeft := 0), chunk[..|chunk| - 2], avail[rec..], err)
  }

  /**
   * One call of the chunked reader. Size lines and the trailer are read a
   * byte at a time until a byte step ends the call or no byte is available;
   * chunk data is read in one go and ends the call. With `stopOnBadSize`
   * false this is the reader as written; with it true, a size line the
   * parser rejects ends the call, so data never comes back alongside an
   * error recorded in the same call.
   */
  function ReadChunkedWith(st: ChunkState, avail: seq<Byte>, eof: bool, stopOnBadSize: bool): (r: ChunkRead)
    requires StateValid(st)
    ensures StateValid(r.st)
    ensures |r.rest| <= |avail| && r.rest == avail[|avail| - |r.rest|..]
    ensures r.err == Ok || (r.err == ErrFileEof && eof)
    ensures r.st.status == st.status || r.st.status == Connected || r.st.status == ConnectionError
    ensures stopOnBadSize && r.ret != [] ==> r.st.status == st.status
    ensures r.ret != [] ==> r.st.chunk == [] && r.st.chunkLeft == 0 && !r.st.trailer
    decreases |avail|
  {
    if !st.trailer && st.chunkLeft > 0 then DataRead(st, avail, eof)
    else if |avail| == 0 then ChunkRead(st, [], avail, ReadErr(0, 1, eof))
    else
      var step := if st.trailer then TrailerByte(st, avail[0]) else SizeByte(st, avail[0], stopOnBadSize);
      match step
      case Stop(s) => ChunkRead(s, [], avail[1..], Ok)
      case Continue(s) => ReadChunkedWith(s, avail[1..], eof, stopOnBadSize)
  }

  /** The chunked reader as written. */
  function ReadChunkedAsWritten(st: ChunkState, avail: seq<Byte>, eof: bool): (r: ChunkRead)
    requires StateValid(st)
    ensures StateValid(r.st)
    ensures |r.rest| <= |avail| && r.rest == avail[|avail| - |r.rest|..]
    ensures r.err == Ok || (r.err == ErrFileEof && eof)
    ensures r.ret != [] ==> r.st.chunk == [] && r.st.chunkLeft == 0 && !r.st.trailer
  {
    ReadChunkedWith(st, avail, eof, false)
  }

  /**
   * The chunked reader: what one call returns, with a size line that is too
   * long, holds a byte that is not a hex digit, or is worth more than 2^24
   * ending the call with a connection error. Data returned leaves the
   * status as it was and the reader between chunks; the only read error is
   * the end of the connection.
   */
  function ReadChunked(st: ChunkState, avail: seq<Byte>, eof: bool): (r: ChunkRead)
    requires StateValid(st)
    ensures StateValid(r.st)
    ensures |r.rest| <= |avail| && r.rest == avail[|avail| - |r.rest|..]
    ensures r.err == Ok || (r.err == ErrFileEof && eof)
    ensures r.st.status == st.status || r.st.status == Connected || r.st.status == ConnectionError
    ensures r.ret != [] ==> r.st == st.(chunk := [], chunkLeft := 0, trailer := false)
  {
    ReadChunkedWith(st, avail, eof, true)
  }

  /** The state between chunks. */
  function Fresh(status: Status): ChunkState
  {
    ChunkState([], 0, false, status)
  }

  /** "1g\r\nx\r\n": the size line holds a stray 'g'. */
  const BAD_SIZE_INPUT: seq<Byte> := [49, 103, 13, 10, 120, 13, 10]

  /** The first three bytes of the bad size line only fill the buffer, whichever version reads them. */
  lemma {:induction false} BadSizeLineStart(stop: bool)
    ensures ReadChunkedWith(Fresh(Body), BAD_SIZE_INPUT, false, stop)
            == ReadChunkedWith(ChunkState([49, 103, 13], 0, false, Body), [10, 120, 13, 10], false, stop)
  {
    var a := BAD_SIZE_INPUT;
    assert SizeByte(Fresh(Body), 49, stop) == Continue(ChunkState([49], 0, false, Body));
    assert SizeByte(ChunkState([49], 0, false, Body), 103, stop) == Continue(ChunkState([49, 103], 0, false, Body));
    assert SizeByte(ChunkState([49, 103], 0, false, Body), 13, stop) == Continue(ChunkState([49, 103, 13], 0, false, Body));
    assert a[1..] == [103, 13, 10, 120, 13, 10];
    assert a[1..][1..] == [13, 10, 120, 13, 10];
    assert a[1..][1..][1..] == [10, 120, 13, 10];
  }

  /**
   * As written, a size line with a stray character records the error, yet
   * the digits before it are taken as the size and the chunk's data comes
   * back in the same call.
   */
  lemma {:induction false} BadSizeStillReturnsData()
    ensures ReadChunkedAsWritten(Fresh(Body), BAD_SIZE_INPUT, false)
            == ChunkRead(Fresh(ConnectionError), [120], [], Ok)
  {
    var s3 := ChunkState([49, 103, 13], 3, false, ConnectionError);
    var a: seq<Byte> := [10, 120, 13, 10];
    var d: seq<Byte> := [120, 13, 10];
    assert ReadChunkedWith(ChunkState([49, 103, 13], 0, false, Body), a, false, false)
           == ReadChunkedWith(s3, d, false, false) by {
      BadSizeLineEnd();
      assert a[0] == 10 && a[1..] == d;
    }
    assert ReadChunkedWith(s3, d, false, false) == ChunkRead(Fresh(ConnectionError), [120], [], Ok) by {
      DataThenCrlf([120], [49, 103, 13], [], false, ConnectionError);
      assert [120] + [CR, LF] + [] == d;
    }
    BadSizeLineStart(false);
  }

  /** The LF of the bad size line: the parser stops at 'g' with the value 1. */
  lemma {:induction false} BadSizeLineEnd()
    ensures SizeByte(ChunkState([49, 103, 13], 0, false, Body), 10, false)
            == Continue(ChunkState([49, 103, 13], 3, false, ConnectionError))
    ensures SizeByte(ChunkState([49, 103, 13], 0, false, Body), 10, true)
            == Stop(ChunkState([49, 103, 13, 10], 0, false, ConnectionError))
  {
    var line: seq<Byte> := [49, 103, 13] + [10];
    assert line[..|line| - 2] == [49, 103] && EndsCrlf(line);
    assert HexScan([49, 103], 1, 1) == (1, false);
    assert Resize(line, 3) == [49, 103, 13];
  }

  /** The corrected reader stops at the bad size line, with nothing returned and the chunk's bytes left unread. */
  lemma {:induction false} BadSizeStops()
    ensures ReadChunked(Fresh(Body), BAD_SIZE_INPUT, false)
            == ChunkRead(ChunkState([49, 103, 13, 10], 0, false, ConnectionError), [], [120, 13, 10], Ok)
  {
    BadSizeLineStart(true);
    BadSizeLineEnd();
    var a: seq<Byte> := [10, 120, 13, 10];
    assert a[0] == 10 && a[1..] == [120, 13, 10];
  }

  /** A chunk as a sender writes it: its size in hex, CRLF, the data, CRLF. */
  function EncodeChunk(data: seq<Byte>): seq<Byte>
  {
    HexDigits(|data|) + [CR, LF] + data + [CR, LF]
  }

  /** The bytes of a size line before its LF only grow the buffer. */
  lemma {:induction false} SizeLineBytes(line: seq<Byte>, k: nat, tail: seq<Byte>, eof: bool, status: Status)
    requires k < |line| <= MAX_SIZE_LINE
    requires forall j :: 0 <= j < |line| - 1 ==> line[j] != LF
    ensures ReadChunked(ChunkState(line[..k], 0, false, status), line[k..] + tail, eof)
            == ReadChunked(ChunkState(line[..|line| - 1], 0, false, status), [line[|line| - 1]] + tail, eof)
    decreases |line| - k
  {
    if k < |line| - 1 {
      var avail := line[k..] + tail;
      assert avail[0] == line[k];
      assert line[..k] + [line[k]] == line[..k + 1];
      assert !EndsCrlf(line[..k + 1]);
      assert avail[1..] == line[k + 1..] + tail;
      SizeLineBytes(line, k + 1, tail, eof, status);
    }
  }

  /** A size written in hex is read back by the size parser. */
  lemma {:induction false} HexLineReadsBack(n: nat)
    requires n <= MAX_CHUNK
    ensures |HexDigits(n)| <= 7 && HexScan(HexDigits(n), 0, 0) == (n, true)
  {
    var hex := HexDigits(n);
    HexDigitsShort(n);
    HexDigitsValue(n);
    assert hex[..0] == [];
    HexScanReadsValue(hex, 0);
  }

  /** The LF that ends a valid size line makes room for the chunk and its CRLF. */
  lemma {:induction false} SizeLineEnd(data: seq<Byte>, tail: seq<Byte>, eof: bool, status: Status)
    requires 0 < |data| <= MAX_CHUNK
    ensures var line := HexDigits(|data|) + [CR, LF];
            |line| <= MAX_SIZE_LINE &&
            ReadChunked(ChunkState(line[..|line| - 1], 0, false, status), [LF] + tail, eof)
            == ReadChunked(ChunkState(Resize(line, |data| + 2), |data| + 2, false, status), tail, eof)
  {
    var n := |data|;
    var line := HexDigits(n) + [CR, LF];
    assert |line| <= MAX_SIZE_LINE by {
      HexLineReadsBack(n);
    }
    var st := ChunkState(line[..|line| - 1], 0, false, status);
    assert SizeByte(st, LF, true) == Continue(ChunkState(Resize(line, n + 2), n + 2, false, status)) by {
      HexLineReadsBack(n);
      assert st.chunk + [LF] == line;
      assert line[..|line| - 2] == HexDigits(n);
    }
    SizeByteContinues(st, LF, tail, eof, ChunkState(Resize(line, n + 2), n + 2, false, status));
  }

  /** A size-line byte that lets the call go on hands the rest of the input to the next state. */
  lemma {:induction false} SizeByteContinues(st: ChunkState, b: Byte, tail: seq<Byte>, eof: bool, next: ChunkState)
    requires StateValid(st) && StateValid(next) && !st.trailer && st.chunkLeft == 0
    requires SizeByte(st, b, true) == Continue(next)
    ensures ReadChunked(st, [b] + tail, eof) == ReadChunked(next, tail, eof)
  {
    assert ([b] + tail)[0] == b && ([b] + tail)[1..] == tail;
  }

  /** A chunk's data followed by CRLF, read in one go, comes back whole. */
  lemma {:induction false} DataThenCrlf(data: seq<Byte>, buf: seq<Byte>, rest: seq<Byte>, eof: bool, status: Status)
    requires |buf| == |data| + 2
    ensures DataRead(ChunkState(buf, |data| + 2, false, status), data + [CR, LF] + rest, eof)
            == ChunkRead(Fresh(status), data, rest, Ok)
  {
    var n := |data|;
    var tail := data + [CR, LF] + rest;
    assert tail[..n + 2] == data + [CR, LF];
    assert tail[n + 2..] == rest;
    var r := DataRead(ChunkState(buf, n + 2, false, status), tail, eof);
    assert buf[..0] + tail[..n + 2] + buf[n + 2..] == data + [CR, LF];
    assert r.ret + [CR, LF] == data + [CR, LF];
    assert r.ret == (r.ret + [CR, LF])[..n];
  }

  /** Reading a chunk as a sender wrote it returns its data and leaves the reader between chunks. */
  lemma {:induction false} ChunkRoundTrip(data: seq<Byte>, rest: seq<Byte>, eof: bool, status: Status)
    requires 0 < |data| <= MAX_CHUNK
    ensures ReadChunked(Fresh(status), EncodeChunk(data) + rest, eof) == ChunkRead(Fresh(status), data, rest, Ok)
  {
    var hex := HexDigits(|data|);
    var line := hex + [CR, LF];
    var tail := data + [CR, LF] + rest;
    assert EncodeChunk(data) + rest == line[0..] + tail;
    assert line[..0] == [];
    SizeLineEnd(data, tail, eof, status);
    forall j | 0 <= j < |line| - 1
      ensures line[j] != LF
    {
      if j < |hex| {
        assert line[j] == hex[j];
      }
    }
    SizeLineBytes(line, 0, tail, eof, status);
    assert [line[|line| - 1]] == [LF];
    DataThenCrlf(data, Resize(line, |data| + 2), rest, eof, status);
  }

  /** The last chunk, of size zero, starts the trailer; the empty line that ends the trailer completes the body. */
  lemma {:induction false} LastChunkThenTrailer(rest: seq<Byte>, eof: bool, status: Status)
    ensures ReadChunked(Fresh(status), [48, CR, LF] + rest, eof) == ChunkRead(ChunkState([], 0, true, status), [], rest, Ok)
    ensures ReadChunked(ChunkState([], 0, true, status), [CR, LF] + rest, eof) == ChunkRead(Fresh(Connected), [], rest, Ok)
  {
    LastChunkLine(rest, eof, status);
    TrailerEnd(rest, eof, status);
  }

  /** The size line "0" CRLF of the last chunk switches the reader to the trailer. */
  lemma {:induction false} LastChunkLine(rest: seq<Byte>, eof: bool, status: Status)
    ensures ReadChunked(Fresh(status), [48, CR, LF] + rest, eof) == ChunkRead(ChunkState([], 0, true, status), [], rest, Ok)
  {
    var a: seq<Byte> := [48, CR, LF] + rest;
    assert a[1..][1..][1..] == rest;
    assert a[0] == 48 && a[1..][0] == CR && a[1..][1..][0] == LF;
    assert SizeByte(Fresh(status), 48, true) == Continue(ChunkState([48], 0, false, status)) by {
      assert HexScan([48], 0, 0) == (0, true);
    }
    assert SizeByte(ChunkState([48], 0, false, status), CR, true) == Continue(ChunkState([48, CR], 0, false, status)) by {
      assert [48, CR][..1] == [48];
    }
    assert ReadChunkedWith(ChunkState([48, CR], 0, false, status), a[1..][1..], eof, true)
           == ChunkRead(ChunkState([], 0, true, status), [], rest, Ok) by {
      var line: seq<Byte> := [48, CR] + [LF];
      assert line[..|line| - 2] == [48] && EndsCrlf(line);
      assert HexScan([48], 1, 0) == (0, true);
      assert SizeByte(ChunkState([48, CR], 0, false, status), LF, true) == Stop(ChunkState([], 0, true, status));
    }
    assert ReadChunkedWith(ChunkState([48], 0, false, status), a[1..], eof, true)
           == ReadChunkedWith(ChunkState([48, CR], 0, false, status), a[1..][1..], eof, true);
  }

  /** The empty line CRLF ends the trailer and completes the body. */
  lemma {:induction false} TrailerEnd(rest: seq<Byte>, eof: bool, status: Status)
    ensures ReadChunked(ChunkState([], 0, true, status), [CR, LF] + rest, eof) == ChunkRead(Fresh(Connected), [], rest, Ok)
  {
    var b: seq<Byte> := [CR, LF] + rest;
    assert b[1..][1..] == rest;
    assert ReadChunkedWith(ChunkState([], 0, true, status), b, eof, true)
           == ReadChunkedWith(ChunkState([CR], 0, true, status), b[1..], eof, true);
  }

  /** A trailer field line is read and dropped, and the trailer goes on. */
  lemma {:induction false} TrailerFieldDropped(field: seq<Byte>, rest: seq<Byte>, eof: bool, status: Status)
    requires |field| > 0 && forall k :: 0 <= k < |field| ==> field[k] != LF
    ensures ReadChunked(ChunkState([], 0, true, status), field + [CR, LF] + rest, eof)
            == ReadChunked(ChunkState([], 0, true, status), rest, eof)
  {
    var line := field + [CR, LF];
    assert line[..0] == [] && line[0..] + rest == field + [CR, LF] + rest;
    TrailerBytes(line, 0, rest, eof, status);
  }

  lemma {:induction false} TrailerBytes(line: seq<Byte>, k: nat, rest: seq<Byte>, eof: bool, status: Status)
    requires 3 <= |line| && k < |line| && line[|line| - 2] == CR && line[|line| - 1] == LF
    requires forall j :: 0 <= j < |line| - 1 ==> line[j] != LF
    ensures ReadChunked(ChunkState(line[..k], 0, true, status), line[k..] + rest, eof)
            == ReadChunked(ChunkState([], 0, true, status), rest, eof)
    decreases |line| - k
  {
    var avail := line[k..] + rest;
    assert avail[0] == line[k];
    assert line[..k] + [line[k]] == line[..k + 1];
    assert avail[1..] == line[k + 1..] + rest;
    if k < |line| - 1 {
      assert TrailerByte(ChunkState(line[..k], 0, true, status), line[k]) == Continue(ChunkState(line[..k + 1], 0, true, status));
      TrailerBytes(line, k + 1, rest, eof, status);
    } else {
      assert line[..k + 1] == line;
      assert TrailerByte(ChunkState(line[..k], 0, true, status), line[k]) == Continue(ChunkState([], 0, true, status));
      assert line[k + 1..] + rest == rest;
    }
  }

  /** Chunk data not followed by CRLF is a connection error, and nothing is returned. */
  lemma {:induction false} BadTerminatorRejected(data: seq<Byte>, rest: seq<Byte>, eof: bool, status: Status)
    requires |data| >= 2 && (data[|data| - 2] != CR || data[|data| - 1] != LF)
    ensures var st := ChunkState(seq(|data|, _ => 0 as Byte), |data|, false, status);
            ReadChunked(st, data + rest, eof) == ChunkRead(st.(chunk := data, chunkLeft := 0, status := ConnectionError), [], rest, Ok)
  {
    var st := ChunkState(seq(|data|, _ => 0 as Byte), |data|, false, status);
    assert (data + rest)[..|data|] == data && (data + rest)[|data|..] == rest;
    assert st.chunk[..0] + data + st.chunk[|data|..] == data;
  }

  // ------------------------------------------------------ body of a length

  /** What reading a piece of the body returned and left: the data, the client, the bytes not consumed. */
  datatype BodyRead = BodyRead(ret: seq<Byte>, client: Client, rest: seq<Byte>)

  /** How much a read of a body that is not chunked asks for: the read size, capped by what is left of a known length. */
  function ToRead(c: Client): int
  {
    if c.readUntilEof then c.readChunkSize else Min(c.bodyLeft, c.readChunkSize)
  }

  /**
   * Reading a body that is not chunked: reads go on until the amount asked
   * for has arrived, a read gets nothing, or a read ends at the end of the
   * connection. What arrives is a prefix of the available bytes, never more
   * than asked for, and is taken off what is left of a known length.
   */
  method ReadPlain(c: Client, avail: seq<Byte>, eof: bool) returns (ret: seq<Byte>, bodyLeft: int, rest: seq<Byte>, err: Error)
    ensures ret + rest == avail
    ensures |ret| == (if ToRead(c) <= 0 then 0 else Min(|avail|, ToRead(c)))
    ensures err == (if ToRead(c) <= 0 then Ok else ReadErr(|ret|, ToRead(c), eof))
    ensures bodyLeft == (if c.readUntilEof then c.bodyLeft else c.bodyLeft - |ret|)
  {
    var toRead := ToRead(c);
    ret := [];
    bodyLeft := c.bodyLeft;
    rest := avail;
    err := Ok;
    while toRead > 0
      invariant ret + rest == avail
      invariant toRead == ToRead(c) - |ret| && (|ret| > 0 ==> toRead >= 0)
      invariant bodyLeft == (if c.readUntilEof then c.bodyLeft else c.bodyLeft - |ret|)
      invariant err == Ok
      decreases toRead
    {
      var rec := Min(|rest|, toRead);
      err := ReadErr(rec, toRead, eof);
      if rec <= 0 {
        break;
      }
      ret, rest := ret + rest[..rec], rest[rec..];
      assert ret + rest == avail;
      toRead := toRead - rec;
      if !c.readUntilEof {
        bodyLeft := bodyLeft - rec;
      }
      if err != Ok {
        break;
      }
    }
  }

  // ---------------------------------------------------------------- one call

  /** The chunked reader's part of the client. */
  function ChunkPart(c: Client): ChunkState
  {
    ChunkState(c.chunk, c.chunkLeft, c.trailer, c.status)
  }

  /** The client after a body read: closed on a read error, connected again when a known length has been read. */
  function Settle(c: Client, err: Error): (r: Client)
    ensures err == ErrFileEof ==> r == Close(c)
    ensures err != Ok && err != ErrFileEof ==> r == Close(c).(status := ConnectionError)
    ensures err == Ok && c.bodyLeft == 0 && !c.chunked && !c.readUntilEof ==> r == c.(status := Connected)
    ensures err == Ok && !(c.bodyLeft == 0 && !c.chunked && !c.readUntilEof) ==> r == c
  {
    if err != Ok then Close(c).(status := if err == ErrFileEof then Disconnected else ConnectionError)
    else if c.bodyLeft == 0 && !c.chunked && !c.readUntilEof then c.(status := Connected)
    else c
  }

  /**
   * One call for the next piece of the body. Outside the body state it
   * returns nothing and changes nothing. A chunked body is read by the
   * chunked reader, any other by the plain one; then the end of the
   * connection disconnects the client, and a body of known length read to
   * its end returns it to the connected state.
   */
  method ReadResponseBodyChunk(c: Client, avail: seq<Byte>, eof: bool) returns (r: BodyRead)
    requires StateValid(ChunkPart(c))
    ensures c.status != Body ==> r == BodyRead([], c, avail)
    ensures |r.rest| <= |avail| && r.rest == avail[|avail| - |r.rest|..]
    ensures c.status == Body && c.chunked ==> r.ret == ReadChunkedAsWritten(ChunkPart(c), avail, eof).ret
    ensures c.status == Body && !c.chunked ==> r.ret + r.rest == avail && (r.ret == [] || |r.ret| <= ToRead(c))
    ensures c.status == Body && !c.chunked && !c.readUntilEof && r.client.status == Body ==>
              r.client.bodyLeft == c.bodyLeft - |r.ret|
    ensures c.status == Body && !c.chunked && !c.readUntilEof && c.bodyLeft == |r.ret| && r.client.status != Disconnected ==>
              r.client.status == Connected
    ensures c.status == Body && !c.chunked && !c.readUntilEof && 0 < c.bodyLeft <= c.readChunkSize && c.bodyLeft <= |avail| ==>
              r.ret == avail[..c.bodyLeft] && r.client.status == Connected
    ensures c.status == Body && r.client.status == Disconnected ==> eof
    ensures c.status == Body && r.client.status == Disconnected ==> r.client == Close(r.client)
  {
    if c.status != Body {
      return BodyRead([], c, avail);
    }
    if c.chunked {
      r := ChunkedBodyRead(c, avail, eof);
    } else {
      r := PlainBodyRead(c, avail, eof);
    }
  }

  /**
   * The chunked branch of ReadResponseBodyChunk, with the chunked reader as
   * written: a size line the parser rejects still lets the chunk's data come
   * back in the same call.
   */
  method ChunkedBodyRead(c: Client, avail: seq<Byte>, eof: bool) returns (r: BodyRead)
    requires c.status == Body && c.chunked && StateValid(ChunkPart(c))
    ensures |r.rest| <= |avail| && r.rest == avail[|avail| - |r.rest|..]
    ensures r.ret == ReadChunkedAsWritten(ChunkPart(c), avail, eof).ret
    ensures r.client.status == Disconnected ==> eof && r.client == Close(r.client)
  {
    var cr := ReadChunkedAsWritten(ChunkPart(c), avail, eof);
    var next := c.(chunk := cr.st.chunk, chunkLeft := cr.st.chunkLeft, trailer := cr.st.trailer, status := cr.st.status);
    r := BodyRead(cr.ret, Settle(next, cr.err), cr.rest);
    CloseIdempotent(next);
  }

  /** The branch of ReadResponseBodyChunk for a body of known length or one read to the end. */
  method PlainBodyRead(c: Client, avail: seq<Byte>, eof: bool) returns (r: BodyRead)
    requires c.status == Body && !c.chunked
    ensures |r.rest| <= |avail| && r.rest == avail[|avail| - |r.rest|..]
    ensures r.ret + r.rest == avail && (r.ret == [] || |r.ret| <= ToRead(c))
    ensures !c.readUntilEof && r.client.status == Body ==> r.client.bodyLeft == c.bodyLeft - |r.ret|
    ensures !c.readUntilEof && c.bodyLeft == |r.ret| && r.client.status != Disconnected ==> r.client.status == Connected
    ensures !c.readUntilEof && 0 < c.bodyLeft <= c.readChunkSize && c.bodyLeft <= |avail| ==>
              r.ret == avail[..c.bodyLeft] && r.client.status == Connected
    ensures r.client.status == Disconnected ==> eof && r.client == Close(r.client)
  {
    var ret, left, rest, err := ReadPlain(c, avail, eof);
    assert avail[|avail| - |rest|..] == rest;
    var next := c.(bodyLeft := left);
    r := BodyRead(ret, Settle(next, err), rest);
    CloseIdempotent(next);
  }
}
