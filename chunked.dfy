/**
 * Response framing of utils.c: the choice between chunked and identity
 * framing, the bytes one chunked write produces, the end-of-body marker,
 * and a de-chunker for the chunked transfer coding (section 4.1 of RFC 7230)
 * that shows the framing can be undone.
 */
module Chunked {
  import opened Wrappers

  /** Request methods the server accepts (UH_HTTP_MSG_*). */
  datatype Method = GET | POST | HEAD

  /** The three supported protocol versions, in the order of `http_versions`. */
  datatype Version = Http09 | Http10 | Http11

  /** The parsed request line of a connection (`struct http_request`). */
  datatype Request = Request(httpMethod: Method, url: string, version: Version)

  /** uh_use_chunked: chunked framing is used only for HTTP/1.1 and never for HEAD. */
  predicate UseChunked(req: Request)
  {
    req.version == Http11 && req.httpMethod != HEAD
  }

  // ---------------------------------------------------------------------
  // Hexadecimal numerals, as `%X` prints them.

  function HexDigit(d: nat): (c: char)
    requires d < 16
  {
    if d < 10 then ('0' as int + d) as char else ('A' as int + d - 10) as char
  }

  predicate IsHexDigit(c: char)
  {
    ('0' <= c <= '9') || ('A' <= c <= 'F') || ('a' <= c <= 'f')
  }

  function HexValue(c: char): (d: nat)
    requires IsHexDigit(c)
    ensures d < 16
  {
    if c <= '9' then c as int - '0' as int
    else if c <= 'F' then c as int - 'A' as int + 10
    else c as int - 'a' as int + 10
  }

  /** `%X`: upper-case hexadecimal without leading zeros ("0" for zero). */
  function HexUpper(n: nat): (s: string)
    ensures |s| >= 1
    ensures forall i :: 0 <= i < |s| ==> IsHexDigit(s[i])
    decreases n
  {
    if n < 16 then [HexDigit(n)] else HexUpper(n / 16) + [HexDigit(n % 16)]
  }

  /** Value of a hexadecimal numeral, most significant digit first. */
  function ParseHex(s: string): nat
    requires forall i :: 0 <= i < |s| ==> IsHexDigit(s[i])
    decreases |s|
  {
    if |s| == 0 then 0 else 16 * ParseHex(s[..|s| - 1]) + HexValue(s[|s| - 1])
  }

  lemma {:induction false} ParseHexUpper(n: nat)
    ensures ParseHex(HexUpper(n)) == n
    decreases n
  {
    var s := HexUpper(n);
    if n < 16 {
    } else {
      ParseHexUpper(n / 16);
      assert s[..|s| - 1] == HexUpper(n / 16);
    }
  }

  /** Number of leading hexadecimal digits of `s`. */
  function HexRun(s: string): (k: nat)
    ensures k <= |s|
    ensures forall i :: 0 <= i < k ==> IsHexDigit(s[i])
    ensures k < |s| ==> !IsHexDigit(s[k])
  {
    if |s| > 0 && IsHexDigit(s[0]) then 1 + HexRun(s[1..]) else 0
  }

  lemma {:induction false} HexRunOfDigitsThenOther(a: string, b: string)
    requires forall i :: 0 <= i < |a| ==> IsHexDigit(a[i])
    requires |b| > 0 && !IsHexDigit(b[0])
    ensures HexRun(a + b) == |a|
    decreases |a|
  {
    if |a| > 0 {
      assert (a + b)[1..] == a[1..] + b;
      HexRunOfDigitsThenOther(a[1..], b);
    }
  }

  // ---------------------------------------------------------------------
  // What one write puts on the stream.

  /**
   * The bytes uh_chunk_write emits for one payload: in chunked mode the
   * length in hexadecimal, CRLF, the payload and CRLF; otherwise the payload
   * as it is.
   */
  function ChunkFrame(chunked: bool, data: string): string
  {
    if chunked then HexUpper(|data|) + "\r\n" + data + "\r\n" else data
  }

  /** The bytes uh_chunk_eof emits: the last chunk in chunked mode, nothing otherwise. */
  function EofMarker(chunked: bool): (w: string)
  {
    if chunked then "0\r\n\r\n" else ""
  }

  /** A zero-length chunked write emits exactly the end-of-body marker. */
  lemma EmptyWriteIsEof()
    ensures ChunkFrame(true, "") == EofMarker(true)
  {
    assert HexUpper(0) == "0";
  }

  /** The whole body produced by chunked writes of `ps` followed by uh_chunk_eof. */
  function ChunkedBody(ps: seq<string>): string
  {
    if |ps| == 0 then EofMarker(true) else ChunkFrame(true, ps[0]) + ChunkedBody(ps[1..])
  }

  // ---------------------------------------------------------------------
  // A de-chunker: the reader side of the chunked transfer coding.

  /**
   * The size line of one chunk: a hexadecimal size followed by CRLF.
   * Returns the size and what follows the CRLF.
   */
  function SizeLine(s: string): (r: Option<(nat, string)>)
    ensures r.Some? ==> |r.value.1| < |s|
  {
    var k := HexRun(s);
    if k == 0 || |s| < k + 2 || s[k..k + 2] != "\r\n" then None
    else Some((ParseHex(s[..k]), s[k + 2..]))
  }

  /**
   * Parses `chunk-size CRLF chunk-data CRLF ... 0 CRLF CRLF` and returns
   * the chunk payloads, or None if `s` is not such a body (chunk extensions
   * and trailers are not accepted).
   */
  function Dechunk(s: string): Option<seq<string>>
    decreases |s|
  {
    match SizeLine(s)
    case None => None
    case Some((n, rest)) =>
      if n == 0 then
        (if rest == "\r\n" then Some([]) else None)
      else if |rest| < n + 2 || rest[n..n + 2] != "\r\n" then None
      else
        match Dechunk(rest[n + 2..])
        case None => None
        case Some(tail) => Some([rest[..n]] + tail)
  }

  lemma SplitAfterPrefix(h: string, u: string)
    requires |u| >= 2 && u[..2] == "\r\n"
    ensures (h + u)[..|h|] == h && (h + u)[|h|..|h| + 2] == "\r\n" && (h + u)[|h| + 2..] == u[2..]
  {
  }

  lemma SizeLineOf(s: string, k: nat, n: nat, r: string)
    requires HexRun(s) == k > 0 && k + 2 <= |s| && s[k..k + 2] == "\r\n"
    requires ParseHex(s[..k]) == n && s[k + 2..] == r
    ensures SizeLine(s) == Some((n, r))
  {
  }

  lemma SizeLineOfFrame(p: string, t: string)
    ensures SizeLine(ChunkFrame(true, p) + t) == Some((|p|, p + "\r\n" + t))
  {
    var h := HexUpper(|p|);
    var u := "\r\n" + (p + "\r\n" + t);
    assert ChunkFrame(true, p) + t == h + u;
    HexRunOfDigitsThenOther(h, u);
    SplitAfterPrefix(h, u);
    ParseHexUpper(|p|);
    SizeLineOf(h + u, |h|, |p|, p + "\r\n" + t);
  }

  /** One chunk of an encoded body is consumed by one step of the reader. */
  lemma DechunkStep(p: string, t: string, tail: seq<string>)
    requires |p| > 0
    requires Dechunk(t) == Some(tail)
    ensures Dechunk(ChunkFrame(true, p) + t) == Some([p] + tail)
  {
    SizeLineOfFrame(p, t);
    var rest := p + "\r\n" + t;
    assert rest[..|p|] == p;
    assert rest[|p|..|p| + 2] == "\r\n";
    assert rest[|p| + 2..] == t;
  }

  /**
   * Reading back a body of non-empty chunked writes followed by the end
   * marker yields exactly the payloads, in order.
   */
  lemma {:induction false} DechunkChunkedBody(ps: seq<string>)
    requires forall i :: 0 <= i < |ps| ==> |ps[i]| > 0
    ensures Dechunk(ChunkedBody(ps)) == Some(ps)
    decreases |ps|
  {
    if |ps| == 0 {
      DechunkEof();
    } else {
      DechunkChunkedBody(ps[1..]);
      assert ChunkedBody(ps) == ChunkFrame(true, ps[0]) + ChunkedBody(ps[1..]);
      DechunkStep(ps[0], ChunkedBody(ps[1..]), ps[1..]);
      assert [ps[0]] + ps[1..] == ps;
    }
  }

  /** The end marker alone reads back as no chunks. */
  lemma DechunkEof()
    ensures Dechunk(EofMarker(true)) == Some([])
  {
    SizeLineOfFrame("", "");
    EmptyWriteIsEof();
    assert ChunkFrame(true, "") + "" == EofMarker(true);
    assert ("" + "\r\n" + "") == "\r\n";
  }
}
