/**
 * One HTTP connection: the request-line and header parsers, the per-state
 * read loop, response heads, chunked output, request completion and the idle
 * timeout (client.c, with the chunked writers of utils.c that act on it).
 */
module Connection {
  import opened Wrappers
  import opened Chunked
  import opened Dispatch
  import Format

  // ---------------------------------------------------------------------
  // Request line

  /** The version table; a version is identified by its index. */
  const HttpVersions: seq<string> := ["HTTP/0.9", "HTTP/1.0", "HTTP/1.1"]

  function VersionAt(i: nat): Version
    requires i < |HttpVersions|
  {
    if i == 0 then Http09 else if i == 1 then Http10 else Http11
  }

  function VersionLabel(v: Version): string
  {
    match v
    case Http09 => HttpVersions[0]
    case Http10 => HttpVersions[1]
    case Http11 => HttpVersions[2]
  }

  lemma VersionTable(i: nat)
    requires i < |HttpVersions|
    ensures VersionLabel(VersionAt(i)) == HttpVersions[i]
    ensures forall j :: 0 <= j < |HttpVersions| && HttpVersions[j] == HttpVersions[i] ==> j == i
  {
  }

  function MethodNamed(t: string): (m: Option<Method>)
    ensures m == Some(GET) <==> t == "GET"
    ensures m == Some(POST) <==> t == "POST"
    ensures m == Some(HEAD) <==> t == "HEAD"
  {
    if t == "GET" then Some(GET) else if t == "POST" then Some(POST) else if t == "HEAD" then Some(HEAD) else None
  }

  function MethodName(m: Method): string
  {
    match m
    case GET => "GET"
    case POST => "POST"
    case HEAD => "HEAD"
  }

  predicate NoSpace(t: string) { forall i :: 0 <= i < |t| ==> t[i] != ' ' }

  /** `n` copies of the character `c`. */
  function Repeat(c: char, n: nat): (s: string)
    ensures |s| == n && forall i :: 0 <= i < n ==> s[i] == c
  {
    if n == 0 then "" else [c] + Repeat(c, n - 1)
  }

  /** Number of leading spaces. */
  function SpaceRun(s: string): (k: nat)
    ensures k <= |s| && (forall i :: 0 <= i < k ==> s[i] == ' ') && (k < |s| ==> s[k] != ' ')
  {
    if |s| == 0 || s[0] != ' ' then 0 else 1 + SpaceRun(s[1..])
  }

  /** Number of leading non-space characters. */
  function WordRun(s: string): (k: nat)
    ensures k <= |s| && NoSpace(s[..k]) && (k < |s| ==> s[k] == ' ')
  {
    if |s| == 0 || s[0] == ' ' then 0
    else
      var k := 1 + WordRun(s[1..]);
      assert forall i :: 1 <= i < k ==> s[..k][i] == s[1..][..k - 1][i - 1];
      k
  }

  /** The tokens `strtok(line, " ")` returns one after another: maximal runs of non-spaces. */
  function Tokens(s: string): (ts: seq<string>)
    ensures forall k :: 0 <= k < |ts| ==> |ts[k]| > 0 && NoSpace(ts[k])
    decreases |s|
  {
    var t := s[SpaceRun(s)..];
    if |t| == 0 then []
    else
      var w := WordRun(t);
      [t[..w]] + Tokens(t[w..])
  }

  lemma {:induction false} SpaceRunOf(pre: nat, s: string)
    requires |s| == 0 || s[0] != ' '
    ensures SpaceRun(Repeat(' ', pre) + s) == pre
    decreases pre
  {
    if pre > 0 {
      assert (Repeat(' ', pre) + s)[1..] == Repeat(' ', pre - 1) + s;
      SpaceRunOf(pre - 1, s);
    } else {
      assert Repeat(' ', pre) + s == s;
    }
  }

  lemma {:induction false} WordRunOf(w: string, rest: string)
    requires NoSpace(w)
    requires |rest| == 0 || rest[0] == ' '
    ensures WordRun(w + rest) == |w|
    decreases |w|
  {
    if |w| > 0 {
      assert (w + rest)[1..] == w[1..] + rest;
      WordRunOf(w[1..], rest);
    } else {
      assert w + rest == rest;
    }
  }

  /** Leading spaces never change the tokens. */
  lemma TokensSkip(pre: nat, s: string)
    requires |s| == 0 || s[0] != ' '
    ensures Tokens(Repeat(' ', pre) + s) == Tokens(s)
  {
    SpaceRunOf(pre, s);
    SpaceRunOf(0, s);
    assert Repeat(' ', 0) + s == s;
    assert (Repeat(' ', pre) + s)[pre..] == s;
  }

  lemma TokensOfSpaces(n: nat)
    ensures Tokens(Repeat(' ', n)) == []
  {
    TokensSkip(n, "");
    assert Repeat(' ', n) + "" == Repeat(' ', n);
  }

  /** A token ends at the next space or at the end of the line. */
  lemma TokensCons(pre: nat, w: string, rest: string)
    requires |w| > 0 && NoSpace(w)
    requires |rest| == 0 || rest[0] == ' '
    ensures Tokens(Repeat(' ', pre) + w + rest) == [w] + Tokens(rest)
  {
    assert Repeat(' ', pre) + w + rest == Repeat(' ', pre) + (w + rest);
    TokensSkip(pre, w + rest);
    TokensWord(w, rest);
  }

  /** A line of single-space-separated words tokenises back into those words. */
  lemma {:induction false} TokensOfJoined(ws: seq<string>, trailing: nat)
    requires forall k :: 0 <= k < |ws| ==> |ws[k]| > 0 && NoSpace(ws[k])
    ensures Tokens(Joined(ws) + Repeat(' ', trailing)) == ws
    decreases |ws|
  {
    if |ws| == 0 {
      TokensOfNoWords(ws, trailing);
    } else if |ws| == 1 {
      TokensOfOneWord(ws, trailing);
    } else {
      TokensJoinedStep(ws, trailing);
      TokensOfJoined(ws[1..], trailing);
    }
  }

  lemma TokensOfNoWords(ws: seq<string>, trailing: nat)
    requires |ws| == 0
    ensures Tokens(Joined(ws) + Repeat(' ', trailing)) == ws
  {
    assert Joined(ws) + Repeat(' ', trailing) == Repeat(' ', trailing);
    TokensOfSpaces(trailing);
  }

  lemma TokensOfOneWord(ws: seq<string>, trailing: nat)
    requires |ws| == 1 && |ws[0]| > 0 && NoSpace(ws[0])
    ensures Tokens(Joined(ws) + Repeat(' ', trailing)) == ws
  {
    assert Joined(ws) + Repeat(' ', trailing) == Repeat(' ', 0) + ws[0] + Repeat(' ', trailing);
    TokensCons(0, ws[0], Repeat(' ', trailing));
    TokensOfSpaces(trailing);
  }

  lemma TokensJoinedStep(ws: seq<string>, trailing: nat)
    requires |ws| >= 2
    requires forall k :: 0 <= k < |ws| ==> |ws[k]| > 0 && NoSpace(ws[k])
    ensures Tokens(Joined(ws) + Repeat(' ', trailing)) == [ws[0]] + Tokens(Joined(ws[1..]) + Repeat(' ', trailing))
  {
    var u := Joined(ws[1..]) + Repeat(' ', trailing);
    JoinedSplit(ws, trailing);
    TokensWord(ws[0], Repeat(' ', 1) + u);
    JoinedHead(ws[1..]);
    TokensSkip(1, u);
  }

  lemma JoinedSplit(ws: seq<string>, trailing: nat)
    requires |ws| >= 2
    ensures Joined(ws) + Repeat(' ', trailing) == ws[0] + (Repeat(' ', 1) + (Joined(ws[1..]) + Repeat(' ', trailing)))
  {
    assert Joined(ws) == ws[0] + " " + Joined(ws[1..]);
    assert Repeat(' ', 1) == " ";
  }

  lemma TokensWord(w: string, rest: string)
    requires |w| > 0 && NoSpace(w)
    requires |rest| == 0 || rest[0] == ' '
    ensures Tokens(w + rest) == [w] + Tokens(rest)
  {
    var t := w + rest;
    assert t[0] == w[0];
    assert SpaceRun(t) == 0;
    assert t[0..] == t;
    WordRunOf(w, rest);
    assert t[..|w|] == w && t[|w|..] == rest;
  }

  lemma JoinedHead(ws: seq<string>)
    requires |ws| > 0
    ensures |Joined(ws)| >= |ws[0]| && Joined(ws)[..|ws[0]|] == ws[0]
  {
  }

  /** Words separated by single spaces. */
  function Joined(ws: seq<string>): string
  {
    if |ws| == 0 then "" else if |ws| == 1 then ws[0] else ws[0] + " " + Joined(ws[1..])
  }

  /** Outcome of `client_parse_request` on one request line. */
  datatype LineVerdict =
    | TooFewTokens
    | UnknownMethod(url: string)
    | UnknownVersion(url: string, m: Method)
    | Accepted(m: Method, url: string, v: Version)

  /** Index of the version label in the table, or -1, as the descending search finds it. */
  function VersionIndex(t: string): (i: int)
    ensures -1 <= i < |HttpVersions|
    ensures i == -1 <==> t !in HttpVersions
    ensures i >= 0 ==> HttpVersions[i] == t
  {
    if t == HttpVersions[2] then 2 else if t == HttpVersions[1] then 1 else if t == HttpVersions[0] then 0 else -1
  }

  function ClassifyRequestLine(line: string): LineVerdict
  {
    var ts := Tokens(line);
    if |ts| < 3 then TooFewTokens
    else match MethodNamed(ts[0])
      case None => UnknownMethod(ts[1])
      case Some(m) =>
        var i := VersionIndex(ts[2]);
        if i < 0 then UnknownVersion(ts[1], m) else Accepted(m, ts[1], VersionAt(i))
  }

  /** A line is accepted iff it has three tokens, a known method and an exact version label. */
  lemma ClassifyAccepts(line: string)
    ensures ClassifyRequestLine(line).Accepted? <==>
      var ts := Tokens(line);
      |ts| >= 3 && MethodNamed(ts[0]).Some? && ts[2] in HttpVersions
    ensures ClassifyRequestLine(line).Accepted? ==>
      var ts := Tokens(line);
      var a := ClassifyRequestLine(line);
      MethodName(a.m) == ts[0] && a.url == ts[1] && VersionLabel(a.v) == ts[2]
  {
  }

  /** `METHOD SP path SP version`, with any trailing tokens, is accepted as exactly that request. */
  lemma AcceptsWellFormedLine(m: Method, path: string, v: Version, extra: seq<string>)
    requires |path| > 0 && NoSpace(path)
    requires forall k :: 0 <= k < |extra| ==> |extra[k]| > 0 && NoSpace(extra[k])
    ensures ClassifyRequestLine(Joined([MethodName(m), path, VersionLabel(v)] + extra)) == Accepted(m, path, v)
  {
    var ws := [MethodName(m), path, VersionLabel(v)] + extra;
    MethodNameOf(m);
    VersionLabelOf(v);
    TokensOfJoined(ws, 0);
    assert Joined(ws) + Repeat(' ', 0) == Joined(ws);
    var ts := Tokens(Joined(ws));
    assert ts[0] == MethodName(m) && ts[1] == path && ts[2] == VersionLabel(v);
  }

  /** A method's name is recognised as that method. */
  lemma MethodNameOf(m: Method)
    ensures |MethodName(m)| > 0 && NoSpace(MethodName(m))
    ensures MethodNamed(MethodName(m)) == Some(m)
  {
  }

  /** A version's label is found in the table at that version's index. */
  lemma VersionLabelOf(v: Version)
    ensures |VersionLabel(v)| > 0 && NoSpace(VersionLabel(v))
    ensures 0 <= VersionIndex(VersionLabel(v)) && VersionAt(VersionIndex(VersionLabel(v))) == v
  {
    match v
    case Http09 => assert VersionLabel(v) != HttpVersions[2] && VersionLabel(v) != HttpVersions[1];
    case Http10 => assert VersionLabel(v) != HttpVersions[2];
    case Http11 =>
  }

  /**
   * The version slot `client_parse_request` leaves behind as written: it
   * is set to -1 before the search and stays -1 for a token that is no
   * label, and the 400 answer then prints `http_versions[-1]`.
   */
  function StoredVersionAsWritten(line: string): (i: int)
    requires !ClassifyRequestLine(line).TooFewTokens? && !ClassifyRequestLine(line).UnknownMethod?
    ensures i == -1 <==> ClassifyRequestLine(line).UnknownVersion?
  {
    VersionIndex(Tokens(line)[2])
  }

  /**
   * A line such as `GET / HTTP/2.0`, whose third token is no label,
   * reaches the error answer with the version slot outside the table.
   */
  lemma UnknownVersionIndexesOutsideTable(m: Method, path: string, t: string)
    requires |path| > 0 && NoSpace(path) && |t| > 0 && NoSpace(t)
    requires t !in HttpVersions
    ensures ClassifyRequestLine(Joined([MethodName(m), path, t])) == UnknownVersion(path, m)
    ensures StoredVersionAsWritten(Joined([MethodName(m), path, t])) == -1
  {
    var ws := [MethodName(m), path, t];
    MethodNameOf(m);
    TokensOfJoined(ws, 0);
    assert Joined(ws) + Repeat(' ', 0) == Joined(ws);
  }

  /**
   * The version slot as the field's type reads it: as a signed int, or as
   * the unsigned 32-bit type GCC gives an enum without negative constants,
   * which stores the -1 as 4294967295.
   */
  function StoredVersionSlot(line: string, signed: bool): (i: int)
    requires !ClassifyRequestLine(line).TooFewTokens? && !ClassifyRequestLine(line).UnknownMethod?
    ensures signed ==> (i < 0 <==> ClassifyRequestLine(line).UnknownVersion?)
    ensures !signed ==> 0 <= i < 4294967296 && (i >= |HttpVersions| <==> ClassifyRequestLine(line).UnknownVersion?)
  {
    if signed then StoredVersionAsWritten(line) else StoredVersionAsWritten(line) % 4294967296
  }

  /**
   * The state `client_parse_request` returns as written, under either
   * reading of the version field: the `< 0` test of the last step can only
   * reject under the signed one.
   */
  function ParseOutcomeAsWritten(line: string, signed: bool): (next: State)
    ensures next == Header || next == Done
    ensures next == Header <==>
      if signed then ClassifyRequestLine(line).Accepted?
      else !ClassifyRequestLine(line).TooFewTokens? && !ClassifyRequestLine(line).UnknownMethod?
  {
    var c := ClassifyRequestLine(line);
    if c.TooFewTokens? || c.UnknownMethod? then Done
    else if StoredVersionSlot(line, signed) < 0 then Done
    else Header
  }

  /**
   * With an unsigned version field, `GET / HTTP/2.0` is not rejected: it
   * goes on to HEADER with the slot at 4294967295, outside the table.
   */
  lemma UnknownVersionUnsignedGoesOn(m: Method, path: string, t: string)
    requires |path| > 0 && NoSpace(path) && |t| > 0 && NoSpace(t)
    requires t !in HttpVersions
    ensures ParseOutcomeAsWritten(Joined([MethodName(m), path, t]), false) == Header
    ensures StoredVersionSlot(Joined([MethodName(m), path, t]), false) == 4294967295
  {
    UnknownVersionIndexesOutsideTable(m, path, t);
  }

  // ---------------------------------------------------------------------
  // Lines in the read buffer

  predicate CrlfAt(s: string, j: int)
  {
    0 <= j && j + 1 < |s| && s[j] == '\r' && s[j + 1] == '\n'
  }

  /** No NUL character: the whole text is one C string. */
  predicate NulFree(s: string)
  {
    forall i :: 0 <= i < |s| ==> s[i] != 0 as char
  }

  /**
   * Index of the first CRLF, as `strstr(buf, "\r\n")` finds it: the read
   * buffer holds string data, so the search ends at the first NUL.
   */
  function FindCrlf(s: string): (r: Option<nat>)
    ensures r.Some? ==> r.value + 2 <= |s|
    decreases |s|
  {
    if |s| < 2 || s[0] == 0 as char then None
    else if s[0] == '\r' && s[1] == '\n' then Some(0)
    else
      var r := FindCrlf(s[1..]);
      if r.Some? then Some(r.value + 1) else None
  }

  /**
   * The index found is a CRLF with no NUL and no other CRLF before it;
   * none is found only when every CRLF has a NUL before it.
   */
  lemma {:induction false} FindCrlfFirst(s: string)
    ensures FindCrlf(s).Some? ==>
      CrlfAt(s, FindCrlf(s).value) && NulFree(s[..FindCrlf(s).value])
      && forall j :: 0 <= j < FindCrlf(s).value ==> !CrlfAt(s, j)
    ensures FindCrlf(s).None? ==> forall j :: 0 <= j < |s| && CrlfAt(s, j) ==> !NulFree(s[..j])
    decreases |s|
  {
    if |s| >= 2 && s[0] == 0 as char {
      forall j | 0 <= j < |s| && CrlfAt(s, j)
        ensures !NulFree(s[..j])
      {
        assert s[..j][0] == s[0];
      }
    } else if |s| >= 2 && !(s[0] == '\r' && s[1] == '\n') {
      FindCrlfFirst(s[1..]);
      assert forall j :: 1 <= j < |s| ==> (CrlfAt(s, j) <==> CrlfAt(s[1..], j - 1));
      assert forall j :: 1 <= j <= |s| ==> s[..j] == [s[0]] + s[1..][..j - 1];
    }
  }

  /** The buffered text before the first CRLF. */
  function FirstLine(s: string): string
    requires FindCrlf(s).Some?
  {
    s[..FindCrlf(s).value]
  }

  // ---------------------------------------------------------------------
  // Header lines

  /** `isspace` in the C locale. */
  predicate IsSpace(c: char)
  {
    c == ' ' || c == '\t' || c == '\n' || c == 11 as char || c == 12 as char || c == '\r'
  }

  predicate IsUpper(c: char) { 'A' <= c <= 'Z' }

  function ToLower(c: char): char
  {
    if IsUpper(c) then (c as int + 32) as char else c
  }

  /** The name with every ASCII upper-case letter lower-cased. */
  function Lowered(s: string): (r: string)
    ensures |r| == |s|
    ensures forall i :: 0 <= i < |s| ==> r[i] == ToLower(s[i])
  {
    seq(|s|, i requires 0 <= i < |s| => ToLower(s[i]))
  }

  /** The value after its leading white space. */
  function SkipSpace(s: string): (r: string)
    ensures |r| <= |s| && r == s[|s| - |r|..]
    ensures forall i :: 0 <= i < |s| - |r| ==> IsSpace(s[i])
    ensures |r| > 0 ==> !IsSpace(r[0])
    decreases |s|
  {
    if |s| > 0 && IsSpace(s[0]) then SkipSpace(s[1..]) else s
  }

  function IndexOf(s: string, c: char): (r: Option<nat>)
    ensures r.Some? ==> r.value < |s| && s[r.value] == c && forall j :: 0 <= j < r.value ==> s[j] != c
    ensures r.None? ==> forall j :: 0 <= j < |s| ==> s[j] != c
  {
    if |s| == 0 then None
    else if s[0] == c then Some(0)
    else
      var r := IndexOf(s[1..], c);
      if r.Some? then Some(r.value + 1) else None
  }

  /** Outcome of `client_parse_header` on one line. */
  datatype HeaderVerdict = EndOfHeaders | Malformed | Field(name: string, value: string)

  function ClassifyHeaderLine(line: string): HeaderVerdict
  {
    if line == "" then EndOfHeaders
    else match IndexOf(line, ':')
      case None => Malformed
      case Some(k) => Field(Lowered(line[..k]), SkipSpace(line[k + 1..]))
  }

  /** A `name: value` line yields the lower-cased name and the value without its leading white space. */
  lemma FieldLine(name: string, pad: string, value: string)
    requires ':' !in name && |name| > 0
    requires forall i :: 0 <= i < |pad| ==> IsSpace(pad[i])
    requires |value| == 0 || !IsSpace(value[0])
    ensures ClassifyHeaderLine(name + ":" + pad + value) == Field(Lowered(name), value)
  {
    var line := name + ":" + pad + value;
    assert line[|name|] == ':';
    assert forall j :: 0 <= j < |name| ==> line[j] == name[j];
    assert IndexOf(line, ':') == Some(|name|);
    assert line[..|name|] == name;
    assert line[|name| + 1..] == pad + value;
    SkipPad(pad, value);
  }

  lemma {:induction false} SkipPad(pad: string, value: string)
    requires forall i :: 0 <= i < |pad| ==> IsSpace(pad[i])
    requires |value| == 0 || !IsSpace(value[0])
    ensures SkipSpace(pad + value) == value
    decreases |pad|
  {
    if |pad| > 0 {
      assert (pad + value)[1..] == pad[1..] + value;
      SkipPad(pad[1..], value);
    } else {
      assert pad + value == value;
    }
  }

  /** A non-empty line without a colon is malformed, and only such a line is. */
  lemma MalformedLine(line: string)
    ensures ClassifyHeaderLine(line) == Malformed <==> line != "" && ':' !in line
  {
    if line != "" && ':' in line {
      var k :| 0 <= k < |line| && line[k] == ':';
      assert IndexOf(line, ':').Some?;
    }
  }

  // ---------------------------------------------------------------------
  // Response head

  /** Whether a finished request returns the connection to INIT. */
  predicate KeepAlive(req: Request, keepalive: int)
  {
    req.version == Http11 && keepalive != 0
  }

  function ConnectionLine(req: Request): string
  {
    if req.version == Http11 then "Connection: keep-alive" else "Connection: close"
  }

  function EncodingLine(req: Request): string
  {
    if UseChunked(req) then "Transfer-Encoding: chunked\r\n" else ""
  }

  /** What `uh_http_header` prints. */
  function StatusHead(req: Request, code: nat, summary: string): string
  {
    VersionLabel(req.version) + " " + Format.Padded3(code) + " " + summary + "\r\n"
      + ConnectionLine(req) + "\r\n" + EncodingLine(req)
  }

  /** The status line carries the version label, a three-digit code field and the summary. */
  lemma StatusHeadFields(req: Request, code: nat, summary: string)
    requires code < 1000
    ensures var h := StatusHead(req, code, summary);
      |h| >= 13 && h[..8] == VersionLabel(req.version) && h[8] == ' ' && h[12] == ' '
      && Format.DecimalValue(h[9..12]) == code
      && h[13..13 + |summary|] == summary
  {
    var p := Format.Padded3(code);
    PaddedWide(code);
    var l := VersionLabel(req.version);
    var line := l + " " + p + " " + summary;
    var h := StatusHead(req, code, summary);
    assert h == line + ("\r\n" + ConnectionLine(req) + "\r\n" + EncodingLine(req));
    LineFields(l, p, summary);
    SliceOfPrefix(line, "\r\n" + ConnectionLine(req) + "\r\n" + EncodingLine(req), 0, 8);
    SliceOfPrefix(line, "\r\n" + ConnectionLine(req) + "\r\n" + EncodingLine(req), 9, 12);
    SliceOfPrefix(line, "\r\n" + ConnectionLine(req) + "\r\n" + EncodingLine(req), 13, 13 + |summary|);
  }

  lemma LineFields(l: string, p: string, s: string)
    requires |l| == 8 && |p| == 3
    ensures var line := l + " " + p + " " + s;
      |line| == 13 + |s| && line[..8] == l && line[8] == ' ' && line[9..12] == p && line[12] == ' '
      && line[13..13 + |s|] == s
  {
  }

  lemma SliceOfPrefix(a: string, b: string, i: nat, j: nat)
    requires i <= j <= |a|
    ensures (a + b)[i..j] == a[i..j]
  {
  }

  lemma PaddedWide(code: nat)
    requires code < 1000
    ensures |Format.Padded3(code)| == 3
  {
    DecimalShort(code);
  }

  lemma DecimalShort(n: nat)
    requires n < 1000
    ensures |Format.Decimal(n)| <= 3
  {
    if n >= 10 {
      DecimalShort2(n / 10);
    }
  }

  lemma DecimalShort2(n: nat)
    requires n < 100
    ensures |Format.Decimal(n)| <= 2
  {
  }

  /** The keep-alive line appears iff the version is 1.1, the chunked line iff chunked framing is used. */
  lemma StatusHeadConnection(req: Request, code: nat, summary: string)
    ensures var h := StatusHead(req, code, summary);
      var tail := ConnectionLine(req) + "\r\n" + EncodingLine(req);
      h[|h| - |tail|..] == tail
      && (ConnectionLine(req) == "Connection: keep-alive" <==> req.version == Http11)
      && (EncodingLine(req) != "" <==> req.version == Http11 && req.httpMethod != HEAD)
  {
  }

  // ---------------------------------------------------------------------
  // The connection

  datatype State = Init | Header | Data | Done | Close

  /** The connection's idle timer. */
  datatype Timer = Disarmed | Armed(ms: int)

  /** The configuration fields the core reads. */
  datatype Config = Config(
    networkTimeout: int, httpKeepalive: int, scriptTimeout: int,
    ubusNoauth: bool, ubusPrefix: string)

  /** Appending three pieces one after another appends their concatenation. */
  lemma Append3(o: string, a: string, b: string, c: string)
    ensures o + a + b + c == o + (a + b + c)
  {
  }

  /**
   * A client connection.  `input` is everything received and `consumed`
   * the read cursor, so the read buffer is `input[consumed..]`; `out` is
   * everything written to the stream.  `dispatchFree` says whether the
   * gateway's `uh_ubus_request_free` is installed as the dispatch free hook.
   */
  class Client {
    const conf: Config
    const bufferLen: nat
    var state: State
    var request: Request
    var hdr: seq<(string, string)>
    var input: string
    var consumed: nat
    var out: string
    var eof: bool
    var stateChanged: bool      // a state-change notification is scheduled
    var timer: Timer
    var dispatchFree: bool
    var du: DispatchUbus
    var notifyWrite: bool       // the write-notify hook is installed
    var headersCompleted: nat   // times the header block was handed to request routing
    var closed: bool            // client_close has run
    ghost var statuses: seq<nat>  // status codes of the response heads written so far

    predicate Valid()
      reads this`input, this`consumed
    {
      0 < bufferLen && consumed <= |input| && |input| - consumed <= bufferLen
    }

    /** The unread part of the read buffer. */
    function Pending(): string
      reads this`input, this`consumed
      requires consumed <= |input|
    {
      input[consumed..]
    }

    /** A freshly accepted connection: zeroed, in INIT, with the idle timer armed. */
    constructor (conf: Config, bufferLen: nat)
      requires bufferLen > 0
      ensures Valid() && this.conf == conf && this.bufferLen == bufferLen
      ensures state == Init && request == Request(GET, "", Http09) && hdr == []
      ensures input == "" && consumed == 0 && out == ""
      ensures !eof && !stateChanged && timer == Armed(conf.networkTimeout * 1000)
      ensures !dispatchFree && du == Zero && notifyWrite && headersCompleted == 0 && !closed
      ensures statuses == []
    {
      this.conf := conf;
      this.bufferLen := bufferLen;
      state := Init;
      request := Request(GET, "", Http09);
      hdr := [];
      input := "";
      consumed := 0;
      out := "";
      eof := false;
      stateChanged := false;
      timer := Armed(conf.networkTimeout * 1000);
      dispatchFree := false;
      du := Zero;
      notifyWrite := true;
      headersCompleted := 0;
      closed := false;
      statuses := [];
    }

    method HttpHeader(code: nat, summary: string)
      modifies this`out, this`statuses
      ensures out == old(out) + StatusHead(request, code, summary)
      ensures statuses == old(statuses) + [code]
    {
      statuses := statuses + [code];
      var enc := "Transfer-Encoding: chunked\r\n";
      if !UseChunked(request) {
        enc := "";
      }
      var conn;
      if request.version != Http11 {
        conn := "Connection: close";
      } else {
        conn := "Connection: keep-alive";
      }
      out := out + (VersionLabel(request.version) + " " + Format.Padded3(code) + " " + summary + "\r\n"
        + conn + "\r\n" + enc);
    }

    method ErrorHeader(code: nat, summary: string)
      modifies this`out, this`statuses
      ensures statuses == old(statuses) + [code]
      ensures out == old(out) + StatusHead(request, code, summary) + "Content-Type: text/plain\r\n\r\n"
    {
      HttpHeader(code, summary);
      out := out + "Content-Type: text/plain\r\n\r\n";
    }

    method ChunkWrite(data: string)
      modifies this`out, this`timer
      ensures out == old(out) + ChunkFrame(UseChunked(request), data)
      ensures timer == Armed(conf.networkTimeout * 1000)
    {
      var chunked := UseChunked(request);
      timer := Armed(conf.networkTimeout * 1000);
      ghost var o0 := out;
      if chunked {
        out := out + (HexUpper(|data|) + "\r\n");
      }
      out := out + data;
      if chunked {
        out := out + "\r\n";
        Append3(o0, HexUpper(|data|) + "\r\n", data, "\r\n");
      }
    }

    /**
     * `uh_chunk_printf` of an already formatted `text`.  The size line
     * always carries the full length; a text of 256 bytes or more does not
     * fit the 256-byte scratch buffer and is formatted a second time.
     */
    method ChunkPrintf(text: string)
      modifies this`out, this`timer
      ensures out == old(out) + ChunkFrame(UseChunked(request), text)
      ensures timer == Armed(conf.networkTimeout * 1000)
    {
      timer := Armed(conf.networkTimeout * 1000);
      if !UseChunked(request) {
        out := out + text;
        return;
      }
      var len := |text|;
      var scratch := if len < 256 then text else text[..255];
      ghost var o0 := out;
      out := out + (HexUpper(len) + "\r\n");
      if len < 256 {
        out := out + scratch;
      } else {
        out := out + text;
      }
      out := out + "\r\n";
      Append3(o0, HexUpper(len) + "\r\n", text, "\r\n");
    }

    method ChunkEof()
      modifies this`out
      ensures out == old(out) + EofMarker(UseChunked(request))
    {
      if !UseChunked(request) {
        return;
      }
      out := out + "0\r\n\r\n";
    }

    method ConnectionClose()
      modifies this`state, this`eof, this`stateChanged
      ensures state == Done && eof && stateChanged
    {
      state := Done;
      eof := true;
      stateChanged := true;
    }

    /** Runs the free hook at most once: it is cleared after the call. */
    method DispatchDone()
      modifies this`dispatchFree, this`du, this`timer
      ensures !dispatchFree
      ensures du == (if old(dispatchFree) then RequestFree(old(du)) else old(du))
      ensures timer == (if old(dispatchFree) then Disarmed else old(timer))
    {
      if dispatchFree {
        du := RequestFree(du);
        timer := Disarmed;
      }
      dispatchFree := false;
    }

    method RequestDone()
      modifies this`out, this`dispatchFree, this`du, this`timer, this`notifyWrite
      modifies this`state, this`eof, this`stateChanged
      ensures out == old(out) + EofMarker(UseChunked(request))
      ensures !dispatchFree && du == (if old(dispatchFree) then RequestFree(old(du)) else old(du))
      ensures !notifyWrite
      ensures KeepAlive(request, conf.httpKeepalive) ==>
        state == Init && timer == Armed(conf.httpKeepalive * 1000)
        && eof == old(eof) && stateChanged == old(stateChanged)
      ensures !KeepAlive(request, conf.httpKeepalive) ==>
        state == Done && eof && stateChanged
        && timer == (if old(dispatchFree) then Disarmed else old(timer))
    {
      ChunkEof();
      DispatchDone();
      notifyWrite := false;
      if request.version != Http11 || conf.httpKeepalive == 0 {
        ConnectionClose();
        return;
      }
      state := Init;
      timer := Armed(conf.httpKeepalive * 1000);
    }

    method ClientError(code: nat, summary: string, msg: string)
      modifies this`out, this`dispatchFree, this`du, this`timer, this`notifyWrite
      modifies this`state, this`eof, this`stateChanged, this`statuses
      ensures statuses == old(statuses) + [code]
      ensures out == old(out) + StatusHead(request, code, summary) + "Content-Type: text/plain\r\n\r\n"
        + ChunkFrame(UseChunked(request), msg) + EofMarker(UseChunked(request))
      ensures !dispatchFree && du == (if old(dispatchFree) then RequestFree(old(du)) else old(du))
      ensures !notifyWrite
      ensures KeepAlive(request, conf.httpKeepalive) ==>
        state == Init && timer == Armed(conf.httpKeepalive * 1000)
        && eof == old(eof) && stateChanged == old(stateChanged)
      ensures !KeepAlive(request, conf.httpKeepalive) ==>
        state == Done && eof && stateChanged
        && timer == (if old(dispatchFree) then Disarmed else Armed(conf.networkTimeout * 1000))
    {
      ErrorHeader(code, summary);
      ChunkPrintf(msg);
      RequestDone();
    }

    /** An error that also ends the connection, whatever keep-alive says. */
    method HeaderError(code: nat, summary: string)
      modifies this`out, this`dispatchFree, this`du, this`timer, this`notifyWrite
      modifies this`state, this`eof, this`stateChanged, this`statuses
      ensures statuses == old(statuses) + [code]
      ensures out == old(out) + StatusHead(request, code, summary) + "Content-Type: text/plain\r\n\r\n"
        + ChunkFrame(UseChunked(request), summary) + EofMarker(UseChunked(request))
      ensures !dispatchFree && du == (if old(dispatchFree) then RequestFree(old(du)) else old(du))
      ensures !notifyWrite && state == Done && eof && stateChanged
      ensures timer ==
        (if KeepAlive(request, conf.httpKeepalive) then Armed(conf.httpKeepalive * 1000)
         else if old(dispatchFree) then Disarmed
         else Armed(conf.networkTimeout * 1000))
    {
      ClientError(code, summary, summary);
      ConnectionClose();
    }

    /**
     * `uh_header_error` as the read path sees it: one more response head
     * with status `code`, output that only grows, and a connection that
     * is done; the exact bytes are `HeaderError`'s contract.
     */
    method Reject(code: nat, summary: string)
      modifies this`out, this`dispatchFree, this`du, this`timer, this`notifyWrite
      modifies this`state, this`eof, this`stateChanged, this`statuses
      ensures statuses == old(statuses) + [code] && old(out) <= out
      ensures !dispatchFree && du == (if old(dispatchFree) then RequestFree(old(du)) else old(du))
      ensures !notifyWrite && state == Done && eof && stateChanged
      ensures timer ==
        (if KeepAlive(request, conf.httpKeepalive) then Armed(conf.httpKeepalive * 1000)
         else if old(dispatchFree) then Disarmed
         else Armed(conf.networkTimeout * 1000))
    {
      HeaderError(code, summary);
    }

    /** The idle timer fires: the connection is closed. */
    method Timeout()
      requires timer.Armed? && !closed
      modifies this`state, this`eof, this`stateChanged, this`timer
      ensures state == Done && eof && stateChanged && timer == Disarmed
    {
      timer := Disarmed;
      state := Close;
      ConnectionClose();
    }

    /**
     * Searches the version table from the top, as the decrementing loop
     * does; -1 when the token is no label.
     */
    static method FindVersion(t: string) returns (i: int)
      ensures i == VersionIndex(t)
    {
      var k := |HttpVersions|;
      while k > 0
        invariant 0 <= k <= |HttpVersions|
        invariant forall j :: k <= j < |HttpVersions| ==> HttpVersions[j] != t
        decreases k
      {
        k := k - 1;
        if HttpVersions[k] == t {
          return k;
        }
      }
      return -1;
    }

    /**
     * `client_parse_request`: the URL is taken once there are three tokens,
     * the method once it is known, the version once it is a label.  A line
     * rejected for its version leaves the version at HTTP/1.0, where the
     * source leaves the -1 of StoredVersionAsWritten: this is the corrected
     * reading of client.c:140-149, and it takes the field to be signed.
     */
    method ParseRequest(line: string) returns (next: State)
      modifies this`request
      ensures ClassifyRequestLine(line).TooFewTokens? ==> next == Done && request == old(request)
      ensures ClassifyRequestLine(line).UnknownMethod? ==>
        next == Done && request == old(request).(url := ClassifyRequestLine(line).url)
      ensures ClassifyRequestLine(line).UnknownVersion? ==>
        var c := ClassifyRequestLine(line);
        next == Done && request == Request(c.m, c.url, Http10)
      ensures ClassifyRequestLine(line).Accepted? ==>
        var c := ClassifyRequestLine(line);
        next == Header && request == Request(c.m, c.url, c.v)
    {
      var ts := Tokens(line);
      if |ts| < 3 {
        return Done;
      }
      request := request.(url := ts[1]);
      var m := MethodNamed(ts[0]);
      if m.None? {
        return Done;
      }
      request := request.(httpMethod := m.value);
      var i := FindVersion(ts[2]);
      if i < 0 {
        request := request.(version := Http10);
        return Done;
      }
      request := request.(version := VersionAt(i));
      return Header;
    }

    /** Lower-cases a header name character by character. */
    static method LowerName(name: string) returns (r: string)
      ensures r == Lowered(name)
    {
      r := name;
      var i := 0;
      while i < |r|
        invariant 0 <= i <= |r| == |name|
        invariant forall j :: 0 <= j < i ==> r[j] == ToLower(name[j])
        invariant forall j :: i <= j < |r| ==> r[j] == name[j]
      {
        if IsUpper(r[i]) {
          r := r[i := ToLower(r[i])];
        }
        i := i + 1;
      }
    }

    /** Steps over the white space in front of a header value. */
    static method SkipValueSpace(v: string) returns (r: string)
      ensures r == SkipSpace(v)
    {
      var i := 0;
      while i < |v| && IsSpace(v[i])
        invariant 0 <= i <= |v|
        invariant SkipSpace(v[i..]) == SkipSpace(v)
      {
        assert v[i..][1..] == v[i + 1..];
        i := i + 1;
      }
      r := v[i..];
    }

    /**
     * The pure part of `client_parse_header`: an empty line ends the block,
     * a line without a colon is malformed, otherwise the name is
     * lower-cased and the value's leading white space skipped.
     */
    static method SplitHeader(line: string) returns (c: HeaderVerdict)
      ensures c == ClassifyHeaderLine(line)
    {
      if |line| == 0 {
        return EndOfHeaders;
      }
      match IndexOf(line, ':')
      case None =>
        return Malformed;
      case Some(k) =>
        var name := LowerName(line[..k]);
        var value := SkipValueSpace(line[k + 1..]);
        return Field(name, value);
    }

    /** `client_parse_header` on one line without its CRLF. */
    method ParseHeader(line: string) returns (next: State)
      modifies this`timer, this`headersCompleted, this`hdr
      ensures ClassifyHeaderLine(line).EndOfHeaders? ==>
        next == Data && timer == Disarmed && headersCompleted == old(headersCompleted) + 1 && hdr == old(hdr)
      ensures ClassifyHeaderLine(line).Malformed? ==>
        next == Done && timer == old(timer) && headersCompleted == old(headersCompleted) && hdr == old(hdr)
      ensures ClassifyHeaderLine(line).Field? ==>
        var c := ClassifyHeaderLine(line);
        next == Header && timer == old(timer) && headersCompleted == old(headersCompleted)
        && hdr == old(hdr) + [(c.name, c.value)]
    {
      var c := SplitHeader(line);
      match c
      case EndOfHeaders =>
        timer := Disarmed;
        headersCompleted := headersCompleted + 1;
        return Data;
      case Malformed =>
        return Done;
      case Field(name, value) =>
        hdr := hdr + [(name, value)];
        return Header;
    }

    /** Handles the request line, if a whole one is buffered. */
    method InitCb() returns (progress: bool)
      requires Valid()
      modifies this`hdr, this`consumed, this`state, this`request
      modifies this`out, this`dispatchFree, this`du, this`timer, this`notifyWrite, this`eof, this`stateChanged, this`statuses
      ensures Valid()
      ensures progress <==> FindCrlf(old(Pending())).Some?
      ensures !progress ==> unchanged(this)
      ensures progress ==>
        consumed == old(consumed) + FindCrlf(old(Pending())).value + 2
        && hdr == [("REQUEST", FirstLine(old(Pending())))]
      ensures progress && ClassifyRequestLine(FirstLine(old(Pending()))).Accepted? ==>
        var c := ClassifyRequestLine(FirstLine(old(Pending())));
        state == Header && request == Request(c.m, c.url, c.v) && out == old(out)
        && timer == old(timer) && du == old(du) && dispatchFree == old(dispatchFree)
        && eof == old(eof) && stateChanged == old(stateChanged) && statuses == old(statuses)
      ensures progress && !ClassifyRequestLine(FirstLine(old(Pending()))).Accepted? ==>
        state == Done && eof && stateChanged && statuses == old(statuses) + [400] && old(out) <= out
    {
      var rest := input[consumed..];
      assert rest == old(Pending());
      var nl := FindCrlf(rest);
      if nl.None? {
        return false;
      }
      var line := rest[..nl.value];
      assert line == FirstLine(old(Pending()));
      hdr := [("REQUEST", line)];
      consumed := consumed + nl.value + 2;
      assert Valid();
      state := ParseRequest(line);
      if state == Done {
        Reject(400, "Bad Request");
      }
      assert FindCrlf(old(Pending())) == nl;
      return true;
    }

    /** Handles one header line, if a whole one is buffered. */
    method HeaderCb() returns (progress: bool)
      requires Valid()
      modifies this`timer, this`headersCompleted, this`hdr, this`state, this`consumed
      ensures Valid()
      ensures progress <==> FindCrlf(old(Pending())).Some?
      ensures !progress ==> unchanged(this)
      ensures progress ==>
        var k := FindCrlf(old(Pending())).value;
        var c := ClassifyHeaderLine(old(Pending())[..k]);
        consumed == old(consumed) + k + 2
        && state == (if c.EndOfHeaders? then Data else if c.Malformed? then Done else Header)
        && hdr == (if c.Field? then old(hdr) + [(c.name, c.value)] else old(hdr))
        && timer == (if c.EndOfHeaders? then Disarmed else old(timer))
        && headersCompleted == old(headersCompleted) + (if c.EndOfHeaders? then 1 else 0)
    {
      var rest := input[consumed..];
      var nl := FindCrlf(rest);
      if nl.None? {
        return false;
      }
      state := ParseHeader(rest[..nl.value]);
      consumed := consumed + nl.value + 2;
      if state == Data {
        var _ := DataCb();
      }
      return true;
    }

    /**
     * Whether the callback of `state` can make no progress on `pending`:
     * the body callback never can, the line callbacks cannot without a
     * whole line.
     */
    static predicate Stalled(state: State, pending: string)
    {
      state == Data || ((state == Init || state == Header) && FindCrlf(pending).None?)
    }

    /** The body callback never takes any bytes. */
    static method DataCb() returns (progress: bool)
      ensures !progress
    {
      return false;
    }

    /**
     * Dispatches buffered input to the callback of the current state until
     * one makes no progress; a callback that cannot progress on a full
     * buffer gets 413.  At most one error is answered per call, and the
     * connection is done after it.
     */
    method ReadCb()
      requires Valid()
      modifies this`hdr, this`consumed, this`state, this`request, this`headersCompleted
      modifies this`out, this`dispatchFree, this`du, this`timer, this`notifyWrite, this`eof, this`stateChanged, this`statuses
      ensures Valid()
      ensures old(consumed) <= consumed && old(out) <= out
      ensures old(state) == Data ==> consumed == old(consumed)
      ensures state == Init || state == Header ==> FindCrlf(Pending()).None?
      ensures state == Init || state == Header || state == Data ==> |Pending()| < bufferLen
      ensures statuses == old(statuses)
        || (state == Done && (statuses == old(statuses) + [400] || statuses == old(statuses) + [413]))
      ensures Stalled(old(state), old(Pending())) && |old(Pending())| == bufferLen ==>
        statuses == old(statuses) + [413] && state == Done && consumed == old(consumed)
      ensures Stalled(old(state), old(Pending())) && |old(Pending())| < bufferLen ==>
        statuses == old(statuses) && state == old(state) && consumed == old(consumed) && out == old(out)
    {
      while true
        invariant Valid()
        invariant old(consumed) <= consumed && old(out) <= out
        invariant old(state) == Data ==> consumed == old(consumed) && state == Data
        invariant statuses == old(statuses)
          || (state == Done && (statuses == old(statuses) + [400] || statuses == old(statuses) + [413]))
        invariant Stalled(old(state), old(Pending())) ==>
          consumed == old(consumed) && state == old(state) && statuses == old(statuses) && out == old(out)
        decreases |input| - consumed
      {
        if consumed == |input| {
          break;
        }
        if state != Init && state != Header && state != Data {
          break;
        }
        var progress;
        if state == Init {
          progress := InitCb();
        } else if state == Header {
          progress := HeaderCb();
        } else {
          progress := DataCb();
        }
        if !progress {
          if |input| - consumed == bufferLen {
            Reject(413, "Request Entity Too Large");
          }
          break;
        }
      }
    }

    /** Bytes arrive on the socket and the read callback runs. */
    method Deliver(data: string)
      requires Valid() && !closed && |Pending()| + |data| <= bufferLen
      modifies this`input
      modifies this`hdr, this`consumed, this`state, this`request, this`headersCompleted
      modifies this`out, this`dispatchFree, this`du, this`timer, this`notifyWrite, this`eof, this`stateChanged, this`statuses
      ensures Valid() && input == old(input) + data
      ensures old(consumed) <= consumed && old(out) <= out
      ensures state == Init || state == Header ==> FindCrlf(Pending()).None?
      ensures state == Init || state == Header || state == Data ==> |Pending()| < bufferLen
      ensures statuses == old(statuses)
        || (state == Done && (statuses == old(statuses) + [400] || statuses == old(statuses) + [413]))
      ensures Stalled(old(state), old(Pending()) + data) && |old(Pending())| + |data| == bufferLen ==>
        statuses == old(statuses) + [413] && state == Done
    {
      input := input + data;
      assert Pending() == old(Pending()) + data;
      ReadCb();
    }

    /**
     * The peer closes its end: the stream marks its end of input and
     * reports a state change, which `NotifyState` then handles.
     */
    method PeerClosed()
      modifies this`eof, this`stateChanged
      ensures eof && stateChanged
    {
      eof := true;
      stateChanged := true;
    }

    /**
     * The stream reports a state change; the connection is torn down
     * when it is in CLOSE, when its end is reached with nothing left to
     * send, or after a write error.
     */
    method NotifyState(queued: nat, writeError: bool) returns (torn: bool)
      requires !closed
      modifies this`closed, this`dispatchFree, this`du, this`timer, this`stateChanged
      ensures torn <==> (state == Close || (eof && queued == 0) || writeError)
      ensures closed == torn && !stateChanged
      ensures torn ==>
        !dispatchFree && du == (if old(dispatchFree) then RequestFree(old(du)) else old(du)) && timer == Disarmed
      ensures !torn ==> dispatchFree == old(dispatchFree) && du == old(du) && timer == old(timer)
    {
      stateChanged := false;
      if state == Close || (eof && queued == 0) || writeError {
        DispatchDone();
        timer := Disarmed;
        closed := true;
        return true;
      }
      return false;
    }
  }
}
