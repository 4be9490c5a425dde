/**
 * Percent-encoding and percent-decoding into a bounded caller buffer
 * (uh_urlencode and uh_urldecode of utils.c; section 2.1 of RFC 3986).
 *
 * Each C function is a method over the caller's array. Its result is tied to
 * a function that follows the loop one input step at a time (`DecodeRun`,
 * `EncodeRun`), and those functions are related by lemmas to capacity-free
 * reference codecs (`PercentDecode`, `PercentEncode`).
 */
module UrlCodec {
  import opened Bytes
  import opened Wrappers

  const PERCENT: byte := 37

  /** Value of a hexadecimal digit, as the `hex()` macro of uh_urldecode computes it. */
  function Hex(b: byte): (v: nat)
    requires IsXDigit(b)
    ensures v < 16
  {
    if b as int <= '9' as int then b as int - '0' as int
    else if b as int <= 'F' as int then b as int - 'A' as int + 10
    else b as int - 'a' as int + 10
  }

  /** Lower-case hexadecimal digit for a nibble (`"0123456789abcdef"[d]`). */
  function LowerHexDigit(d: nat): (b: byte)
    requires d < 16
    ensures IsXDigit(b) && Hex(b) == d
  {
    if d < 10 then ('0' as int + d) as byte else ('a' as int + d - 10) as byte
  }

  /**
   * What a codec loop has produced: `code` is the C return value (the output
   * length, -1 for overflow, -2 for a malformed escape) and `written` the
   * bytes stored at the front of the buffer.
   */
  datatype Outcome = Outcome(code: int, written: seq<byte>)

  /** Bytes `w` stored in front of what the rest of the loop produces. */
  function Prepend(w: seq<byte>, o: Outcome): Outcome
  {
    Outcome(if o.code >= 0 then o.code + |w| else o.code, w + o.written)
  }

  lemma PrependPrepend(a: seq<byte>, b: seq<byte>, o: Outcome)
    ensures Prepend(a, Prepend(b, o)) == Prepend(a + b, o)
  {
    assert a + (b + o.written) == (a + b) + o.written;
  }

  // ---------------------------------------------------------------------
  // Decoding

  /**
   * The loop of uh_urldecode on the unread input `src` with `room` bytes of
   * output capacity left.
   */
  function DecodeRun(src: seq<byte>, room: int): Outcome
    decreases |src|
  {
    if |src| == 0 then Outcome(0, [])
    else if room <= 0 then Outcome(-1, [])
    else if src[0] != PERCENT then Prepend([src[0]], DecodeRun(src[1..], room - 1))
    else if |src| < 3 || !IsXDigit(src[1]) || !IsXDigit(src[2]) then Outcome(-2, [])
    else Prepend([(16 * Hex(src[1]) + Hex(src[2])) as byte], DecodeRun(src[3..], room - 1))
  }

  /** Reference percent-decoding without a capacity bound. */
  function PercentDecode(src: seq<byte>): Option<seq<byte>>
    decreases |src|
  {
    if |src| == 0 then Some([])
    else if src[0] != PERCENT then
      (match PercentDecode(src[1..])
       case None => None
       case Some(d) => Some([src[0]] + d))
    else if |src| < 3 || !IsXDigit(src[1]) || !IsXDigit(src[2]) then None
    else
      match PercentDecode(src[3..])
      case None => None
      case Some(d) => Some([(16 * Hex(src[1]) + Hex(src[2])) as byte] + d)
  }

  lemma {:induction false} PercentDecodeShorter(src: seq<byte>)
    requires PercentDecode(src).Some?
    ensures |PercentDecode(src).value| <= |src|
    decreases |src|
  {
    if |src| > 0 {
      if src[0] != PERCENT { PercentDecodeShorter(src[1..]); } else { PercentDecodeShorter(src[3..]); }
    }
  }

  /** Only the three return codes of uh_urldecode occur, and at most `room` bytes are stored. */
  lemma {:induction false} DecodeRunShape(src: seq<byte>, room: int)
    ensures var o := DecodeRun(src, room);
      (o.code >= 0 ==> o.code == |o.written|) &&
      (o.code < 0 ==> o.code == -1 || o.code == -2) &&
      |o.written| <= (if room < 0 then 0 else room) &&
      (o.code == -1 ==> |o.written| == (if room < 0 then 0 else room))
    decreases |src|
  {
    if |src| > 0 && room > 0 {
      if src[0] != PERCENT { DecodeRunShape(src[1..], room - 1); }
      else if |src| >= 3 && IsXDigit(src[1]) && IsXDigit(src[2]) { DecodeRunShape(src[3..], room - 1); }
    }
  }

  /**
   * uh_urldecode succeeds exactly when the input is well formed and its
   * decoding fits, and then it returns that decoding and its length.
   */
  lemma {:induction false} DecodeRunSucceeds(src: seq<byte>, room: int)
    requires room >= 0
    ensures DecodeRun(src, room).code >= 0 <==>
              PercentDecode(src).Some? && |PercentDecode(src).value| <= room
    ensures DecodeRun(src, room).code >= 0 ==>
              DecodeRun(src, room) == Outcome(|PercentDecode(src).value|, PercentDecode(src).value)
    decreases |src|
  {
    if |src| == 0 {
    } else if room <= 0 {
      if PercentDecode(src).Some? {
        assert PercentDecode(src).value != [] by {
          if src[0] != PERCENT {} else {}
        }
      }
    } else if src[0] != PERCENT {
      DecodeRunSucceeds(src[1..], room - 1);
    } else if |src| < 3 || !IsXDigit(src[1]) || !IsXDigit(src[2]) {
    } else {
      DecodeRunSucceeds(src[3..], room - 1);
    }
  }

  /** A well-formed input whose decoding does not fit gives -1. */
  lemma DecodeRunOverflows(src: seq<byte>, room: int)
    requires room >= 0
    requires PercentDecode(src).Some? && |PercentDecode(src).value| > room
    ensures DecodeRun(src, room).code == -1
  {
    DecodeRunSucceeds(src, room);
    DecodeRunShape(src, room);
    DecodeRunNeverMalformed(src, room);
  }

  lemma {:induction false} DecodeRunNeverMalformed(src: seq<byte>, room: int)
    requires PercentDecode(src).Some?
    ensures DecodeRun(src, room).code != -2
    decreases |src|
  {
    if |src| > 0 && room > 0 {
      if src[0] != PERCENT { DecodeRunNeverMalformed(src[1..], room - 1); }
      else { DecodeRunNeverMalformed(src[3..], room - 1); }
    }
  }

  /**
   * With at least as much capacity as input, a malformed escape anywhere
   * gives -2: every stored byte consumes at least one input byte, so the
   * capacity cannot run out first.
   */
  lemma {:induction false} DecodeRunMalformed(src: seq<byte>, room: int)
    requires PercentDecode(src).None?
    requires room >= |src|
    ensures DecodeRun(src, room).code == -2
    decreases |src|
  {
    if src[0] != PERCENT { DecodeRunMalformed(src[1..], room - 1); }
    else if |src| >= 3 && IsXDigit(src[1]) && IsXDigit(src[2]) { DecodeRunMalformed(src[3..], room - 1); }
  }

  /** `%XY` decodes to the byte 16 * hex(X) + hex(Y). */
  lemma EscapeDecodes(x: byte, y: byte, rest: seq<byte>, room: int)
    requires IsXDigit(x) && IsXDigit(y) && room > 0
    ensures DecodeRun([PERCENT, x, y] + rest, room).written ==
              [(16 * Hex(x) + Hex(y)) as byte] + DecodeRun(rest, room - 1).written
  {
    assert ([PERCENT, x, y] + rest)[3..] == rest;
  }

  /**
   * Where uh_urldecode as written stores its NUL terminator: at index
   * `|written|`, or nowhere when it returns -2.
   */
  function NulIndexAsWritten(src: seq<byte>, blen: int): (k: Option<int>)
  {
    var o := DecodeRun(src, blen);
    if o.code == -2 then None else Some(|o.written|)
  }

  /**
   * The NUL the source stores at `buf[len]` lands one past the end of a
   * buffer of `blen` bytes whenever the output fills the buffer: decoding
   * "a" into one byte returns 1 and writes `buf[1]`.
   */
  lemma NulPastEndAsWritten()
    ensures DecodeRun([97], 1) == Outcome(1, [97])
    ensures NulIndexAsWritten([97], 1) == Some(1)
  {
    assert DecodeRun([97][1..], 0) == Outcome(0, []);
  }

  /** The decoding loop's invariant carried over a byte that is copied. */
  lemma DecodeCopy(src: seq<byte>, blen: int, i: nat, done: seq<byte>, len: nat)
    requires i < |src| && len == |done| < blen && src[i] != PERCENT
    requires DecodeRun(src, blen) == Prepend(done, DecodeRun(src[i..], blen - len))
    ensures DecodeRun(src, blen) == Prepend(done + [src[i]], DecodeRun(src[i + 1..], blen - (len + 1)))
  {
    assert src[i..][1..] == src[i + 1..];
    PrependPrepend(done, [src[i]], DecodeRun(src[i + 1..], blen - (len + 1)));
  }

  /** The decoding loop's invariant carried over an escape that is decoded. */
  lemma DecodeEscape(src: seq<byte>, blen: int, i: nat, done: seq<byte>, len: nat, b: byte)
    requires i + 2 < |src| && len == |done| < blen && src[i] == PERCENT
    requires IsXDigit(src[i + 1]) && IsXDigit(src[i + 2])
    requires b as int == 16 * Hex(src[i + 1]) + Hex(src[i + 2])
    requires DecodeRun(src, blen) == Prepend(done, DecodeRun(src[i..], blen - len))
    ensures DecodeRun(src, blen) == Prepend(done + [b], DecodeRun(src[i + 3..], blen - (len + 1)))
  {
    assert src[i..][3..] == src[i + 3..];
    PrependPrepend(done, [b], DecodeRun(src[i + 3..], blen - (len + 1)));
  }

  /** A `%` without two hexadecimal digits after it ends the loop with -2. */
  lemma DecodeBadEscape(src: seq<byte>, blen: int, i: nat, done: seq<byte>, len: nat)
    requires i < |src| && len == |done| < blen && src[i] == PERCENT
    requires i + 2 >= |src| || !IsXDigit(src[i + 1]) || !IsXDigit(src[i + 2])
    requires DecodeRun(src, blen) == Prepend(done, DecodeRun(src[i..], blen - len))
    ensures DecodeRun(src, blen) == Outcome(-2, done)
  {
    assert DecodeRun(src[i..], blen - len) == Outcome(-2, []);
    assert done + [] == done;
  }

  /**
   * uh_urldecode with `blen` the size of `buf`. The terminating NUL is
   * stored only when it fits (the source stores it unconditionally; see
   * NulPastEndAsWritten).
   */
  method UrlDecode(buf: array<byte>, src: seq<byte>) returns (r: int)
    modifies buf
    ensures var o := DecodeRun(src, buf.Length);
      && r == o.code
      && |o.written| <= buf.Length
      && buf[..|o.written|] == o.written
      && (r != -2 && |o.written| < buf.Length ==> buf[|o.written|] == 0)
      && (r == -2 && |o.written| < buf.Length ==> buf[|o.written|] == old(buf[|o.written|]))
      && (forall k :: |o.written| < k < buf.Length ==> buf[k] == old(buf[k]))
  {
    var blen := buf.Length;
    var i, len := 0, 0;
    while i < |src| && len < blen
      invariant 0 <= i <= |src| && 0 <= len <= blen
      invariant DecodeRun(src, blen) == Prepend(buf[..len], DecodeRun(src[i..], blen - len))
      invariant forall k :: len <= k < blen ==> buf[k] == old(buf[k])
      decreases |src| - i
    {
      ghost var done := buf[..len];
      if src[i] != PERCENT {
        DecodeCopy(src, blen, i, done, len);
        buf[len] := src[i];
        assert buf[..len + 1] == done + [src[i]];
        len, i := len + 1, i + 1;
        continue;
      }
      if i + 2 >= |src| || !IsXDigit(src[i + 1]) || !IsXDigit(src[i + 2]) {
        DecodeBadEscape(src, blen, i, done, len);
        return -2;
      }
      var b := (16 * Hex(src[i + 1]) + Hex(src[i + 2])) as byte;
      DecodeEscape(src, blen, i, done, len, b);
      buf[len] := b;
      assert buf[..len + 1] == done + [b];
      len, i := len + 1, i + 3;
    }
    DecodeRunShape(src, blen);
    if i == |src| {
      assert src[i..] == [];
    } else {
      assert DecodeRun(src[i..], 0) == Outcome(-1, []);
    }
    if len < blen {
      buf[len] := 0;
    }
    r := if i == |src| then len else -1;
  }

  // ---------------------------------------------------------------------
  // Encoding

  /** Bytes uh_urlencode copies unchanged: alphanumerics and `- _ . ~`. */
  predicate IsUnreserved(b: byte)
  {
    IsAlnum(b) || b == Ascii('-') || b == Ascii('_') || b == Ascii('.') || b == Ascii('~')
  }

  /** `%` followed by the two lower-case hexadecimal digits of `b`. */
  function Escape(b: byte): (e: seq<byte>)
    ensures |e| == 3 && e[0] == PERCENT && IsXDigit(e[1]) && IsXDigit(e[2])
    ensures 16 * Hex(e[1]) + Hex(e[2]) == b as int
  {
    [PERCENT, LowerHexDigit(b as nat / 16), LowerHexDigit(b as nat % 16)]
  }

  /**
   * The loop of uh_urlencode on the unread input `src` with `room` bytes of
   * output capacity left.
   */
  function EncodeRun(src: seq<byte>, room: int): Outcome
    decreases |src|
  {
    if |src| == 0 then Outcome(0, [])
    else if room <= 0 then Outcome(-1, [])
    else if IsUnreserved(src[0]) then Prepend([src[0]], EncodeRun(src[1..], room - 1))
    else if 3 <= room then Prepend(Escape(src[0]), EncodeRun(src[1..], room - 3))
    else Outcome(-1, [])
  }

  /** Reference percent-encoding without a capacity bound. */
  function PercentEncode(src: seq<byte>): seq<byte>
    decreases |src|
  {
    if |src| == 0 then []
    else (if IsUnreserved(src[0]) then [src[0]] else Escape(src[0])) + PercentEncode(src[1..])
  }

  /** Number of bytes of `s` that are escaped. */
  function Reserved(s: seq<byte>): nat
  {
    if |s| == 0 then 0 else (if IsUnreserved(s[0]) then 0 else 1) + Reserved(s[1..])
  }

  /** The encoding is one byte per unreserved byte and three per escaped byte. */
  lemma {:induction false} PercentEncodeLength(s: seq<byte>)
    ensures |PercentEncode(s)| == (|s| - Reserved(s)) + 3 * Reserved(s)
    decreases |s|
  {
    if |s| > 0 { PercentEncodeLength(s[1..]); }
  }

  /** Only -1 and the output length are returned, and at most `room` bytes are stored. */
  lemma {:induction false} EncodeRunShape(src: seq<byte>, room: int)
    ensures var o := EncodeRun(src, room);
      (o.code >= 0 ==> o.code == |o.written|) &&
      (o.code < 0 ==> o.code == -1) &&
      |o.written| <= (if room < 0 then 0 else room)
    decreases |src|
  {
    if |src| > 0 && room > 0 {
      if IsUnreserved(src[0]) { EncodeRunShape(src[1..], room - 1); }
      else if 3 <= room { EncodeRunShape(src[1..], room - 3); }
    }
  }

  /**
   * uh_urlencode succeeds exactly when the whole encoding fits, and then it
   * stores the encoding and returns its length.
   */
  lemma {:induction false} EncodeRunSucceeds(src: seq<byte>, room: int)
    requires room >= 0
    ensures EncodeRun(src, room).code >= 0 <==> |PercentEncode(src)| <= room
    ensures EncodeRun(src, room).code >= 0 ==>
              EncodeRun(src, room) == Outcome(|PercentEncode(src)|, PercentEncode(src))
    decreases |src|
  {
    if |src| > 0 {
      if room > 0 && IsUnreserved(src[0]) { EncodeRunSucceeds(src[1..], room - 1); }
      else if room > 0 && 3 <= room { EncodeRunSucceeds(src[1..], room - 3); }
      else if room > 0 {
        assert |PercentEncode(src)| >= 3;
      }
    }
  }

  /** The encoding loop's invariant carried over a byte that is copied. */
  lemma EncodeCopy(src: seq<byte>, blen: int, i: nat, done: seq<byte>, len: nat)
    requires i < |src| && len == |done| < blen && IsUnreserved(src[i])
    requires EncodeRun(src, blen) == Prepend(done, EncodeRun(src[i..], blen - len))
    ensures EncodeRun(src, blen) == Prepend(done + [src[i]], EncodeRun(src[i + 1..], blen - (len + 1)))
  {
    assert src[i..][1..] == src[i + 1..];
    PrependPrepend(done, [src[i]], EncodeRun(src[i + 1..], blen - (len + 1)));
  }

  /** The encoding loop's invariant carried over a byte that is escaped. */
  lemma EncodeEscape(src: seq<byte>, blen: int, i: nat, done: seq<byte>, len: nat)
    requires i < |src| && len == |done| && len + 3 <= blen && !IsUnreserved(src[i])
    requires EncodeRun(src, blen) == Prepend(done, EncodeRun(src[i..], blen - len))
    ensures EncodeRun(src, blen) == Prepend(done + Escape(src[i]), EncodeRun(src[i + 1..], blen - (len + 3)))
  {
    assert src[i..][1..] == src[i + 1..];
    PrependPrepend(done, Escape(src[i]), EncodeRun(src[i + 1..], blen - (len + 3)));
  }

  /** A byte to escape with fewer than three bytes of room ends the loop with -1. */
  lemma EncodeOverflow(src: seq<byte>, blen: int, i: nat, done: seq<byte>, len: nat)
    requires i < |src| && len == |done| < blen && len + 3 > blen && !IsUnreserved(src[i])
    requires EncodeRun(src, blen) == Prepend(done, EncodeRun(src[i..], blen - len))
    ensures EncodeRun(src, blen) == Outcome(-1, done)
  {
    assert EncodeRun(src[i..], blen - len) == Outcome(-1, []);
    assert done + [] == done;
  }

  /** The three stores `%`, high digit, low digit of one escape. */
  method StoreEscape(buf: array<byte>, len: nat, e: seq<byte>)
    requires len + 3 <= buf.Length && |e| == 3 && e[0] == PERCENT
    modifies buf
    ensures buf[..len + 3] == old(buf[..len]) + e
    ensures forall k :: len + 3 <= k < buf.Length ==> buf[k] == old(buf[k])
  {
    buf[len] := PERCENT;
    buf[len + 1] := e[1];
    buf[len + 2] := e[2];
    assert buf[..len + 3] == old(buf[..len]) + e;
  }

  /** uh_urlencode with `blen` the size of `buf`; no terminator is stored. */
  method UrlEncode(buf: array<byte>, src: seq<byte>) returns (r: int)
    modifies buf
    ensures var o := EncodeRun(src, buf.Length);
      && r == o.code
      && |o.written| <= buf.Length
      && buf[..|o.written|] == o.written
      && (forall k :: |o.written| <= k < buf.Length ==> buf[k] == old(buf[k]))
  {
    var blen := buf.Length;
    var i, len := 0, 0;
    while i < |src| && len < blen
      invariant 0 <= i <= |src| && 0 <= len <= blen
      invariant EncodeRun(src, blen) == Prepend(buf[..len], EncodeRun(src[i..], blen - len))
      invariant forall k :: len <= k < blen ==> buf[k] == old(buf[k])
      decreases |src| - i
    {
      ghost var done := buf[..len];
      if IsUnreserved(src[i]) {
        EncodeCopy(src, blen, i, done, len);
        buf[len] := src[i];
        assert buf[..len + 1] == done + [src[i]];
        len := len + 1;
      } else if len + 3 <= blen {
        EncodeEscape(src, blen, i, done, len);
        StoreEscape(buf, len, Escape(src[i]));
        len := len + 3;
      } else {
        EncodeOverflow(src, blen, i, done, len);
        break;
      }
      i := i + 1;
    }
    if i == |src| {
      assert src[i..] == [];
    } else if len == blen {
      assert EncodeRun(src[i..], 0) == Outcome(-1, []);
    }
    r := if i == |src| then len else -1;
  }

  // ---------------------------------------------------------------------
  // Round trip

  /** Decoding an encoding gives back the original bytes. */
  lemma {:induction false} DecodeEncode(s: seq<byte>)
    ensures PercentDecode(PercentEncode(s)) == Some(s)
    decreases |s|
  {
    if |s| > 0 {
      DecodeEncode(s[1..]);
      var e := PercentEncode(s);
      if IsUnreserved(s[0]) {
        assert s[0] != PERCENT;
        assert e[1..] == PercentEncode(s[1..]);
      } else {
        assert e[3..] == PercentEncode(s[1..]);
      }
      assert [s[0]] + s[1..] == s;
    }
  }

  /**
   * uh_urldecode(uh_urlencode(s)) == s: when the encoding fits `ebuf` and
   * `dbuf` has room for `s`, decoding what the encoder stored returns `s`.
   */
  lemma UrlRoundTrip(s: seq<byte>, elen: int, dlen: int)
    requires |PercentEncode(s)| <= elen && 0 <= |s| <= dlen
    ensures EncodeRun(s, elen).code == |PercentEncode(s)|
    ensures DecodeRun(EncodeRun(s, elen).written, dlen) == Outcome(|s|, s)
  {
    EncodeRunSucceeds(s, elen);
    DecodeEncode(s);
    DecodeRunSucceeds(PercentEncode(s), dlen);
  }
}
