/**
 * The lenient base64 decoder uh_b64decode of utils.c (alphabet of section 4
 * of RFC 4648). Bytes outside the alphabet are skipped, `=` counts as zero
 * bits, and three bytes are stored whenever a character of the alphabet sits
 * at an input index that is 3 modulo 4. The accumulator is the source's
 * 32-bit unsigned `cout`.
 */
module Base64 {
  import opened Bytes
  import opened Wrappers

  /** The six bits a byte stands for, `=` as zero; None for a byte the decoder skips. */
  function Sextet(b: byte): (v: Option<nat>)
    ensures v.Some? ==> v.value < 64
  {
    if IsDigit(b) then Some(b as int - '0' as int + 52)
    else if 'A' as int <= b as int <= 'Z' as int then Some(b as int - 'A' as int)
    else if 'a' as int <= b as int <= 'z' as int then Some(b as int - 'a' as int + 26)
    else if b == Ascii('+') then Some(62)
    else if b == Ascii('/') then Some(63)
    else if b == Ascii('=') then Some(0)
    else None
  }

  const WORD: nat := 4294967296

  /**
   * `cout = (cout << 6) | cin` in the source's 32-bit unsigned arithmetic:
   * the shift drops the bits that leave the word.
   */
  function Shift6(cout: nat, v: nat): (c: nat)
    requires v < 64
    ensures c < WORD
  {
    (cout * 64 + v) % WORD
  }

  /**
   * The three bytes `(char)(x >> 16)`, `(char)(x >> 8)`, `(char)x` of a
   * word; for a 24-bit group these are its three octets.
   */
  function Octets(x: nat): seq<byte>
  {
    [((x / 65536) % 256) as byte, ((x / 256) % 256) as byte, (x % 256) as byte]
  }

  /**
   * The loop of uh_b64decode from input index `i`, with accumulator `cout`
   * and the bytes `out` stored so far; the result is everything stored
   * before the terminating NUL.
   */
  function B64Run(src: seq<byte>, slen: int, blen: int, i: nat, cout: nat, out: seq<byte>): seq<byte>
    requires slen < |src|
    decreases |src| - i
  {
    if i > slen || src[i] == 0 then out
    else
      match Sextet(src[i])
      case None => B64Run(src, slen, blen, i + 1, cout, out)
      case Some(v) =>
        var c := Shift6(cout, v);
        if i % 4 == 3 then
          (if |out| + 3 < blen then B64Run(src, slen, blen, i + 1, c, out + Octets(c)) else out)
        else B64Run(src, slen, blen, i + 1, c, out)
  }

  /** What uh_b64decode stores before its NUL, for a buffer of `blen` bytes. */
  function B64Decoded(src: seq<byte>, slen: int, blen: int): seq<byte>
    requires slen < |src|
  {
    B64Run(src, slen, blen, 0, 0, [])
  }

  /**
   * The decoder only ever adds whole triples, and it never fills the buffer:
   * one byte is always left for the terminator.
   */
  lemma {:induction false} B64RunBound(src: seq<byte>, slen: int, blen: int, i: nat, cout: nat, out: seq<byte>)
    requires slen < |src|
    requires |out| % 3 == 0 && |out| < blen
    ensures var r := B64Run(src, slen, blen, i, cout, out);
      |r| % 3 == 0 && |out| <= |r| < blen && r[..|out|] == out
    decreases |src| - i
  {
    if i > slen || src[i] == 0 {
    } else {
      match Sextet(src[i])
      case None => B64RunBound(src, slen, blen, i + 1, cout, out);
      case Some(v) =>
        var c := Shift6(cout, v);
        if i % 4 == 3 {
          if |out| + 3 < blen {
            B64RunBound(src, slen, blen, i + 1, c, out + Octets(c));
            var r := B64Run(src, slen, blen, i + 1, c, out + Octets(c));
            assert r[..|out|] == r[..|out| + 3][..|out|];
          }
        } else {
          B64RunBound(src, slen, blen, i + 1, c, out);
        }
    }
  }

  /** uh_b64decode's returned length, which counts the NUL, is at most `blen`. */
  lemma B64DecodedBound(src: seq<byte>, slen: int, blen: int)
    requires slen < |src| && blen >= 1
    ensures |B64Decoded(src, slen, blen)| % 3 == 0
    ensures |B64Decoded(src, slen, blen)| + 1 <= blen
  {
    B64RunBound(src, slen, blen, 0, 0, []);
  }

  // ---------------------------------------------------------------------
  // The group-wise decoding, `=` as zero bits.

  /** Every byte is in the alphabet or is `=`, so nothing is skipped. */
  predicate Canonical(s: seq<byte>)
  {
    forall k :: 0 <= k < |s| ==> Sextet(s[k]).Some?
  }

  /**
   * The decoding of one four-character group: the four sextets (`=` as
   * zero) concatenated into 24 bits, split into three octets.
   */
  function Group(a: nat, b: nat, c: nat, d: nat): seq<byte>
    requires a < 64 && b < 64 && c < 64 && d < 64
  {
    Octets(a * 262144 + b * 4096 + c * 64 + d)
  }

  /**
   * Group-by-group decoding of an input of whole four-character groups,
   * `=` counting as zero bits. On input without `=` this is the decoding
   * of section 4 of RFC 4648; a padded final group gives the octets that
   * standard keeps followed by the group's remaining bits and zero bytes
   * (B64DecodedFinalGroup, PadTwoGroup, PadOneGroup).
   */
  function Decode(s: seq<byte>): seq<byte>
    requires Canonical(s) && |s| % 4 == 0
  {
    DecodeSextets(SextetsOf(s))
  }

  /** The six-bit values of the bytes of a canonical input. */
  function SextetsOf(s: seq<byte>): (vs: seq<nat>)
    requires Canonical(s)
    ensures |vs| == |s| && Sextets(vs)
    ensures forall k :: 0 <= k < |s| ==> vs[k] == Sextet(s[k]).value
  {
    seq(|s|, k requires 0 <= k < |s| => Sextet(s[k]).value)
  }

  predicate Sextets(vs: seq<nat>)
  {
    forall k :: 0 <= k < |vs| ==> vs[k] < 64
  }

  /** The groups of four six-bit values, each split into three octets. */
  function DecodeSextets(vs: seq<nat>): seq<byte>
    requires Sextets(vs) && |vs| % 4 == 0
    decreases |vs|
  {
    if |vs| == 0 then [] else Group(vs[0], vs[1], vs[2], vs[3]) + DecodeSextets(vs[4..])
  }

  /**
   * One shift keeps the low bits of the previous word below the new sextet:
   * the low 6, 12, 18 and 24 bits after the shift.
   */
  lemma ShiftLow6(x: nat, v: nat)
    requires v < 64
    ensures Shift6(x, v) % 64 == v
  {
    var y := x * 64 + v;
    var q := y / WORD;
    assert y == q * WORD + Shift6(x, v);
    assert Shift6(x, v) == (x - q * 67108864) * 64 + v;
  }

  lemma ShiftLow12(x: nat, v: nat)
    requires v < 64
    ensures Shift6(x, v) % 4096 == (x % 64) * 64 + v
  {
    var y := x * 64 + v;
    var q := y / WORD;
    assert y == q * WORD + Shift6(x, v);
    var q6 := x / 64;
    assert x == q6 * 64 + x % 64;
    assert Shift6(x, v) == (q6 - q * 1048576) * 4096 + ((x % 64) * 64 + v);
  }

  lemma ShiftLow18(x: nat, v: nat)
    requires v < 64
    ensures Shift6(x, v) % 262144 == (x % 4096) * 64 + v
  {
    var y := x * 64 + v;
    var q := y / WORD;
    assert y == q * WORD + Shift6(x, v);
    var q12 := x / 4096;
    assert x == q12 * 4096 + x % 4096;
    assert Shift6(x, v) == (q12 - q * 16384) * 262144 + ((x % 4096) * 64 + v);
  }

  lemma ShiftLow24(x: nat, v: nat)
    requires v < 64
    ensures Shift6(x, v) % 16777216 == (x % 262144) * 64 + v
  {
    var y := x * 64 + v;
    var q := y / WORD;
    assert y == q * WORD + Shift6(x, v);
    var q18 := x / 262144;
    assert x == q18 * 262144 + x % 262144;
    assert Shift6(x, v) == (q18 - q * 256) * 16777216 + ((x % 262144) * 64 + v);
  }

  /** The octets of a word depend only on its low 24 bits. */
  lemma OctetsLow(x: nat)
    ensures Octets(x) == Octets(x % 16777216)
  {
    var q, n := x / 16777216, x % 16777216;
    assert x == q * 16777216 + n;
    HighOctet(x, q, n);
    MiddleOctet(x, q, n);
    LowOctet(x, q, n);
  }

  lemma LowOctet(x: nat, q: nat, n: nat)
    requires x == q * 16777216 + n && n < 16777216
    ensures x % 256 == n % 256
  {
    assert x == (q * 65536) * 256 + n;
  }

  lemma HighOctet(x: nat, q: nat, n: nat)
    requires x == q * 16777216 + n && n < 16777216
    ensures (x / 65536) % 256 == (n / 65536) % 256
  {
    assert x / 65536 == q * 256 + n / 65536;
  }

  lemma MiddleOctet(x: nat, q: nat, n: nat)
    requires x == q * 16777216 + n && n < 16777216
    ensures (x / 256) % 256 == (n / 256) % 256
  {
    assert x / 256 == q * 65536 + n / 256;
  }

  /** After four sextets the low 24 bits of the accumulator are exactly that group. */
  lemma GroupFromAccumulator(cout: nat, a: nat, b: nat, c: nat, d: nat)
    requires a < 64 && b < 64 && c < 64 && d < 64
    ensures Octets(Shift6(Shift6(Shift6(Shift6(cout, a), b), c), d)) == Group(a, b, c, d)
  {
    var x1 := Shift6(cout, a);
    var x2 := Shift6(x1, b);
    var x3 := Shift6(x2, c);
    var x4 := Shift6(x3, d);
    ShiftLow6(cout, a);
    ShiftLow12(x1, b);
    ShiftLow18(x2, c);
    ShiftLow24(x3, d);
    assert x4 % 16777216 == a * 262144 + b * 4096 + c * 64 + d;
    OctetsLow(x4);
  }

  /** One step of the loop on a byte of the alphabet at an index that does not store. */
  lemma B64RunShift(src: seq<byte>, slen: int, blen: int, i: nat, cout: nat, out: seq<byte>)
    requires slen < |src| && i <= slen && src[i] != 0 && Sextet(src[i]).Some? && i % 4 != 3
    ensures B64Run(src, slen, blen, i, cout, out) ==
      B64Run(src, slen, blen, i + 1, Shift6(cout, Sextet(src[i]).value), out)
  {
  }

  /** One step of the loop on a byte of the alphabet at a storing index, with room left. */
  lemma B64RunStore(src: seq<byte>, slen: int, blen: int, i: nat, cout: nat, out: seq<byte>)
    requires slen < |src| && i <= slen && src[i] != 0 && Sextet(src[i]).Some? && i % 4 == 3
    requires |out| + 3 < blen
    ensures var c := Shift6(cout, Sextet(src[i]).value);
      B64Run(src, slen, blen, i, cout, out) == B64Run(src, slen, blen, i + 1, c, out + Octets(c))
  {
  }

  lemma SuffixMod4(n: nat, i: nat)
    requires n % 4 == 0 && i % 4 == 0 && i <= n
    ensures (n - i) % 4 == 0
  {
    var p, q := n / 4, i / 4;
    assert n - i == 4 * (p - q);
  }

  lemma DecodeAt(s: seq<byte>, i: nat)
    requires Canonical(s) && |s| % 4 == 0 && i % 4 == 0 && i + 4 <= |s|
    ensures Canonical(s[i..]) && Canonical(s[i + 4..])
    ensures Decode(s[i..]) ==
      Group(Sextet(s[i]).value, Sextet(s[i + 1]).value, Sextet(s[i + 2]).value, Sextet(s[i + 3]).value)
        + Decode(s[i + 4..])
  {
    var t := s[i..];
    assert Canonical(t) by {
      forall k | 0 <= k < |t| ensures Sextet(t[k]).Some? { assert t[k] == s[i + k]; }
    }
    assert t[4..] == s[i + 4..];
    SuffixMod4(|s|, i);
    assert |t| == 4 * (|t| / 4);
    var vs := SextetsOf(t);
    assert vs[4..] == SextetsOf(s[i + 4..]);
    assert vs[0] == Sextet(s[i]).value && vs[1] == Sextet(s[i + 1]).value;
    assert vs[2] == Sextet(s[i + 2]).value && vs[3] == Sextet(s[i + 3]).value;
  }


  /** The four characters of one group advance the loop by one group. */
  lemma B64RunGroup(src: seq<byte>, s: seq<byte>, blen: int, i: nat, cout: nat, out: seq<byte>)
    requires src == s + [0] && Canonical(s)
    requires i % 4 == 0 && i + 4 <= |s| && |out| + 3 < blen
    ensures var a, b, c, d := Sextet(s[i]).value, Sextet(s[i + 1]).value, Sextet(s[i + 2]).value, Sextet(s[i + 3]).value;
      B64Run(src, |s|, blen, i, cout, out) ==
        B64Run(src, |s|, blen, i + 4, Shift6(Shift6(Shift6(Shift6(cout, a), b), c), d), out + Group(a, b, c, d))
  {
    var a, b, c, d := Sextet(s[i]).value, Sextet(s[i + 1]).value, Sextet(s[i + 2]).value, Sextet(s[i + 3]).value;
    assert src[i] == s[i] && src[i + 1] == s[i + 1] && src[i + 2] == s[i + 2] && src[i + 3] == s[i + 3];
    assert s[i] != 0 && s[i + 1] != 0 && s[i + 2] != 0 && s[i + 3] != 0;
    var c1 := Shift6(cout, a);
    var c2 := Shift6(c1, b);
    var c3 := Shift6(c2, c);
    Mod4Steps(i);
    B64RunShift(src, |s|, blen, i, cout, out);
    B64RunShift(src, |s|, blen, i + 1, c1, out);
    B64RunShift(src, |s|, blen, i + 2, c2, out);
    B64RunStore(src, |s|, blen, i + 3, c3, out);
    GroupFromAccumulator(cout, a, b, c, d);
  }

  lemma Mod4Steps(i: nat)
    requires i % 4 == 0
    ensures (i + 1) % 4 == 1 && (i + 2) % 4 == 2 && (i + 3) % 4 == 3
  {
  }

  /**
   * On a NUL-terminated canonical input with room for its decoding,
   * uh_b64decode stores the group-wise decoding.
   */
  lemma {:induction false} B64RunCanonical(src: seq<byte>, s: seq<byte>, blen: int, i: nat, cout: nat, out: seq<byte>)
    requires src == s + [0] && Canonical(s) && |s| % 4 == 0
    requires i % 4 == 0 && i <= |s| && 4 * |out| == 3 * i
    requires 3 * |s| < 4 * blen
    ensures Canonical(s[i..]) && |s[i..]| % 4 == 0
    ensures B64Run(src, |s|, blen, i, cout, out) == out + Decode(s[i..])
    decreases |s| - i
  {
    SuffixMod4(|s|, i);
    if i == |s| {
      assert src[i] == 0;
      assert s[i..] == [];
    } else {
      assert i + 4 <= |s| by {
        var p, q := |s| / 4, i / 4;
        assert |s| == 4 * p && i == 4 * q;
      }
      var a, b, c, d := Sextet(s[i]).value, Sextet(s[i + 1]).value, Sextet(s[i + 2]).value, Sextet(s[i + 3]).value;
      var c4 := Shift6(Shift6(Shift6(Shift6(cout, a), b), c), d);
      var g := Group(a, b, c, d);
      B64RunGroup(src, s, blen, i, cout, out);
      B64RunCanonical(src, s, blen, i + 4, c4, out + g);
      DecodeAt(s, i);
      assert out + g + Decode(s[i + 4..]) == out + (g + Decode(s[i + 4..]));
    }
  }

  /** On whole groups of the alphabet or `=`, uh_b64decode stores the group-wise decoding. */
  lemma B64DecodedCanonical(s: seq<byte>, blen: int)
    requires Canonical(s) && |s| % 4 == 0
    requires 3 * (|s| / 4) < blen
    ensures B64Decoded(s + [0], |s|, blen) == Decode(s)
  {
    assert 3 * |s| < 4 * blen by {
      var m := |s| / 4;
      assert |s| == 4 * m;
    }
    B64RunCanonical(s + [0], s, blen, 0, 0, []);
    assert s[0..] == s;
  }

  /**
   * The bit layout of a group (section 4 of RFC 4648): the first octet is
   * the first sextet and the high two bits of the second, and so on.
   */
  lemma GroupOctets(a: nat, b: nat, c: nat, d: nat)
    requires a < 64 && b < 64 && c < 64 && d < 64
    ensures Group(a, b, c, d) ==
      [(a * 4 + b / 16) as byte, ((b % 16) * 16 + c / 4) as byte, ((c % 4) * 64 + d) as byte]
  {
    var h, m, l := a * 4 + b / 16, (b % 16) * 16 + c / 4, (c % 4) * 64 + d;
    var x := a * 262144 + b * 4096 + c * 64 + d;
    assert b == 16 * (b / 16) + b % 16 && c == 4 * (c / 4) + c % 4;
    assert x == h * 65536 + m * 256 + l;
    OctetsOf(x, h, m, l);
  }

  lemma OctetsOf(x: nat, h: nat, m: nat, l: nat)
    requires h < 256 && m < 256 && l < 256 && x == h * 65536 + m * 256 + l
    ensures Octets(x) == [h as byte, m as byte, l as byte]
  {
    assert x / 65536 == h;
    assert x / 256 == h * 256 + m;
    assert (h * 256 + m) % 256 == m;
    assert x % 256 == l;
  }

  /** Decoding one more group appends its octets. */
  lemma {:induction false} DecodeSextetsAppend(t: seq<nat>, g: seq<nat>)
    requires Sextets(t) && Sextets(g) && |t| % 4 == 0 && |g| == 4
    ensures Sextets(t + g) && |t + g| % 4 == 0
    ensures DecodeSextets(t + g) == DecodeSextets(t) + DecodeSextets(g)
    decreases |t|
  {
    var s := t + g;
    assert Sextets(s) by {
      forall k | 0 <= k < |s| ensures s[k] < 64 {
        if k < |t| { assert s[k] == t[k]; } else { assert s[k] == g[k - |t|]; }
      }
    }
    var q := |t| / 4;
    assert |t| == 4 * q && |s| == 4 * (q + 1);
    if |t| == 0 {
      assert s == g;
    } else {
      var t' := t[4..];
      assert |t'| == 4 * (q - 1) && |t' + g| == 4 * q;
      DecodeSextetsAppend(t', g);
      assert s[4..] == t' + g;
      assert s[0] == t[0] && s[1] == t[1] && s[2] == t[2] && s[3] == t[3];
      var G := Group(t[0], t[1], t[2], t[3]);
      assert DecodeSextets(s) == G + DecodeSextets(t' + g);
      assert DecodeSextets(t) == G + DecodeSextets(t');
      AppendAssoc(G, DecodeSextets(t'), DecodeSextets(g));
    }
  }

  lemma AppendAssoc(x: seq<byte>, y: seq<byte>, z: seq<byte>)
    ensures x + (y + z) == (x + y) + z
  {
  }

  lemma DecodeAppend(t: seq<byte>, g: seq<byte>)
    requires Canonical(t) && Canonical(g) && |t| % 4 == 0 && |g| == 4
    ensures Canonical(t + g) && |t + g| % 4 == 0
    ensures Decode(t + g) == Decode(t) + Decode(g)
  {
    var s := t + g;
    assert Canonical(s) by {
      forall k | 0 <= k < |s| ensures Sextet(s[k]).Some? {
        if k < |t| { assert s[k] == t[k]; } else { assert s[k] == g[k - |t|]; }
      }
    }
    assert SextetsOf(s) == SextetsOf(t) + SextetsOf(g);
    DecodeSextetsAppend(SextetsOf(t), SextetsOf(g));
  }

  /** A single group decodes to its three octets. */
  lemma DecodeOne(g: seq<byte>)
    requires Canonical(g) && |g| == 4
    ensures Decode(g) == Group(Sextet(g[0]).value, Sextet(g[1]).value, Sextet(g[2]).value, Sextet(g[3]).value)
  {
    var vs := SextetsOf(g);
    assert vs[4..] == [];
    assert vs[0] == Sextet(g[0]).value && vs[1] == Sextet(g[1]).value;
    assert vs[2] == Sextet(g[2]).value && vs[3] == Sextet(g[3]).value;
    assert DecodeSextets(vs) == Group(vs[0], vs[1], vs[2], vs[3]) + DecodeSextets(vs[4..]);
  }


  /**
   * The last group of a canonical input, read by uh_b64decode: everything
   * before it decodes as before, then its three octets in the layout of
   * GroupOctets.
   */
  lemma B64DecodedFinalGroup(t: seq<byte>, g: seq<byte>, blen: int)
    requires Canonical(t) && Canonical(g) && |t| % 4 == 0 && |g| == 4
    requires 3 * (|t| / 4) + 3 < blen
    ensures var a, b, c, d := Sextet(g[0]).value, Sextet(g[1]).value, Sextet(g[2]).value, Sextet(g[3]).value;
      B64Decoded(t + g + [0], |t| + 4, blen) ==
        Decode(t) + [(a * 4 + b / 16) as byte, ((b % 16) * 16 + c / 4) as byte, ((c % 4) * 64 + d) as byte]
  {
    DecodeAppend(t, g);
    DecodeOne(g);
    assert (|t| + 4) / 4 == |t| / 4 + 1;
    B64DecodedCanonical(t + g, blen);
    GroupOctets(Sextet(g[0]).value, Sextet(g[1]).value, Sextet(g[2]).value, Sextet(g[3]).value);
  }

  /**
   * A final group `xy==`: the one octet RFC 4648 decodes, then the low four
   * bits of `y` (zero in a canonical encoding) and a zero byte.
   */
  lemma PadTwoGroup(t: seq<byte>, x: byte, y: byte, blen: int)
    requires Canonical(t) && |t| % 4 == 0 && Sextet(x).Some? && Sextet(y).Some?
    requires 3 * (|t| / 4) + 3 < blen
    ensures var a, b := Sextet(x).value, Sextet(y).value;
      B64Decoded(t + [x, y, Ascii('='), Ascii('=')] + [0], |t| + 4, blen) ==
        Decode(t) + [(a * 4 + b / 16) as byte, ((b % 16) * 16) as byte, 0]
  {
    B64DecodedFinalGroup(t, [x, y, Ascii('='), Ascii('=')], blen);
  }

  /**
   * A final group `xyz=`: the two octets RFC 4648 decodes, then the low two
   * bits of `z` (zero in a canonical encoding) as the third byte.
   */
  lemma PadOneGroup(t: seq<byte>, x: byte, y: byte, z: byte, blen: int)
    requires Canonical(t) && |t| % 4 == 0 && Sextet(x).Some? && Sextet(y).Some? && Sextet(z).Some?
    requires 3 * (|t| / 4) + 3 < blen
    ensures var a, b, c := Sextet(x).value, Sextet(y).value, Sextet(z).value;
      B64Decoded(t + [x, y, z, Ascii('=')] + [0], |t| + 4, blen) ==
        Decode(t) + [(a * 4 + b / 16) as byte, ((b % 16) * 16 + c / 4) as byte, ((c % 4) * 64) as byte]
  {
    B64DecodedFinalGroup(t, [x, y, z, Ascii('=')], blen);
  }

  /** `QQ==` is stored as `A` and two zero bytes, then the NUL. */
  lemma PaddedQuantum(blen: int)
    requires blen > 3
    ensures B64Decoded([Ascii('Q'), Ascii('Q'), Ascii('='), Ascii('='), 0], 4, blen) == [Ascii('A'), 0, 0]
  {
    PadTwoGroup([], Ascii('Q'), Ascii('Q'), blen);
    assert [] + [Ascii('Q'), Ascii('Q'), Ascii('='), Ascii('=')] + [0] == [Ascii('Q'), Ascii('Q'), Ascii('='), Ascii('='), 0];
  }

  /**
   * uh_b64decode with `blen` the size of `buf`; `src[slen]` is read, so the
   * input carries its terminator. The stored NUL is counted in the result.
   */
  method B64Decode(buf: array<byte>, src: seq<byte>, slen: int) returns (r: int)
    requires slen < |src|
    requires buf.Length >= 1
    modifies buf
    ensures 1 <= r <= buf.Length
    ensures buf[..r] == B64Decoded(src, slen, buf.Length) + [0]
    ensures forall k :: r <= k < buf.Length ==> buf[k] == old(buf[k])
  {
    var blen := buf.Length;
    var i: nat, len := 0, 0;
    var cout: nat := 0;
    while i <= slen && src[i] != 0
      invariant 0 <= len < blen
      invariant B64Decoded(src, slen, blen) == B64Run(src, slen, blen, i, cout, buf[..len])
      invariant forall k :: len <= k < blen ==> buf[k] == old(buf[k])
      decreases |src| - i
    {
      var v := Sextet(src[i]);
      if v.None? {
        i := i + 1;
        continue;
      }
      var c := Shift6(cout, v.value);
      if i % 4 == 3 {
        if len + 3 < blen {
          B64RunStore(src, slen, blen, i, cout, buf[..len]);
          ghost var done := buf[..len];
          buf[len] := ((c / 65536) % 256) as byte;
          buf[len + 1] := ((c / 256) % 256) as byte;
          buf[len + 2] := (c % 256) as byte;
          assert buf[..len + 3] == done + Octets(c);
          len := len + 3;
        } else {
          cout := c;
          break;
        }
      } else {
        B64RunShift(src, slen, blen, i, cout, buf[..len]);
      }
      cout := c;
      i := i + 1;
    }
    buf[len] := 0;
    r := len + 1;
    assert buf[..r] == buf[..len] + [0];
  }
}
