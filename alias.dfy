/**
 * The URL alias table (`alias.c`): an insertion-ordered list of
 * `from`/`to` pairs.  A URL is rewritten by the first alias whose `from`
 * is a prefix of it, the rest of the URL filling the `%s` of the alias's
 * `to` pattern, into a bounded buffer that always ends in a NUL.
 */
module Alias {
  import opened Wrappers

  datatype UrlAlias = UrlAlias(from: string, to: string)

  const Nul: char := 0 as char

  predicate NoNul(s: string)
  {
    forall i :: 0 <= i < |s| ==> s[i] != Nul
  }

  // ---------------------------------------------------------------------
  // The pattern
  // ---------------------------------------------------------------------

  /**
   * `snprintf(to, rest)` without the size bound, for a pattern whose one
   * argument is consumed by its first `%s`: `%%` prints one percent sign
   * and every other character prints as itself.
   */
  function Expand(p: string, arg: string): string
    decreases |p|
  {
    if |p| == 0 then ""
    else if |p| >= 2 && p[0] == '%' && p[1] == '%' then "%" + Expand(p[2..], arg)
    else if |p| >= 2 && p[0] == '%' && p[1] == 's' then arg + Literal(p[2..])
    else [p[0]] + Expand(p[1..], arg)
  }

  /** The pattern after its argument is used: only `%%` is special. */
  function Literal(p: string): string
    decreases |p|
  {
    if |p| == 0 then ""
    else if |p| >= 2 && p[0] == '%' && p[1] == '%' then "%" + Literal(p[2..])
    else [p[0]] + Literal(p[1..])
  }

  predicate NoPercent(s: string)
  {
    forall i :: 0 <= i < |s| ==> s[i] != '%'
  }

  lemma {:induction false} LiteralPlain(p: string)
    requires NoPercent(p)
    ensures Literal(p) == p
    decreases |p|
  {
    if |p| > 0 {
      LiteralPlain(p[1..]);
    }
  }

  /** A pattern without conversions is printed as it is. */
  lemma {:induction false} ExpandPlain(p: string, arg: string)
    requires NoPercent(p)
    ensures Expand(p, arg) == p
    decreases |p|
  {
    if |p| > 0 {
      ExpandPlain(p[1..], arg);
    }
  }

  /** A pattern `a%sb` with plain `a` and `b` prints `a`, the argument, then `b`. */
  lemma {:induction false} ExpandOne(a: string, b: string, arg: string)
    requires NoPercent(a) && NoPercent(b)
    ensures Expand(a + "%s" + b, arg) == a + arg + b
    decreases |a|
  {
    var p := a + "%s" + b;
    if |a| == 0 {
      assert p[2..] == b;
      LiteralPlain(b);
    } else {
      assert p[1..] == a[1..] + "%s" + b;
      ExpandOne(a[1..], b, arg);
    }
  }

  // ---------------------------------------------------------------------
  // The table, as values
  // ---------------------------------------------------------------------

  /** The first alias, in insertion order, whose `from` is a prefix of `url`. */
  function FirstMatch(aliases: seq<UrlAlias>, url: string): (r: Option<nat>)
    ensures r.Some? ==> r.value < |aliases| && aliases[r.value].from <= url
    ensures r.Some? ==> forall j :: 0 <= j < r.value ==> !(aliases[j].from <= url)
    ensures r.None? <==> forall j :: 0 <= j < |aliases| ==> !(aliases[j].from <= url)
  {
    if |aliases| == 0 then None
    else if aliases[0].from <= url then Some(0)
    else
      match FirstMatch(aliases[1..], url)
      case None => None
      case Some(k) => Some(k + 1)
  }

  /** `url` as the table rewrites it, before the buffer bound. */
  function Rewrite(aliases: seq<UrlAlias>, url: string): string
  {
    match FirstMatch(aliases, url)
    case Some(i) => Expand(aliases[i].to, url[|aliases[i].from|..])
    case None => url
  }

  /** An alias added later never changes the match of a URL an earlier alias already takes. */
  lemma {:induction false} AddKeepsEarlierMatch(aliases: seq<UrlAlias>, a: UrlAlias, url: string)
    ensures FirstMatch(aliases + [a], url) ==
      if FirstMatch(aliases, url).Some? then FirstMatch(aliases, url)
      else if a.from <= url then Some(|aliases|)
      else None
    decreases |aliases|
  {
    var b := aliases + [a];
    if |aliases| == 0 {
      assert b == [a] && b[1..] == [];
    } else {
      assert b[0] == aliases[0] && b[1..] == aliases[1..] + [a];
      if !(aliases[0].from <= url) {
        AddKeepsEarlierMatch(aliases[1..], a, url);
      }
    }
  }

  /** How many characters of a `len`-character text fit a `size`-byte buffer with its NUL. */
  function Fit(len: nat, size: nat): (k: nat)
    requires size >= 1
    ensures k <= len && k < size
    ensures k == len || k == size - 1
  {
    if len < size - 1 then len else size - 1
  }

  /** The C string held by a buffer: its characters up to the first NUL. */
  function CString(s: seq<char>): string
  {
    if |s| == 0 || s[0] == Nul then "" else [s[0]] + CString(s[1..])
  }

  /** A buffer holding `t[..k]` and then a NUL reads back as `t[..k]`. */
  lemma {:induction false} CStringOf(s: seq<char>, t: string, k: nat)
    requires k < |s| && k <= |t| && s[..k] == t[..k] && s[k] == Nul && NoNul(t)
    ensures CString(s) == t[..k]
    decreases k
  {
    if k > 0 {
      assert s[0] == t[0];
      assert s[1..][..k - 1] == t[1..][..k - 1];
      CStringOf(s[1..], t[1..], k - 1);
      assert t[..k] == [t[0]] + t[1..][..k - 1];
    }
  }

  // ---------------------------------------------------------------------
  // The table
  // ---------------------------------------------------------------------

  /** The global `aliases` list. */
  class AliasTable {
    var aliases: seq<UrlAlias>

    constructor()
      ensures aliases == []
    {
      aliases := [];
    }

    /** `uh_alias_add`: the new alias goes to the tail; earlier ones stay as they are. */
    method Add(from: string, to: string)
      modifies this
      ensures aliases == old(aliases) + [UrlAlias(from, to)]
    {
      aliases := aliases + [UrlAlias(from, to)];
    }

    /**
     * `uh_alias_transform`: the first matching alias rewrites `url` into
     * `dest` through `snprintf`, which leaves the bytes past its NUL
     * alone; without a match `strncpy` copies `url` and pads the buffer
     * with NULs.  Either way the last byte is set to NUL.
     */
    method Transform(url: string, dest: array<char>) returns (matched: bool)
      requires dest.Length >= 1
      modifies dest
      ensures matched <==> FirstMatch(aliases, url).Some?
      ensures var t := Rewrite(aliases, url); var k := Fit(|t|, dest.Length);
        dest[..k] == t[..k] && dest[k] == Nul && dest[dest.Length - 1] == Nul
      ensures matched ==>
        forall i :: Fit(|Rewrite(aliases, url)|, dest.Length) < i < dest.Length - 1 ==> dest[i] == old(dest[i])
      ensures !matched ==>
        forall i :: Fit(|url|, dest.Length) <= i < dest.Length ==> dest[i] == Nul
    {
      var i := 0;
      while i < |aliases|
        invariant 0 <= i <= |aliases|
        invariant forall j :: 0 <= j < i ==> !(aliases[j].from <= url)
      {
        if aliases[i].from <= url {
          assert FirstMatch(aliases, url) == Some(i);
          PrintBounded(dest, Expand(aliases[i].to, url[|aliases[i].from|..]));
          dest[dest.Length - 1] := Nul;
          return true;
        }
        i := i + 1;
      }
      CopyPadded(dest, url);
      dest[dest.Length - 1] := Nul;
      return false;
    }
  }

  /** `snprintf(dest, dest_l, …)` of `text`: as much as fits, then a NUL; the rest is untouched. */
  method PrintBounded(dest: array<char>, text: string)
    requires dest.Length >= 1
    modifies dest
    ensures var k := Fit(|text|, dest.Length);
      dest[..k] == text[..k] && dest[k] == Nul && dest[k + 1..] == old(dest[k + 1..])
  {
    var k := Fit(|text|, dest.Length);
    var i := 0;
    while i < k
      invariant 0 <= i <= k
      invariant dest[..i] == text[..i]
      invariant dest[i..] == old(dest[i..])
    {
      dest[i] := text[i];
      i := i + 1;
    }
    dest[k] := Nul;
  }

  /** `strncpy(dest, url, dest_l)`: `url` as far as it fits, and NULs to the end of the buffer. */
  method CopyPadded(dest: array<char>, url: string)
    modifies dest
    ensures var n := if |url| < dest.Length then |url| else dest.Length;
      dest[..n] == url[..n] && forall i :: n <= i < dest.Length ==> dest[i] == Nul
  {
    var n := if |url| < dest.Length then |url| else dest.Length;
    var i := 0;
    while i < dest.Length
      invariant 0 <= i <= dest.Length
      invariant forall j :: 0 <= j < i && j < n ==> dest[j] == url[j]
      invariant forall j :: n <= j < i ==> dest[j] == Nul
    {
      dest[i] := if i < |url| then url[i] else Nul;
      i := i + 1;
    }
  }

  /** A rewritten URL without NULs reads back from the buffer truncated to `dest_l - 1` characters. */
  lemma TransformReadsBack(aliases: seq<UrlAlias>, url: string, dest: seq<char>)
    requires |dest| >= 1 && NoNul(Rewrite(aliases, url))
    requires var t := Rewrite(aliases, url); var k := Fit(|t|, |dest|); dest[..k] == t[..k] && dest[k] == Nul
    ensures var t := Rewrite(aliases, url); CString(dest) == t[..Fit(|t|, |dest|)]
  {
    var t := Rewrite(aliases, url);
    CStringOf(dest, t, Fit(|t|, |dest|));
  }
}
