/** Decimal numerals as `printf` prints them with `%i` and `%03i`. */
module Format {

  function DecimalDigit(d: nat): (c: char)
    requires d < 10
  {
    ('0' as int + d) as char
  }

  predicate IsDecimalDigit(c: char) { '0' <= c <= '9' }

  /** `%i` of a non-negative value: no leading zeros, "0" for zero. */
  function Decimal(n: nat): (s: string)
    ensures |s| >= 1
    ensures forall i :: 0 <= i < |s| ==> IsDecimalDigit(s[i])
    decreases n
  {
    if n < 10 then [DecimalDigit(n)] else Decimal(n / 10) + [DecimalDigit(n % 10)]
  }

  /** Value of a decimal numeral. */
  function DecimalValue(s: string): nat
    requires forall i :: 0 <= i < |s| ==> IsDecimalDigit(s[i])
    decreases |s|
  {
    if |s| == 0 then 0
    else
      assert IsDecimalDigit(s[|s| - 1]);
      10 * DecimalValue(s[..|s| - 1]) + (s[|s| - 1] as int - '0' as int)
  }

  lemma {:induction false} DecimalValueOfDecimal(n: nat)
    ensures DecimalValue(Decimal(n)) == n
    decreases n
  {
    if n >= 10 {
      DecimalValueOfDecimal(n / 10);
      var s := Decimal(n);
      assert s[..|s| - 1] == Decimal(n / 10);
    }
  }

  /** `%i` of any integer. */
  function Integer(i: int): (s: string)
  {
    if i < 0 then "-" + Decimal(-i) else Decimal(i)
  }

  /** `%03i` of a non-negative value: padded with zeros to at least three digits. */
  function Padded3(n: nat): (s: string)
    ensures |s| >= 3
    ensures forall i :: 0 <= i < |s| ==> IsDecimalDigit(s[i])
    ensures DecimalValue(s) == n
  {
    var d := Decimal(n);
    DecimalValueOfDecimal(n);
    var p := if |d| >= 3 then d else (if |d| == 2 then "0" + d else "00" + d);
    LeadingZeros(p, d);
    p
  }

  lemma {:induction false} LeadingZeros(p: string, d: string)
    requires forall i :: 0 <= i < |d| ==> IsDecimalDigit(d[i])
    requires p == d || p == "0" + d || p == "00" + d
    ensures forall i :: 0 <= i < |p| ==> IsDecimalDigit(p[i])
    ensures DecimalValue(p) == DecimalValue(d)
    decreases |d|
  {
    if |d| > 0 && p != d {
      var q := p[..|p| - 1];
      assert q == d[..|d| - 1] || q == "0" + d[..|d| - 1] || q == "00" + d[..|d| - 1];
      LeadingZeros(q, d[..|d| - 1]);
    } else if |d| == 0 && p == "00" {
      assert p[..1] == "0";
    }
  }
}
