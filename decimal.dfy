/**
 * Decimal integers as Python reads and writes them in the resolver:
 * `int(name)` on a directory name and the f-string `f"{n}"`.
 */
module Decimal {
  import opened Wrappers

  predicate IsDigit(c: char) {
    '0' <= c <= '9'
  }

  predicate AllDigits(s: string) {
    forall i :: 0 <= i < |s| ==> IsDigit(s[i])
  }

  function DigitValue(c: char): (d: nat)
    requires IsDigit(c)
    ensures d < 10
  {
    c as int - '0' as int
  }

  function DigitChar(d: nat): (c: char)
    requires d < 10
    ensures IsDigit(c) && DigitValue(c) == d
  {
    ('0' as int + d) as char
  }

  /** The value of a string of decimal digits, most significant digit first. */
  function DigitsValue(s: string): nat
    requires AllDigits(s)
  {
    if s == [] then 0 else 10 * DigitsValue(s[..|s| - 1]) + DigitValue(s[|s| - 1])
  }

  /**
   * `int(s)` on plain decimal strings: `None` stands for the `ValueError`
   * that Python raises. Leading zeros and a leading sign are accepted.
   */
  function ParseInt(s: string): Option<int> {
    if |s| > 0 && AllDigits(s) then
      Some(DigitsValue(s))
    else if |s| > 1 && (s[0] == '+' || s[0] == '-') && AllDigits(s[1..]) then
      var v: int := DigitsValue(s[1..]);
      if s[0] == '-' then Some(-v) else Some(v)
    else
      None
  }

  /** `f"{n}"` for n >= 0: the shortest digit string denoting n. */
  function RenderNat(n: nat): (s: string)
    ensures |s| > 0 && AllDigits(s) && DigitsValue(s) == n
    ensures s[0] == '0' ==> s == "0"
    decreases n
  {
    if n < 10 then
      [DigitChar(n)]
    else
      var s := RenderNat(n / 10) + [DigitChar(n % 10)];
      assert s[..|s| - 1] == RenderNat(n / 10);
      s
  }

  /** `f"{n}"`: a minus sign for negative numbers, then the digits of |n|. */
  function Render(n: int): (s: string)
    ensures |s| > 0
    ensures s[0] == '-' <==> n < 0
    ensures forall i :: 0 <= i < |s| ==> IsDigit(s[i]) || (i == 0 && s[i] == '-')
  {
    if n < 0 then "-" + RenderNat(-n) else RenderNat(n)
  }

  predicate IsSign(c: char) {
    c == '+' || c == '-'
  }

  /**
   * The strings `int()` accepts: non-empty, not a lone sign, and every
   * character a digit except that the first may be a sign.
   */
  lemma ParseAccepts(s: string)
    ensures ParseInt(s).Some? <==>
      (|s| > 0 && s != "+" && s != "-" &&
       forall i :: 0 <= i < |s| ==> IsDigit(s[i]) || (i == 0 && IsSign(s[i])))
  {
    if |s| > 1 && IsSign(s[0]) {
      assert AllDigits(s[1..]) <==> forall i :: 1 <= i < |s| ==> IsDigit(s[i]) by {
        forall i | 1 <= i < |s| ensures IsDigit(s[i]) == IsDigit(s[1..][i - 1]) {
        }
      }
    }
  }

  /** A sign in front of a digit string: `+` keeps the value, `-` negates it. */
  lemma ParseSign(s: string)
    requires |s| > 0 && AllDigits(s)
    ensures ParseInt(s) == Some(DigitsValue(s) as int)
    ensures ParseInt("+" + s) == ParseInt(s)
    ensures ParseInt("-" + s) == Some(-(DigitsValue(s) as int))
  {
    assert ("+" + s)[1..] == s;
    assert ("-" + s)[1..] == s;
    assert !AllDigits("+" + s) by { assert !IsDigit(("+" + s)[0]); }
    assert !AllDigits("-" + s) by { assert !IsDigit(("-" + s)[0]); }
  }

  /** Reading back what `f"{n}"` wrote gives n: the canonical name re-parses to its version. */
  lemma ParseRender(n: int)
    ensures ParseInt(Render(n)) == Some(n)
  {
  }

  /** Distinct versions get distinct directory names. */
  lemma RenderInjective(m: int, n: int)
    requires Render(m) == Render(n)
    ensures m == n
  {
    ParseRender(m);
    ParseRender(n);
  }

  /** A leading zero does not change the value, so "007" and "7" name the same version. */
  lemma {:induction false} LeadingZero(s: string)
    requires |s| > 0 && AllDigits(s)
    ensures ParseInt("0" + s) == ParseInt(s)
  {
    ZeroPrefixValue(s);
  }

  lemma {:induction false} ZeroPrefixValue(s: string)
    requires AllDigits(s)
    ensures AllDigits("0" + s) && DigitsValue("0" + s) == DigitsValue(s)
  {
    var t := "0" + s;
    if s != [] {
      assert t[..|t| - 1] == "0" + s[..|s| - 1];
      ZeroPrefixValue(s[..|s| - 1]);
    } else {
      assert t[..|t| - 1] == [];
    }
  }
}
