/** Decimal text for non-negative integers, as `str(n)` and `%d` write them, and its parser. */
module Decimal {
  import opened Base

  const LamportsPerSol: nat := 1_000_000_000

  predicate IsDigit(c: char) { '0' <= c <= '9' }

  predicate AllDigits(s: string) { forall i :: 0 <= i < |s| ==> IsDigit(s[i]) }

  function Digit(d: nat): (c: char)
    requires d < 10
    ensures IsDigit(c)
  {
    (48 + d) as char
  }

  function DigitValue(c: char): nat
    requires IsDigit(c)
  {
    c as int - 48
  }

  /** The shortest decimal numeral of `n`: no leading zero unless `n` is zero itself. */
  function NatToString(n: nat): (s: string)
    ensures |s| > 0 && AllDigits(s)
    ensures s[0] == '0' <==> n == 0
    ensures |s| == 1 || s[0] != '0'
    decreases n
  {
    if n < 10 then [Digit(n)] else NatToString(n / 10) + [Digit(n % 10)]
  }

  /** `%d` of an integer: a minus sign before the numeral of a negative value. */
  function IntToString(i: int): string
  {
    if i < 0 then "-" + NatToString(-i) else NatToString(i)
  }

  function ValueOf(s: string): nat
    requires AllDigits(s)
  {
    if s == [] then 0 else 10 * ValueOf(s[..|s| - 1]) + DigitValue(s[|s| - 1])
  }

  /** Reads a numeral back; anything that is not a non-empty run of digits is refused. */
  function ParseNat(s: string): (r: Option<nat>)
    ensures r.Some? <==> |s| > 0 && AllDigits(s)
  {
    if |s| > 0 && AllDigits(s) then Some(ValueOf(s)) else None
  }

  /** Reading back what `NatToString` wrote gives the number written. */
  lemma {:induction false} ParseNatToString(n: nat)
    ensures ParseNat(NatToString(n)) == Some(n)
  {
    var s := NatToString(n);
    assert DigitValue(s[|s| - 1]) == n % 10;
    if n >= 10 {
      ParseNatToString(n / 10);
      assert s[..|s| - 1] == NatToString(n / 10);
    } else {
      assert s[..|s| - 1] == [] && ValueOf([]) == 0;
    }
    assert ValueOf(s) == 10 * ValueOf(s[..|s| - 1]) + DigitValue(s[|s| - 1]);
  }

  /** Whole SOL of a lamport amount, as `%d` truncates the quotient `lamports / 1e9`. */
  function WholeSol(lamports: nat): (s: string)
    ensures AllDigits(s) && ParseNat(s) == Some(lamports / LamportsPerSol)
    ensures |s| == 1 || s[0] != '0'
  {
    ParseNatToString(lamports / LamportsPerSol);
    NatToString(lamports / LamportsPerSol)
  }

  const LamportsPerHundredth: nat := 10_000_000

  /**
   * A lamport amount in hundredths of a SOL, rounded to the nearest: it lies within half a
   * hundredth of the amount, and a tie goes up.
   */
  function Hundredths(lamports: nat): (h: nat)
    ensures -(LamportsPerHundredth / 2) <= lamports - LamportsPerHundredth * h < LamportsPerHundredth / 2
  {
    (lamports + LamportsPerHundredth / 2) / LamportsPerHundredth
  }

  /**
   * SOL with two decimal places, as `%.2f` writes `lamports / 1e9`, rounding half up: the
   * whole SOL as a numeral, a point, and exactly two digits of hundredths.
   */
  function SolTwoPlaces(lamports: nat): (s: string)
    ensures forall i :: 0 <= i < |s| ==> IsDigit(s[i]) || s[i] == '.'
    ensures |s| >= 4 && s[|s| - 3] == '.'
    ensures ParseNat(s[..|s| - 3]) == Some(Hundredths(lamports) / 100)
    ensures AllDigits(s[|s| - 2..]) && ValueOf(s[|s| - 2..]) == Hundredths(lamports) % 100
    ensures |s| == 4 || s[0] != '0'
  {
    var h := Hundredths(lamports);
    var whole := NatToString(h / 100);
    var fraction := [Digit(h % 100 / 10), Digit(h % 100 % 10)];
    var s := whole + "." + fraction;
    ParseNatToString(h / 100);
    assert s[..|s| - 3] == whole && s[|s| - 2..] == fraction;
    assert fraction[..1] == [fraction[0]] && fraction[..1][..0] == [];
    assert DigitValue(fraction[0]) == h % 100 / 10 && DigitValue(fraction[1]) == h % 100 % 10;
    assert ValueOf(fraction[..1]) == h % 100 / 10;
    assert ValueOf(fraction) == 10 * ValueOf(fraction[..1]) + DigitValue(fraction[1]);
    s
  }
}
