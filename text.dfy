/**
 * Character classes and decimal text shared by the lexers and the code
 * generators: `'0'..='9'`, the value of a digit run (`str::parse`),
 * the decimal rendering of an integer (`format!("{}", i)`), and the end
 * of the maximal run of characters passing a test (`read_while`,
 * `consume_while`).
 */
module Text {

  predicate IsDigit(c: char) {
    '0' <= c <= '9'
  }

  predicate AllDigits(s: string) {
    forall i :: 0 <= i < |s| ==> IsDigit(s[i])
  }

  function DigitValue(c: char): (d: nat)
    requires IsDigit(c)
    ensures d < 10
  {
    c as int - '0' as int
  }

  function DigitChar(d: nat): (c: char)
    requires d < 10
    ensures IsDigit(c) && DigitValue(c) == d
  {
    ('0' as int + d) as char
  }

  /** The number a string of decimal digits denotes (leading zeros allowed). */
  function DigitsValue(s: string): nat
    requires AllDigits(s)
  {
    if s == [] then 0 else DigitsValue(s[..|s| - 1]) * 10 + DigitValue(s[|s| - 1])
  }

  /** Decimal rendering of a natural number, without leading zeros. */
  function NatToString(n: nat): (s: string)
    ensures |s| > 0 && AllDigits(s)
    ensures |s| > 1 ==> s[0] != '0'
    decreases n
  {
    if n < 10 then [DigitChar(n)] else NatToString(n / 10) + [DigitChar(n % 10)]
  }

  /** Decimal rendering of a signed integer, as Rust's `Display` writes it. */
  function IntToString(i: int): (s: string)
    ensures |s| > 0
    ensures i >= 0 ==> s == NatToString(i)
    ensures i < 0 ==> s[0] == '-' && s[1..] == NatToString(-i)
  {
    if i < 0 then "-" + NatToString(-i) else NatToString(i)
  }

  /** Reading back what NatToString wrote yields the number again. */
  lemma {:induction false} DigitsValueOfNatToString(n: nat)
    ensures DigitsValue(NatToString(n)) == n
    decreases n
  {
    var s := NatToString(n);
    if n >= 10 {
      DigitsValueOfNatToString(n / 10);
      assert s[..|s| - 1] == NatToString(n / 10);
    }
  }

  /**
   * The end of the maximal run of characters of `s`, starting at `pos`,
   * that pass `test`.
   */
  function RunEnd(s: string, pos: nat, test: char -> bool): (e: nat)
    requires pos <= |s|
    ensures pos <= e <= |s|
    ensures forall i :: pos <= i < e ==> test(s[i])
    ensures e < |s| ==> !test(s[e])
    decreases |s| - pos
  {
    if pos < |s| && test(s[pos]) then RunEnd(s, pos + 1, test) else pos
  }

  /** A run that is maximal by construction is the one RunEnd finds. */
  lemma RunEndIs(s: string, pos: nat, e: nat, test: char -> bool)
    requires pos <= e <= |s|
    requires forall i :: pos <= i < e ==> test(s[i])
    requires e < |s| ==> !test(s[e])
    ensures RunEnd(s, pos, test) == e
  {
  }
}
