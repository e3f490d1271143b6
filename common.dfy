/** Values shared by the receipt and dashboard modules. */
module Common {

  /** JavaScript's `null`/`undefined` versus a present value. */
  datatype Option<+T> = None | Some(value: T)

  predicate IsDigit(c: char)
  {
    '0' <= c <= '9'
  }

  function DigitValue(c: char): (d: nat)
    requires IsDigit(c)
    ensures d < 10
  {
    (c as int) - ('0' as int)
  }

  /** The decimal value of the first n characters of a string of digits. */
  function DecimalPrefix(u: string, n: nat): nat
    requires n <= |u|
  {
    if n == 0 then 0
    else DecimalPrefix(u, n - 1) * 10 + (if IsDigit(u[n - 1]) then DigitValue(u[n - 1]) else 0)
  }

  /** The decimal value of a string of digits. */
  function DecimalValue(u: string): nat
  {
    DecimalPrefix(u, |u|)
  }

  /** The value of a prefix depends only on the characters in it. */
  lemma {:induction false} DecimalPrefixSame(u: string, v: string, n: nat)
    requires n <= |u| && n <= |v| && u[..n] == v[..n]
    ensures DecimalPrefix(u, n) == DecimalPrefix(v, n)
    decreases n
  {
    if n > 0 {
      assert u[n - 1] == u[..n][n - 1] && v[n - 1] == v[..n][n - 1];
      assert u[..n - 1] == u[..n][..n - 1] && v[..n - 1] == v[..n][..n - 1];
      DecimalPrefixSame(u, v, n - 1);
    }
  }

  /** Two more digits: the value times a hundred, plus theirs. */
  lemma DecimalValueTwoMore(d: string, a: char, b: char)
    requires IsDigit(a) && IsDigit(b)
    ensures DecimalValue(d + [a, b]) == DecimalValue(d) * 100 + DigitValue(a) * 10 + DigitValue(b)
  {
    var u := d + [a, b];
    assert u[..|d|] == d[..|d|];
    DecimalPrefixSame(u, d, |d|);
    assert DecimalPrefix(u, |d| + 1) == DecimalPrefix(u, |d|) * 10 + DigitValue(a);
  }

  predicate AllDigits(u: string)
  {
    forall i :: 0 <= i < |u| ==> IsDigit(u[i])
  }

  predicate StartsWith(s: string, prefix: string)
  {
    |prefix| <= |s| && s[..|prefix|] == prefix
  }
}
