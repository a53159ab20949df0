/**
 * Atom keys. Every atom draws a number from a module-level counter and its
 * `toString()` is the string "atom" followed by that number in decimal.
 * The todo example uses that string as the identity of a list item, so the
 * rendering must be injective; `ParseKey` is its inverse.
 */
module AtomKeys {
  import opened Wrappers

  /** The number drawn from the key counter. */
  type AtomKey = nat

  predicate IsDigit(c: char) {
    '0' <= c <= '9'
  }

  predicate AllDigits(s: string) {
    forall i :: 0 <= i < |s| ==> IsDigit(s[i])
  }

  function DigitChar(d: nat): (c: char)
    requires d < 10
    ensures IsDigit(c)
  {
    (('0' as int) + d) as char
  }

  function CharDigit(c: char): (d: nat)
    requires IsDigit(c)
    ensures d < 10 && DigitChar(d) == c
  {
    (c as int) - ('0' as int)
  }

  /** A non-negative integer in decimal, without leading zeros, as a template string renders it. */
  function Decimal(n: nat): (s: string)
    ensures |s| >= 1 && AllDigits(s)
    ensures |s| == 1 <==> n < 10
    ensures n > 0 ==> s[0] != '0'
    decreases n
  {
    if n < 10 then [DigitChar(n)] else Decimal(n / 10) + [DigitChar(n % 10)]
  }

  /** The value of a string of decimal digits, most significant first. */
  function DigitsValue(s: string): nat
    requires AllDigits(s)
  {
    if s == [] then 0 else 10 * DigitsValue(s[..|s| - 1]) + CharDigit(s[|s| - 1])
  }

  /** A decimal numeral as `Decimal` writes it: digits only, no leading zero unless it is "0". */
  predicate Canonical(s: string) {
    |s| >= 1 && AllDigits(s) && (|s| == 1 || s[0] != '0')
  }

  /** What `toString()` returns for the atom with key `k`. */
  function KeyName(k: AtomKey): (s: string)
    ensures |s| > 4 && s[..4] == "atom" && Canonical(s[4..])
  {
    var digits := Decimal(k);
    assert ("atom" + digits)[4..] == digits;
    "atom" + digits
  }

  /** Recovers the key from a string that `KeyName` could have produced. */
  function ParseKey(s: string): Option<AtomKey> {
    if |s| > 4 && s[..4] == "atom" && Canonical(s[4..]) then Some(DigitsValue(s[4..])) else None
  }

  lemma {:induction false} DigitsValueOfDecimal(n: nat)
    ensures DigitsValue(Decimal(n)) == n
    decreases n
  {
    var s := Decimal(n);
    if n >= 10 {
      DigitsValueOfDecimal(n / 10);
      assert s[..|s| - 1] == Decimal(n / 10);
    }
  }

  lemma {:induction false} DigitsValuePositive(s: string)
    requires Canonical(s) && s[0] != '0'
    ensures DigitsValue(s) >= 1
    decreases |s|
  {
    if |s| > 1 {
      var init := s[..|s| - 1];
      assert init[0] == s[0];
      DigitsValuePositive(init);
    }
  }

  lemma {:induction false} DecimalOfDigitsValue(s: string)
    requires Canonical(s)
    ensures Decimal(DigitsValue(s)) == s
    decreases |s|
  {
    if |s| > 1 {
      var init := s[..|s| - 1];
      var n := DigitsValue(s);
      assert init[0] == s[0];
      DigitsValuePositive(init);
      DecimalOfDigitsValue(init);
      assert n / 10 == DigitsValue(init) && n % 10 == CharDigit(s[|s| - 1]);
      assert s == init + [s[|s| - 1]];
    }
  }

  /** `ParseKey` inverts `KeyName`. */
  lemma ParseKeyName(k: AtomKey)
    ensures ParseKey(KeyName(k)) == Some(k)
  {
    var s := KeyName(k);
    assert s[..4] == "atom" && s[4..] == Decimal(k);
    DigitsValueOfDecimal(k);
  }

  /** `ParseKey` accepts exactly the names `KeyName` produces. */
  lemma KeyNameOfParse(s: string, k: AtomKey)
    ensures ParseKey(s) == Some(k) <==> s == KeyName(k)
  {
    if ParseKey(s) == Some(k) {
      DecimalOfDigitsValue(s[4..]);
      assert s == s[..4] + s[4..];
    }
    if s == KeyName(k) {
      ParseKeyName(k);
    }
  }

  /** Distinct keys have distinct names. */
  lemma KeyNameInjective(j: AtomKey, k: AtomKey)
    ensures KeyName(j) == KeyName(k) <==> j == k
  {
    ParseKeyName(j);
    ParseKeyName(k);
  }
}
