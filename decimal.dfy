/** Decimal digit strings: the `usize::from_str` reading used by the parser
    and the `to_string` / `{}` writing used by the renderers. */
module Decimal {
  import opened Lexer

  predicate AllDigits(ds: string) {
    forall i | 0 <= i < |ds| :: IsDigit(ds[i])
  }

  /** Decimal value of a run of ASCII digits, read most significant first. */
  function DigitsValue(ds: string): nat
    requires AllDigits(ds)
  {
    if ds == [] then 0
    else 10 * DigitsValue(ds[..|ds| - 1]) + (ds[|ds| - 1] as int - '0' as int)
  }

  function DigitChar(d: nat): (ch: char)
    requires d < 10
    ensures IsDigit(ch) && ch as int - '0' as int == d
  {
    ('0' as int + d) as char
  }

  /** The shortest decimal spelling of `n`, as `usize::to_string` writes it. */
  function DecimalString(n: nat): (ds: string)
    decreases n
  {
    if n < 10 then [DigitChar(n)] else DecimalString(n / 10) + [DigitChar(n % 10)]
  }

  /** No leading zero, except for the number zero itself. */
  predicate Canonical(ds: string) {
    ds != [] && AllDigits(ds) && (ds[0] == '0' ==> |ds| == 1)
  }

  /** Writing a number in decimal and reading it back gives the number, and
      what is written is canonical. */
  lemma {:induction false} DecimalRoundTrip(n: nat)
    ensures Canonical(DecimalString(n))
    ensures DigitsValue(DecimalString(n)) == n
    decreases n
  {
    if n >= 10 {
      DecimalRoundTrip(n / 10);
      var ds := DecimalString(n);
      assert ds[..|ds| - 1] == DecimalString(n / 10);
    }
  }

  /** A canonical digit run whose value is at least ten has a canonical
      prefix of value at least one. */
  lemma {:induction false} LeadingValue(ds: string)
    requires Canonical(ds) && |ds| >= 2
    ensures DigitsValue(ds[..|ds| - 1]) >= 1
    decreases |ds|
  {
    var p := ds[..|ds| - 1];
    if |p| == 1 {
      assert p[0] == ds[0] != '0';
    } else {
      assert p[..|p| - 1] == ds[..|ds| - 2];
      LeadingValue(p);
    }
  }

  /** Reading a canonical digit run and writing its value gives the run back. */
  lemma {:induction false} CanonicalRoundTrip(ds: string)
    requires Canonical(ds)
    ensures DecimalString(DigitsValue(ds)) == ds
    decreases |ds|
  {
    var n := DigitsValue(ds);
    if |ds| == 1 {
      assert ds[..|ds| - 1] == [];
      assert IsDigit(ds[0]);
      assert DigitsValue(ds[..|ds| - 1]) == 0;
      assert n == ds[0] as int - '0' as int;
      assert [DigitChar(n)] == ds;
    } else {
      var p := ds[..|ds| - 1];
      LeadingValue(ds);
      assert Canonical(p);
      CanonicalRoundTrip(p);
      assert n / 10 == DigitsValue(p) && n % 10 == ds[|ds| - 1] as int - '0' as int;
      assert ds == p + [ds[|ds| - 1]];
    }
  }
}
