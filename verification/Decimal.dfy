/** Decimal rendering of unsigned numbers, as printf does for %u. */
module Decimal {
  function Digit(d: nat): char
    requires d < 10
  {
    "0123456789"[d]
  }

  function Render(n: nat): string {
    if n < 10 then [Digit(n)] else Render(n / 10) + [Digit(n % 10)]
  }

  lemma {:induction false} RenderInjective(m: nat, n: nat)
    requires Render(m) == Render(n)
    ensures m == n
  {
    var a, b := Render(m), Render(n);
    assert a[|a| - 1] == Digit(m % 10) && b[|b| - 1] == Digit(n % 10);
    assert m % 10 == n % 10;
    if m >= 10 { RenderNonEmpty(m / 10); }
    if n >= 10 { RenderNonEmpty(n / 10); }
    if m >= 10 && n >= 10 {
      assert a[..|a| - 1] == Render(m / 10) && b[..|b| - 1] == Render(n / 10);
      RenderInjective(m / 10, n / 10);
    }
  }

  lemma RenderNonEmpty(n: nat)
    ensures |Render(n)| >= 1
  {}

  /** A rendering contains digits only. */
  lemma {:induction false} RenderDigits(n: nat)
    ensures forall c :: c in Render(n) ==> '0' <= c <= '9'
  {
    if n >= 10 { RenderDigits(n / 10); }
  }

  // ----- The number that is written -----

  predicate IsDigit(c: char) { '0' <= c <= '9' }

  /** The value of decimal digits. */
  function Value(s: string): nat
    requires forall c :: c in s ==> IsDigit(c)
  {
    if s == "" then 0
    else
      var last := s[|s| - 1];
      assert last in s && IsDigit(last);
      10 * Value(s[..|s| - 1]) + (last as int - '0' as int)
  }

  /** A rendering has the value of the number, and no leading zeros. */
  lemma {:induction false} RenderValue(n: nat)
    ensures (forall c :: c in Render(n) ==> IsDigit(c)) && Value(Render(n)) == n
    ensures n > 0 ==> Render(n)[0] != '0'
  {
    var s := Render(n);
    if n < 10 {
      assert s[..0] == "" && s[0] as int - '0' as int == n;
    } else {
      RenderValue(n / 10);
      assert s[..|s| - 1] == Render(n / 10);
    }
  }
}
