/** JavaScript's integer arithmetic where it differs from Dafny's. */
module Numbers {

  /** A positive multiple of a positive number is at least that number. */
  lemma ProductAtLeast(d: int, b: int)
    requires d >= 1 && b > 0
    ensures d * b >= b
  {
    assert d * b == (d - 1) * b + b;
  }

  /** Division by a positive `b` is determined by the quotient and the remainder it must produce. */
  lemma DivModUnique(a: int, b: int, q: int, r: int)
    requires b > 0 && 0 <= r < b && a == q * b + r
    ensures a / b == q && a % b == r
  {
    var q', r' := a / b, a % b;
    assert a == q' * b + r';
    var d := q - q';
    assert d * b == q * b - q' * b;
    assert d * b == r' - r;
    if d >= 1 {
      ProductAtLeast(d, b);
    } else if d <= -1 {
      ProductAtLeast(-d, b);
    }
  }

  /** A multiple of `b` leaves no remainder. */
  lemma MultipleMod(k: int, b: int)
    requires b > 0
    ensures (k * b) % b == 0
  {
    DivModUnique(k * b, b, k, 0);
  }

  /**
   * JavaScript's `a % b` for a positive divisor: what is left of `a` after
   * taking away a whole multiple of `b`, smaller than `b` in size and with the
   * sign of the dividend (Dafny's `%` never returns a negative value).
   */
  function JsRem(a: int, b: int): (r: int)
    requires b > 0
    ensures -b < r < b
    ensures (a - r) % b == 0
    ensures a >= 0 ==> 0 <= r
    ensures a < 0 ==> r <= 0
  {
    if a >= 0 then
      var k := a / b;
      assert a - a % b == k * b;
      MultipleMod(k, b);
      a % b
    else
      var k := (-a) / b;
      assert a + (-a) % b == (-k) * b;
      MultipleMod(-k, b);
      -((-a) % b)
  }

  /** The properties of `JsRem` determine it: no other value has them. */
  lemma {:induction false} JsRemUnique(a: int, b: int, r: int)
    requires b > 0
    requires -b < r < b && (a - r) % b == 0
    requires a >= 0 ==> 0 <= r
    requires a < 0 ==> r <= 0
    ensures r == JsRem(a, b)
  {
    var q := JsRem(a, b);
    var m, n := (a - r) / b, (a - q) / b;
    assert a - r == m * b;
    assert a - q == n * b;
    var d := n - m;
    assert d * b == n * b - m * b;
    assert d * b == r - q;
    if d >= 1 {
      ProductAtLeast(d, b);
    } else if d <= -1 {
      ProductAtLeast(-d, b);
    }
  }

  /** On a non-negative dividend JavaScript's `%` agrees with Dafny's. */
  lemma JsRemNonNegative(a: int, b: int)
    requires b > 0 && a >= 0
    ensures JsRem(a, b) == a % b
  {
    MultipleMod(a / b, b);
    JsRemUnique(a, b, a % b);
  }
}
