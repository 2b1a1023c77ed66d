/**
 What the account's integers mean: ticks and lots are decimals, and money is counted in 1e-8 units of its
 asset. A notional is price times size, truncated; a lot is its size in base, down to 1e-8.
 */
module Units {
  import opened Common
  import opened Positions
  import opened AccountModule

  /** A power of ten as a number. */
  function Ten(e: int): (r: real)
    ensures r > 0.0
  {
    if e >= 0 then Pow10(e) as real else 1.0 / Pow10(-e) as real
  }

  lemma TenNext(e: int)
    ensures Ten(e + 1) == 10.0 * Ten(e)
  {
    if e < 0 {
      assert Pow10(-e) == 10 * Pow10(-e - 1);
      assert Pow10(-e) as real == 10.0 * Pow10(-e - 1) as real;
    }
  }

  lemma TenTimes(x: real, y: real)
    ensures x * (10.0 * y) == 10.0 * (x * y)
  {
  }

  lemma TenZero()
    ensures Ten(0) == 1.0 && Ten(8) == 100000000.0
  {
    assert Pow10(0) == 1 && Pow10(8) == 100000000;
  }

  lemma {:induction false} TenAdds(a: int, b: int)
    ensures Ten(a + b) == Ten(a) * Ten(b)
    decreases if b >= 0 then b else -b
  {
    hide Ten, Pow10;
    TenZero();
    if b > 0 {
      TenAdds(a, b - 1);
      TenNext(a + b - 1);
      TenNext(b - 1);
      TenTimes(Ten(a), Ten(b - 1));
    } else if b < 0 {
      TenAdds(a, b + 1);
      TenNext(a + b);
      TenNext(b);
      TenTimes(Ten(a), Ten(b));
    }
  }

  function Price(g: Grid, ticks: int): real {
    ticks as real * g.tickMant as real * Ten(g.tickExp)
  }

  function Size(g: Grid, lots: int): real {
    lots as real * g.lotMant as real * Ten(g.lotExp)
  }

  // Truncation.

  lemma InOrder(x: real, y: real, b: real)
    requires b > 0.0
    ensures x * b <= y * b <==> x <= y
  {
    if x > y {
      Positive(x - y, b);
    } else {
      NotNegative(y - x, b);
    }
  }

  lemma Positive(d: real, b: real)
    requires d > 0.0 && b > 0.0
    ensures d * b > 0.0
  {
  }

  lemma NotNegative(d: real, b: real)
    requires d >= 0.0 && b > 0.0
    ensures d * b >= 0.0
  {
  }

  /** A number and the one that truncates it toward zero. */
  predicate Truncates(n: int, exact: real, negative: bool) {
    if negative then n as real - 1.0 < exact <= n as real else n as real <= exact < n as real + 1.0
  }

  lemma TimesReal(n: int, b: int)
    ensures (n * b) as real == n as real * b as real
  {
  }

  lemma Quotients(v: int, n: int, b: nat, exact: real)
    requires b > 0 && n == TruncDiv(v, b) && exact * b as real == v as real
    ensures Truncates(n, exact, v < 0)
  {
    hide TruncDiv;
    var x, y := n as real, b as real;
    TimesReal(n, b);
    InOrder(x, exact, y);
    InOrder(exact, x, y);
    OneMore(x, y);
    InOrder(x + 1.0, exact, y);
    InOrder(exact, x - 1.0, y);
  }

  lemma OneMore(x: real, y: real)
    ensures (x + 1.0) * y == x * y + y && (x - 1.0) * y == x * y - y
  {
  }

  lemma Inverse(v: real, b: real)
    requires b > 0.0
    ensures v * (1.0 / b) * b == v
  {
    assert (1.0 / b) * b == 1.0;
  }

  /** Scaling by a power of ten, as the program does, truncates the exact value toward zero. */
  lemma ScalingTruncates(v: int, e: int, n: int)
    requires n == if e >= 0 then v * Pow10(e) else TruncDiv(v, Pow10(-e))
    ensures Truncates(n, v as real * Ten(e), v < 0)
  {
    hide TruncDiv, Pow10;
    if e >= 0 {
      TimesReal(v, Pow10(e));
    } else {
      Inverse(v as real, Pow10(-e) as real);
      Quotients(v, n, Pow10(-e), v as real * Ten(e));
    }
  }

  // Value and size.

  lemma Regrouped(p: real, t: real, a: real, q: real, l: real, b: real, v: real, ten: real)
    requires v == (p * q) * (t * l) && ten == (a * b) * 100000000.0
    ensures (p * t * a) * (q * l * b) * 100000000.0 == v * ten
  {
    assert (p * t * a) * (q * l * b) == ((p * q) * (t * l)) * (a * b);
  }

  lemma ValueIs(g: Grid, px: int, qty: int)
    ensures Price(g, px) * Size(g, qty) * 100000000.0
            == ((px * qty) * (g.tickMant * g.lotMant)) as real * Ten(g.tickExp + g.lotExp + 8)
  {
    hide Ten;
    TenAdds(g.tickExp, g.lotExp);
    TenAdds(g.tickExp + g.lotExp, 8);
    TenZero();
    TimesReal(px, qty);
    TimesReal(g.tickMant, g.lotMant);
    TimesReal(px * qty, g.tickMant * g.lotMant);
    Regrouped(px as real, g.tickMant as real, Ten(g.tickExp), qty as real, g.lotMant as real, Ten(g.lotExp),
              ((px * qty) * (g.tickMant * g.lotMant)) as real, Ten(g.tickExp + g.lotExp + 8));
  }

  /** A notional is price times size in 1e-8 units of quote, truncated toward zero. */
  lemma NotionalIsValue(g: Grid, i: Inst, px: int, qty: int)
    requires OnGrid(g, i)
    ensures Truncates(Notional(i, px, qty), Price(g, px) * Size(g, qty) * 100000000.0,
                      (px * qty) * (g.tickMant * g.lotMant) < 0)
  {
    hide Ten, Price, Size, TruncDiv, Pow10;
    ValueIs(g, px, qty);
    ScalingTruncates((px * qty) * i.tlMul, i.tlExp, Notional(i, px, qty));
  }

  lemma SizeIs(g: Grid, qty: int)
    ensures Size(g, qty) * 100000000.0 == (qty * g.lotMant) as real * Ten(g.lotExp + 8)
  {
    hide Ten;
    TenAdds(g.lotExp, 8);
    TenZero();
    TimesReal(qty, g.lotMant);
    Scaled((qty * g.lotMant) as real, Ten(g.lotExp), 100000000.0);
  }

  lemma Scaled(x: real, y: real, z: real)
    ensures x * y * z == x * (y * z)
  {
  }

  /**
   Lots are counted in 1e-8 units of base if and only if no lot is finer than such a unit, or there are none: the
   program takes a power of ten below 1 for 1.
   */
  lemma LotsAreSize(g: Grid, i: Inst, qty: int)
    requires OnGrid(g, i)
    ensures (qty * i.basePerLot) as real == Size(g, qty) * 100000000.0
            <==> g.lotExp >= -8 || qty * g.lotMant == 0
  {
    hide Ten, Size, Pow10;
    var n, m, e := qty * g.lotMant, PowerOf10(g.lotExp + 8), g.lotExp + 8;
    SizeIs(g, qty);
    Grouped(qty, g.lotMant, m);
    TimesReal(n, m);
    if e >= 0 {
      WholePower(e);
    } else {
      FinerThanUnit(e);
      Shrinks(n as real, Ten(e));
    }
  }

  lemma WholePower(e: nat)
    ensures PowerOf10(e) as real == Ten(e)
  {
    assert Pow10(0) == 1;
  }

  lemma Shrinks(x: real, y: real)
    requires 0.0 < y < 1.0
    ensures x * y == x <==> x == 0.0
  {
    if x != 0.0 {
      assert x * (1.0 - y) != 0.0;
    }
  }

  lemma Grouped(x: int, y: int, z: int)
    ensures x * (y * z) == (x * y) * z
  {
  }

  lemma FinerThanUnit(e: int)
    requires e < 0
    ensures Ten(e) < 1.0
  {
    assert Pow10(-e) == 10 * Pow10(-e - 1);
    Inverse(1.0, Pow10(-e) as real);
  }
}
