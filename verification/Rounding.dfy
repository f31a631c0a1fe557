/** Exact decimal arithmetic on integers.

    Money is counted in cents, quantities in thousandths of a sale unit and unit
    costs in ten-thousandths, so every `quantize` of the program is one integer
    division. The till counts money in whole FCFA (100 cents). */
module Rounding {

  const QUANTITY_SCALE := 1000
  const CENTS_PER_FCFA := 100

  /** n / d to the nearest integer, halves upwards. */
  function HalfUp(n: nat, d: nat): nat
    requires d > 0
  {
    (2 * n + d) / (2 * d)
  }

  lemma {:induction false} DivBounds(n: int, d: int)
    requires d > 0
    ensures d * (n / d) <= n < d * (n / d) + d
  {
  }

  lemma {:induction false} MulMonotone(a: int, b: int, c: int)
    requires a <= b && c >= 0
    ensures a * c <= b * c
  {
  }

  lemma {:induction false} CompareByProducts(a: int, b: int, d: int)
    requires d > 0 && a * d < b * d + d
    ensures a <= b
  {
    if b < a { MulMonotone(b + 1, a, d); }
  }

  /** Rounding moves a value by at most half a step. */
  lemma {:induction false} HalfUpError(n: nat, d: nat)
    requires d > 0
    ensures 2 * n <= 2 * (d * HalfUp(n, d)) + d
    ensures 2 * (d * HalfUp(n, d)) <= 2 * n + d
  {
    DivBounds(2 * n + d, 2 * d);
    assert (2 * d) * HalfUp(n, d) == 2 * (d * HalfUp(n, d));
  }

  /** Bounds that already lie on the rounding grid survive rounding. */
  lemma {:induction false} HalfUpWithin(n: nat, d: nat, lo: nat, hi: nat)
    requires d > 0 && lo * d <= n <= hi * d
    ensures lo <= HalfUp(n, d) <= hi
  {
    var r := HalfUp(n, d);
    DivBounds(2 * n + d, 2 * d);
    assert (2 * d) * r == 2 * (r * d);
    CompareByProducts(lo, r, d);
    CompareByProducts(r, hi, d);
  }

  lemma {:induction false} HalfUpExact(q: nat, d: nat)
    requires d > 0
    ensures HalfUp(q * d, d) == q
  {
    HalfUpWithin(q * d, d, q, q);
  }

  // ---------- Line totals ----------

  /** `_money(unit_price * quantity)`: cents, from cents and thousandths. */
  function LineCents(unitPrice: nat, quantity: nat): nat {
    HalfUp(unitPrice * quantity, QUANTITY_SCALE)
  }

  /** The till's `lineTotal`: whole FCFA, from whole FCFA and thousandths. */
  function TillLineTotal(unitPrice: nat, quantityMilli: nat): nat {
    (unitPrice * quantityMilli + 500) / QUANTITY_SCALE
  }

  /** What the server adds to a till line, in cents. */
  function LineGap(unitPrice: nat, quantityMilli: nat): int {
    LineCents(CENTS_PER_FCFA * unitPrice, quantityMilli) - CENTS_PER_FCFA * TillLineTotal(unitPrice, quantityMilli)
  }

  lemma {:induction false} LineCentsOfFcfa(unitPrice: nat, quantityMilli: nat)
    ensures LineCents(CENTS_PER_FCFA * unitPrice, quantityMilli) == (unitPrice * quantityMilli + 5) / 10
  {
    var x := unitPrice * quantityMilli;
    assert (CENTS_PER_FCFA * unitPrice) * quantityMilli == CENTS_PER_FCFA * x;
  }

  lemma {:induction false} GapOf(whole: nat, r: nat)
    requires r < 1000
    ensures (1000 * whole + r + 5) / 10 - 100 * ((1000 * whole + r + 500) / 1000) ==
            (r + 5) / 10 - if r < 500 then 0 else 100
  {
  }

  /** The till and the server agree on a line exactly when the exact amount is
      within half a cent of a whole FCFA; the gap is never more than 50 cents. */
  lemma {:induction false} LineAgreement(unitPrice: nat, quantityMilli: nat)
    ensures var r := (unitPrice * quantityMilli) % 1000;
            LineGap(unitPrice, quantityMilli) == 0 <==> r < 5 || r >= 995
    ensures -50 <= LineGap(unitPrice, quantityMilli) <= 50
  {
    LineCentsOfFcfa(unitPrice, quantityMilli);
    var x := unitPrice * quantityMilli;
    GapOf(x / 1000, x % 1000);
  }

  /** Goods sold by the unit never disagree, whatever their price. */
  lemma {:induction false} WholeUnitsAgree(unitPrice: nat, units: nat)
    ensures LineGap(unitPrice, QUANTITY_SCALE * units) == 0
    ensures LineCents(unitPrice, QUANTITY_SCALE * units) == unitPrice * units
  {
    var n := unitPrice * units;
    assert unitPrice * (QUANTITY_SCALE * units) == n * QUANTITY_SCALE;
    HalfUpExact(n, QUANTITY_SCALE);
    LineAgreement(unitPrice, QUANTITY_SCALE * units);
  }
}
