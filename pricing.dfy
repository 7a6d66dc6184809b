/**
  Line pricing of OrderService.create: the tax of a line (tax included in
  the price or added to it), its rounding to a whole unit, and the sums
  that become the order's total, tax and discount. Amounts are exact reals.
*/
module Pricing {
  import opened Domain

  predicate IsWhole(x: real) { x == x.Floor as real }

  /**
    The unrounded tax of price * quantity at t.rate percent. When the tax is
    included the price already holds it, so the tax is rate percent of the
    net amount that remains; otherwise it is rate percent of the amount.
  */
  function RawTax(price: real, quantity: int, t: TaxType): (raw: real)
    ensures t.taxIncluded ==> raw * 100.0 == (price * quantity as real - raw) * t.rate as real
    ensures !t.taxIncluded ==> raw * 100.0 == price * quantity as real * t.rate as real
    ensures t.rate == 0 ==> raw == 0.0
  {
    var gross := price * quantity as real;
    if t.taxIncluded then gross * t.rate as real / (100 + t.rate) as real
    else gross * t.rate as real / 100.0
  }

  /**
    The rounding switch: "floor" rounds down, "ceil" rounds up, "round"
    rounds half up (Math.round), and any other mode keeps the raw figure.
  */
  function RoundTax(raw: real, rounding: string): (r: real)
    ensures rounding == FLOOR ==> IsWhole(r) && r <= raw < r + 1.0
    ensures rounding == CEIL ==> IsWhole(r) && r - 1.0 < raw <= r
    ensures rounding == ROUND ==> IsWhole(r) && r - 0.5 <= raw < r + 0.5
    ensures rounding != FLOOR && rounding != CEIL && rounding != ROUND ==> r == raw
  {
    if rounding == ROUND then (raw + 0.5).Floor as real
    else if rounding == CEIL then (-((-raw).Floor)) as real
    else if rounding == FLOOR then raw.Floor as real
    else raw
  }

  predicate KnownRounding(rounding: string) { rounding == FLOOR || rounding == CEIL || rounding == ROUND }

  function LineRawTax(p: OrderProduct): real { RawTax(p.price, p.quantity, p.taxType) }

  /** The tax of one order line after rounding. */
  function LineTax(p: OrderProduct): (tax: real)
    ensures p.taxType.rate == 0 ==> tax == 0.0
    ensures KnownRounding(p.taxType.rounding) ==> IsWhole(tax) && LineRawTax(p) - 1.0 < tax < LineRawTax(p) + 1.0
  {
    RoundTax(LineRawTax(p), p.taxType.rounding)
  }

  function LineGross(p: OrderProduct): real { p.price * p.quantity as real }

  /**
    price * quantity + tax - discount of one line: untaxed lines cost their
    goods less the discount, and a rounded line is within one unit of its
    goods plus raw tax less the discount.
  */
  function LineSubtotal(p: OrderProduct): (r: real)
    ensures p.taxType.rate == 0 ==> r == LineGross(p) - p.discount
    ensures KnownRounding(p.taxType.rounding) ==>
              LineGross(p) + LineRawTax(p) - p.discount - 1.0 < r < LineGross(p) + LineRawTax(p) - p.discount + 1.0
  {
    LineGross(p) + LineTax(p) - p.discount
  }

  /** The order total: the lines' subtotals summed; without tax it is the goods less the discounts. */
  function SumSubtotals(ps: seq<OrderProduct>): (r: real)
    ensures (forall i :: 0 <= i < |ps| ==> ps[i].taxType.rate == 0) ==> r == SumGross(ps) - SumDiscounts(ps)
  {
    if ps == [] then 0.0 else SumSubtotals(ps[..|ps| - 1]) + LineSubtotal(ps[|ps| - 1])
  }

  /** The order tax: the lines' rounded taxes summed; lines at rate 0 add none. */
  function SumTaxes(ps: seq<OrderProduct>): (r: real)
    ensures (forall i :: 0 <= i < |ps| ==> ps[i].taxType.rate == 0) ==> r == 0.0
  {
    if ps == [] then 0.0 else SumTaxes(ps[..|ps| - 1]) + LineTax(ps[|ps| - 1])
  }

  function SumRawTaxes(ps: seq<OrderProduct>): real
  {
    if ps == [] then 0.0 else SumRawTaxes(ps[..|ps| - 1]) + LineRawTax(ps[|ps| - 1])
  }

  /** The order discount: the lines' discounts summed, never negative when no discount is. */
  function SumDiscounts(ps: seq<OrderProduct>): (r: real)
    ensures (forall i :: 0 <= i < |ps| ==> ps[i].discount >= 0.0) ==> r >= 0.0
  {
    if ps == [] then 0.0 else SumDiscounts(ps[..|ps| - 1]) + ps[|ps| - 1].discount
  }

  lemma SubtotalOfLine(p: OrderProduct)
    ensures LineSubtotal(p) == p.price * p.quantity as real + RoundTax(RawTax(p.price, p.quantity, p.taxType), p.taxType.rounding) - p.discount
  {
  }

  /** One more line adds its subtotal, tax and discount to the three sums. */
  lemma SumsExtend(ps: seq<OrderProduct>, k: nat)
    requires k < |ps|
    ensures SumSubtotals(ps[..k + 1]) == SumSubtotals(ps[..k]) + LineSubtotal(ps[k])
    ensures SumTaxes(ps[..k + 1]) == SumTaxes(ps[..k]) + LineTax(ps[k])
    ensures SumDiscounts(ps[..k + 1]) == SumDiscounts(ps[..k]) + ps[k].discount
  {
    assert ps[..k + 1][..k] == ps[..k];
  }

  function SumGross(ps: seq<OrderProduct>): real
  {
    if ps == [] then 0.0 else SumGross(ps[..|ps| - 1]) + LineGross(ps[|ps| - 1])
  }

  /** The order total splits into goods, plus tax, minus discount. */
  lemma {:induction false} TotalDecomposes(ps: seq<OrderProduct>)
    ensures SumSubtotals(ps) == SumGross(ps) + SumTaxes(ps) - SumDiscounts(ps)
  {
    if ps != [] {
      TotalDecomposes(ps[..|ps| - 1]);
    }
  }

  /** With recognised rounding modes every line's tax is off its raw figure by less than one unit. */
  lemma {:induction false} RoundingErrorBounded(ps: seq<OrderProduct>)
    requires forall i :: 0 <= i < |ps| ==> KnownRounding(ps[i].taxType.rounding)
    ensures SumRawTaxes(ps) - |ps| as real <= SumTaxes(ps) <= SumRawTaxes(ps) + |ps| as real
    ensures ps != [] ==> SumRawTaxes(ps) - |ps| as real < SumTaxes(ps) < SumRawTaxes(ps) + |ps| as real
  {
    if ps != [] {
      var init := ps[..|ps| - 1];
      assert forall i :: 0 <= i < |init| ==> init[i] == ps[i];
      RoundingErrorBounded(init);
      var last := ps[|ps| - 1];
      assert KnownRounding(last.taxType.rounding);
    }
  }

  /** Lines that all round down never charge more tax in total than the raw figures. */
  lemma {:induction false} FloorNeverOvercharges(ps: seq<OrderProduct>)
    requires forall i :: 0 <= i < |ps| ==> ps[i].taxType.rounding == FLOOR
    ensures SumTaxes(ps) <= SumRawTaxes(ps)
  {
    if ps != [] {
      var init := ps[..|ps| - 1];
      assert forall i :: 0 <= i < |init| ==> init[i] == ps[i];
      FloorNeverOvercharges(init);
    }
  }

  /** Two worked lines: 1000 x 2 at 10% added, rounded half up; 1100 x 1 at 10% included, rounded down. */
  lemma PricingExamples()
    ensures var p := OrderProduct(1, "A", "a", 2, 1000.0, 0.0, TaxType(10, false, ROUND));
            LineTax(p) == 200.0 && LineSubtotal(p) == 2200.0
    ensures var p := OrderProduct(1, "B", "b", 1, 1100.0, 0.0, TaxType(10, true, FLOOR));
            LineRawTax(p) == 100.0 && LineTax(p) == 100.0 && LineSubtotal(p) == 1200.0
  {
  }
}
