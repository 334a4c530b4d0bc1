/** The order summary of `getTotal`: the subtotal fold over the products and
    the volume-discount rule applied to it. */
module Pricing {
  import opened Wrappers
  import opened Products

  /** Orders whose subtotal is strictly above this amount get the discount. */
  const Threshold: real := 1000.0

  /** The `reduce` over the products, left to right, adding price times
      quantity for each row (an undefined quantity counts as 0). It reads the
      quantities, never the stored line totals. */
  function Subtotal(ps: seq<Product>): real {
    if |ps| == 0 then 0.0 else Subtotal(ps[..|ps| - 1]) + LineValue(ps[|ps| - 1])
  }

  /** The sum of the line totals as the table shows them, the reference
      definition of "the sum of all line totals". */
  function ShownLinesSum(ps: seq<Product>): real {
    if |ps| == 0 then 0.0 else ShownLinesSum(ps[..|ps| - 1]) + ShownLineTotal(ps[|ps| - 1])
  }

  /** Replacing one product changes the subtotal by exactly the difference of
      the two line values: nothing else in the fold depends on it. */
  lemma {:induction false} SubtotalUpdate(ps: seq<Product>, i: nat, p: Product)
    requires i < |ps|
    ensures Subtotal(ps[i := p]) == Subtotal(ps) - LineValue(ps[i]) + LineValue(p)
  {
    var n := |ps|;
    var qs := ps[i := p];
    if i == n - 1 {
      assert qs[..n - 1] == ps[..n - 1];
    } else {
      assert qs[..n - 1] == ps[..n - 1][i := p];
      assert qs[n - 1] == ps[n - 1];
      SubtotalUpdate(ps[..n - 1], i, p);
    }
  }

  /** A catalog whose prices and quantities are all non-negative has a
      non-negative subtotal. */
  lemma {:induction false} SubtotalNonNegative(ps: seq<Product>)
    requires forall k :: 0 <= k < |ps| ==> ps[k].price >= 0.0 && Quantity(ps[k]) >= 0
    ensures Subtotal(ps) >= 0.0
  {
    if |ps| > 0 {
      var last := ps[|ps| - 1];
      assert last.price >= 0.0 && Quantity(last) >= 0;
      assert LineValue(last) >= 0.0;
      SubtotalNonNegative(ps[..|ps| - 1]);
    }
  }

  /** A catalog in which nothing has been ordered has subtotal 0. */
  lemma {:induction false} SubtotalOfNothingOrdered(ps: seq<Product>)
    requires forall k :: 0 <= k < |ps| ==> Quantity(ps[k]) == 0
    ensures Subtotal(ps) == 0.0
  {
    if |ps| > 0 {
      SubtotalOfNothingOrdered(ps[..|ps| - 1]);
    }
  }

  /** When every shown line total is price times quantity, the fold over
      price times quantity equals the sum of the shown line totals. */
  lemma {:induction false} SubtotalIsSumOfLineTotals(ps: seq<Product>)
    requires forall k :: 0 <= k < |ps| ==> ShownLineTotal(ps[k]) == LineValue(ps[k])
    ensures Subtotal(ps) == ShownLinesSum(ps)
  {
    if |ps| > 0 {
      SubtotalIsSumOfLineTotals(ps[..|ps| - 1]);
    }
  }

  /** The two amounts `getTotal` stores after the fold. */
  datatype Summary = Summary(discount: real, total: real)

  /** The discount rule: above the threshold (strictly) the discount is 10%
      of the subtotal and the total 90% of it; otherwise there is no discount
      and the total is the subtotal. */
  function Summarize(subtotal: real): (s: Summary)
    ensures s.total == subtotal - s.discount
    ensures subtotal > Threshold ==> s.discount == subtotal / 10.0
    ensures subtotal <= Threshold ==> s.discount == 0.0
    ensures subtotal >= 0.0 ==> (s.discount > 0.0 <==> subtotal > Threshold)
    ensures subtotal >= 0.0 ==> 0.0 <= s.discount <= s.total <= subtotal
  {
    if subtotal > Threshold then Summary(subtotal * 0.1, subtotal * 0.9)
    else Summary(0.0, subtotal)
  }

  /** The grand total is not monotone in the subtotal: every subtotal in
      (1000, 1111.11] pays at most what a subtotal of exactly 1000 pays. */
  lemma CrossingThresholdLowersTotal(subtotal: real)
    requires Threshold < subtotal <= 1111.11
    ensures Summarize(subtotal).total < Summarize(Threshold).total
  {
  }
}
