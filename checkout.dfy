/** The `Checkout` component's order state: the product list, the discount
    and the order total, the three handlers that change them, and what a
    session of button clicks can reach. */
module Checkout {
  import opened Wrappers
  import opened Products
  import opened Pricing

  /** The two buttons of a table row. */
  datatype Button = Plus | Minus

  /** A click on one button of the row at position `row` of the table. */
  datatype Click = Click(row: nat, button: Button)

  /** The button is there and enabled. */
  predicate Enabled(ps: seq<Product>, c: Click) {
    c.row < |ps| && match c.button
                    case Plus => CanAdd(ps[c.row])
                    case Minus => CanRemove(ps[c.row])
  }

  /** What one click does to the product list. A disabled button emits
      nothing. An enabled one calls its handler with the row's id, and the
      handler changes the first product carrying that id. */
  function Step(ps: seq<Product>, c: Click): (r: seq<Product>)
    ensures |r| == |ps|
    ensures forall k :: 0 <= k < |ps| ==> SameItem(r[k], ps[k])
    ensures !Enabled(ps, c) ==> r == ps
    ensures Enabled(ps, c) ==>
      exists i :: (0 <= i < |ps| && ps[i].id == ps[c.row].id &&
                   r == ps[i := if c.button == Plus then Incremented(ps[i]) else Decremented(ps[i])])
  {
    if !Enabled(ps, c) then ps
    else
      var i := FindIndex(ps, ps[c.row].id).value;
      ps[i := if c.button == Plus then Incremented(ps[i]) else Decremented(ps[i])]
  }

  /** The product list after a sequence of clicks. */
  function Run(ps: seq<Product>, cs: seq<Click>): seq<Product>
    decreases |cs|
  {
    if |cs| == 0 then ps else Run(Step(ps, cs[0]), cs[1..])
  }

  /** A product whose ordered quantity lies within its available count and
      whose shown line total is its price times its quantity. */
  predicate Sound(p: Product) {
    0 <= Quantity(p) <= p.availableCount && ShownLineTotal(p) == LineValue(p)
  }

  /** The state a session of gated clicks keeps: unique ids and every
      product sound. */
  predicate Reachable(ps: seq<Product>) {
    UniqueIds(ps) && forall k :: 0 <= k < |ps| ==> Sound(ps[k])
  }

  /** The button guards are exactly what keeps a sound product sound: from a
      sound product the handler's update is sound again if and only if the
      button that calls it is enabled. */
  lemma GuardsAreExact(p: Product)
    requires Sound(p)
    ensures Sound(Incremented(p)) <==> CanAdd(p)
    ensures Sound(Decremented(p)) <==> CanRemove(p)
  {
  }

  /** A freshly loaded record: nothing ordered and no line total stored. */
  predicate AsLoaded(p: Product) {
    Quantity(p) == 0 && p.lineTotal == None
  }

  /** A loaded catalog with unique ids and non-negative available counts is
      a state the invariant holds in. */
  lemma LoadedIsReachable(ps: seq<Product>)
    requires UniqueIds(ps)
    requires forall k :: 0 <= k < |ps| ==> AsLoaded(ps[k]) && ps[k].availableCount >= 0
    ensures Reachable(ps)
  {
  }

  /** One enabled click acts on the clicked row itself and keeps it sound;
      every other row is untouched. */
  lemma StepOnClickedRow(ps: seq<Product>, c: Click)
    requires Reachable(ps) && Enabled(ps, c)
    ensures Step(ps, c) == ps[c.row := Step(ps, c)[c.row]]
    ensures Sound(Step(ps, c)[c.row])
    ensures c.button == Plus ==> Quantity(Step(ps, c)[c.row]) == Quantity(ps[c.row]) + 1
    ensures c.button == Minus ==> Quantity(Step(ps, c)[c.row]) == Quantity(ps[c.row]) - 1
  {
    FindOwnRow(ps, c.row);
    var p := ps[c.row];
    assert Sound(p);
    if c.button == Minus {
      assert Quantity(p) >= 1;
    }
  }

  /** An enabled click changes the subtotal by exactly the clicked row's
      price, up for "+" and down for "-". */
  lemma StepChangesSubtotalByPrice(ps: seq<Product>, c: Click)
    requires Reachable(ps) && Enabled(ps, c)
    ensures Subtotal(Step(ps, c)) ==
      Subtotal(ps) + (if c.button == Plus then ps[c.row].price else -ps[c.row].price)
  {
    FindOwnRow(ps, c.row);
    StepOnClickedRow(ps, c);
    SubtotalUpdate(ps, c.row, Step(ps, c)[c.row]);
  }

  /** Every click keeps the invariant. */
  lemma StepKeepsReachable(ps: seq<Product>, c: Click)
    requires Reachable(ps)
    ensures Reachable(Step(ps, c))
  {
    var r := Step(ps, c);
    if Enabled(ps, c) {
      StepOnClickedRow(ps, c);
      forall k | 0 <= k < |r|
        ensures Sound(r[k])
      {
        if k != c.row {
          assert r[k] == ps[k];
        }
      }
    }
  }

  /** Under the button gating, after any sequence of clicks every product's
      quantity stays within 0 and its available count and every shown line
      total is price times quantity. */
  lemma {:induction false} RunKeepsReachable(ps: seq<Product>, cs: seq<Click>)
    requires Reachable(ps)
    ensures Reachable(Run(ps, cs))
    decreases |cs|
  {
    if |cs| > 0 {
      StepKeepsReachable(ps, cs[0]);
      RunKeepsReachable(Step(ps, cs[0]), cs[1..]);
    }
  }

  /** From a freshly loaded catalog, every product of every reachable state
      is within its bounds, and the subtotal is the sum of the line totals. */
  lemma BoundsAfterAnySession(catalog: seq<Product>, cs: seq<Click>)
    requires UniqueIds(catalog)
    requires forall k :: 0 <= k < |catalog| ==> AsLoaded(catalog[k]) && catalog[k].availableCount >= 0
    ensures var ps := Run(catalog, cs);
      |ps| == |catalog| &&
      (forall k :: 0 <= k < |ps| ==> 0 <= Quantity(ps[k]) <= ps[k].availableCount) &&
      Subtotal(ps) == ShownLinesSum(ps)
  {
    LoadedIsReachable(catalog);
    RunKeepsReachable(catalog, cs);
    RunKeepsLength(catalog, cs);
    var ps := Run(catalog, cs);
    SubtotalIsSumOfLineTotals(ps);
  }

  /** Clicks never add or remove products. */
  lemma {:induction false} RunKeepsLength(ps: seq<Product>, cs: seq<Click>)
    ensures |Run(ps, cs)| == |ps|
    decreases |cs|
  {
    if |cs| > 0 {
      RunKeepsLength(Step(ps, cs[0]), cs[1..]);
    }
  }

  /** With non-negative prices, in a reachable state the discount line is
      shown exactly when the subtotal is strictly above the threshold. */
  lemma DiscountShownIff(ps: seq<Product>)
    requires Reachable(ps)
    requires forall k :: 0 <= k < |ps| ==> ps[k].price >= 0.0
    ensures Summarize(Subtotal(ps)).discount > 0.0 <==> Subtotal(ps) > Threshold
  {
    SubtotalNonNegative(ps);
  }

  /** A freshly loaded catalog holding one product. */
  function OneProduct(id: int, available: int, price: real): seq<Product> {
    [Product(id, "item", available, price, None, None)]
  }

  /** Price 100, three units available up to five: subtotal 300, no discount. */
  lemma ScenarioBelowThreshold()
    ensures var ps := Run(OneProduct(1, 5, 100.0), [Click(0, Plus), Click(0, Plus), Click(0, Plus)]);
      Quantity(ps[0]) == 3 && ps[0].lineTotal == Some(300.0) &&
      Subtotal(ps) == 300.0 && Summarize(Subtotal(ps)) == Summary(0.0, 300.0)
  {
  }

  /** Price 500, three units: subtotal 1500 is above the threshold, so the
      discount is 150 and the total 1350. */
  lemma ScenarioAboveThreshold()
    ensures var ps := Run(OneProduct(2, 10, 500.0), [Click(0, Plus), Click(0, Plus), Click(0, Plus)]);
      Quantity(ps[0]) == 3 && Subtotal(ps) == 1500.0 && Summarize(Subtotal(ps)) == Summary(150.0, 1350.0)
  {
  }

  /** Price 200 with five available, ordered up to five: the "+" button is
      then disabled, a sixth click changes nothing, and a subtotal of
      exactly 1000 gets no discount. */
  lemma ScenarioAtCapacity(ps5: seq<Product>)
    requires ps5 == [OneProduct(3, 5, 200.0)[0].(orderedQuantity := Some(5), lineTotal := Some(1000.0))]
    ensures !Enabled(ps5, Click(0, Plus)) && Step(ps5, Click(0, Plus)) == ps5
    ensures Subtotal(ps5) == 1000.0 && Summarize(Subtotal(ps5)) == Summary(0.0, 1000.0)
  {
  }

  /** On a freshly loaded row the "-" button is disabled, so a click on it
      changes nothing; the handler itself, called directly, would take the
      quantity to -1. */
  lemma ScenarioRemoveAtZero(id: int, available: int, price: real)
    ensures var ps := OneProduct(id, available, price);
      !Enabled(ps, Click(0, Minus)) && Step(ps, Click(0, Minus)) == ps &&
      Quantity(Decremented(ps[0])) == -1
  {
  }

  /** The component's state. The product list is replaced by a copy on every
      change, so it is a sequence that the handlers reassign. */
  class Checkout {
    var products: seq<Product>
    var discount: real
    var total: real

    /** The stored discount and total are the summary of the current list. */
    ghost predicate Valid()
      reads this
    {
      Summary(discount, total) == Summarize(Subtotal(products))
    }

    /** The discount line of the order summary is shown. In a valid,
        reachable state with non-negative prices that is exactly when the
        subtotal is strictly above the threshold. */
    predicate DiscountShown()
      reads this
      ensures Valid() && Reachable(products) && (forall k :: 0 <= k < |products| ==> products[k].price >= 0.0) ==>
        (DiscountShown() <==> Subtotal(products) > Threshold)
    {
      if Reachable(products) && (forall k :: 0 <= k < |products| ==> products[k].price >= 0.0) then
        DiscountShownIff(products);
        discount > 0.0
      else
        discount > 0.0
    }

    /** The state once the catalog has loaded: the list is the catalog, and
        discount and total still hold their initial 0. They agree with the
        catalog when nothing in it has been ordered. */
    constructor Load(catalog: seq<Product>)
      ensures products == catalog && discount == 0.0 && total == 0.0
      ensures (forall k :: 0 <= k < |catalog| ==> Quantity(catalog[k]) == 0) ==> Valid()
    {
      products := catalog;
      discount := 0.0;
      total := 0.0;
      if forall k :: 0 <= k < |catalog| ==> Quantity(catalog[k]) == 0 {
        SubtotalOfNothingOrdered(catalog);
      }
    }

    /** `getTotal`: fold the list into a subtotal, then store the discount
        and the total the discount rule gives for it. */
    method GetTotal()
      modifies this
      ensures products == old(products)
      ensures Valid()
      ensures total == Subtotal(products) - discount
      ensures Subtotal(products) > Threshold ==> discount == Subtotal(products) * 0.1
      ensures Subtotal(products) <= Threshold ==> discount == 0.0 && total == Subtotal(products)
    {
      var subtotal := Subtotal(products);
      if subtotal > Threshold {
        discount := subtotal * 0.1;
        total := subtotal * 0.9;
      } else {
        discount := 0.0;
        total := subtotal;
      }
    }

    /** `addProduct(id)`: the first product with that id gets one more unit
        and its line total recomputed; then the summary is recomputed. */
    method AddProduct(id: int)
      requires FindIndex(products, id).Some?
      modifies this
      ensures var i := FindIndex(old(products), id).value;
        products == old(products)[i := Incremented(old(products)[i])]
      ensures Subtotal(products) == Subtotal(old(products)) + old(products)[FindIndex(old(products), id).value].price
      ensures Valid()
    {
      var i := FindIndex(products, id).value;
      var product := products[i];
      if product.orderedQuantity == None {
        product := product.(orderedQuantity := Some(0));
      }
      var q := product.orderedQuantity.value + 1;
      product := product.(orderedQuantity := Some(q));
      product := product.(lineTotal := Some(product.price * (q as real)));
      ghost var spec := Incremented(products[i]);
      assert product.lineTotal.value == spec.lineTotal.value;
      assert product == spec;
      SubtotalUpdate(products, i, product);
      products := products[i := product];
      GetTotal();
    }

    /** `removeProduct(id)`: when the first product with that id already has
        a negative quantity nothing changes at all. Otherwise it gets one unit
        less, its line total is recomputed only if the new quantity is still
        non-negative, and the summary is recomputed. */
    method RemoveProduct(id: int)
      requires FindIndex(products, id).Some?
      modifies this
      ensures var i := FindIndex(old(products), id).value;
        products == old(products)[i := Decremented(old(products)[i])]
      ensures var p := old(products)[FindIndex(old(products), id).value];
        if Quantity(p) < 0 then
          unchanged(this)
        else
          Valid() && Subtotal(products) == Subtotal(old(products)) - p.price
    {
      var i := FindIndex(products, id).value;
      var product := products[i];
      if product.orderedQuantity == None {
        product := product.(orderedQuantity := Some(0));
      }
      if product.orderedQuantity.value < 0 {
        assert products[i := Decremented(products[i])] == products;
        return;
      }
      var q := product.orderedQuantity.value - 1;
      product := product.(orderedQuantity := Some(q));
      if q >= 0 {
        product := product.(lineTotal := Some(product.price * (q as real)));
      }
      ghost var spec := Decremented(products[i]);
      assert product.lineTotal.Some? ==> product.lineTotal.value == spec.lineTotal.value;
      assert product == spec;
      SubtotalUpdate(products, i, product);
      products := products[i := product];
      GetTotal();
    }

    /** A click on a row's button: a disabled button does nothing, an
        enabled one runs its handler with the row's id. */
    method Press(c: Click)
      modifies this
      ensures products == Step(old(products), c)
      ensures old(Valid()) ==> Valid()
      ensures !Enabled(old(products), c) ==> discount == old(discount) && total == old(total)
    {
      if Enabled(products, c) {
        var id := products[c.row].id;
        assert FindIndex(products, id).Some?;
        match c.button
        case Plus => AddProduct(id);
        case Minus => RemoveProduct(id);
      }
    }
  }
}
