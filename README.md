# Checkout order-state model

A Dafny model of the order-state engine of the `Checkout` React component
(`src/Checkout.js`): a table of products whose ordered quantities are changed
by a "+" and a "-" button on each row, a line total per row, and an order
summary whose discount is 10% of the subtotal when the subtotal is strictly
above 1000.

Modules, one per part of the component:

- `Wrappers` (`wrappers.dfy`): `Option`, standing for JavaScript's `undefined`
  in a record field and for the result of `Array.find`.
- `Products` (`products.dfy`): the product record, the undefined-as-0 reading
  of its quantity, the `disabled` guards of the `Product` row component, the
  per-record updates the two handlers apply, and `find`.
- `Pricing` (`pricing.dfy`): the subtotal fold of `getTotal` and the discount
  rule.
- `Checkout` (`checkout.dfy`): the component's state as a class with the
  fields `products`, `discount` and `total`, whose methods `GetTotal`,
  `AddProduct` and `RemoveProduct` follow the three handlers step by step,
  plus `Press`, a click on a row's button. Beside it, the pure `Step`/`Run`
  model of a session of clicks and the lemmas about what such a session can
  reach.

Money is Dafny's exact `real`. A line total is stored as the exact amount
`price * quantity`, before its two-decimal formatting.

The code and the design description disagree in three places. The model
follows the code:

- The handlers do not clamp. `removeProduct` returns early only when the
  quantity is already negative, so a direct call from 0 leaves -1.
  `addProduct` has no upper check. The bounds hold only because the buttons
  are disabled (`Decremented`, `Incremented`, `GuardsAreExact`,
  `ScenarioRemoveAtZero`). A click on a disabled button emits nothing, so
  under that gating the design's "no-op" behaviour is what a user observes
  (`Step`).
- The subtotal is folded from `price * quantity`, not from the stored line
  totals. `SubtotalIsSumOfLineTotals` shows the two agree in every reachable
  state.
- After a fresh load, `discount` and `total` keep their initial 0 until the
  first click, and nothing recomputes them. `Checkout.Load` shows this is
  consistent only because a loaded catalog has nothing ordered.

Handlers look a product up by id and change the first product with that id.
The bounds invariant over any click sequence therefore needs the catalog's ids
to be unique (`Reachable`, `FindOwnRow`).

## Model

| member | source | states |
|---|---|---|
| Products.Incremented | src/Checkout.js:85-89 | an undefined quantity counts as 0 and goes up by exactly 1, with no upper check; the line total becomes price times the new quantity; the line value grows by exactly the price; id, name, price and available count are untouched |
| Products.Decremented | src/Checkout.js:72-79 | a negative quantity is left unchanged; otherwise the quantity (undefined as 0) goes down by exactly 1, so 0 becomes -1; the line total is recomputed only when the new quantity is still non-negative and is otherwise kept; the line value falls by exactly the price |
| Products.FindIndex | src/Checkout.js:73 | `find` by id: the result is a position holding that id with no earlier position holding it, and it is absent exactly when no product has that id |
| Products.FindOwnRow | src/Checkout.js:73 | with unique ids, looking up a row's own id finds that row, so a row's button acts on that row |
| Pricing.SubtotalUpdate | src/Checkout.js:96-100 | replacing one product changes the folded subtotal by exactly the difference of the two line values (price times quantity, undefined as 0) |
| Pricing.SubtotalNonNegative | src/Checkout.js:96-100 | with non-negative prices and quantities the subtotal is non-negative |
| Pricing.SubtotalOfNothingOrdered | src/Checkout.js:96-100 | a catalog with nothing ordered (quantities undefined or 0) has subtotal 0 |
| Pricing.SubtotalIsSumOfLineTotals | src/Checkout.js:96-100 | when each shown line total is price times quantity, the fold over price times quantity equals the sum of the shown line totals |
| Pricing.Summarize | src/Checkout.js:102-108 | total = subtotal - discount always; above 1000 (strict) the discount is a tenth of the subtotal, at or below 1000 it is 0; for a non-negative subtotal the discount is positive exactly when the subtotal exceeds 1000, and 0 <= discount <= total <= subtotal |
| Pricing.CrossingThresholdLowersTotal | src/Checkout.js:102-108 | every subtotal in (1000, 1111.11] has a smaller total than a subtotal of exactly 1000 |
| Checkout.Step | src/Checkout.js:43-55 | a click keeps the length, order and catalog fields of every product; a disabled button changes nothing; an enabled one applies its handler's update to one product carrying the clicked row's id and to nothing else |
| Checkout.GuardsAreExact | src/Checkout.js:44 | from a product within bounds, the "+" update stays within bounds exactly when quantity < availableCount, and the "-" update exactly when quantity is not 0 (lines 44 and 51) |
| Checkout.LoadedIsReachable | src/Checkout.js:68-70 | a loaded catalog with unique ids, non-negative available counts and nothing ordered satisfies the bounds and line-total invariant |
| Checkout.StepOnClickedRow | src/Checkout.js:43-55 | in a reachable state an enabled click changes only the clicked row, keeps it within bounds, and moves its quantity by exactly +1 or -1 |
| Checkout.StepChangesSubtotalByPrice | src/Checkout.js:85-109 | in a reachable state an enabled click moves the subtotal by exactly the clicked product's price, up for "+" and down for "-" |
| Checkout.StepKeepsReachable | src/Checkout.js:43-94 | any click keeps ids unique, every quantity within 0 and its available count, and every shown line total equal to price times quantity |
| Checkout.RunKeepsReachable | src/Checkout.js:43-94 | the same invariant holds after any sequence of clicks |
| Checkout.RunKeepsLength | src/Checkout.js:81 | clicks never add or remove products |
| Checkout.BoundsAfterAnySession | src/Checkout.js:43-100 | starting from a loaded catalog, after any clicks every quantity lies in [0, availableCount] and the subtotal equals the sum of the shown line totals |
| Checkout.DiscountShownIff | src/Checkout.js:102-106 | in a reachable state with non-negative prices the discount is positive exactly when the subtotal is strictly above 1000 |
| Checkout.ScenarioBelowThreshold | src/Checkout.js:85-109 | price 100, three "+" clicks: quantity 3, line total 300, subtotal 300, no discount |
| Checkout.ScenarioAboveThreshold | src/Checkout.js:85-109 | price 500, three "+" clicks: subtotal 1500, discount 150, total 1350 |
| Checkout.ScenarioAtCapacity | src/Checkout.js:44 | at quantity 5 of 5 the "+" button is disabled and a click changes nothing; subtotal exactly 1000 gets no discount |
| Checkout.ScenarioRemoveAtZero | src/Checkout.js:51 | on a freshly loaded row the "-" button is disabled and a click changes nothing, while the handler called directly would leave -1 |
| Checkout.Checkout.DiscountShown | src/Checkout.js:149 | the discount line shows when the stored discount is positive; in a valid, reachable state with non-negative prices that is exactly when the subtotal exceeds 1000 |
| Checkout.Checkout.Load | src/Checkout.js:63-70 | after the load the list is the catalog and discount and total are still 0, which agrees with the summary when nothing is ordered |
| Checkout.Checkout.GetTotal | src/Checkout.js:95-109 | the products are unchanged; the stored discount and total are the summary of the current subtotal: 10% off above 1000, none otherwise, and total = subtotal - discount |
| Checkout.Checkout.AddProduct | src/Checkout.js:85-94 | the first product with the id becomes its `Incremented` update, every other product is untouched, the subtotal grows by its price and the summary is recomputed |
| Checkout.Checkout.RemoveProduct | src/Checkout.js:72-83 | the first product with the id becomes its `Decremented` update; when its quantity was already negative nothing at all changes; otherwise the subtotal falls by its price and the summary is recomputed |
| Checkout.Checkout.Press | src/Checkout.js:43-55 | a click changes the list exactly as `Step`, keeps the stored summary consistent with it, and leaves the summary alone when the button is disabled |

## Left out

- Rendering, JSX, the CSS module and the hooks (`useState`, `useEffect`). State setters are modelled as direct field assignments, and React's batching is not modelled.
- The catalog loader `getProducts` (src/Checkout.js:68-70) is I/O whose source is not part of this model. The loaded catalog is a parameter of `Checkout.Load`.
- The loading icon shown while the list is empty (src/Checkout.js:117) is presentation only.
- `toFixed(2)` formatting and the `"0.00"` display fallbacks (src/Checkout.js:79, 89, 143, 149-150). The model keeps the exact line total, and an undefined one reads as 0.
- JavaScript's double-precision arithmetic for `price * quantity`, `* 0.1` and `* 0.9`. The model uses exact reals.
- Object identity: the source changes the found product object in place and re-spreads the array with the same objects. The model replaces the record at that position in a sequence, which gives the same observable list.
- AddProduct, RemoveProduct: an id that no product carries makes `find` return undefined and the handler throw. The model makes the id's presence a precondition instead of modelling the exception.
