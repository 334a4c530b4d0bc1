/** The product records of the checkout table, the per-row button guards of
    the `Product` component, and the two per-record updates that the
    `addProduct` and `removeProduct` handlers apply to the product they find. */
module Products {
  import opened Wrappers

  /** One catalog row. The loader delivers `id`, `name`, `availableCount` and
      `price`; `orderedQuantity` and `lineTotal` (the source's `total` field)
      stay undefined until a handler first touches the row. The line total is
      kept as the exact amount, before its two-decimal formatting. */
  datatype Product = Product(
    id: int,
    name: string,
    availableCount: int,
    price: real,
    orderedQuantity: Option<int>,
    lineTotal: Option<real>)

  /** The quantity as every reader in the component sees it: an undefined
      quantity counts as 0 (the `=== undefined` normalisation of the handlers
      and the `q ? q : 0` defaults of the fold and of the table agree). */
  function Quantity(p: Product): int {
    if p.orderedQuantity.Some? then p.orderedQuantity.value else 0
  }

  /** The line total shown in the row: an undefined total is shown as zero. */
  function ShownLineTotal(p: Product): real {
    if p.lineTotal.Some? then p.lineTotal.value else 0.0
  }

  /** The amount the order fold adds for this row: price times quantity. */
  function LineValue(p: Product): real {
    p.price * (Quantity(p) as real)
  }

  /** The catalog fields of a record that no handler ever writes. */
  predicate SameItem(p: Product, q: Product) {
    p.id == q.id && p.name == q.name && p.availableCount == q.availableCount && p.price == q.price
  }

  /** The "+" button of a row is enabled: its `disabled` expression,
      quantity >= availableCount, is false. */
  predicate CanAdd(p: Product) {
    !(Quantity(p) >= p.availableCount)
  }

  /** The "-" button of a row is enabled: its `disabled` expression,
      quantity === 0, is false. */
  predicate CanRemove(p: Product) {
    !(Quantity(p) == 0)
  }

  /** What `addProduct` does to the product it found: an undefined quantity
      becomes 0, the quantity goes up by one with no upper check, and the line
      total is recomputed from the new quantity. */
  function Incremented(p: Product): (r: Product)
    ensures SameItem(r, p)
    ensures r.orderedQuantity == Some(Quantity(p) + 1)
    ensures r.lineTotal.Some? && r.lineTotal.value == LineValue(r)
    ensures LineValue(r) == LineValue(p) + p.price
  {
    var q := Quantity(p) + 1;
    p.(orderedQuantity := Some(q), lineTotal := Some(p.price * (q as real)))
  }

  /** What `removeProduct` does to the product it found. A quantity that is
      already negative is left alone (the handler returns early). Otherwise the
      quantity goes down by one, so 0 becomes -1, and the line total is
      recomputed only when the new quantity is still non-negative. */
  function Decremented(p: Product): (r: Product)
    ensures SameItem(r, p)
    ensures Quantity(p) < 0 ==> r == p
    ensures Quantity(p) >= 0 ==> r.orderedQuantity == Some(Quantity(p) - 1)
    ensures Quantity(p) >= 1 ==> r.lineTotal.Some? && r.lineTotal.value == LineValue(r)
    ensures Quantity(p) == 0 ==> r.lineTotal == p.lineTotal && Quantity(r) == -1
    ensures Quantity(p) >= 0 ==> LineValue(r) == LineValue(p) - p.price
  {
    var q := Quantity(p);
    if q < 0 then p
    else if q - 1 >= 0 then p.(orderedQuantity := Some(q - 1), lineTotal := Some(p.price * ((q - 1) as real)))
    else p.(orderedQuantity := Some(q - 1))
  }

  /** `products.find(x => x.id === id)`: the position of the first product
      with that id, or None when there is none. */
  function FindIndex(ps: seq<Product>, id: int): (r: Option<nat>)
    ensures r.Some? ==> r.value < |ps| && ps[r.value].id == id
    ensures r.Some? ==> forall j :: 0 <= j < r.value ==> ps[j].id != id
    ensures r.None? <==> forall j :: 0 <= j < |ps| ==> ps[j].id != id
  {
    if |ps| == 0 then None
    else if ps[0].id == id then Some(0)
    else
      match FindIndex(ps[1..], id)
      case None => None
      case Some(k) => Some(k + 1)
  }

  /** Ids are unique across the catalog. */
  predicate UniqueIds(ps: seq<Product>) {
    forall j, k :: 0 <= j < k < |ps| ==> ps[j].id != ps[k].id
  }

  /** With unique ids, the search for a row's own id finds that row. */
  lemma FindOwnRow(ps: seq<Product>, row: nat)
    requires UniqueIds(ps) && row < |ps|
    ensures FindIndex(ps, ps[row].id) == Some(row)
  {
  }
}
