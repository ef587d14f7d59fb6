/** The cart as an ordered sequence of line items, with the merge-by-(name, size) add,
    the index removal and the quantity total shown on the count badge
    (universal-cart.js). */
module CartLines {
  import opened JsText

  /** One line of the cart, with the fields an add-to-cart trigger supplies.
      `quantity` is a JavaScript number that may be missing or NaN: `None` stands
      for both. `price` is carried along and never computed with. */
  datatype Line = Line(name: string, size: string, price: real, img: string, quantity: Option<int>)

  /** `quantity || 1`: a missing, NaN or zero quantity reads as 1; every other
      value, negative ones included, passes through. */
  function OrOne(quantity: Option<int>): int {
    if quantity.None? || quantity.value == 0 then 1 else quantity.value
  }

  /** `q += k` on a JavaScript number: NaN (or `undefined`) stays NaN. */
  function Plus(quantity: Option<int>, k: int): Option<int> {
    match quantity
    case None => None
    case Some(n) => Some(n + k)
  }

  /** The identity of a line: the (name, size) pair. */
  predicate SameKey(line: Line, name: string, size: string) {
    line.name == name && line.size == size
  }

  function Key(line: Line): (string, string) {
    (line.name, line.size)
  }

  /** The set of (name, size) identities present in the cart. */
  function Keys(cart: seq<Line>): set<(string, string)> {
    set j | 0 <= j < |cart| :: Key(cart[j])
  }

  /** The cart invariant: at most one line per (name, size) pair. */
  predicate NoDuplicateKeys(cart: seq<Line>) {
    forall i, j :: 0 <= i < j < |cart| ==> Key(cart[i]) != Key(cart[j])
  }

  /** Some line of the cart has identity (name, size). */
  predicate InCart(cart: seq<Line>, name: string, size: string) {
    exists j :: 0 <= j < |cart| && SameKey(cart[j], name, size)
  }

  /** `cart.findIndex(l => l.name === name && l.size === size)`: the first matching
      position, or -1 when no line matches. */
  function FindIndex(cart: seq<Line>, name: string, size: string): (r: int)
    ensures -1 <= r < |cart|
    ensures r == -1 <==> !InCart(cart, name, size)
    ensures r >= 0 ==> SameKey(cart[r], name, size)
    ensures r >= 0 ==> forall j :: 0 <= j < r ==> !SameKey(cart[j], name, size)
    decreases |cart|
  {
    if |cart| == 0 then -1
    else if SameKey(cart[0], name, size) then 0
    else
      var k := FindIndex(cart[1..], name, size);
      assert forall j :: 1 <= j < |cart| ==> cart[1..][j - 1] == cart[j];
      if k < 0 then -1 else k + 1
  }

  /** The line appended for a new identity: the item with quantity `item.quantity || 1`. */
  function Fresh(item: Line): Line {
    item.(quantity := Some(OrOne(item.quantity)))
  }

  /** The existing line after another add of `item`: only its quantity changes. */
  function Merged(line: Line, item: Line): Line {
    line.(quantity := Plus(line.quantity, OrOne(item.quantity)))
  }

  /** `addToCart(item)` on the in-memory cart. */
  function AddToCart(cart: seq<Line>, item: Line): (r: seq<Line>)
    ensures InCart(cart, item.name, item.size) ==> |r| == |cart|
    ensures !InCart(cart, item.name, item.size) ==> |r| == |cart| + 1
    ensures InCart(r, item.name, item.size)
  {
    var i := FindIndex(cart, item.name, item.size);
    if i >= 0 then
      var r := cart[i := Merged(cart[i], item)];
      assert SameKey(r[i], item.name, item.size);
      r
    else
      var r := cart + [Fresh(item)];
      assert SameKey(r[|cart|], item.name, item.size);
      r
  }

  /** `removeFromCart(index)` on the in-memory cart: an index outside the cart is ignored. */
  function RemoveFromCart(cart: seq<Line>, index: int): (r: seq<Line>)
    ensures 0 <= index < |cart| ==> |r| == |cart| - 1
    ensures 0 <= index < |cart| ==> forall j :: 0 <= j < index ==> r[j] == cart[j]
    ensures 0 <= index < |cart| ==> forall j :: index <= j < |r| ==> r[j] == cart[j + 1]
    ensures !(0 <= index < |cart|) ==> r == cart
  {
    if 0 <= index < |cart| then cart[..index] + cart[index + 1..] else cart
  }

  /** What one line contributes to the badge total: `item.quantity || 1`. */
  function Weight(line: Line): int {
    OrOne(line.quantity)
  }

  /** Every line has a positive quantity (true of carts built only by adds of
      non-negative or missing quantities). */
  predicate PositiveQuantities(cart: seq<Line>) {
    forall j :: 0 <= j < |cart| ==> cart[j].quantity.Some? && cart[j].quantity.value > 0
  }

  /** `cart.reduce((total, item) => total + (item.quantity || 1), 0)`, a left fold. */
  function CartCount(cart: seq<Line>): (r: int)
    ensures |cart| == 0 ==> r == 0
  {
    if |cart| == 0 then 0
    else CartCount(cart[..|cart| - 1]) + Weight(cart[|cart| - 1])
  }

  /** With every quantity positive, the badge shows at least one per line. */
  lemma {:induction false} CountAtLeastLines(cart: seq<Line>)
    requires PositiveQuantities(cart)
    ensures CartCount(cart) >= |cart|
  {
    if |cart| > 0 {
      var front := cart[..|cart| - 1];
      assert PositiveQuantities(front) by {
        forall j | 0 <= j < |front| ensures front[j].quantity.Some? && front[j].quantity.value > 0 {
          assert front[j] == cart[j];
        }
      }
      CountAtLeastLines(front);
    }
  }

  /** The loop of `updateCartCount`: walks the cart front to back, accumulating. */
  method TotalItems(cart: seq<Line>) returns (total: int)
    ensures total == CartCount(cart)
  {
    total := 0;
    var i := 0;
    while i < |cart|
      invariant 0 <= i <= |cart|
      invariant total == CartCount(cart[..i])
    {
      assert cart[..i + 1][..i] == cart[..i];
      total := total + Weight(cart[i]);
      i := i + 1;
    }
    assert cart[..|cart|] == cart;
  }
}
