/** The cart store of universal-cart.js: the in-memory cart together with the one
    browser-storage key ("cartItems") it is mirrored to. Every operation is a pure
    step from one store to the next. */
module CartStore {
  import opened JsText
  import opened CartLines
  import CartLemmas

  /** The in-memory cart and what the "cartItems" key holds: `Some(lines)` when the
      key holds a serialised cart, `None` when the key is absent. */
  datatype Store = Store(cart: seq<Line>, slot: Option<seq<Line>>)

  /** The load step of `initializeCartSystem`. `read` is what parsing the key gave:
      `None` when the key is absent, holds `null`, or holds text that does not parse;
      all three fall back to the empty cart. */
  function Load(read: Option<seq<Line>>): (cart: seq<Line>)
    ensures read.None? ==> cart == []
    ensures read.Some? ==> cart == read.value
  {
    match read
    case None => []
    case Some(lines) => lines
  }

  /** `initializeCartSystem`: the cart is restored from the key; the key is not written. */
  function Initialize(slot: Option<seq<Line>>): (s: Store)
    ensures s.slot == slot
    ensures Load(s.slot) == s.cart
  {
    Store(Load(slot), slot)
  }

  /** A reload of the page would restore exactly the in-memory cart. */
  predicate Persisted(s: Store) {
    Load(s.slot) == s.cart
  }

  /** `addToCart(item)`: merge or append, then write the whole cart to the key. */
  function Add(s: Store, item: Line): (s': Store)
    ensures s'.cart == AddToCart(s.cart, item)
    ensures s'.slot == Some(s'.cart)
  {
    var cart := AddToCart(s.cart, item);
    Store(cart, Some(cart))
  }

  /** `removeFromCart(index)`: an index inside the cart removes that line and writes
      the cart to the key; any other index changes neither cart nor key. */
  function Remove(s: Store, index: int): (s': Store)
    ensures 0 <= index < |s.cart| ==> s'.cart == RemoveFromCart(s.cart, index)
    ensures 0 <= index < |s.cart| ==> s'.slot == Some(s'.cart)
    ensures !(0 <= index < |s.cart|) ==> s' == s
  {
    if 0 <= index < |s.cart| then
      var cart := RemoveFromCart(s.cart, index);
      Store(cart, Some(cart))
    else s
  }

  /** `clearCart()`: the cart becomes empty and the key is removed rather than
      overwritten with an empty list. */
  function Clear(s: Store): (s': Store)
    ensures s'.cart == [] && s'.slot.None?
  {
    Store([], None)
  }

  /** The user actions that drive the store. */
  datatype Action = AddItem(item: Line) | RemoveAt(index: int) | ClearAll

  function Apply(s: Store, a: Action): Store {
    match a
    case AddItem(item) => Add(s, item)
    case RemoveAt(index) => Remove(s, index)
    case ClearAll => Clear(s)
  }

  /** The store after a run of actions, applied in order. */
  function Run(s: Store, actions: seq<Action>): Store
    decreases |actions|
  {
    if |actions| == 0 then s else Run(Apply(s, actions[0]), actions[1..])
  }

  /** The store invariant: no duplicate identity, and the key mirrors the cart. */
  predicate Valid(s: Store) {
    NoDuplicateKeys(s.cart) && Persisted(s)
  }

  /** After every mutation that writes, a reload restores the in-memory cart; a
      no-op removal keeps whatever relation held before. */
  lemma MutationsPersist(s: Store, a: Action)
    ensures a.AddItem? || a.ClearAll? ==> Persisted(Apply(s, a))
    ensures a.RemoveAt? && 0 <= a.index < |s.cart| ==> Persisted(Apply(s, a))
    ensures Persisted(s) ==> Persisted(Apply(s, a))
  {
  }

  /** Clearing and then reloading gives the empty cart, because the key is gone. */
  lemma ClearThenReload(s: Store)
    ensures Clear(s).slot != Some([])
    ensures Initialize(Clear(s).slot).cart == []
  {
  }

  /** One action keeps the store invariant. */
  lemma ApplyKeepsValid(s: Store, a: Action)
    requires Valid(s)
    ensures Valid(Apply(s, a))
  {
    match a
    case AddItem(item) => CartLemmas.AddPreservesNoDuplicates(s.cart, item);
    case RemoveAt(index) => CartLemmas.RemoveKeys(s.cart, index);
    case ClearAll =>
  }

  /** Any run of actions from a valid store (for instance a reload of a cart this
      module wrote) ends in a valid store. */
  lemma {:induction false} RunKeepsValid(s: Store, actions: seq<Action>)
    requires Valid(s)
    ensures Valid(Run(s, actions))
    decreases |actions|
  {
    if |actions| > 0 {
      ApplyKeepsValid(s, actions[0]);
      RunKeepsValid(Apply(s, actions[0]), actions[1..]);
    }
  }

  /** Reloading what a valid store wrote yields a valid store with the same cart. */
  lemma ReloadRestores(s: Store)
    requires Valid(s)
    ensures Initialize(s.slot) == s
    ensures Valid(Initialize(s.slot))
  {
  }

  /** The worked example: from an empty cart, add "Dress A" size M once with
      quantity 1 and again with quantity 2; one line of quantity 3 results and the
      badge shows 3. */
  lemma DressScenario()
    ensures var a := Line("Dress A", "M", 1000.0, "", Some(1));
      var b := Line("Dress A", "M", 1000.0, "", Some(2));
      var s := Add(Add(Store([], None), a), b);
      && s.cart == [a.(quantity := Some(3))]
      && s.slot == Some(s.cart)
      && CartCount(s.cart) == 3
  {
    var a := Line("Dress A", "M", 1000.0, "", Some(1));
    var b := Line("Dress A", "M", 1000.0, "", Some(2));
    CartLemmas.SameKeyAddsMerge(a, b);
    var line := a.(quantity := Some(3));
    assert [line][..0] == [];
    assert CartCount([line]) == CartCount([]) + Weight(line);
  }
}
