/** Properties of the cart operations: what an add does to the matching line or to
    the end of the cart, that the no-duplicate invariant survives every operation,
    which lines a removal keeps, and how the badge total moves. */
module CartLemmas {
  import opened JsText
  import opened CartLines

  /** On any cart, duplicates included (a loaded cart is not checked), an add of a
      present identity updates the FIRST line with that identity: its quantity grows
      by `item.quantity || 1`, and no other field or line changes. */
  lemma AddMergesFirst(cart: seq<Line>, item: Line, i: int)
    requires 0 <= i < |cart| && SameKey(cart[i], item.name, item.size)
    requires forall j :: 0 <= j < i ==> !SameKey(cart[j], item.name, item.size)
    ensures |AddToCart(cart, item)| == |cart|
    ensures AddToCart(cart, item)[i].quantity == Plus(cart[i].quantity, OrOne(item.quantity))
    ensures AddToCart(cart, item)[i] == cart[i].(quantity := AddToCart(cart, item)[i].quantity)
    ensures forall j :: 0 <= j < |cart| && j != i ==> AddToCart(cart, item)[j] == cart[j]
  {
    var k := FindIndex(cart, item.name, item.size);
    assert k <= i;
  }

  /** With the invariant in place, the matching line is the only one, so an add of a
      present identity updates that line and touches nothing else. */
  lemma AddMergesExisting(cart: seq<Line>, item: Line, i: int)
    requires NoDuplicateKeys(cart)
    requires 0 <= i < |cart| && SameKey(cart[i], item.name, item.size)
    ensures |AddToCart(cart, item)| == |cart|
    ensures AddToCart(cart, item)[i].quantity == Plus(cart[i].quantity, OrOne(item.quantity))
    ensures AddToCart(cart, item)[i] == cart[i].(quantity := AddToCart(cart, item)[i].quantity)
    ensures forall j :: 0 <= j < |cart| && j != i ==> AddToCart(cart, item)[j] == cart[j]
  {
    forall j | 0 <= j < i
      ensures !SameKey(cart[j], item.name, item.size)
    {
      assert Key(cart[j]) != Key(cart[i]);
    }
    AddMergesFirst(cart, item, i);
  }

  /** An add of an absent identity appends exactly one line at the end, carrying the
      item's fields and the quantity `item.quantity || 1`. */
  lemma AddAppendsNew(cart: seq<Line>, item: Line)
    requires !InCart(cart, item.name, item.size)
    ensures AddToCart(cart, item)[..|cart|] == cart
    ensures |AddToCart(cart, item)| == |cart| + 1
    ensures var last := AddToCart(cart, item)[|cart|];
      && last.name == item.name && last.size == item.size
      && last.price == item.price && last.img == item.img
    ensures item.quantity.None? || item.quantity == Some(0) ==>
      AddToCart(cart, item)[|cart|].quantity == Some(1)
    ensures item.quantity.Some? && item.quantity != Some(0) ==>
      AddToCart(cart, item)[|cart|].quantity == item.quantity
  {
  }

  /** An add leaves exactly the identities that were there, plus the item's. */
  lemma AddKeys(cart: seq<Line>, item: Line)
    ensures Keys(AddToCart(cart, item)) == Keys(cart) + {(item.name, item.size)}
  {
    var r := AddToCart(cart, item);
    var k := FindIndex(cart, item.name, item.size);
    if k >= 0 {
      assert Key(r[k]) == Key(cart[k]) == (item.name, item.size);
      forall x | x in Keys(cart) ensures x in Keys(r) {
        var j :| 0 <= j < |cart| && Key(cart[j]) == x;
        assert Key(r[j]) == x;
      }
      forall x | x in Keys(r) ensures x in Keys(cart) + {(item.name, item.size)} {
        var j :| 0 <= j < |r| && Key(r[j]) == x;
        assert Key(cart[j]) == x;
      }
    } else {
      assert Key(r[|cart|]) == (item.name, item.size);
      forall x | x in Keys(cart) ensures x in Keys(r) {
        var j :| 0 <= j < |cart| && Key(cart[j]) == x;
        assert Key(r[j]) == x;
      }
      forall x | x in Keys(r) ensures x in Keys(cart) + {(item.name, item.size)} {
        var j :| 0 <= j < |r| && Key(r[j]) == x;
        if j < |cart| {
          assert Key(cart[j]) == x;
        }
      }
    }
  }

  /** The no-duplicate invariant survives an add: the merge branch keeps every key
      where it was, and the append branch only runs for a key that is absent. */
  lemma AddPreservesNoDuplicates(cart: seq<Line>, item: Line)
    requires NoDuplicateKeys(cart)
    ensures NoDuplicateKeys(AddToCart(cart, item))
  {
    var r := AddToCart(cart, item);
    var k := FindIndex(cart, item.name, item.size);
    if k >= 0 {
      assert forall j :: 0 <= j < |r| ==> Key(r[j]) == Key(cart[j]);
    } else {
      forall i, j | 0 <= i < j < |r|
        ensures Key(r[i]) != Key(r[j])
      {
        if j == |cart| {
          assert !SameKey(cart[i], item.name, item.size);
        }
      }
    }
  }

  /** A removal at a valid index drops exactly that line: as a multiset, the cart
      loses one copy of `cart[index]`. */
  lemma RemoveDropsOneLine(cart: seq<Line>, index: int)
    requires 0 <= index < |cart|
    ensures multiset(RemoveFromCart(cart, index)) + multiset{cart[index]} == multiset(cart)
  {
    assert cart == cart[..index] + [cart[index]] + cart[index + 1..];
  }

  /** Removal never creates a duplicate, and under the invariant the removed identity
      is gone while every other identity stays. */
  lemma RemoveKeys(cart: seq<Line>, index: int)
    requires NoDuplicateKeys(cart)
    ensures NoDuplicateKeys(RemoveFromCart(cart, index))
    ensures 0 <= index < |cart| ==>
      Keys(RemoveFromCart(cart, index)) == Keys(cart) - {Key(cart[index])}
  {
    var r := RemoveFromCart(cart, index);
    if 0 <= index < |cart| {
      forall i, j | 0 <= i < j < |r|
        ensures Key(r[i]) != Key(r[j])
      {
        var ci := if i < index then i else i + 1;
        var cj := if j < index then j else j + 1;
        assert r[i] == cart[ci] && r[j] == cart[cj];
      }
      forall x | x in Keys(r) ensures x in Keys(cart) - {Key(cart[index])} {
        var j :| 0 <= j < |r| && Key(r[j]) == x;
        var cj := if j < index then j else j + 1;
        assert r[j] == cart[cj];
      }
      forall x | x in Keys(cart) - {Key(cart[index])} ensures x in Keys(r) {
        var j :| 0 <= j < |cart| && Key(cart[j]) == x;
        if j < index {
          assert Key(r[j]) == x;
        } else {
          assert Key(r[j - 1]) == x;
        }
      }
    }
  }

  /** The badge total of a concatenation is the sum of the two totals. */
  lemma {:induction false} CountAppend(a: seq<Line>, b: seq<Line>)
    ensures CartCount(a + b) == CartCount(a) + CartCount(b)
    decreases |b|
  {
    if |b| == 0 {
      assert a + b == a;
    } else {
      var b' := b[..|b| - 1];
      assert (a + b)[..|a + b| - 1] == a + b';
      assert (a + b)[|a + b| - 1] == b[|b| - 1];
      CountAppend(a, b');
    }
  }

  /** The total of a cart split around its line at `i`. */
  lemma {:induction false} CountSplitAt(cart: seq<Line>, i: int)
    requires 0 <= i < |cart|
    ensures CartCount(cart) == CartCount(cart[..i]) + Weight(cart[i]) + CartCount(cart[i + 1..])
  {
    var front, back := cart[..i + 1], cart[i + 1..];
    assert front + back == cart;
    assert front[..i] == cart[..i];
    CountAppend(front, back);
  }

  /** Replacing one line moves the total by the difference of the two weights. */
  lemma CountUpdate(cart: seq<Line>, i: int, line: Line)
    requires 0 <= i < |cart|
    ensures CartCount(cart[i := line]) == CartCount(cart) - Weight(cart[i]) + Weight(line)
  {
    var updated := cart[i := line];
    assert updated[..i] == cart[..i];
    assert updated[i + 1..] == cart[i + 1..];
    CountSplitAt(cart, i);
    CountSplitAt(updated, i);
  }

  /** An add of a missing or non-negative quantity keeps every quantity positive. */
  lemma AddKeepsPositive(cart: seq<Line>, item: Line)
    requires PositiveQuantities(cart)
    requires item.quantity.None? || item.quantity.value >= 0
    ensures PositiveQuantities(AddToCart(cart, item))
  {
    var r := AddToCart(cart, item);
    var k := FindIndex(cart, item.name, item.size);
    assert OrOne(item.quantity) > 0;
    if k >= 0 {
      assert r == cart[k := Merged(cart[k], item)];
    } else {
      assert r == cart + [Fresh(item)];
    }
  }

  /** Merging into a line of positive quantity raises the total by the added amount. */
  lemma CountAfterMerge(cart: seq<Line>, k: int, item: Line)
    requires 0 <= k < |cart| && cart[k].quantity.Some? && cart[k].quantity.value > 0
    requires OrOne(item.quantity) > 0
    ensures CartCount(cart[k := Merged(cart[k], item)]) == CartCount(cart) + OrOne(item.quantity)
  {
    CountUpdate(cart, k, Merged(cart[k], item));
  }

  /** Appending a line raises the total by that line's weight. */
  lemma CountAfterPush(cart: seq<Line>, line: Line)
    ensures CartCount(cart + [line]) == CartCount(cart) + Weight(line)
  {
    assert (cart + [line])[..|cart|] == cart;
  }

  /** The count step of an add whose identity is present. */
  lemma CountAddPresent(cart: seq<Line>, item: Line)
    requires PositiveQuantities(cart) && OrOne(item.quantity) > 0
    requires InCart(cart, item.name, item.size)
    ensures CartCount(AddToCart(cart, item)) == CartCount(cart) + OrOne(item.quantity)
  {
    var k := FindIndex(cart, item.name, item.size);
    assert AddToCart(cart, item) == cart[k := Merged(cart[k], item)];
    CountAfterMerge(cart, k, item);
  }

  /** The count step of an add whose identity is absent. */
  lemma CountAddAbsent(cart: seq<Line>, item: Line)
    requires !InCart(cart, item.name, item.size)
    ensures CartCount(AddToCart(cart, item)) == CartCount(cart) + OrOne(item.quantity)
  {
    assert AddToCart(cart, item) == cart + [Fresh(item)];
    CountAfterPush(cart, Fresh(item));
  }

  /** On a cart whose quantities are all positive, adding an item with a missing or
      non-negative quantity raises the badge total by exactly `item.quantity || 1`,
      and every quantity stays positive. */
  lemma CountAfterAdd(cart: seq<Line>, item: Line)
    requires PositiveQuantities(cart)
    requires item.quantity.None? || item.quantity.value >= 0
    ensures CartCount(AddToCart(cart, item)) == CartCount(cart) + OrOne(item.quantity)
    ensures PositiveQuantities(AddToCart(cart, item))
  {
    AddKeepsPositive(cart, item);
    if InCart(cart, item.name, item.size) {
      CountAddPresent(cart, item);
    } else {
      CountAddAbsent(cart, item);
    }
  }

  /** A valid removal lowers the badge total by the removed line's weight; an
      invalid one leaves it alone. */
  lemma {:induction false} CountAfterRemove(cart: seq<Line>, index: int)
    ensures 0 <= index < |cart| ==>
      CartCount(RemoveFromCart(cart, index)) == CartCount(cart) - Weight(cart[index])
    ensures !(0 <= index < |cart|) ==> CartCount(RemoveFromCart(cart, index)) == CartCount(cart)
  {
    if 0 <= index < |cart| {
      assert RemoveFromCart(cart, index) == cart[..index] + cart[index + 1..];
      CountSplitAt(cart, index);
      CountAppend(cart[..index], cart[index + 1..]);
    }
  }

  /** Two adds of the same (name, size) with non-zero quantities q1 and q2, starting
      from an empty cart, give one line of quantity q1 + q2, never two lines. */
  lemma SameKeyAddsMerge(first: Line, second: Line)
    requires SameKey(second, first.name, first.size)
    requires first.quantity.Some? && first.quantity.value != 0
    requires second.quantity.Some? && second.quantity.value != 0
    ensures AddToCart(AddToCart([], first), second)
      == [first.(quantity := Some(first.quantity.value + second.quantity.value))]
  {
    assert SameKey(AddToCart([], first)[0], second.name, second.size);
  }

  /** Two adds of one name in two sizes give two distinct lines, in order. */
  lemma DistinctSizesStaySeparate(first: Line, second: Line)
    requires first.name == second.name && first.size != second.size
    ensures AddToCart(AddToCart([], first), second) == [Fresh(first), Fresh(second)]
  {
    assert !InCart([Fresh(first)], second.name, second.size);
  }
}
