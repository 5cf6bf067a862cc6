/**
 The cart as a value: an ordered sequence of line items `{name, price}`, and
 the two changes the store makes to it (add-if-absent and remove-at-index).
 Prices are exact reals.
 */
module Cart {

  datatype Option<T> = None | Some(value: T)

  datatype Item = Item(name: string, price: real)

  /** Some line item carries `name`. */
  ghost predicate HasName(cart: seq<Item>, name: string) {
    exists i :: 0 <= i < |cart| && cart[i].name == name
  }

  /** The names in the cart. */
  ghost function Names(cart: seq<Item>): set<string> {
    set i | 0 <= i < |cart| :: cart[i].name
  }

  /** A name is carried by some line item exactly when it is among the
      cart's names. */
  lemma HasNameIsNames(cart: seq<Item>, name: string)
    ensures HasName(cart, name) <==> name in Names(cart)
  {
    if name in Names(cart) {
      var i :| 0 <= i < |cart| && cart[i].name == name;
    }
  }

  /** No two line items share a name. */
  ghost predicate DistinctNames(cart: seq<Item>) {
    forall i, j :: 0 <= i < j < |cart| ==> cart[i].name != cart[j].name
  }

  /** `cart.find(item => item.name === name)`: the first line item with that
      name, or none. */
  function FindByName(cart: seq<Item>, name: string): (r: Option<Item>)
    ensures r.None? <==> !HasName(cart, name)
    ensures r.Some? ==> exists i :: 0 <= i < |cart| && cart[i] == r.value && r.value.name == name
                                    && forall j :: 0 <= j < i ==> cart[j].name != name
  {
    if cart == [] then None
    else if cart[0].name == name then Some(cart[0])
    else
      var r := FindByName(cart[1..], name);
      assert HasName(cart[1..], name) ==> HasName(cart, name) by {
        if HasName(cart[1..], name) {
          var i :| 0 <= i < |cart[1..]| && cart[1..][i].name == name;
          assert cart[i + 1].name == name;
        }
      }
      assert HasName(cart, name) ==> HasName(cart[1..], name) by {
        if HasName(cart, name) {
          var i :| 0 <= i < |cart| && cart[i].name == name;
          assert cart[1..][i - 1].name == name;
        }
      }
      assert r.Some? ==> exists i :: 0 <= i < |cart| && cart[i] == r.value && r.value.name == name
                                   && forall j :: 0 <= j < i ==> cart[j].name != name by {
        if r.Some? {
          var i :| 0 <= i < |cart[1..]| && cart[1..][i] == r.value && r.value.name == name
                   && forall j :: 0 <= j < i ==> cart[1..][j].name != name;
          assert cart[i + 1] == r.value;
          assert forall j :: 0 <= j < i + 1 ==> cart[j].name != name by {
            forall j | 0 <= j < i + 1 ensures cart[j].name != name {
              if j > 0 { assert cart[j] == cart[1..][j - 1]; }
            }
          }
        }
      }
      r
  }

  /** The add-to-cart handler's change to the cart: append `{name, price}`
      when no line item has that name, otherwise leave the cart alone. */
  function AddItem(cart: seq<Item>, name: string, price: real): (r: seq<Item>)
    ensures HasName(cart, name) ==> r == cart
    ensures !HasName(cart, name) ==> r == cart + [Item(name, price)]
  {
    if FindByName(cart, name).None? then cart + [Item(name, price)] else cart
  }

  /** Outcome of `cart[index].name` followed by `cart.splice(index, 1)`: the
      removed name and the remaining cart, or the TypeError an index outside
      the cart raises before anything changes. */
  datatype RemoveResult = Removed(name: string, rest: seq<Item>) | IndexOutOfRange

  function RemoveAt(cart: seq<Item>, index: int): (r: RemoveResult)
    ensures r.Removed? <==> 0 <= index < |cart|
    ensures r.Removed? ==> r.name == cart[index].name && |r.rest| == |cart| - 1
    ensures r.Removed? ==> forall k :: 0 <= k < |r.rest| ==>
                             r.rest[k] == if k < index then cart[k] else cart[k + 1]
  {
    if 0 <= index < |cart| then Removed(cart[index].name, cart[..index] + cart[index + 1..])
    else IndexOutOfRange
  }

  /** After an add, the name is in the cart, whichever branch was taken. */
  lemma AddedNamePresent(cart: seq<Item>, name: string, price: real)
    ensures HasName(AddItem(cart, name, price), name)
  {
    var r := AddItem(cart, name, price);
    if !HasName(cart, name) {
      assert r[|cart|].name == name;
    }
  }

  /** Adding the same name twice is the same as adding it once, whatever the
      second price. */
  lemma AddIdempotent(cart: seq<Item>, name: string, price: real, price': real)
    ensures AddItem(AddItem(cart, name, price), name, price') == AddItem(cart, name, price)
  {
    AddedNamePresent(cart, name, price);
  }

  /** Adding keeps every existing line item, in order, at its index. */
  lemma AddKeepsPrefix(cart: seq<Item>, name: string, price: real)
    ensures |AddItem(cart, name, price)| == |cart| + (if HasName(cart, name) then 0 else 1)
    ensures AddItem(cart, name, price)[..|cart|] == cart
  {
  }

  lemma NamesAppend(cart: seq<Item>, x: Item)
    ensures Names(cart + [x]) == Names(cart) + {x.name}
  {
    var c := cart + [x];
    forall n | n in Names(c) ensures n in Names(cart) + {x.name} {
      var i :| 0 <= i < |c| && c[i].name == n;
      if i < |cart| { assert cart[i] == c[i]; }
    }
    forall n | n in Names(cart) ensures n in Names(c) {
      var i :| 0 <= i < |cart| && cart[i].name == n;
      assert c[i] == cart[i];
    }
    assert c[|cart|] == x;
  }

  /** Adding keeps names pairwise distinct. */
  lemma AddKeepsDistinct(cart: seq<Item>, name: string, price: real)
    requires DistinctNames(cart)
    ensures DistinctNames(AddItem(cart, name, price))
  {
  }

  /** Removing keeps names pairwise distinct. */
  lemma RemoveKeepsDistinct(cart: seq<Item>, index: int)
    requires DistinctNames(cart)
    ensures RemoveAt(cart, index).Removed? ==> DistinctNames(RemoveAt(cart, index).rest)
  {
    var r := RemoveAt(cart, index);
    if r.Removed? {
      forall i, j | 0 <= i < j < |r.rest| ensures r.rest[i].name != r.rest[j].name {
        var i' := if i < index then i else i + 1;
        var j' := if j < index then j else j + 1;
        assert r.rest[i] == cart[i'] && r.rest[j] == cart[j'];
      }
    }
  }

  /** With distinct names, removing a line item takes exactly its name out of
      the cart. */
  lemma RemoveDropsName(cart: seq<Item>, index: int)
    requires DistinctNames(cart)
    requires 0 <= index < |cart|
    ensures Names(RemoveAt(cart, index).rest) == Names(cart) - {cart[index].name}
  {
    var r := RemoveAt(cart, index);
    forall n | n in Names(r.rest) ensures n in Names(cart) - {cart[index].name} {
      var k :| 0 <= k < |r.rest| && r.rest[k].name == n;
      var k' := if k < index then k else k + 1;
      assert r.rest[k] == cart[k'];
    }
    forall n | n in Names(cart) - {cart[index].name} ensures n in Names(r.rest) {
      var k :| 0 <= k < |cart| && cart[k].name == n;
      var k' := if k < index then k else k - 1;
      assert r.rest[k'] == cart[k];
    }
  }

  /** Removing the line item an add just appended gives the old cart back,
      and reports the added name. */
  lemma RemoveUndoesAdd(cart: seq<Item>, name: string, price: real)
    requires !HasName(cart, name)
    ensures RemoveAt(AddItem(cart, name, price), |cart|) == Removed(name, cart)
  {
    var c := AddItem(cart, name, price);
    assert c[..|cart|] + c[|cart| + 1..] == cart;
  }

  /** With distinct names, the cart holds one line item per name. */
  lemma {:induction false} DistinctCount(cart: seq<Item>)
    requires DistinctNames(cart)
    ensures |Names(cart)| == |cart|
  {
    if cart != [] {
      var init := cart[..|cart| - 1];
      var x := cart[|cart| - 1];
      assert cart == init + [x];
      assert DistinctNames(init);
      DistinctCount(init);
      NamesAppend(init, x);
      assert x.name !in Names(init);
    }
  }

  /** A run of add-to-cart clicks, one per item, starting from `cart`. The
      items already there stay at their indices, and each click adds at most
      one line item. */
  function AddAll(cart: seq<Item>, adds: seq<Item>): (r: seq<Item>)
    ensures |cart| <= |r| <= |cart| + |adds|
    ensures r[..|cart|] == cart
    decreases |adds|
  {
    if adds == [] then cart
    else AddAll(AddItem(cart, adds[0].name, adds[0].price), adds[1..])
  }

  /** An add leaves the cart's names together with the added one. */
  lemma NamesAfterAdd(cart: seq<Item>, name: string, price: real)
    ensures Names(AddItem(cart, name, price)) == Names(cart) + {name}
  {
    if HasName(cart, name) {
      var i :| 0 <= i < |cart| && cart[i].name == name;
      assert name in Names(cart);
    } else {
      NamesAppend(cart, Item(name, price));
    }
  }

  /** A run of adds keeps names distinct and ends holding the names already in
      the cart plus every name clicked. */
  lemma {:induction false} AddAllNames(cart: seq<Item>, adds: seq<Item>)
    requires DistinctNames(cart)
    ensures DistinctNames(AddAll(cart, adds))
    ensures Names(AddAll(cart, adds)) == Names(cart) + Names(adds)
    decreases |adds|
  {
    if adds == [] {
      assert Names(adds) == {};
    } else {
      var x := adds[0];
      var c := AddItem(cart, x.name, x.price);
      NamesAfterAdd(cart, x.name, x.price);
      AddKeepsDistinct(cart, x.name, x.price);
      AddAllNames(c, adds[1..]);
      assert adds == [x] + adds[1..];
      NamesCons(x, adds[1..]);
    }
  }

  lemma NamesCons(x: Item, s: seq<Item>)
    ensures Names([x] + s) == {x.name} + Names(s)
  {
    var c := [x] + s;
    forall n | n in Names(c) ensures n in {x.name} + Names(s) {
      var i :| 0 <= i < |c| && c[i].name == n;
      if i > 0 { assert s[i - 1] == c[i]; }
    }
    forall n | n in Names(s) ensures n in Names(c) {
      var i :| 0 <= i < |s| && s[i].name == n;
      assert c[i + 1] == s[i];
    }
    assert c[0] == x;
  }

  /** Starting from an empty cart, the item count after any run of adds is the
      number of distinct names clicked. */
  lemma CountAfterAdds(adds: seq<Item>)
    ensures |AddAll([], adds)| == |Names(adds)|
  {
    AddAllNames([], adds);
    assert Names([]) == {};
    DistinctCount(AddAll([], adds));
  }
}
