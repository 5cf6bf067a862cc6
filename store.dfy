/**
 The cart store: the page's cart and the copy kept under the storage key
 `gameHubCart`. The saved copy is held as the list it decodes to; the JSON
 text itself is not modelled.
 */
module Store {
  import opened Cart

  /** The cart a page load starts from, `JSON.parse(saved) || []`: the saved
      list, or the empty cart when nothing is saved under the key. */
  function Loaded(saved: Option<seq<Item>>): seq<Item> {
    match saved
    case None => []
    case Some(items) => items
  }

  const ProcessingNotice: string := "Processing your order... \U{1F3AE}"
  const EmptyCartNotice: string := "Your cart is empty!"

  class CartStore {
    var items: seq<Item>
    var saved: Option<seq<Item>>

    /** Reloading the page now would give back the cart as it is. */
    ghost predicate Valid()
      reads this
    {
      Loaded(saved) == items
    }

    /** Page load: the cart is read once from storage. */
    constructor Load(stored: Option<seq<Item>>)
      ensures Valid()
      ensures items == Loaded(stored) && saved == stored
    {
      items := Loaded(stored);
      saved := stored;
    }

    /** `saveCart`: the whole cart is written to storage. */
    method Save()
      modifies this
      ensures items == old(items) && saved == Some(items)
      ensures Valid()
    {
      saved := Some(items);
    }

    /** The add-to-cart handler. A name not yet in the cart is appended with
        its price and the cart is saved; a name already there changes nothing.
        Either way the user is told which happened. */
    method Add(name: string, price: real) returns (added: bool, notice: string)
      requires Valid()
      modifies this
      ensures Valid()
      ensures added <==> !HasName(old(items), name)
      ensures items == AddItem(old(items), name, price)
      ensures added ==> items == old(items) + [Item(name, price)] && saved == Some(items)
      ensures !added ==> items == old(items) && saved == old(saved)
      ensures DistinctNames(old(items)) ==> DistinctNames(items)
      ensures notice == if added then name + " added to cart!" else name + " is already in your cart!"
    {
      var existing := FindByName(items, name);
      if existing.None? {
        items := items + [Item(name, price)];
        Save();
        added, notice := true, name + " added to cart!";
      } else {
        added, notice := false, name + " is already in your cart!";
      }
      if DistinctNames(old(items)) {
        AddKeepsDistinct(old(items), name, price);
      }
    }

    /** The remove handler. An index inside the cart takes that line item out,
        saves the cart and notifies the removed name; the page reloads when the
        cart is left empty and is redrawn otherwise. Any other index fails on
        `cart[index].name` before anything changes or is shown. */
    method Remove(index: int) returns (r: RemoveResult, notice: Option<string>, reload: bool)
      requires Valid()
      modifies this
      ensures Valid()
      ensures r == RemoveAt(old(items), index)
      ensures r.Removed? ==> items == old(items)[..index] + old(items)[index + 1..]
      ensures r.Removed? ==> r.name == old(items)[index].name && saved == Some(items)
      ensures r.IndexOutOfRange? ==> items == old(items) && saved == old(saved)
      ensures DistinctNames(old(items)) ==> DistinctNames(items)
      ensures r.Removed? ==> notice == Some(r.name + " removed from cart")
      ensures r.IndexOutOfRange? ==> notice == None
      ensures reload <==> r.Removed? && items == []
    {
      r := RemoveAt(items, index);
      if DistinctNames(items) {
        RemoveKeepsDistinct(items, index);
      }
      notice := None;
      if r.Removed? {
        items := r.rest;
        Save();
        notice := Some(r.name + " removed from cart");
      }
      reload := r.Removed? && |items| == 0;
    }

    /** The checkout button: a message only; the cart is left as it is. */
    method Checkout() returns (notice: string)
      ensures |items| > 0 ==> notice == ProcessingNotice
      ensures |items| == 0 ==> notice == EmptyCartNotice
    {
      if |items| > 0 {
        notice := ProcessingNotice;
      } else {
        notice := EmptyCartNotice;
      }
    }
  }
}
