/**
 The figures derived from the cart: subtotal, 9% tax, the total the summary
 shows, and the discounted total a promo code gives. All arithmetic is exact;
 rounding to cents happens only when a figure is displayed.
 */
module Pricing {
  import opened Cart
  import opened Promo

  const TaxRate: real := 0.09

  /** `cart.reduce((sum, item) => sum + item.price, acc)`: a left fold. */
  function SumFrom(acc: real, cart: seq<Item>): real
    decreases |cart|
  {
    if cart == [] then acc else SumFrom(acc + cart[0].price, cart[1..])
  }

  /** Sum of the prices, folded from 0. */
  function Subtotal(cart: seq<Item>): (r: real)
    ensures cart == [] ==> r == 0.0
    ensures |cart| == 1 ==> r == cart[0].price
  {
    assert |cart| == 1 ==> cart[1..] == [] && SumFrom(0.0, cart) == SumFrom(0.0 + cart[0].price, []);
    SumFrom(0.0, cart)
  }

  function Tax(cart: seq<Item>): real {
    Subtotal(cart) * TaxRate
  }

  /** The total `updateCartSummary` shows: no discount. */
  function Total(cart: seq<Item>): real {
    Subtotal(cart) + Tax(cart)
  }

  function Discount(cart: seq<Item>, code: PromoCode): real {
    Subtotal(cart) * Rate(code)
  }

  /** The total the promo handler shows. */
  function DiscountedTotal(cart: seq<Item>, code: PromoCode): real {
    Subtotal(cart) + Tax(cart) - Discount(cart, code)
  }

  ghost predicate NonNegativePrices(cart: seq<Item>) {
    forall i :: 0 <= i < |cart| ==> cart[i].price >= 0.0
  }

  /** The fold's starting value just adds to the result. */
  lemma {:induction false} SumFromShift(acc: real, cart: seq<Item>)
    ensures SumFrom(acc, cart) == acc + Subtotal(cart)
    decreases |cart|
  {
    if cart != [] {
      SumFromShift(acc + cart[0].price, cart[1..]);
      SumFromShift(cart[0].price, cart[1..]);
    }
  }

  /** The subtotal of two carts laid end to end is the sum of their
      subtotals. */
  lemma {:induction false} SubtotalConcat(a: seq<Item>, b: seq<Item>)
    ensures Subtotal(a + b) == Subtotal(a) + Subtotal(b)
    decreases |a|
  {
    if a == [] {
      assert a + b == b;
    } else {
      assert (a + b)[1..] == a[1..] + b;
      SumFromShift(a[0].price, a[1..] + b);
      SumFromShift(a[0].price, a[1..]);
      SubtotalConcat(a[1..], b);
    }
  }

  /** An add raises the subtotal by the new price, or not at all when the
      name was already in the cart. */
  lemma SubtotalAfterAdd(cart: seq<Item>, name: string, price: real)
    ensures Subtotal(AddItem(cart, name, price))
            == Subtotal(cart) + (if HasName(cart, name) then 0.0 else price)
  {
    if !HasName(cart, name) {
      SubtotalConcat(cart, [Item(name, price)]);
    }
  }

  /** A removal lowers the subtotal by the removed line item's price. */
  lemma SubtotalAfterRemove(cart: seq<Item>, index: int)
    requires 0 <= index < |cart|
    ensures Subtotal(RemoveAt(cart, index).rest) == Subtotal(cart) - cart[index].price
  {
    var before, after := cart[..index], cart[index + 1..];
    assert cart == before + [cart[index]] + after;
    SubtotalConcat(before + [cart[index]], after);
    SubtotalConcat(before, [cart[index]]);
    SubtotalConcat(before, after);
  }

  /** With no negative price the subtotal is not negative. */
  lemma {:induction false} SubtotalNonNegative(cart: seq<Item>)
    requires NonNegativePrices(cart)
    ensures Subtotal(cart) >= 0.0
    decreases |cart|
  {
    if cart != [] {
      SumFromShift(cart[0].price, cart[1..]);
      SubtotalNonNegative(cart[1..]);
    }
  }

  /** The summary total is the subtotal plus 9%. */
  lemma TotalIsSubtotalPlusTax(cart: seq<Item>)
    ensures Tax(cart) == 0.09 * Subtotal(cart)
    ensures Total(cart) == 1.09 * Subtotal(cart)
  {
  }

  /** The discount is the code's rate of the subtotal, and the promo total is
      the summary total less it: the subtotal scaled by 1.09 less the rate,
      99% for SAVE10 and 89% for GAME20. */
  lemma DiscountedTotalFormula(cart: seq<Item>, code: PromoCode)
    ensures Discount(cart, code) == Rate(code) * Subtotal(cart)
    ensures DiscountedTotal(cart, code) == Total(cart) - Discount(cart, code)
    ensures DiscountedTotal(cart, code) == (1.09 - Rate(code)) * Subtotal(cart)
  {
  }

  /** The promo total never exceeds the summary total, and is not negative,
      when no price is. */
  lemma DiscountedTotalBounds(cart: seq<Item>, code: PromoCode)
    requires NonNegativePrices(cart)
    ensures 0.0 <= DiscountedTotal(cart, code) <= Total(cart)
  {
    SubtotalNonNegative(cart);
    DiscountedTotalFormula(cart, code);
  }

  /** Two games at 59.99 and 39.99, without and with SAVE10. */
  lemma ExampleTwoGames()
    ensures Subtotal([Item("Game A", 59.99), Item("Game B", 39.99)]) == 99.98
    ensures Tax([Item("Game A", 59.99), Item("Game B", 39.99)]) == 8.9982
    ensures Total([Item("Game A", 59.99), Item("Game B", 39.99)]) == 108.9782
    ensures Discount([Item("Game A", 59.99), Item("Game B", 39.99)], Save10) == 9.998
    ensures DiscountedTotal([Item("Game A", 59.99), Item("Game B", 39.99)], Save10) == 98.9802
  {
    var cart := [Item("Game A", 59.99), Item("Game B", 39.99)];
    SubtotalConcat([cart[0]], [cart[1]]);
    assert [cart[0]] + [cart[1]] == cart;
  }

  /** GAME20 on an empty cart: every figure is zero. */
  lemma ExampleEmptyCart()
    ensures Discount([], Game20) == 0.0 && DiscountedTotal([], Game20) == 0.0
  {
  }
}
