/**
 The order-summary panel of the cart page and the two handlers that write it:
 `updateCartSummary`, run when the cart page loads with a non-empty cart and
 after every removal that leaves the cart non-empty, and the promo-code
 button.
 */
module Summary {
  import opened Cart
  import opened Promo
  import opened Pricing
  import Text

  /** The discount row with the code and the amount it shows. */
  datatype DiscountLine = DiscountLine(code: PromoCode, amount: real)

  /** What the panel shows: subtotal, tax, total, and the discount row when it
      is displayed. Figures are exact; display rounding is not modelled. */
  datatype Panel = Panel(subtotal: real, tax: real, total: real, discount: Option<DiscountLine>)

  /** The panel before the first refresh: the discount row is hidden. */
  const Initial: Panel := Panel(0.0, 0.0, 0.0, None)

  /** The panel shows the figures of `cart`, with the discount of the code in
      its discount row applied when the row is displayed. */
  ghost predicate Consistent(p: Panel, cart: seq<Item>) {
    && p.subtotal == Subtotal(cart)
    && p.tax == Tax(cart)
    && match p.discount
       case None => p.total == Total(cart)
       case Some(d) => d.amount == Discount(cart, d.code) && p.total == DiscountedTotal(cart, d.code)
  }

  /** Fraction taken off by the promo the panel shows, 0 when none. */
  function ShownRate(p: Panel): real {
    match p.discount
    case None => 0.0
    case Some(d) => Rate(d.code)
  }

  /** `updateCartSummary` as written: subtotal, tax and total are rewritten
      from the cart, the total without any discount, and the discount row is
      left as it was. */
  function Refresh(p: Panel, cart: seq<Item>): (r: Panel)
    ensures r.subtotal == Subtotal(cart) && r.tax == Tax(cart) && r.total == Total(cart)
    ensures r.discount == p.discount
    ensures p.discount.None? ==> Consistent(r, cart)
  {
    Panel(Subtotal(cart), Tax(cart), Total(cart), p.discount)
  }

  /** `updateCartSummary` recomputing the discount of the code the panel shows,
      so the panel stays a function of the cart and the applied code. */
  function RefreshKeepingPromo(p: Panel, cart: seq<Item>): (r: Panel)
    ensures Consistent(r, cart)
    ensures r.discount.None? <==> p.discount.None?
    ensures p.discount.Some? ==> r.discount.value.code == p.discount.value.code
  {
    match p.discount
    case None => Panel(Subtotal(cart), Tax(cart), Total(cart), None)
    case Some(d) =>
      Panel(Subtotal(cart), Tax(cart), DiscountedTotal(cart, d.code),
            Some(DiscountLine(d.code, Discount(cart, d.code))))
  }

  /** Result of a promo-button click: the new panel, the notification, and
      whether the input field is cleared. */
  datatype PromoOutcome = PromoOutcome(panel: Panel, notice: string, clearInput: bool)

  function AppliedNotice(code: PromoCode): string {
    match code
    case Save10 => "Promo code applied! 10% discount"
    case Game20 => "Promo code applied! 20% discount"
  }

  const BlankNotice: string := "Please enter a promo code"
  const UnknownNotice: string := "Invalid promo code. Try SAVE10 or GAME20"

  /** The promo button's branches on the classified input. A recognised code
      shows its discount row and a total with the discount taken off the
      cart's subtotal, leaves the displayed subtotal and tax alone, and clears
      the field. A blank or unknown code only produces a notification. */
  function PromoBranch(p: Panel, cart: seq<Item>, input: PromoInput): (r: PromoOutcome)
    ensures input.Recognised? ==>
              && r.panel.subtotal == p.subtotal && r.panel.tax == p.tax
              && r.panel.discount == Some(DiscountLine(input.code, Subtotal(cart) * Rate(input.code)))
              && r.panel.total == Subtotal(cart) + Tax(cart) - Subtotal(cart) * Rate(input.code)
              && r.notice == AppliedNotice(input.code) && r.clearInput
    ensures !input.Recognised? ==> r.panel == p && !r.clearInput
    ensures input == Blank ==> r.notice == BlankNotice
    ensures input == Unrecognised ==> r.notice == UnknownNotice
  {
    match input
    case Recognised(code) =>
      var shown := Panel(p.subtotal, p.tax, DiscountedTotal(cart, code),
                         Some(DiscountLine(code, Discount(cart, code))));
      PromoOutcome(shown, AppliedNotice(code), true)
    case Blank => PromoOutcome(p, BlankNotice, false)
    case Unrecognised => PromoOutcome(p, UnknownNotice, false)
  }

  /** The promo button: normalise and classify the field, then branch. */
  function ApplyPromo(p: Panel, cart: seq<Item>, input: string): PromoOutcome {
    PromoBranch(p, cart, Classify(input))
  }

  /** The promo button on the field's normal form: the code's name shows its
      discount row and the discounted total and clears the field, the empty
      form asks for a code, and anything else is reported unknown; the last
      two leave the panel as it was. */
  lemma ApplyPromoMeaning(p: Panel, cart: seq<Item>, input: string, code: PromoCode)
    ensures Normalize(input) == CodeName(code) ==>
              ApplyPromo(p, cart, input)
              == PromoOutcome(Panel(p.subtotal, p.tax, DiscountedTotal(cart, code),
                                    Some(DiscountLine(code, Discount(cart, code)))),
                              AppliedNotice(code), true)
    ensures Normalize(input) == "" ==> ApplyPromo(p, cart, input) == PromoOutcome(p, BlankNotice, false)
    ensures Normalize(input) !in {"", CodeName(Save10), CodeName(Game20)} ==>
              ApplyPromo(p, cart, input) == PromoOutcome(p, UnknownNotice, false)
  {
    ClassifyMeaning(input, code);
  }

  /** A recognised code makes a panel that shows the cart's subtotal and tax
      consistent; a rejected one keeps whatever consistency the panel had. */
  lemma PromoConsistent(p: Panel, cart: seq<Item>, input: string)
    requires p.subtotal == Subtotal(cart) && p.tax == Tax(cart)
    ensures Classify(input).Recognised? ==> Consistent(ApplyPromo(p, cart, input).panel, cart)
    ensures Consistent(p, cart) ==> Consistent(ApplyPromo(p, cart, input).panel, cart)
  {
  }

  /** A field holding only spaces, or nothing, changes no figure: the click
      only asks for a code. */
  lemma BlankInputOnlyNotifies(p: Panel, cart: seq<Item>, input: string)
    requires Text.AllSpace(input)
    ensures ApplyPromo(p, cart, input) == PromoOutcome(p, BlankNotice, false)
  {
    BlankIffAllSpace(input);
  }

  /** Without a discount row shown, the corrected refresh is the original. */
  lemma RefreshAgreesWithoutPromo(p: Panel, cart: seq<Item>)
    requires p.discount.None?
    ensures RefreshKeepingPromo(p, cart) == Refresh(p, cart)
  {
  }

  /** After a removal, the corrected refresh lowers the shown total by the
      removed price with tax added and the shown promo's rate taken off. */
  lemma RemoveLowersShownTotal(p: Panel, cart: seq<Item>, index: int)
    requires Consistent(p, cart)
    requires 0 <= index < |cart|
    ensures RefreshKeepingPromo(p, RemoveAt(cart, index).rest).total
            == p.total - (1.09 - ShownRate(p)) * cart[index].price
  {
    SubtotalAfterRemove(cart, index);
  }

  /** As written, a refresh with a discount row shown never matches a cart
      whose subtotal is not zero: the total it writes has no discount taken
      off, while the row still claims one. */
  lemma StaleRowInconsistent(p: Panel, cart: seq<Item>)
    requires p.discount.Some?
    requires Subtotal(cart) != 0.0
    ensures !Consistent(Refresh(p, cart), cart)
  {
    var code := p.discount.value.code;
    assert Discount(cart, code) != 0.0 by {
      match code
      case Save10 =>
      case Game20 =>
    }
    assert Refresh(p, cart).total != DiscountedTotal(cart, code);
  }

  /** As written, removing a line item from a cart whose panel shows a
      discount keeps the old discount amount on the row, and the panel stops
      matching the cart unless the rest of the cart costs nothing. */
  lemma StaleAfterRemove(p: Panel, cart: seq<Item>, index: int)
    requires Consistent(p, cart) && p.discount.Some?
    requires 0 <= index < |cart|
    requires Subtotal(RemoveAt(cart, index).rest) != 0.0
    ensures Refresh(p, RemoveAt(cart, index).rest).discount
            == Some(DiscountLine(p.discount.value.code, Discount(cart, p.discount.value.code)))
    ensures !Consistent(Refresh(p, RemoveAt(cart, index).rest), RemoveAt(cart, index).rest)
  {
    StaleRowInconsistent(p, RemoveAt(cart, index).rest);
  }

  /** As written, refreshing after a removal leaves a stale discount row: two
      games at 10.00, SAVE10 (in any accepted spelling) applied, one game
      removed. The row still shows 2.00 off while the total is the
      undiscounted 10.90. */
  lemma StaleDiscountAfterRemove(input: string)
    requires Classify(input) == Recognised(Save10)
    ensures var cart := [Item("A", 10.0), Item("B", 10.0)];
            var shown := ApplyPromo(Refresh(Initial, cart), cart, input).panel;
            var rest := RemoveAt(cart, 1).rest;
            && Consistent(shown, cart)
            && Refresh(shown, rest).discount == Some(DiscountLine(Save10, 2.0))
            && Refresh(shown, rest).total == 10.9
            && !Consistent(Refresh(shown, rest), rest)
  {
    var cart := [Item("A", 10.0), Item("B", 10.0)];
    var rest := RemoveAt(cart, 1).rest;
    assert Subtotal(cart) == 20.0 by {
      assert [cart[0]] + [cart[1]] == cart;
      SubtotalConcat([cart[0]], [cart[1]]);
    }
    assert Subtotal(rest) == 10.0 by {
      assert rest == [Item("A", 10.0)];
    }
    var before := Refresh(Initial, cart);
    assert before == Panel(20.0, 1.8, 21.8, None);
    var shown := ApplyPromo(before, cart, input).panel;
    assert shown == Panel(20.0, 1.8, 19.8, Some(DiscountLine(Save10, 2.0)));
    assert Refresh(shown, rest) == Panel(10.0, 0.9, 10.9, Some(DiscountLine(Save10, 2.0)));
    assert Discount(rest, Save10) == 1.0;
  }
}
