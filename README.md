# GameHub cart store in Dafny

A verified model of the shopping-cart store of the GameHub storefront script
(`script.js`). The store keeps an ordered list of line items `{name, price}`
in a global `cart`. It reads the list once from the browser's storage key
`gameHubCart` and writes it back after every change. The model covers:

- **Cart** (`cart.dfy`): the line items as a value. It has the handlers'
  changes to the cart: add-if-absent, looked up with `cart.find` by name, and
  remove-at-index, done with `cart[index].name` and `cart.splice(index, 1)`.
  Beside them are lemmas on name uniqueness, order and counts.
- **Store** (`store.dfy`): a class `CartStore` with the cart and the saved
  copy as fields. It has methods for page load, `saveCart`, the add-to-cart
  handler, the remove handler and the checkout button. Its invariant `Valid()`
  says that reloading the page now gives back the current cart.
- **Pricing** (`pricing.dfy`): the subtotal as the `reduce` left fold over
  prices, tax at 9%, the summary total, and the discount and discounted total
  of a promo code. Everything is in exact `real` arithmetic.
- **Text** and **Promo** (`text.dfy`, `promo.dfy`): `toUpperCase` and `trim`
  as the promo field uses them. Promo adds the classification of the field
  into SAVE10, GAME20, blank or unknown.
- **Summary** (`summary.dfy`): the order-summary panel as the two handlers
  that write it leave it. One is `updateCartSummary`; the other is the promo
  button.

The JavaScript was not run; what the page displays is read from
`script.js`. Each row of the "## Model" table is a verified
contract. Two statements are reasoning rather than contracts: the
`Text.UpperChar` line under "## Left out", and the account of displayed
figures in the "## Findings" row.

## Notes on the source

- `JSON.parse(localStorage.getItem('gameHubCart')) || []` (script.js:2) gives
  `[]` for an absent key and for any falsy stored value (`null`, `false`, `0`,
  `""`). Malformed stored text makes `JSON.parse` throw. The model keeps only
  the absent key (`None`) and a decoded list (`Some`), and every load goes
  through `Store.Loaded`.
- A blank or unknown promo code (script.js:249-253) only shows a
  notification. No figure changes and the field keeps its contents.
- `updateCartSummary` (script.js:196-209) never touches the discount row. So
  after a removal the summary is not a function of the cart and the applied
  code (see Findings).
- The add and remove handlers (script.js:21-49, 179-192) report only through
  notifications. `Store.CartStore.Add` and `Store.CartStore.Remove` return
  what happened together with the notification text.
- For 59.99 + 39.99 the exact tax is 8.9982 and the SAVE10 total is 98.9802.
  `toFixed(2)` shows them as 9.00 and 98.98.

## Model

| member | source | states |
|---|---|---|
| `Store.CartStore.Load` | script.js:2 | the cart starts as `Loaded(stored)`: the saved list, or empty when nothing is saved; afterwards a reload reproduces the cart |
| `Store.CartStore.Save` | script.js:13-16 | the saved copy becomes the whole current cart, and the cart is unchanged |
| `Store.CartStore.Add` | script.js:22-48 | a name not in the cart appends exactly `{name, price}` at the end, keeps all earlier items in order, and saves; a name already there changes neither cart nor storage; distinct names stay distinct; the notification says which branch ran |
| `Store.CartStore.Remove` | script.js:180-191 | an index with 0 ≤ index < length reports `cart[index].name`, leaves `cart[..index] + cart[index+1..]`, saves, notifies "<name> removed from cart", and asks for a reload exactly when the cart becomes empty; any other index changes nothing, shows nothing and reports IndexOutOfRange; distinct names stay distinct |
| `Store.CartStore.Checkout` | script.js:261-268 | a non-empty cart gives the "processing" notice, an empty one "cart is empty"; the method cannot modify the store |
| `Cart.HasNameIsNames` | script.js:26 | a name is carried by some line item exactly when it is among the cart's names |
| `Cart.FindByName` | script.js:26 | none exactly when no item has the name; otherwise the first item carrying it |
| `Cart.AddItem` | script.js:26-32 | a present name leaves the cart as it is; an absent one appends the new item |
| `Cart.RemoveAt` | script.js:181-182 | the index is accepted exactly when it is inside the cart; the result has the removed item's name, one item fewer, and every other item in its old order |
| `Cart.AddedNamePresent` | script.js:26-32 | after an add the name is in the cart on either branch |
| `Cart.AddIdempotent` | script.js:26-32 | adding a name a second time, at any price, changes nothing |
| `Cart.AddKeepsPrefix` | script.js:29-32 | an add keeps every earlier item at its index and grows the cart by one exactly when the name was absent |
| `Cart.AddKeepsDistinct` | script.js:26-32 | an add keeps names pairwise distinct |
| `Cart.RemoveKeepsDistinct` | script.js:182 | a removal keeps names pairwise distinct |
| `Cart.RemoveDropsName` | script.js:181-182 | with distinct names, a removal takes exactly the removed name out of the cart's names |
| `Cart.RemoveUndoesAdd` | script.js:26-32 | removing the item an add just appended restores the old cart and reports the added name |
| `Cart.DistinctCount` | script.js:8 | with distinct names, the item count equals the number of names |
| `Cart.NamesAfterAdd` | script.js:26-32 | after an add the cart's names are the old names plus the added one |
| `Cart.AddAll` | script.js:20-50 | a run of add clicks keeps the items already in the cart at their indices and adds at most one line item per click |
| `Cart.AddAllNames` | script.js:26-32 | any run of adds keeps names distinct and ends with the old names plus every name clicked |
| `Cart.CountAfterAdds` | script.js:26-32 | from an empty cart, the count after any run of adds is the number of distinct names clicked |
| `Pricing.Subtotal` | script.js:203 | the subtotal of the empty cart is 0, and of a single item its price |
| `Pricing.SumFromShift` | script.js:203 | `SumFrom`, the `reduce` fold: its start value only adds to the subtotal |
| `Pricing.SubtotalConcat` | script.js:203 | the subtotal of two carts laid end to end is the sum of their subtotals, so it is the sum of the prices |
| `Pricing.SubtotalAfterAdd` | script.js:26-32 | an add raises the subtotal by the new price, or by nothing for a name already present |
| `Pricing.SubtotalAfterRemove` | script.js:181-182 | a removal lowers the subtotal by the removed item's price |
| `Pricing.SubtotalNonNegative` | script.js:203 | with no negative price the subtotal is not negative |
| `Pricing.TotalIsSubtotalPlusTax` | script.js:204-205 | `Tax` is 9% of the subtotal and `Total`, the summary total, is 109% of it, with no discount |
| `Pricing.DiscountedTotalFormula` | script.js:223-240 | `Discount` is the code's rate of the subtotal, and `DiscountedTotal` is the summary total less it: 99% (SAVE10) or 89% (GAME20) of the subtotal, for every cart |
| `Pricing.DiscountedTotalBounds` | script.js:223-240 | with no negative price, the promo total lies between 0 and the undiscounted total |
| `Pricing.ExampleTwoGames` | script.js:203-227 | 59.99 + 39.99: subtotal 99.98, tax 8.9982, total 108.9782; with SAVE10, discount 9.998 and total 98.9802 |
| `Pricing.ExampleEmptyCart` | script.js:236-240 | GAME20 on the empty cart: discount and total are 0 |
| `Text.Upper` | script.js:217 | upper case keeps the length and maps each character on its own |
| `Text.UpperIdempotent` | script.js:217 | upper-casing twice is upper-casing once |
| `Text.UpperConcat` | script.js:217 | upper case of a concatenation is the concatenation of the upper cases |
| `Text.UpperAllSpace` | script.js:217 | upper-casing neither creates nor removes a space |
| `Text.UpperOfSpace` | script.js:217 | a run of spaces is its own upper case |
| `Text.LeadingSpace` | script.js:217 | the number of leading characters trim strips: all spaces, followed by a non-space or nothing |
| `Text.TrailingSpace` | script.js:217 | the number of trailing characters trim strips: all spaces, preceded by a non-space or nothing |
| `Text.Trim` | script.js:217 | the result is the block after the leading spaces, followed only by spaces, with no space at either end |
| `Text.TrimUnique` | script.js:217 | trimming a tight string padded with spaces on both sides gives the tight string back |
| `Text.TrimPadding` | script.js:217 | spaces added around a string do not change its trim |
| `Text.TrimEmpty` | script.js:217 | trim is empty exactly when the input is all spaces |
| `Text.TrimIdempotent` | script.js:217 | trimming twice is trimming once |
| `Promo.Normalize` | script.js:217 | per-character upper case, then trim: the normal form is no longer than the input and has no space at either end |
| `Promo.ClassifyMeaning` | script.js:217-253 | `Classify`: a code is recognised exactly when the normalised input is its name; blank exactly when the normal form is empty; unknown otherwise |
| `Promo.NormalizeIdempotent` | script.js:217 | normalising upper-case-then-trim twice is normalising once |
| `Promo.BlankIffAllSpace` | script.js:217-250 | the field counts as blank exactly when it holds only spaces and line breaks |
| `Promo.ClassifyIgnoresCase` | script.js:217-236 | matching does not depend on letter case |
| `Promo.NormalizeIgnoresPadding` | script.js:217 | surrounding spaces do not change the normal form |
| `Promo.ClassifyIgnoresPadding` | script.js:217-253 | surrounding spaces do not change the classification |
| `Promo.ClassifyCodeName` | script.js:223-236 | an input that normalises to a code's name is recognised as that code |
| `Promo.AcceptsPaddedSpelling` | script.js:217-236 | any spelling whose upper case is a code's name, padded with spaces, is recognised as that code |
| `Promo.ExamplePaddedLowerCase` | script.js:217-223 | `" save10\n"` is SAVE10 |
| `Promo.ExampleLongS` | script.js:217-223 | `"ſave10"` (long s) is SAVE10, as its upper case is S |
| `Promo.ExampleBlank` | script.js:249 | a field of spaces and a tab is blank |
| `Promo.ExamplePrefix` | script.js:251-252 | `"save"` is an unknown code |
| `Summary.Refresh` | script.js:196-209 | as written: subtotal, tax and the undiscounted total are rewritten from the cart whatever the panel shows, and the discount row is left as it was; with no discount row the panel matches the cart |
| `Summary.RefreshKeepingPromo` | script.js:196-209 | corrected: the panel matches the cart, with the shown code's discount recomputed, and keeps the same code |
| `Summary.PromoBranch` | script.js:223-253 | a recognised code shows its row with rate × subtotal, sets total = subtotal + tax − discount, keeps the shown subtotal and tax, clears the field and gives its notice; blank and unknown input leave the panel unchanged, keep the field, and give their own notices |
| `Summary.ApplyPromoMeaning` | script.js:215-253 | `ApplyPromo` on the field's normal form: a code's name shows its row and the discounted total, gives its notice and clears the field; the empty form asks for a code and anything else is unknown, both leaving the panel and field alone |
| `Summary.PromoConsistent` | script.js:223-253 | on a panel showing the cart's subtotal and tax, a recognised code gives a panel that matches the cart; a rejected one keeps a matching panel matching |
| `Summary.BlankInputOnlyNotifies` | script.js:249-250 | an empty or all-space field changes no figure and only asks for a code |
| `Summary.RefreshAgreesWithoutPromo` | script.js:196-209 | with no discount row shown, the corrected refresh is the original |
| `Summary.RemoveLowersShownTotal` | script.js:180-190 | after a removal, the corrected panel's total drops by the removed price × (1.09 − shown rate) |
| `Summary.StaleRowInconsistent` | script.js:196-209 | as written: with a discount row shown, a refresh never matches a cart whose subtotal is not zero |
| `Summary.StaleAfterRemove` | script.js:180-209 | as written: after any removal from a matching panel with a discount row, the row keeps the old cart's discount, and the panel stops matching unless what is left costs nothing |
| `Summary.StaleDiscountAfterRemove` | script.js:196-209 | as written: with SAVE10 applied to two 10.00 games and one removed, the row still shows 2.00 off while the total is 10.90, so the panel no longer matches the cart |

## Left out

- DOM work: rendering the item list and counts (`renderCartItems`,
  `updateCartCount`), the empty-cart page layout, notification boxes, button
  feedback and injected CSS. The model returns notification texts and a
  reload flag instead.
- `setTimeout`, `location.reload` and `alert`. They are asynchronous or
  cosmetic browser calls. A reload is modelled only as the `reload` flag of
  `Store.CartStore.Remove`, and what it reloads is covered by `Valid()`.
- JSON encoding and `localStorage` itself. The saved copy is the decoded
  list. Malformed stored data throws in the source and is not modelled, and
  neither are storage write failures.
- Floating point and `toFixed(2)` display rounding. Figures are exact reals.
  `Cart.Item` prices may be any real: the source does not check them, and a
  `NaN` from `parseFloat` has no counterpart.
- `parseInt` and `parseFloat` of HTML attributes. The remove index is any
  integer; a `NaN` index behaves like an out-of-range one in the source.
- Promo.Normalize: uses the one-character-to-one mapping of
  `Text.UpperChar`, so it differs from `toUpperCase().trim()` on other
  letters (é stays é) and on multi-character expansions (ß stays ß where the
  source gives SS), and the length bound is the model's only. Only the
  classification built on it (`Promo.Classify`) is claimed to agree with the
  source.
- Text.UpperChar: maps the ASCII letters, dotless i and long s, and leaves
  every other character as it is. Full Unicode case mapping is not modelled,
  including multi-character expansions such as ligatures. None of those
  characters can make an input equal SAVE10 or GAME20, so the classification
  does not depend on them.
- Several open pages: `Valid()` assumes one page writes `gameHubCart`. Two
  tabs each hold their own `cart`, and each tab's `saveCart` overwrites what
  the other saved.
- UTF-16: JavaScript strings are sequences of UTF-16 code units, Dafny
  strings of Unicode scalar values. A lone surrogate in a name or in the promo
  field has no counterpart.
- Falsy stored values: `false`, `0` and `""` under the key load as `[]` in the
  source. The model's `None` stands for them as for an absent key.
- Newsletter and contact forms, hamburger menu, smooth scrolling, the page
  fade-in, and the filter and sort stubs. They carry no cart state.

## Findings

| source | as written | input that shows it | evidently intended | confidence | as-written member | corrected member |
|---|---|---|---|---|---|---|
| script.js:196-209 | `updateCartSummary`, run after each removal that leaves items, rewrites subtotal, tax and total without any discount. The discount row a promo code displayed stays visible with its old amount. | Cart A 10.00 and B 10.00; apply SAVE10 (row shows −2.00, total 19.80); remove B. The row still shows −2.00 while the total reads 10.90 (10.00 + 0.90). | The summary is a function of the current cart and the applied code: the discount is recomputed for the shown code (here −1.00, total 9.90). | medium, not executed | `Summary.StaleDiscountAfterRemove` (with `Summary.Refresh`, `Summary.StaleAfterRemove`) | `Summary.RefreshKeepingPromo` (with `Summary.RemoveLowersShownTotal`) |
