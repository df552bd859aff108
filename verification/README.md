# Storefront rules in Dafny

This project models the pure rules under a small React food-ordering
storefront:

- the cart state (add, remove, update quantity, clear) and its two folds, the
  subtotal with customization price modifiers and the item count;
- the order summary (8% tax, a 4.99 delivery fee waived above 30, pickup)
  on the checkout and cart pages, and what placing an order does to the cart;
- the cart page's free-delivery hint, per-line amount and plus/minus buttons;
- the menu page's six catalog filters, five sort orders, filter toggling,
  category click and reset;
- the home page's featured items (the first three popular ones);
- the profile page's order-status text and badge colour.

Everything is a pure function over immutable datatypes. Money is an exact
`real`, a cart is a `seq<CartItem>`, and the menu filter state is a record.
The files are:

- `types.dfy`: the record shapes of `src/types/index.ts`.
- `sequences.dfy`: order-preserving filtering and the subsequence relation.
- `cart_context.dfy`: the cart state.
- `checkout.dfy`: the checkout page.
- `cart_page.dfy`: the cart page.
- `menu.dfy`: the menu page.
- `home.dfy`: the home page.
- `profile.dfy`: the profile page.

Two choices shape the cart model:

- The customization record of a cart line is the list of its entries, in
  the order `Object.entries` yields them. Each entry carries either one
  option id or a list of them.
- A line's total is the unit price added up `quantity` times (`Times`).
  `TimesIsProduct` proves that this equals the product.

## Model

| member | source | states |
|---|---|---|
| Types.SpiceName | src/types/index.ts:13 | the four spice levels carry four distinct names, none of which is the filter's "all" (with `SpiceNameInjective`) |
| Types.SpiceNameInjective | src/types/index.ts:13 | different spice levels have different names |
| Types.StatusName | src/types/index.ts:50 | each of the six order statuses has a non-empty name, and only "out-for-delivery" holds a dash |
| Types.StatusNameInjective | src/types/index.ts:50 | the six status names are pairwise distinct |
| CartContext.Find | src/contexts/CartContext.tsx:74 | `Array.prototype.find`: nothing when no element matches, otherwise the first matching element |
| CartContext.LineId | src/contexts/CartContext.tsx:39 | a new line's id is the item's id, then a dash, then the time text |
| CartContext.AddToCart | src/contexts/CartContext.tsx:32-46 | one line is appended at the end and the earlier lines are unchanged and in order; the new line has id `menuItem.id-now`, the given item, quantity and instructions, and an empty customization record when none is given |
| CartContext.AddTwiceNeverMerges | src/contexts/CartContext.tsx:38-46 | adding the same item twice appends two lines carrying it, after the unchanged old lines, and the count rises by twice the quantity |
| CartContext.RemoveFromCart | src/contexts/CartContext.tsx:50-51 | every line that remains has a different id and came from the cart; every line with a different id remains |
| CartContext.RemoveKeepsOrder | src/contexts/CartContext.tsx:51 | the remaining lines keep their relative order (a subsequence) |
| CartContext.RemoveAppend | src/contexts/CartContext.tsx:51 | removal acts line by line, so it distributes over concatenation |
| CartContext.RemoveIdempotent | src/contexts/CartContext.tsx:51 | removing an id twice is the same as removing it once |
| CartContext.RemoveFreshIsIdentity | src/contexts/CartContext.tsx:51 | removing an id no line carries changes nothing |
| CartContext.RemoveUndoesAdd | src/contexts/CartContext.tsx:38-51 | removing the id of a line just added, when no earlier line has it, gives back the cart |
| CartContext.RemoveUniqueLine | src/contexts/CartContext.tsx:51 | with unique ids, removing a line's id cuts out exactly that line |
| CartContext.SetQuantity | src/contexts/CartContext.tsx:60-62 | same length; matching lines get the new quantity, the others are unchanged |
| CartContext.UpdateQuantity | src/contexts/CartContext.tsx:55-62 | a quantity of 0 or less removes the lines with the id; otherwise length and order are kept, lines with the id take the quantity and nothing else changes |
| CartContext.UpdateIdempotent | src/contexts/CartContext.tsx:55-62 | setting the same quantity twice is the same as setting it once |
| CartContext.ClearCart | src/contexts/CartContext.tsx:65-66 | the cart is empty and its total and count are both 0 |
| CartContext.OptionModifier | src/contexts/CartContext.tsx:78-81 | an unknown option id adds 0; a known one adds the price modifier of the first option carrying it, as `find` returns |
| CartContext.SelectedIds | src/contexts/CartContext.tsx:76 | a single option id stands for the one-element list, and a list for itself |
| CartContext.SelectionModifier | src/contexts/CartContext.tsx:76-82 | a list of option ids none of which is known adds 0 |
| CartContext.SelectionModifierAppend | src/contexts/CartContext.tsx:77-82 | every selected id is priced on its own: the modifier of a list is the sum of the modifiers of its parts |
| CartContext.SelectionModifierSingleton | src/contexts/CartContext.tsx:78-81 | a one-element list adds that option's modifier, so with the append law a list adds the sum of its options' modifiers |
| CartContext.OneIsSingletonList | src/contexts/CartContext.tsx:76 | a single option id is priced as a one-element list |
| CartContext.ChoiceModifier | src/contexts/CartContext.tsx:73-83 | an entry adds the modifiers of its selected ids within the item's first customization carrying its key, and 0 when the item has no customizations or none with that key |
| CartContext.ModifierTotal | src/contexts/CartContext.tsx:73-84 | an item without customizations adds nothing to its base price |
| CartContext.ModifierTotalAppend | src/contexts/CartContext.tsx:73 | every entry of the record is priced on its own: the total of a record is the sum of the totals of its parts |
| CartContext.ModifierTotalSingleton | src/contexts/CartContext.tsx:73-83 | a record with one entry adds what that entry adds, so with the append law a record adds the sum over its entries |
| CartContext.UnitPrice | src/contexts/CartContext.tsx:71-84 | the unit price is the base price plus the modifier total of the line's record; without customizations on the item or selections on the line it is the base price |
| CartContext.LineTotal | src/contexts/CartContext.tsx:85 | a line adds its unit price times its quantity |
| CartContext.TimesIsProduct | src/contexts/CartContext.tsx:85 | the repeated sum used for a line's total is price times quantity |
| CartContext.LineWithoutChoices | src/contexts/CartContext.tsx:85 | a line with no selections costs its base price times its quantity |
| CartContext.CartTotal | src/contexts/CartContext.tsx:69-86 | the empty cart totals 0, and lines with non-negative totals give a non-negative subtotal |
| CartContext.CartTotalAppend | src/contexts/CartContext.tsx:70-86 | the subtotal is a sum over lines: it distributes over concatenation |
| CartContext.TotalAfterAdd | src/contexts/CartContext.tsx:69-86 | adding a line adds exactly that line's total to the subtotal |
| CartContext.TotalAfterRemove | src/contexts/CartContext.tsx:69-86 | with unique ids, removing a line subtracts exactly that line's total |
| CartContext.CartCount | src/contexts/CartContext.tsx:89-91 | the empty cart counts 0, and with every quantity at least 1 the count is at least the number of lines |
| CartContext.CartCountAppend | src/contexts/CartContext.tsx:90 | the count is a sum of quantities: it distributes over concatenation |
| CartContext.CountAfterAdd | src/contexts/CartContext.tsx:89-91 | adding a line raises the count by its quantity, not by one |
| CartContext.CountAfterRemove | src/contexts/CartContext.tsx:89-91 | with unique ids, removing a line lowers the count by its quantity |
| CartContext.CountAfterUpdate | src/contexts/CartContext.tsx:89-91 | with unique ids, a positive update changes the count by the difference of the quantities |
| CartContext.LineTotalNonNegative | src/contexts/CartContext.tsx:85 | a non-negative unit price and quantity give a non-negative line total |
| CartContext.AddPreservesValid | src/contexts/CartContext.tsx:38-46 | adding a line with a fresh id and a quantity of at least 1 keeps ids unique and quantities positive |
| CartContext.RemovePreservesValid | src/contexts/CartContext.tsx:50-51 | removal keeps ids unique and quantities positive, and no line with the id remains |
| CartContext.UpdatePreservesValid | src/contexts/CartContext.tsx:55-62 | an update keeps ids unique and quantities positive, whatever the quantity asked for |
| Checkout.DeliveryFee | src/pages/Checkout.tsx:23 | the fee is 0 or 4.99; pickup pays 0; delivery pays 0 exactly when the subtotal is above 30 |
| Checkout.ThresholdIsStrict | src/pages/Checkout.tsx:23 | a subtotal of exactly 30 still pays 4.99 for delivery and 0 for pickup |
| Checkout.OrderSummary | src/pages/Checkout.tsx:21-24 | tax is 8% of the subtotal; the total minus tax and fee is the subtotal; a non-negative subtotal gives a total at least as large; pickup totals 1.08 times the subtotal |
| Checkout.WorkedExample | src/pages/Checkout.tsx:21-24 | a subtotal of 16 for delivery gives tax 1.28, fee 4.99 and total 22.27 |
| Checkout.WorkedExampleFromCart | src/pages/Checkout.tsx:21-24 | one line of an item at 8 with quantity 2 and no customizations has subtotal 16 and the summary 16, 1.28, 4.99, 22.27 |
| Checkout.TotalCoversSubtotal | src/pages/Checkout.tsx:21-24 | with non-negative unit prices and quantities, the total is at least the subtotal, which is at least 0 |
| Checkout.PlaceOrder | src/pages/Checkout.tsx:26-49 | on success the cart is emptied and the success screen gets id `ORD-now` and the computed total; on failure the cart is unchanged and the failure screen is shown |
| Checkout.CheckoutPage | src/pages/Checkout.tsx:38-55 | an empty cart goes back to the cart page untouched; a non-empty cart reaches success exactly when payment succeeds, and only success empties it |
| CartPage.DeliveryFee | src/pages/Cart.tsx:15 | the fee is 0 exactly when the subtotal is above 30, otherwise 4.99 |
| CartPage.OrderSummary | src/pages/Cart.tsx:13-16 | tax is 8% of the subtotal and the total is subtotal plus tax plus fee |
| CartPage.AgreesWithCheckoutDelivery | src/pages/Cart.tsx:13-16 | the cart page's summary equals checkout's for delivery, and equals checkout's for pickup exactly when the subtotal is above 30 |
| CartPage.FreeDeliveryHint | src/pages/Cart.tsx:141-145 | the hint shows exactly when the subtotal is below 30, with a positive amount that brings the subtotal to 30 |
| CartPage.HintAndFee | src/pages/Cart.tsx:141-145 | whenever the hint shows the fee is charged, adding the hinted amount still pays the fee, and at 30 there is no hint yet the fee is charged |
| CartPage.DisplayedAmount | src/pages/Cart.tsx:106 | the amount shown beside a line is its base price times its quantity |
| CartPage.DisplayedAmountOmitsModifiers | src/pages/Cart.tsx:106 | a line's true total is the shown amount plus its modifiers times its quantity |
| CartPage.DisplayedSum | src/pages/Cart.tsx:106 | when no line has customization selections, the shown amounts add up to the subtotal |
| CartPage.DisplayedSumCanDiffer | src/pages/Cart.tsx:106 | one line with a modifier of 1 shows 2 while the subtotal is 3 |
| CartPage.Decrease | src/pages/Cart.tsx:91 | a line at quantity 1 or less is removed; otherwise every line with its id holds one unit less and the other lines are unchanged, in place |
| CartPage.Increase | src/pages/Cart.tsx:100 | for a quantity of 0 or more every line with the id holds one unit more and the other lines are unchanged, in place; a negative quantity removes the lines |
| CartPage.DecreaseLowersCountByOne | src/pages/Cart.tsx:91 | in a valid cart the minus button lowers the count by exactly 1, and a line at quantity 1 disappears |
| CartPage.IncreaseRaisesCountByOne | src/pages/Cart.tsx:100 | with unique ids the plus button raises the count by exactly 1 |
| Menu.Toggle | src/pages/Menu.tsx:22-32 | only the toggled element's membership flips; an absent element is appended at the end, and a present one is removed with all its copies, leaving a shorter subsequence in which every other element keeps its number of copies |
| Menu.ToggleTwice | src/pages/Menu.tsx:22-32 | toggling an absent element twice restores the list |
| Menu.ToggleDietaryFilter | src/pages/Menu.tsx:22-26 | the tag's membership flips, every other tag's stays, and the other filters are unchanged |
| Menu.ToggleSubcategory | src/pages/Menu.tsx:28-32 | the subcategory's membership flips, every other one's stays, and the other filters are unchanged |
| Menu.SelectCategory | src/pages/Menu.tsx:205-208 | the category is set, the subcategories are emptied, and nothing else changes |
| Menu.SelectCategoryMatches | src/pages/Menu.tsx:205-208 | after a category click the subcategory filter is off and the other five decide |
| Menu.ClearFilters | src/pages/Menu.tsx:66-74 | the reset state is exactly the initial state |
| Menu.ClearedShowsPriceBand | src/pages/Menu.tsx:66-74 | after a reset the page lists exactly the items priced from 0 to 25, in catalog order |
| Menu.Lower | src/pages/Menu.tsx:46-47 | case folding keeps the length and maps each character by itself |
| Menu.Filtered | src/pages/Menu.tsx:34-49 | every listed item is in the catalog and passes all filters, every catalog item passing them is listed, and the list is a subsequence of the catalog |
| Menu.Matches | src/pages/Menu.tsx:35-47 | an item passes exactly when its category, subcategory, every selected dietary tag, spice level, price (inclusive at both ends) and lower-cased name match |
| Menu.EmptyCatalog | src/pages/Menu.tsx:34 | an empty catalog lists nothing |
| Menu.InvertedPriceRange | src/pages/Menu.tsx:45 | a low end above the high end lists nothing |
| Menu.Monotonic | src/pages/Menu.tsx:34-49 | narrower filters list a subsequence of what wider ones list |
| Menu.SingleTightenings | src/pages/Menu.tsx:35-45 | adding a dietary tag, choosing a category or spice level where all were shown, and shrinking the price range each narrow the filters |
| Menu.LongerQueryNarrows | src/pages/Menu.tsx:46-47 | typing more of the query narrows the filters |
| Menu.SubcategoriesWiden | src/pages/Menu.tsx:36-37 | selecting one more subcategory, when some are selected, widens the filters |
| Menu.Compare | src/pages/Menu.tsx:51-63 | price-low puts the cheaper item first, price-high the dearer, rating the better rated, popularity the more reviewed; other modes and equal items compare as 0 |
| Menu.CompareIsKeyDifference | src/pages/Menu.tsx:51-63 | the comparator is the difference of the mode's keys, so it orders pairs as the keys do, and swapping the items negates it |
| Menu.InsertionSort | src/pages/Menu.tsx:51 | the result has the same elements and is ordered by the key |
| Menu.SortItems | src/pages/Menu.tsx:51-63 | the sorted copy is a permutation of the filtered list, ordered by the mode's key |
| Menu.SortOrderByMode | src/pages/Menu.tsx:52-60 | price-low is ascending by price, price-high descending by price, rating descending by rating, popularity descending by review count |
| Menu.InsertStable | src/pages/Menu.tsx:51 | inserting keeps the relative order of the items with each key |
| Menu.SortStable | src/pages/Menu.tsx:51-63 | for every key value, the items carrying it keep their relative order |
| Menu.UnknownModeKeepsOrder | src/pages/Menu.tsx:61-62 | "recommended", or any mode the comparator does not know, keeps the filtered order |
| Menu.Shown | src/pages/Menu.tsx:34-63 | the page lists a permutation of the filtered items, each passing the filters and from the catalog, every matching catalog item, ordered by the mode's key |
| Home.Featured | src/pages/Home.tsx:9 | the list has min(3, number of popular items) entries, each popular and from the catalog |
| Home.FeaturedIsSubseq | src/pages/Home.tsx:9 | the featured items keep catalog order |
| Home.FirstPopularAreFeatured | src/pages/Home.tsx:9 | a popular item with fewer than three popular items before it is featured, at the position given by how many popular items precede it |
| Profile.Split | src/pages/Profile.tsx:35 | splitting on '-' yields at least one piece and no piece holds a dash |
| Profile.JoinOfSplit | src/pages/Profile.tsx:35 | joining the pieces with dashes gives back the text |
| Profile.SplitJoin | src/pages/Profile.tsx:35 | splitting undoes joining dash-free pieces with dashes |
| Profile.Capitalize | src/pages/Profile.tsx:36 | capitalising keeps the length, upper-cases the first character and leaves the rest unchanged |
| Profile.CapitalizeAll | src/pages/Profile.tsx:36 | one word out per word in |
| Profile.CapitalizeAllMaps | src/pages/Profile.tsx:36 | each word out is the corresponding word capitalised |
| Profile.Join | src/pages/Profile.tsx:37 | the joined text starts with the first word, followed by the separator when there is a second |
| Profile.TitleCaseChars | src/pages/Profile.tsx:33-37 | the character-wise reference text turns each dash into a space and upper-cases the character at the start or after a dash, leaving the rest alone |
| Profile.JoinSplit | src/pages/Profile.tsx:33-37 | split, capitalise and join agree with the character-wise reference text |
| Profile.StatusText | src/pages/Profile.tsx:33-37 | the text has the status's length; each dash becomes a space; the first character of each dash-separated word is upper-cased and every other character is unchanged |
| Profile.WordText | src/pages/Profile.tsx:33-37 | a status without dashes is shown as the word capitalised |
| Profile.DashText | src/pages/Profile.tsx:33-37 | the words on either side of a dash are formatted independently and joined by a space |
| Profile.DeliveredText | src/pages/Profile.tsx:33-37 | "delivered" is shown as "Delivered" |
| Profile.OutForDeliveryText | src/pages/Profile.tsx:33-37 | "out-for-delivery" is shown as "Out For Delivery" |
| Profile.StatusColor | src/pages/Profile.tsx:18-31 | the muted classes are returned exactly for statuses other than delivered, preparing, out-for-delivery and failed |
| Profile.StatusColors | src/pages/Profile.tsx:18-31 | among the six order statuses, pending and confirmed are muted and the other four get four distinct colours |

## Left out

- Rendering, routing and navigation are not modelled. Navigation appears only as the screen an outcome leads to.
- localStorage persistence of the cart is left out. On start the cart is restored from storage with `JSON.parse`, so the model takes the cart as an arbitrary input to every operation and assumes nothing about it; the `Valid` lemmas state their invariant as a requirement. Writing the cart back and the toast messages are side effects with no effect on the state.
- The checkout's two-second delay is left out.
- The payment outcome (`Math.random() > 0.2`) is an input boolean.
- The clock (`Date.now()`) in line and order ids is an input string `now`.
- The mock authentication context and its hard-coded orders are left out: they are data and simulated I/O.
- The `Order` and `Address` records are shapes only. No code computes an order's `discount`, so it has no rule to model.
- The catalog contents and the UI widget library are not part of this model.
- Floating-point rounding and `toFixed(2)` formatting are left out. Money is exact `real`, and the success screen receives the total as a number, not as a two-decimal string.
- Case folding in the search and in status text covers ASCII letters only. Unicode case mapping, which can change a string's length, is left out.
- `deliveryType` is a two-value enumeration. The page's radio group can produce no other value.
- Quantities are unbounded integers. JavaScript numbers are not.
- CartContext.TotalAfterRemove, CartContext.CountAfterRemove, CartContext.CountAfterUpdate, CartContext.RemoveUniqueLine: stated for carts with unique line ids. The storefront acts on every line with a matching id, and for duplicate ids the change is the sum over those lines.
- CartPage.IncreaseRaisesCountByOne: stated for unique ids and a non-negative quantity. With duplicate ids every matching line takes the new quantity.
- CartContext.ModifierTotal: a customization record is a list of entries, so nothing in the model forces its keys to be distinct as a JavaScript object's keys are. A record with a repeated key is priced once per entry, which no object can produce.
- CartContext.CartTotal: its own contract gives only the empty and non-negative cases. The sum over lines is fixed by CartContext.CartTotalAppend and CartContext.TotalAfterAdd. What one line adds is fixed by CartContext.LineTotal and CartContext.UnitPrice, together with the append and singleton laws for CartContext.ModifierTotal and CartContext.SelectionModifier.
