# Storefront cart, filter and checkout — a Dafny model

This project models the logic core of a small React storefront:

- **The cart store** (`src/App.tsx`). These are the four functional updaters the app hands to `setCartItems`:
  - add-or-increment;
  - set-quantity, which refuses anything below 1;
  - remove;
  - clear.
- **The product filter engine** (`src/Pages/Products.tsx`). It covers:
  - the category list;
  - the category and price-direction toggles;
  - the applied-filter tags;
  - the derivation of the visible products: a category filter, then a stable sort by price.

  `handleApply` and `handleRemoveFilter` are modelled step by step on a `ProductsPage` class. The in-place `Array.prototype.sort` is an insertion sort on an `array`.
- **The cart page** (`src/Pages/MyCart.tsx`). It covers:
  - the order total;
  - the +, − and remove controls;
  - the asynchronous checkout.

  The checkout is a transition function `Step` over a `Page` value. A `CartPage` class holds the component's fields, and each handler method is proved to move the fields exactly as `Step` does.

Prices are whole minor units (cents), so the fixture's 89.99 is `8999`. Quantities are unbounded integers.

The module layout follows the program:

| module | contents |
|---|---|
| `Wrappers` | `Option` |
| `Seqs` | duplicate-freedom; `filter` that drops one value; `Array.from(new Set(...))` |
| `Entities` | `Product` and `CartItem` |
| `Cart` | the `App.tsx` updaters |
| `PriceSort` | the comparator sort |
| `Products` | the filter engine |
| `MyCart` | the cart page |

Sorting is stable, as section 23.1.3.30 of ECMA-262 (2023 edition) requires. The functional `Sort` is the reference. `SortIsUnique` proves that every ordered rearrangement which keeps equal prices in their original order is exactly `Sort`. So whichever stable algorithm an engine uses, it returns the list `SortInPlace` computes.

The asynchronous checkout handler captures the `cartItems` of the render in which the pay button was clicked. After `await loadRazorpayScript()` it computes `calculateTotal()` from that captured cart, not from the current one. The model keeps the captured cart in `Stage.LoadingScript(snapshot)`. `AmountIsSnapshotTotal` proves that the amount sent is the total at click time, whatever cart edits happen while the script loads. A total that is "never stale" would be the current cart's total. The code does not do that, and the model follows the code.

## Model

| member | source | states |
|---|---|---|
| Cart.FindLine | src/App.tsx:27 | `prevItems.find` by id: none exactly when the id is absent; otherwise the first line carrying the id |
| Cart.LineFor | src/App.tsx:38 | no contract of its own: `{ ...product, quantity }`; its use is stated by `Cart.AddAbsent` |
| Cart.IncrementLines | src/App.tsx:31-35 | no contract of its own: the map that adds 1 to the matching lines; its meaning is given by `Cart.AddExisting` and `Cart.AddQuantity` |
| Cart.AddToCart | src/App.tsx:25-40 | the ids are unchanged when the product is present, and gain the product's id at the end when it is absent |
| Cart.AddExisting | src/App.tsx:29-35 | adding a product already in a valid cart adds 1 to that line's quantity; length, order and every other line are unchanged |
| Cart.AddAbsent | src/App.tsx:36-39 | adding an absent product appends `{...product, quantity: 1}` after the unchanged lines |
| Cart.AddPreservesValid | src/App.tsx:25-40 | add keeps ids distinct and every quantity at least 1 |
| Cart.AddQuantity | src/App.tsx:25-40 | one add raises the quantity of the product's id by exactly 1 and leaves every other id's quantity alone |
| Cart.AddAllQuantities | src/App.tsx:25-40 | after any sequence of adds the cart stays valid, each id's quantity grows by the number of adds of that id, and an id is present iff it was before or was added |
| Cart.AddAllFromEmpty | src/App.tsx:25-40 | from the empty cart, any sequence of adds gives exactly one line per distinct id, whose quantity is that id's number of adds |
| Cart.SetLines | src/App.tsx:53-55 | no contract of its own: the map that sets the matching lines' quantity; its meaning is given by `Cart.UpdateFrame` |
| Cart.UpdateQuantity | src/App.tsx:49-57 | set-quantity keeps the ids; it is a no-op when the quantity is below 1 or the id is absent |
| Cart.UpdateBelowOneRejected | src/App.tsx:50 | a requested quantity below 1 leaves the cart unchanged |
| Cart.UpdateFrame | src/App.tsx:52-56 | an accepted quantity rewrites the quantity of the matching lines only; every other field and line is kept |
| Cart.UpdatePreservesValid | src/App.tsx:49-57 | set-quantity keeps the cart valid |
| Cart.RemoveItem | src/App.tsx:62-64 | remove never lengthens the cart, keeps only lines of the cart, and leaves no line with the id |
| Cart.RemoveIds | src/App.tsx:63 | the ids after removal are the ids before with every occurrence of the id filtered out |
| Cart.RemoveMembers | src/App.tsx:63 | a line survives removal iff it was in the cart and carries another id |
| Cart.RemoveAbsent | src/App.tsx:63 | removing an id no line carries leaves the cart unchanged |
| Cart.RemoveAt | src/App.tsx:62-64 | with distinct ids, removal deletes exactly the one line at its position and keeps the others in order |
| Cart.RemovePreservesValid | src/App.tsx:62-64 | remove keeps the cart valid |
| Cart.ClearCart | src/App.tsx:70-72 | the cleared cart is valid and holds no quantity for any id |
| Seqs.Without | src/Pages/Products.tsx:132 | `filter(c => c !== x)` (also at src/Pages/Products.tsx:179): the result holds exactly the elements other than `x`, and nothing changes when `x` is absent |
| Seqs.WithoutAt | src/Pages/Products.tsx:132 | in a duplicate-free list, dropping a value deletes exactly its one position |
| Seqs.WithoutPreservesNoDup | src/Pages/Products.tsx:132 | dropping a value keeps a list duplicate-free |
| Seqs.WithoutAppend | src/Pages/Products.tsx:132 | the filter distributes over concatenation |
| Seqs.Dedupe | src/Pages/Products.tsx:110 | `Array.from(new Set(s))` holds each value of `s` exactly once |
| Seqs.DedupeFirstOccurrenceOrder | src/Pages/Products.tsx:110 | the de-duplicated list follows first-occurrence order |
| Products.Fixture | src/Pages/Products.tsx:33-98 | no contract of its own: the eight catalog products with prices in cents; `Products.ElectronicsAscending` states what the page shows for them |
| Products.CategoryColumn | src/Pages/Products.tsx:110 | `allProducts.map(p => p.category)`: one entry per product, its category, in catalog order |
| Products.Categories | src/Pages/Products.tsx:110 | the category list is duplicate-free and holds exactly the categories of the catalog |
| Products.CategoriesInFirstOccurrenceOrder | src/Pages/Products.tsx:110 | the categories appear in the order in which the catalog first uses them |
| Products.ToggleCategory | src/Pages/Products.tsx:129-135 | a selected category is filtered out, leaving the rest in order; an unselected one is appended at the end; so its membership flips and every other category's membership is kept |
| Products.TogglePreservesNoDup | src/Pages/Products.tsx:129-135 | toggling keeps the selection duplicate-free |
| Products.ToggleRemovesAt | src/Pages/Products.tsx:131-132 | toggling a selected category deletes exactly its position and keeps the order of the rest |
| Products.ToggleTwiceRestores | src/Pages/Products.tsx:129-135 | toggling an unselected category twice restores the selection |
| Products.ChangePriceSort | src/Pages/Products.tsx:137-139 | picking the current direction clears it; picking any other direction sets it |
| Products.ChangePriceSortTwice | src/Pages/Products.tsx:137-139 | picking the same direction twice restores the state, unless the other direction was set |
| Products.BuildTags | src/Pages/Products.tsx:143-154 | no contract of its own: the category tags, then the price tag; `Products.BuildTagsShape` fixes its shape, and `Products.TagsRoundTrip`, `Products.DropCategoryTag` and `Products.DropPriceTag` give its meaning |
| Products.BuildTagsShape | src/Pages/Products.tsx:143-154 | apply builds exactly one category tag per selected category, in front, and then exactly one price tag when a direction is set and none otherwise |
| Products.PriceTags | src/Pages/Products.tsx:149-153 | exactly one tag when a direction is set and none otherwise; every such tag is a price tag whose value reads back as the direction |
| Products.CategoryTags | src/Pages/Products.tsx:144-148 | one category tag per selected category, in selection order, with value and label equal to the category |
| Products.TagsRoundTrip | src/Pages/Products.tsx:143-154 | the tags built by apply name exactly the selection: its categories in order, then its direction |
| Products.DropTags | src/Pages/Products.tsx:204-206 | tag removal keeps only tags of the list that do not match both the kind and the value |
| Products.DropTagsMembers | src/Pages/Products.tsx:204-206 | a tag survives iff it was present and does not match both the kind and the value |
| Products.DropTagsAbsent | src/Pages/Products.tsx:204-206 | removing a tag nothing matches leaves the tags unchanged |
| Products.DropCategoryTag | src/Pages/Products.tsx:178-206 | dropping a category's tag from up-to-date tags gives the tags of the selection without that category |
| Products.DropPriceTag | src/Pages/Products.tsx:193-206 | dropping the price tag from up-to-date tags gives the tags with no direction |
| Products.PriceTagNamesSort | src/Pages/Products.tsx:149-153 | a price tag among up-to-date tags names the current direction |
| Products.InCategories | src/Pages/Products.tsx:162-164 | the category filter keeps only catalog products of selected categories |
| Products.InCategoriesMembers | src/Pages/Products.tsx:163 | a product survives the category filter iff it is in the catalog and its category is selected |
| Products.InCategoriesAppend | src/Pages/Products.tsx:163 | the category filter distributes over concatenation, so the survivors keep their catalog order |
| Products.Visible | src/Pages/Products.tsx:159-171 | no contract of its own: the visible list (also re-derived at src/Pages/Products.tsx:183-201); its meaning is given by `Products.VisibleMembers`, `Products.VisibleOrdered`, `Products.VisibleStable` and `Products.VisibleUnfiltered` |
| Products.VisibleMembers | src/Pages/Products.tsx:159-171 | a product is visible iff it is in the catalog and, when any category is selected, its category is selected |
| Products.VisibleUnfiltered | src/Pages/Products.tsx:159-173 | with no category and no direction, the whole catalog shows in its own order |
| Products.VisibleOrdered | src/Pages/Products.tsx:166-171 | with a direction set, the visible products are ordered by price in that direction |
| Products.VisibleStable | src/Pages/Products.tsx:166-171 | sorting permutes the filtered products and keeps products of equal price in catalog order |
| Products.VisibleIdempotent | src/Pages/Products.tsx:141-175 | deriving the visible list again from the visible list changes nothing |
| Products.ElectronicsAscending | src/Pages/Products.tsx:33-98 | on the eight-product catalog, Electronics ascending shows the speaker (79.99), the headphones (89.99), then the watch (249.99) |
| Products.RemoveTagWithUnappliedToggle | src/Pages/Products.tsx:177-207 | removing a category tag re-filters by the current, unapplied selection: with Electronics applied and Home toggled on afterwards, no tag remains but the list no longer shows the catalog |
| Products.UnappliedToggleScenario | src/Pages/Products.tsx:129-207 | running the handlers (toggle Electronics, apply, toggle Home, remove the Electronics tag) on the eight-product catalog leaves no tag while the list shows only Home products, not the catalog |
| Products.Refilter | src/Pages/Products.tsx:159-173 | copy, filter, then sort the copy in place: the result is the visible list of the selection |
| Products.ProductsPage.constructor | src/Pages/Products.tsx:100-106 | initially the whole catalog is visible, nothing is selected and there are no tags |
| Products.ProductsPage.CategoryOptions | src/Pages/Products.tsx:110 | the dropdown's options are duplicate-free |
| Products.ProductsPage.CategoryToggle | src/Pages/Products.tsx:129-135 | the selection becomes its toggle and stays duplicate-free |
| Products.ProductsPage.PriceSortChange | src/Pages/Products.tsx:137-139 | the direction becomes the result of picking `sort` |
| Products.ProductsPage.Apply | src/Pages/Products.tsx:141-175 | the tags and the visible list are rebuilt from the current selection |
| Products.ProductsPage.RemoveFilter | src/Pages/Products.tsx:177-207 | a category tag drops that category from the selection; a price tag clears the direction and skips the sort; the visible list is re-derived; the matching tags are dropped; tags and list that were up to date stay up to date |
| PriceSort.Compare | src/Pages/Products.tsx:168-170 | no contract of its own: the two comparators `a.price - b.price` and `b.price - a.price`; `PriceSort.Ordered` is stated with it |
| PriceSort.Insert | src/Pages/Products.tsx:168 | the stable insertion step lengthens the list by one; its meaning is given by `PriceSort.InsertOrdered` and `PriceSort.InsertStable` |
| PriceSort.Sort | src/Pages/Products.tsx:168 | the reference sort keeps the length; its meaning is given by `PriceSort.SortOrdered`, `PriceSort.SortPermutes`, `PriceSort.SortStable` and `PriceSort.SortIsUnique` |
| PriceSort.WithPriceMembers | src/Pages/Products.tsx:166-171 | a price class holds exactly the products of that price |
| PriceSort.SortPermutes | src/Pages/Products.tsx:168 | the sorted list is a permutation of its input |
| PriceSort.SortOrdered | src/Pages/Products.tsx:168 | the sorted list is ordered by the comparator |
| PriceSort.SortStable | src/Pages/Products.tsx:168 | the products of each price keep their input order |
| PriceSort.InsertOrdered | src/Pages/Products.tsx:168 | one insertion step keeps a list ordered |
| PriceSort.InsertStable | src/Pages/Products.tsx:168 | one insertion step places the product after every product of its own price |
| PriceSort.OrderedStableUnique | src/Pages/Products.tsx:168 | two ordered lists with the same products of every price, in the same order, are equal |
| PriceSort.SortIsUnique | src/Pages/Products.tsx:167-171 | any ordered rearrangement that keeps equal prices in their order is the sorted list |
| PriceSort.InsertAt | src/Pages/Products.tsx:168 | one pass of the in-place insertion leaves `Insert` of the old prefix and element in the first cells and the rest untouched |
| PriceSort.SortInPlace | src/Pages/Products.tsx:167-171 | the array is sorted in place to `Sort` of its old contents |
| MyCart.Subtotal | src/Pages/MyCart.tsx:38 | no contract of its own: `item.price * item.quantity`; `MyCart.TotalSingle` and `MyCart.TotalChangeAt` state its place in the total |
| MyCart.Total | src/Pages/MyCart.tsx:37-39 | the fold starts at 0, so the empty cart totals 0 |
| MyCart.TotalNonNegative | src/Pages/MyCart.tsx:37-39 | with no negative quantity, the total is never negative |
| MyCart.TotalAppend | src/Pages/MyCart.tsx:38 | the total of a concatenation is the sum of the totals |
| MyCart.TotalChangeAt | src/Pages/MyCart.tsx:38 | replacing one line moves the total by the difference of the two subtotals |
| MyCart.TotalAfterAdd | src/App.tsx:25-40 | adding a product raises the total by one unit price: the price stored on its line if present, its own price otherwise |
| MyCart.TotalAfterUpdate | src/App.tsx:49-57 | an accepted set-quantity swaps that line's subtotal in the total |
| MyCart.TotalAfterRemove | src/App.tsx:62-64 | removing a line lowers the total by exactly its subtotal |
| MyCart.Step | src/Pages/MyCart.tsx:53-110 | no contract of its own: one event of the page (pay click, script settled, success, dismissal, timer, and the controls at src/Pages/MyCart.tsx:161-189); its meaning is given by `MyCart.StepPreservesInv`, `MyCart.AmountIsSnapshotTotal` and the checkout and control lemmas below |
| MyCart.Initial | src/Pages/MyCart.tsx:33-34 | a page starts with the given cart, not processing, no modal |
| MyCart.InitialInv | src/Pages/MyCart.tsx:33-34 | the first render satisfies the page invariant |
| MyCart.StepPreservesInv | src/Pages/MyCart.tsx:53-110 | every event keeps the invariant: the cart stays valid, processing shows exactly while a checkout is in flight, a checkout only holds a non-empty cart, the modal only shows while a clear is pending |
| MyCart.EditPreservesValid | src/Pages/MyCart.tsx:161-174 | the cart controls keep the cart valid, so no quantity drops below 1 |
| MyCart.RunPreservesInv | src/Pages/MyCart.tsx:53-110 | the invariant holds after any sequence of events |
| MyCart.EmptyCartCheckoutNoop | src/Pages/MyCart.tsx:54-57 | paying with an empty cart changes nothing and starts no payment |
| MyCart.NoReentrantCheckout | src/Pages/MyCart.tsx:245 | while processing, the disabled pay button starts no second checkout |
| MyCart.CheckoutStarts | src/Pages/MyCart.tsx:59-62 | paying with items while idle turns processing on and loads the script with the click-time cart |
| MyCart.LoadFailureKeepsCart | src/Pages/MyCart.tsx:64-68 | a failed script load turns processing off and changes nothing else |
| MyCart.EditsKeepSnapshot | src/Pages/MyCart.tsx:62 | cart edits while the script loads leave the captured cart and processing as they were |
| MyCart.AmountIsSnapshotTotal | src/Pages/MyCart.tsx:70-75 | the widget opens with the total of the cart at click time, whatever edits came between |
| MyCart.SuccessThenTimerClears | src/Pages/MyCart.tsx:80-91 | success turns processing off and shows the modal with the cart intact; the timer then empties the cart and hides the modal |
| MyCart.DismissKeepsCart | src/Pages/MyCart.tsx:100-104 | dismissal turns processing off and changes nothing else |
| MyCart.CheckoutLoadFailure | src/Pages/MyCart.tsx:53-68 | pay then a failed load leaves the cart as it was and the page idle |
| MyCart.CheckoutCancelled | src/Pages/MyCart.tsx:53-104 | pay, load, then dismiss leaves the cart as it was and the page idle |
| MyCart.CheckoutSucceeded | src/Pages/MyCart.tsx:53-91 | pay, load, success, then the timer ends with an empty cart, no modal and no processing |
| MyCart.DecrementAtOneRejected | src/Pages/MyCart.tsx:161-165 | the − control does nothing at quantity 1 or less |
| MyCart.StepIncrement | src/Pages/MyCart.tsx:171-174 | + raises exactly that line's quantity by 1 and the total by its price |
| MyCart.StepDecrement | src/Pages/MyCart.tsx:161-165 | above 1, − lowers exactly that line's quantity by 1 and the total by its price |
| MyCart.StepRemove | src/Pages/MyCart.tsx:188-189 | remove deletes exactly that line and lowers the total by its subtotal |
| MyCart.CartPage.constructor | src/Pages/MyCart.tsx:33-34 | the fields start as the initial page |
| MyCart.CartPage.ProceedToPay | src/Pages/MyCart.tsx:53-62 | the fields move as `Step` does for a pay click |
| MyCart.CartPage.ScriptSettled | src/Pages/MyCart.tsx:62-75 | the fields move as `Step` does when the script load settles |
| MyCart.CartPage.PaymentHandler | src/Pages/MyCart.tsx:80-91 | the fields move as `Step` does for the success handler |
| MyCart.CartPage.OnDismiss | src/Pages/MyCart.tsx:100-104 | the fields move as `Step` does for dismissal |
| MyCart.CartPage.ClearTimer | src/Pages/MyCart.tsx:87-90 | the fields move as `Step` does when the two-second timer fires |
| MyCart.CartPage.Increment | src/Pages/MyCart.tsx:171-174 | the fields move as `Step` does for + |
| MyCart.CartPage.Decrement | src/Pages/MyCart.tsx:161-165 | the fields move as `Step` does for − |
| MyCart.CartPage.Remove | src/Pages/MyCart.tsx:188-189 | the fields move as `Step` does for remove |

## Left out

- Rendering: all JSX and the `styles` objects, including the style injection, are presentation only.
- The dropdown's `isOpen` flag and the click-outside document listener (src/Pages/Products.tsx:103, 113-127, 174) are DOM plumbing with no effect on the filter state.
- Razorpay is a foreign, asynchronous, network-backed call. This covers `loadRazorpayScript`, `new window.Razorpay(...)` and `open()`. Only its outcomes are modelled, as the events `ScriptLoaded(ok)`, `PaymentSucceeded` and `PaymentDismissed`.
- The options object's key, currency, prefill and theme constants are not modelled; the amount is.
- `setTimeout` is modelled as the `ClearTimerFired` event, with no real time. Several pending clears are counted in `pendingClears`.
- `alert` and `console.log` are user feedback with no effect on the state.
- Floating-point currency is not modelled: `Math.round(totalAmount * 100)` and `toFixed(2)`. Amounts are integers in minor units. So the amount sent equals `Total` and no rounding step is modelled.
- Navigation between pages is not modelled (`currentPage`, Navbar). This includes a pending clear firing after the cart page has unmounted.
- Products are not added from the cart page, so `Step` has no add event. Add is covered by `Cart.AddToCart` and `MyCart.TotalAfterAdd`.
- `Card` and `Filters` (src/components) are presentation only.
- `CartItem` has no `category` field. The runtime spread `{ ...product, quantity: 1 }` copies it, but the `CartItem` type does not declare it and nothing reads it.
- Quantities are integers. JavaScript numbers could hold fractions, but only the ±1 controls and add reach the quantity.
- `MyCart.CartPage` holds `cartItems` as a field, although the component receives it as a prop from `App`. Its `onUpdateQuantity`, `onRemoveItem` and `onClearCart` calls are modelled as the `Cart` updaters applied to that field.
- `Step` accepts a pay click and cart edits while the success modal is shown. In the page, the modal's full-screen overlay blocks those clicks (src/Pages/MyCart.tsx:271-272, 557-567). So the invariant lemmas cover more event orders than the page allows.
- `MyCart.Total` only states the empty case in its own contract. Its meaning is given by `TotalAppend`, `TotalChangeAt` and the lemmas relating it to every cart operation.
- `Products.ProductsPage.RemoveFilter` promises tags and list in step only when they were in step before. `Products.RemoveTagWithUnappliedToggle` shows that an unapplied toggle breaks this, as the code is written.
