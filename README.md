# 2Go Juice storefront: a verified model of its cart, search and form logic

The 2Go Juice storefront is one `TwoGoApp` object in `app.js`. Most of it wires
the page, but a small core is state logic:

- a static catalog of five products keyed by the ids 1 to 5;
- a shopping cart, which is an ordered list of lines with one line per product
  id. Adding a product merges into its line or appends a new one, and removing it
  splices that line out;
- the two totals the page shows: the item count on the cart badge and the price
  total in the cart dropdown;
- a case-insensitive substring search over the catalog, and the rules that
  decide when typing, focus, Enter or the search button run it;
- the quantity selector on each product card, which keeps a quantity between
  1 and 10;
- the newsletter form's e-mail check.

The model has seven modules:

- `Text`: the string primitives the code relies on. These are `toLowerCase`,
  `trim` with the ECMAScript white-space set, `includes`, and `length`
  counted in UTF-16 code units.
- `Catalog`: the product records and lookup by id.
- `Search`: the filter behind `performSearchQuery` and the gating rules of the
  search-box handlers.
- `Cart`: the cart as a value, that is the update rules, the totals and the
  invariant, with the lemmas about them.
- `App`: the class `TwoGoApp`. Its fields `cart`, `searchResults` and
  `resultsOpen` are updated in place by methods proved against the `Cart` and
  `Search` functions.
- `Stepper`: the minus, plus and change handlers, with the class
  `QuantitySelector` for the input they update.
- `Email`: `isValidEmail`, the regular expression, proved equal to a
  character-by-character statement.

The cart invariant (`Cart.CartInvariant`, kept as `TwoGoApp.Valid`) says two
things. Ids are pairwise distinct. Every line names a catalog product and
carries that product's name, price and description. `handleAddToCart` refuses
an unknown id before the cart changes, so the invariant holds along every
sequence of add requests (`Cart.ReplayTotals`).

Three behaviours of the code are worth stating:

- `handleAddToCart` does not validate the quantity;
- Enter and the search button run any nonempty query, including a
  one-character one;
- `hideSearchResults` only closes the panel and keeps the stored results.

## Model

| member | source | states |
|---|---|---|
| Text.LowerChar | app.js:300 | each character is lower-cased: an upper-case ASCII letter becomes the same letter in lower case, and any other character is kept |
| Text.IsWhitespace | app.js:688 | the ECMAScript white-space and line-terminator characters, which `\s` matches and `trim` strips (a definition, with no contract of its own) |
| Text.Lower | app.js:300 | `toLowerCase` keeps the length, lower-cases each character and leaves no upper-case letter |
| Text.Trim | app.js:300 | `trim` returns the contiguous part of the input that has only white space before and after it. That part is empty exactly when the input is all white space; otherwise it starts and ends with a non-white-space character |
| Text.Utf16Length | app.js:302 | `length` counts UTF-16 code units: at least the number of characters and at most twice it, zero only for the empty string, and equal to the number of characters when none is above U+FFFF. A single character counts two when it is above U+FFFF and one otherwise |
| Text.Utf16LengthConcat | app.js:302 | the UTF-16 length of a concatenation is the sum of the lengths, which with the one-character case fixes the count for every string |
| Text.TrimIdempotent | app.js:300 | trimming a trimmed string changes nothing |
| Text.Contains | app.js:335-337 | `includes(q)` holds exactly when `q` occurs at some index |
| Catalog.Ids | app.js:4-45 | the catalog's keys, strictly ascending as `Object.entries` visits them, and exactly the ids of `products` |
| Catalog.Lookup | app.js:509 | `products[id]` is defined exactly for ids 1 to 5. It is then that id's record, with a positive price and a nonempty name |
| Catalog.Products | app.js:4-45 | the five product records keyed 1 to 5, with their names, prices, descriptions, sizes and categories (a definition, with no contract of its own) |
| Search.Entries | app.js:334 | `Object.entries(products)` in ascending id order, each record tagged with its own id, and no other entries |
| Search.Matches | app.js:335-337 | the `filter` test: the lower-cased name, description or category includes the query (a definition, with no contract of its own) |
| Search.EntriesInKeyOrder | app.js:334 | the entries follow the catalog's keys one for one, in the order of `Catalog.Ids` |
| Search.Filter | app.js:334-338 | `filter` keeps exactly the matching entries and never adds any. Ascending entries give ascending results |
| Search.FilterMultiplicity | app.js:334-338 | `filter` keeps each matching entry as many times as it occurs and drops every other entry |
| Search.SearchQuery | app.js:333-338 | the results are exactly the catalog entries whose lower-cased name, description or category contains the query, tagged with their ids, in ascending id order, at most five |
| Search.Normalize | app.js:300 | the query every handler reads is the lower-cased value with its leading and trailing white space removed. It has no upper-case letter and no white space at either end, is no longer than the raw value, and is empty exactly when the value is all white space |
| Search.OnInput | app.js:299-314 | typing hides the results exactly when the normalised query is empty. It does nothing exactly when the query's UTF-16 length is 1, and searches for the query exactly when that length is 2 or more |
| Search.OnFocus | app.js:316-321 | focus searches exactly when the normalised query's UTF-16 length is 2 or more, and does nothing otherwise |
| Search.AstralCharSearched | app.js:302-313 | a single character above U+FFFF, such as an emoji, is one character but two UTF-16 code units, so typing it runs a search |
| Search.OnSubmit | app.js:423-432 | the search button searches exactly when the normalised query is nonempty; otherwise it asks for a search term |
| Search.OnKeydown | app.js:323-331 | Enter acts like the search button, Escape hides the results and any other key does nothing |
| Search.NormalizeIdempotent | app.js:300 | the lower-cased, trimmed query is a fixed point of that normalisation and holds no upper-case letter |
| Search.HideIffBlank | app.js:300-305 | typing hides the results exactly when the box holds only white space |
| Search.GatingAgrees | app.js:299-321 | focus searches exactly when typing does, for the same query, and so does the button. A query of UTF-16 length 1 is ignored by typing and focus but searched by Enter or the button |
| Cart.CatalogLine | app.js:523-530 | the line built for a catalog product has its id and the requested quantity, and the catalog record's name, positive price and description |
| Cart.IndexOf | app.js:492 | `findIndex` returns the first index whose line has the id, or -1 exactly when no line has it |
| Cart.AddLine | app.js:539-548 | the cart keeps its length when the id is present and grows by one when it is absent |
| Cart.AddToCart | app.js:509-530 | an id outside the catalog leaves the cart unchanged; a catalog id's quantity in the cart rises by the requested quantity |
| Cart.AddLineQuantity | app.js:540-547 | whether the id was present or not, its quantity in the cart rises by the added quantity |
| Cart.ItemCount | app.js:555 | the badge count: the sum of the lines' quantities (a definition, with no contract of its own) |
| Cart.TotalPrice | app.js:484 | the dropdown total: the sum of price times quantity over the lines (a definition, with no contract of its own) |
| Cart.LineTotal | app.js:484 | one line's share of the total: its price times its quantity (a definition, with no contract of its own) |
| Cart.RemoveLine | app.js:491-496 | the cart shrinks by one when the id is present and is unchanged when it is absent |
| Cart.AddMergesExisting | app.js:540-544 | adding an id already in the cart raises that line's quantity by the added amount, with no cap at 10. The length, every other field of that line and every other line stay as they were |
| Cart.AddAppendsNew | app.js:545-547 | adding an id not in the cart appends exactly that line after the earlier lines, in order |
| Cart.AddKeepsDistinct | app.js:539-548 | adding keeps the ids pairwise distinct |
| Cart.AddKeepsCatalog | app.js:523-530 | adding a line copied from the catalog keeps every line faithful to its catalog record |
| Cart.AddQuantities | app.js:540-547 | the added quantity accumulates on the added product and no other product's quantity changes |
| Cart.RemoveDeletesLine | app.js:491-496 | removing a present id deletes exactly its line and keeps the rest in order. No line with that id remains |
| Cart.RemoveKeepsInvariant | app.js:491-496 | removing keeps distinct ids and catalog-faithful lines |
| Cart.RemoveTwice | app.js:491-496 | removing an id a second time changes nothing |
| Cart.RemoveUndoesAdd | app.js:491-496 | adding a product not in the cart and then removing it gives back the original cart |
| Cart.TotalsConcat | app.js:555 | both `reduce` totals add up over concatenated carts |
| Cart.MergeRaisesTotals | app.js:543 | merging quantity q into a line raises the item count by q and the total by that line's price times q |
| Cart.AddRaisesTotals | app.js:539-548 | adding quantity q of catalog product p raises the item count by q and the price total by price(p) times q |
| Cart.RemoveLowersTotals | app.js:491-496 | removing an id lowers the item count by its quantity, and the price total by its price times its quantity |
| Cart.BadgeMatchesEmptiness | app.js:555-563 | when every quantity is at least 1, the count is at least the number of lines. It is positive exactly when the cart is nonempty, the test the dropdown uses for its empty view |
| Cart.ReplayTotals | app.js:503-548 | after any sequence of add requests: the cart keeps its invariant, the item count is the sum of the accepted quantities, the total is the sum of their prices times quantities, and each product's line holds the quantity requested for it |
| Cart.TwoAddsOfOneProduct | app.js:540-543 | adding product 1 with quantity 2 and then with quantity 3 leaves one line of quantity 5, an item count of 5 and a total of 300 |
| App.AfterSearchAction | app.js:333-341 | after a search the panel is open and holds that query's results. Hiding closes the panel and keeps the results, and any other outcome changes neither |
| App.FindIndex | app.js:492 | the loop returns the first index with the id, or -1 |
| App.TwoGoApp.constructor | app.js:49-56 | the app starts with an empty cart, whose count and total are 0, no results and the panel closed |
| App.TwoGoApp.AddProductToCart | app.js:539-552 | the cart becomes `AddLine` of the old cart and the search state is unchanged |
| App.TwoGoApp.HandleAddToCart | app.js:503-537 | the request is accepted exactly when the id is in the catalog. The cart becomes `AddToCart` of the old cart and keeps its invariant; on acceptance the count rises by the quantity and the total by price times quantity |
| App.TwoGoApp.RemoveFromCart | app.js:491-500 | a removal (and its notification) happens exactly when the id is in the cart. The cart becomes `RemoveLine` of the old cart and keeps its invariant |
| App.TwoGoApp.PerformSearchQuery | app.js:333-341 | the stored results become `SearchQuery(query)`, the panel opens and the cart is unchanged |
| App.TwoGoApp.HideSearchResults | app.js:417-421 | the panel closes; the cart and the stored results stay |
| App.TwoGoApp.HandleSearchInput | app.js:299-314 | the search state becomes what `OnInput` decides |
| App.TwoGoApp.HandleSearchFocus | app.js:316-321 | the search state becomes what `OnFocus` decides |
| App.TwoGoApp.PerformSearch | app.js:423-432 | the warning is shown exactly when the normalised query is empty; otherwise the search state becomes what `OnSubmit` decides |
| App.TwoGoApp.HandleSearchKeydown | app.js:323-331 | the search state becomes what `OnKeydown` decides |
| Stepper.Decrement | app.js:606-611 | minus changes the value exactly when it is a number above 1, lowering it by one. It keeps a value in [1,10] in range |
| Stepper.Increment | app.js:616-622 | plus changes the value exactly when it is a number below 10, raising it by one. It keeps a value in [1,10] in range |
| Stepper.Clamp | app.js:626-631 | the change handler always yields a value in [1,10]. A value in range is kept, NaN or below 1 gives 1, and above 10 gives 10 |
| Stepper.ClampProperties | app.js:626-631 | clamping is monotone and idempotent, and NaN clamps like any value at most 1 |
| Stepper.StepsUndo | app.js:606-622 | inside the range, plus undoes minus and minus undoes plus |
| Stepper.StaysInRange | app.js:599-634 | from a value in range, or after a change event, any sequence of presses and changes keeps the value in [1,10] |
| Stepper.QuantitySelector.OnMinus | app.js:606-611 | the input's value becomes `Decrement` of the old value |
| Stepper.QuantitySelector.OnPlus | app.js:616-622 | the input's value becomes `Increment` of the old value |
| Stepper.QuantitySelector.OnChange | app.js:626-631 | the input's value becomes the clamped value, which is in [1,10] |
| Email.MatchesPattern | app.js:687-690 | `isValidEmail`: the regular expression matches the whole address (a definition, with no contract of its own) |
| Email.PatternSplit | app.js:688 | one match of the regular expression, given the positions of its `@` and its dot: plain characters before the `@`, between it and the dot, and after the dot (a definition, with no contract of its own) |
| Email.ValidHasPattern | app.js:687-690 | an address with no white space, exactly one `@`, something before it and an inner dot after it matches the regular expression |
| Email.PatternIsValid | app.js:687-690 | an address the regular expression matches has no white space, exactly one `@`, something before it and an inner dot after it |
| Email.ValidIffPattern | app.js:687-690 | the character-by-character statement and the regular expression accept the same strings |
| Email.NewsletterSubmit | app.js:651-663 | the form subscribes exactly when the trimmed address matches the regular expression |
| Email.EmailAccepted | app.js:687-690 | `a@b.co` is accepted, both by the regular expression and by the character-by-character statement |
| Email.EmailRefused | app.js:687-690 | `a@b`, `ab.com` and the empty string are refused, both by the regular expression and by the character-by-character statement |

## Left out

- Rendering: the HTML templates, `innerHTML`, `classList` and style changes, and `cacheElements`. The badge's `active` class and the dropdown's empty view are represented only by the item count and the cart's emptiness (`Cart.BadgeMatchesEmptiness`). The model's totals are the values computed whenever the badge or the dropdown is rendered, not what an open dropdown shows at the moment. `addProductToCart` refreshes only the badge, so an open dropdown keeps its old lines and total until it is rendered again, and for an empty cart the footer's total is hidden, not recomputed.
- Notifications, animations, loading and success states of buttons, and `triggerGentleEffect`, which also draws random numbers. They are cosmetic.
- Timers: the 600 ms add delay, the 300 ms search debounce (and the cancelling of an earlier pending search), and the newsletter delay. Each effect is modelled as taking place at once, so the model misses every race where another event arrives between a handler and its delayed effect. Three examples follow. (1) In `handleSearchInput` an empty query returns before `clearTimeout` is reached, so typing "co" and emptying the box within 300 ms hides the panel, and then the pending search reopens it. (2) `hideSearchResults` never cancels the pending search either, so Escape or a click outside the search box within 300 ms of typing a query is likewise undone when the search runs. (3) With product 1 at quantity 2 in the cart and the dropdown open (`handleAddToCart` stops the click from closing it), adding 3 more of product 1 and pressing its remove button within 600 ms removes the line at once, and the delayed add then appends a new line of quantity 3. The model ends differently in each. In (1) and (2) its panel ends closed. In (3) its cart ends empty, because the add merges first and the removal then deletes the merged line.
- `parseInt` of the product id attribute and of the quantity input, including the `|| 1` default. Ids and quantities are integers given by the caller, and the selector's value is the `parseInt` reading of its text.
- Stepper.QuantitySelector.OnMinus: an unchanged input keeps the reading, not its original text. For example, a typed `3.7` that is not stepped stays `3.7` on the page.
- Text.Lower, Text.LowerChar: `toLowerCase` is modelled for ASCII letters only. Other characters are kept as they are.
- Cart.ItemCount: the count is an exact integer, while JavaScript numbers are doubles, so the code's sum is exact only below 2^53.
- Cart.TotalPrice: the total is an exact integer, while JavaScript numbers are doubles, so the code's sum is exact only below 2^53.
- The image URL of each product, which only feeds rendering.
- `displaySearchResults`, `handleSearchResultClick` and `highlightProductCard`: rendering and scrolling to a card.
- Search.SearchQuery: no worked example for a concrete query is proved. Evaluating the case-insensitive match over the literal catalog strings is too costly for the verifier.
- Scrolling, parallax, navigation, the mobile menu, the outside-click and global keyboard handlers, `IntersectionObserver`, image preloading and the error and visibility listeners. They are browser plumbing.
- The newsletter form when its input element is missing, where the address is `undefined`. The model always has a string.
- `handleAddToCart` accepts any integer quantity, zero and negative ones included, as the code does. There is no quantity error case.
