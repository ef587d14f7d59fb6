# Lunaire cart store and bearer-token guards, modelled in Dafny

Lunaire is an e-commerce demo. Two parts of it hold logic of their own, and this
project models both.

**The client-side cart** (`universal-cart.js`) keeps an ordered list of line items
`{name, size, price, img, quantity}`. It merges lines by the `(name, size)` pair and
mirrors the whole list to the browser-storage key `"cartItems"` after every change.
- `CartLines` models the list operations: the `findIndex` lookup, the merge-or-append
  `addToCart`, the index-checked `removeFromCart`, and the badge total of
  `updateCartCount`, which is a left fold of `quantity || 1`.
- `CartStore` pairs the cart with the storage key. It models `clearCart` (which
  removes the key), the fail-soft load of `initializeCartSystem`, and the invariant
  that every operation keeps: no duplicate identity, and a reload restores the
  in-memory cart.
- `PriceText` models the price-text cleaning of `initializeProductPage`. It removes
  `Rs.`, `Rs` and `PKR` in any letter case, one pass each, then all commas, then trims.

**The dummy bearer-token guards** (`productAuth.middleware.js` and
`middleware/customerAuth.middleware.js`) are ordered decisions over the
`Authorization` header.
- `Bearer` holds what the two guards share: token extraction after the `"Bearer "`
  prefix, the missing-token and invalid-token tests, the status codes, and the
  outcome type `Next(ctx) | Deny(reason)`.
- `ProductGuard` checks in this order: missing token, invalid token, the permission
  test (`admin`, `manager`, or longer than 15 characters), then an optional product
  lookup.
- `CustomerGuard` has no permission step. It looks the customer up by the token.
- Both modules also model their admin wrapper's role test.

The database lookups (`Product.findById`, `Customer.findById`) are parameters of type
`string -> Lookup<R>`. A lookup either finds a record, finds nothing, or throws. A
throw lands in the guard's `catch` block and becomes a 500.

JavaScript values are modelled explicitly:
- An absent or `null` value is `None`.
- A quantity is `Option<int>`, where `None` stands for a missing or NaN number.
- `quantity || 1` is `OrOne`: a missing, NaN or zero quantity reads as 1, and a
  negative quantity passes through.
- `undefined += k` stays NaN.
- A header or parameter that is `""` is falsy.

Three facts about the cart code shape the model:
- An appended line gets `item.quantity || 1`.
- The badge total sums `quantity || 1`.
- Quantities are not validated, so negatives pass through.

## Model

| member | source | states |
|---|---|---|
| `JsText.ContainsIffOccurs` | productAuth.middleware.js:85 | the `includes` test holds exactly when the substring occurs at some position |
| `CartLines.FindIndex` | universal-cart.js:75-77 | the result is -1 exactly when no line has the (name, size) pair; otherwise it is the first line that has it |
| `CartLines.AddToCart` | universal-cart.js:73-88 | the length is unchanged when the identity is already present and grows by one otherwise; afterwards the identity is present |
| `CartLemmas.AddMergesFirst` | universal-cart.js:75-81 | on any cart, duplicates included, adding a present identity updates only the first line with that identity, by the item's quantity defaulted to 1; no other field or line changes |
| `CartLemmas.AddMergesExisting` | universal-cart.js:75-81 | in a cart without duplicates, adding a present identity updates only that line's quantity, by the item's quantity defaulted to 1 (missing or zero reads as 1); no other field or line changes |
| `CartLemmas.AddAppendsNew` | universal-cart.js:83-87 | adding an absent identity appends one line at the end with the item's fields; its quantity is 1 for a missing or zero quantity and the item's quantity otherwise |
| `CartLemmas.AddKeys` | universal-cart.js:73-88 | the identities after an add are the old identities plus the item's |
| `CartLemmas.AddPreservesNoDuplicates` | universal-cart.js:75-88 | an add keeps the at-most-one-line-per-(name, size) invariant |
| `CartLines.RemoveFromCart` | universal-cart.js:102-104 | a valid index drops exactly that line, keeps the order of the rest, and shrinks the length by one; any other index changes nothing |
| `CartLemmas.RemoveDropsOneLine` | universal-cart.js:103-104 | a valid removal takes away exactly one copy of the indexed line (as a multiset) |
| `CartLemmas.RemoveKeys` | universal-cart.js:102-104 | a removal keeps the invariant, and the removed identity is gone while every other identity stays |
| `CartLines.CartCount` | universal-cart.js:25 | the badge total, the left fold of each line's quantity defaulted to 1 (missing, NaN or zero reads as 1), starting from 0; it is 0 for the empty cart |
| `CartLines.CountAtLeastLines` | universal-cart.js:25 | when every quantity is positive, the badge total is at least the number of lines |
| `CartLines.TotalItems` | universal-cart.js:23-25 | the accumulating walk over the cart computes the left fold of each line's quantity defaulted to 1 |
| `CartLemmas.CountAppend` | universal-cart.js:25 | the total of a concatenation is the sum of the totals |
| `CartLemmas.CountUpdate` | universal-cart.js:25 | replacing one line moves the total by the difference of the two weights |
| `CartLemmas.CountSplitAt` | universal-cart.js:25 | the total is the total before a line, plus that line's quantity defaulted to 1, plus the total after it |
| `CartLemmas.AddKeepsPositive` | universal-cart.js:75-87 | an add of a missing or non-negative quantity keeps every line's quantity positive |
| `CartLemmas.CountAfterAdd` | universal-cart.js:73-98 | with positive quantities, an add of a missing or non-negative quantity raises the total by exactly the item's quantity defaulted to 1 and keeps quantities positive |
| `CartLemmas.CountAfterRemove` | universal-cart.js:102-111 | a valid removal lowers the total by the removed line's weight; an invalid one leaves it |
| `CartLemmas.SameKeyAddsMerge` | universal-cart.js:75-87 | two adds of one (name, size) with non-zero quantities q1, q2 give one line of quantity q1 + q2, never two lines |
| `CartLemmas.DistinctSizesStaySeparate` | universal-cart.js:75-87 | two adds of one name in two sizes give two distinct lines, in order |
| `CartStore.Load` | universal-cart.js:7-13 | an absent key, a stored `null` and unparseable text all load as the empty cart; a stored list loads as itself |
| `CartStore.Initialize` | universal-cart.js:5-13 | page load restores the cart from the key without writing the key, so a reload restores the same cart |
| `CartStore.Add` | universal-cart.js:73-95 | add writes through: the key holds exactly the new in-memory cart |
| `CartStore.Remove` | universal-cart.js:102-111 | a valid removal writes through; an out-of-range index leaves both cart and key untouched |
| `CartStore.Clear` | universal-cart.js:115-121 | clearing empties the cart and removes the key |
| `CartStore.MutationsPersist` | universal-cart.js:91-121 | after add, a valid remove and clear, a reload restores the in-memory cart; a no-op remove keeps whatever held before |
| `CartStore.ClearThenReload` | universal-cart.js:115-121 | after clearing the key holds no stored empty list, and a reload yields the empty cart |
| `CartStore.ApplyKeepsValid` | universal-cart.js:73-123 | each user action keeps the store invariant (no duplicates, key mirrors cart) |
| `CartStore.RunKeepsValid` | universal-cart.js:73-123 | any sequence of user actions from a valid store ends in a valid store |
| `CartStore.ReloadRestores` | universal-cart.js:7-13 | reloading what a valid store wrote gives back the same store |
| `CartStore.DressScenario` | universal-cart.js:73-98 | adding "Dress A"/M with quantity 1 and then 2 yields one line of quantity 3, written through, with badge total 3 |
| `PriceText.RemoveAll` | universal-cart.js:148-151 | a global case-insensitive literal replacement by "" never lengthens the text, and what it leaves is the text with characters deleted, the rest kept in order |
| `PriceText.RemoveAllSingleChar` | universal-cart.js:151 | removing a one-character pattern leaves no character that matches it |
| `PriceText.RemoveAllKeepsForeign` | universal-cart.js:148-151 | a character that matches no letter of the pattern, in either case, keeps every occurrence |
| `PriceText.RemoveAllKeepsDigits` | universal-cart.js:148-151 | removing a pattern with no digit in it keeps every digit of the text, in order |
| `PriceText.TrimKeepsDigits` | universal-cart.js:152 | trimming keeps every digit of the text, in order |
| `PriceText.RemoveAllUnmatched` | universal-cart.js:148-151 | when no character can start a match, the replacement changes nothing |
| `PriceText.LeadingBlanks` | universal-cart.js:152 | counts the leading run of whitespace and line terminators: every character before the count is one, and the character at the count is not |
| `PriceText.TrailingBlanks` | universal-cart.js:152 | counts the trailing run of whitespace and line terminators: every character after the cut is one, and the character just before it is not |
| `PriceText.Trim` | universal-cart.js:152 | the result is the middle slice of the text with only trimmable characters cut on either side, and it neither starts nor ends with one |
| `PriceText.TrimIdempotent` | universal-cart.js:152 | trimming twice is trimming once |
| `PriceText.StripCommas` | universal-cart.js:151 | the comma replacement leaves no comma and never lengthens the text |
| `PriceText.TrimKeepsOut` | universal-cart.js:152 | trimming never brings in a character the text did not contain |
| `PriceText.CleanPrice` | universal-cart.js:147-152 | the cleaned text holds no comma, has no leading or trailing whitespace, and is no longer than the input |
| `PriceLemmas.CleanMarkedPrice` | universal-cart.js:147-152 | a price shown as "Rs.", "Rs" or "PKR" in any letter case, then whitespace, then a number of digits and thousands commas starting with a digit, cleans to exactly the number's digits: the marker is really removed |
| `PriceLemmas.MarkerStripped` | universal-cart.js:148-150 | the three marker replacements, in their order, remove a leading marker and leave the text after it unchanged when that text holds no marker letter |
| `PriceLemmas.DropHead` | universal-cart.js:148-150 | a case-insensitive match at the head of the text is deleted and the scan resumes right after it |
| `PriceLemmas.CommasPassBlank` | universal-cart.js:151 | the comma replacement keeps leading whitespace as it is |
| `PriceLemmas.CommasOutOfNumber` | universal-cart.js:151 | on a text of digits and commas, the comma replacement leaves exactly its digits |
| `PriceLemmas.TrimBlankDigits` | universal-cart.js:152 | trimming whitespace followed by digits gives the digits |
| `PriceText.CleanPriceKeepsDigits` | universal-cart.js:147-152 | the cleaned price text holds exactly the digits of the original text, in the same order |
| `PriceText.CleanPlainText` | universal-cart.js:147-152 | text with no R, P or comma (any case) is only trimmed |
| `Bearer.ExtractToken` | productAuth.middleware.js:33-38 | a token exists exactly when the header starts with "Bearer ", and then the header is "Bearer " followed by the token |
| `Bearer.ExtractAfterPrefix` | middleware/customerAuth.middleware.js:11-16 | whatever follows "Bearer " is extracted back unchanged |
| `Bearer.NoTokenIff` | productAuth.middleware.js:33-53 | no usable token exactly for an absent header, a non-Bearer header, or the bare prefix |
| `Bearer.Status` | productAuth.middleware.js:47-163 | 401 for missing or invalid token and unknown customer, 403 for permission and role failures, 404 only for a missing product, 500 otherwise (a caught error); the admin checks of this file (lines 144, 154, 163) and of middleware/customerAuth.middleware.js (lines 61, 100, 110, 117) send these same codes |
| `ProductGuard.ProductId` | productAuth.middleware.js:96-97 | the product id is `id` when truthy, else `dressid` when truthy, else absent; it is never empty |
| `ProductGuard.ProductAuth` | productAuth.middleware.js:27-119 | a passing request carries the token as user id, is marked authenticated, passed validation and permission, and carries the product exactly when the route named one, as the lookup found it |
| `ProductGuard.CheckOrder` | productAuth.middleware.js:47-106 | each refusal happens exactly when the earlier checks passed and its own failed; only requests past all token checks reach the lookup |
| `ProductGuard.MissingTokenIff` | productAuth.middleware.js:33-53 | 401 missing token exactly for an absent header, a non-Bearer header, or "Bearer " alone |
| `ProductGuard.InvalidTokenIff` | productAuth.middleware.js:63-69 | a non-empty token gets 401 invalid exactly when it is "invalid-token" or shorter than 10 |
| `ProductGuard.PermissionDeniedIff` | productAuth.middleware.js:85-93 | a valid token gets 403 exactly when it mentions neither "admin" nor "manager" and has at most 15 characters |
| `ProductGuard.LongTokenPassesChecks` | productAuth.middleware.js:63-93 | a token longer than 15 characters passes every token check; only the lookup can still refuse it |
| `ProductGuard.TokenRefusalIgnoresLookup` | productAuth.middleware.js:47-106 | a token refusal is the same whatever the route parameters and the database hold |
| `ProductGuard.LookupStep` | productAuth.middleware.js:96-118 | no product id means no lookup and success; a missing product is 404, a throwing lookup 500, a found one is attached |
| `ProductGuard.ProductAdminAuth` | productAuth.middleware.js:136-160 | the admin wrapper passes exactly when the inner guard passes and the user id mentions "admin" or "super"; inner refusals pass through, otherwise 403 |
| `ProductGuard.SuperNeedsPermission` | productAuth.middleware.js:85-158 | an admin grant without "admin" in the token needs "super" and also "manager" or more than 15 characters |
| `ProductGuard.ProductAdminAsWritten` | productAuth.middleware.js:136-168 | when the inner guard refuses, the wrapper as written attempts three answers |
| `ProductGuard.ProductAdminAnswersRepeatedly` | productAuth.middleware.js:139-167 | with no header the wrapper as written attempts 401, 401, 500 |
| `ProductGuard.ProductAdminAnswersOnce` | productAuth.middleware.js:139-160 | the corrected wrapper answers once, with the answer the client receives from the code as written |
| `CustomerGuard.CustomerAuth` | middleware/customerAuth.middleware.js:5-75 | a passing request had a well-formed token, the customer found under that token is attached, and `customerId` is its `_id` |
| `CustomerGuard.CheckOrder` | middleware/customerAuth.middleware.js:25-66 | missing, then invalid, then lookup; only well-formed tokens reach the lookup, and no permission or 404 refusal exists |
| `CustomerGuard.MissingTokenIff` | middleware/customerAuth.middleware.js:11-31 | 401 missing token exactly for an absent header, a non-Bearer header, or "Bearer " alone |
| `CustomerGuard.InvalidTokenIff` | middleware/customerAuth.middleware.js:41-47 | a non-empty token gets 401 invalid exactly when it is "invalid-token" or shorter than 10, whatever the database holds |
| `CustomerGuard.LookupKeyIsToken` | middleware/customerAuth.middleware.js:55-58 | two databases that agree on the token give the same outcome |
| `CustomerGuard.LookupStep` | middleware/customerAuth.middleware.js:58-74 | a well-formed token whose customer is found passes with it attached; an unknown customer is 401, not 404; a throwing lookup is 500 |
| `CustomerGuard.CustomerAdminAuth` | middleware/customerAuth.middleware.js:92-114 | the admin wrapper passes exactly when the inner guard passes and the customer's email mentions "admin"; inner refusals pass through, otherwise 403 |
| `CustomerGuard.NoEmailNoAdmin` | middleware/customerAuth.middleware.js:107-113 | a customer with no email is refused with 403 |
| `CustomerGuard.CustomerAdminAsWritten` | middleware/customerAuth.middleware.js:92-122 | when the inner guard refuses, the wrapper as written attempts three answers |
| `CustomerGuard.CustomerAdminAnswersRepeatedly` | middleware/customerAuth.middleware.js:95-121 | for an unknown customer the wrapper as written attempts 401, 401, 500 |
| `CustomerGuard.CustomerAdminAnswersOnce` | middleware/customerAuth.middleware.js:95-114 | the corrected wrapper answers once, with the answer the client receives from the code as written |

## Left out

- DOM work is not modelled: querying, rendering the count badge, the navigation click
  listeners and redirects (`addNavigationListeners`), and the `DOMContentLoaded` hook.
  These are UI wiring.
- `localStorage` and JSON are abstract. The key's content is `Option<seq<Line>>`, and
  the load takes the parse result directly. JSON's conversion of NaN to `null` (which
  `null + k` would then turn back into a number) is not modelled.
- A stored value that parses to a truthy non-array (an object, say) is not modelled.
  The source would make it the cart.
- The `try`/`catch` around storage writes and `console.error` are not modelled. A
  storage failure, which would leave memory ahead of storage, is not modelled either.
- `parseFloat`, `parseInt` and the building of the item from page elements in
  `initializeProductPage` are not modelled. They are number parsing and DOM reads.
  Only the price-text cleaning is modelled.
- Quantities are unbounded integers. JavaScript doubles past 2^53, fractional
  quantities, and string quantities (which `+=` would concatenate) are not modelled.
- `removeFromCart` takes an integer index. A fractional index, which `splice` would
  truncate, is not modelled.
- Extra fields that `...item` would copy onto a new line are not modelled.
- String lengths count characters, while JavaScript counts UTF-16 code units. The
  two differ only for characters outside the Basic Multilingual Plane.
- The guards' async plumbing, the `res` object and the message texts are not
  modelled. Outcomes are a returned datatype.
- A guard's `catch` is reached only through a throwing lookup. No other statement in
  the guards can throw on the modelled inputs.
- `productOwnerAuth` (productAuth.middleware.js:175-211) is not modelled. It is not
  among the modelled operations, and like the admin wrappers it is not exported.
- The duplicate cart script under `complete website locally/` is not modelled. Nor
  are `about.js`, the servers, the routes or the Mongoose models, which are UI
  animation, framework bootstrap, handlers that delegate to libraries, and schema
  declarations.
- CartLemmas.CountAfterAdd: stated only for carts with positive quantities and items
  with a missing or non-negative quantity. With zero or negative quantities,
  `|| 1` can change a line's weight by more or less than the added amount.

## Findings

| source | as written | input that shows it | evidently intended | confidence | as-written member | corrected member |
|---|---|---|---|---|---|---|
| productAuth.middleware.js:139-148 | after the inner guard has refused and answered, the wrapper finds `req.authenticated` unset and calls `res.status(401).json` again. Express throws on the second answer, and the catch block's 500 answer throws too (see `ProductGuard.ProductAdminAnswersRepeatedly`) | no `Authorization` header | pass the inner refusal on and answer once | medium, not executed | `ProductGuard.ProductAdminAsWritten` | `ProductGuard.ProductAdminAuth` |
| middleware/customerAuth.middleware.js:95-104 | after the inner guard has refused and answered, the wrapper finds `req.customer` unset and calls `res.status(401).json` again, with the same throw and repeated 500 attempt (see `CustomerGuard.CustomerAdminAnswersRepeatedly`) | a well-formed token that names no customer | pass the inner refusal on and answer once | medium, not executed | `CustomerGuard.CustomerAdminAsWritten` | `CustomerGuard.CustomerAdminAuth` |
