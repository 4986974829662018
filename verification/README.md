# NAK challenge admin front end — product SKU generation, attribute form and authentication rules

This project models, in Dafny, the logic of a product-catalog admin front end
written in React and TypeScript.

- **Product form** (`Products.tsx`). The user assembles an ordered selection of
  attributes (for example Color → [Red, Blue], Size → [S, M]). The form then
  computes the Cartesian product of the chosen values. Each combination is
  joined with `" / "` into a SKU *model*. The resulting SKU table is reconciled
  with the previous one: a row whose model still exists keeps its id, price
  and stock, and a new model gets a fresh id with price and stock 0. The form
  also edits and removes single SKU rows, builds the save payload, and pages
  through the product list.
- **Attribute form** (`Attribiuttes.tsx`). It drops blank values, checks the
  name and the values, edits the value fields, and appends the saved attribute
  to the list.
- **Authentication store** (`authStore.ts`). It holds the registration and
  login rules and the session flags that `register`, `login` and `logout` change.
- **Sign-up page** (`SignUpPage.tsx`). It holds the registration schema that
  the form actually uses, the data it submits, and the error it raises.

Layout, one module per file:

- `wrappers.dfy` (`Wrappers`): `Option` and `Result`.
- `js_text.dfy` (`JsText`): JavaScript `trim` and the `message || fallback` idiom.
- `combinations.dfy` (`Combinator`): the Cartesian combinator and the model join.
- `sku_table.dfy` (`SkuTable`): the SKU row type, reconciliation and row edits.
- `product_form.dfy` (`ProductForm`): the product form's state as the class
  `ProductEditor`, plus pagination and the save payload.
- `attributes.dfy` (`AttributeForm`): the attribute form as the class `AttributesPage`.
- `auth_store.dfy` (`AuthStore`): the schemas and the store as the class `Session`.
- `sign_up.dfy` (`SignUp`): the sign-up page.
- `scenarios.dfy` (`Scenarios`): walk-throughs that drive `ProductEditor`.

Where the source changes state in place, the model is a class whose methods
state the new state. This covers the React component state and the zustand
store. The loop-based `cartesianProduct` is a method with loop invariants,
proved equal to the specification function `Combinations`. The `filter`/`map`
handlers are functions over sequences. `handleChangeValue`, which copies the
value list and assigns one slot, is a method over an array copy.

Behaviour of the code worth noting, modelled as written:

- **Empty selection.** With no attribute selected, `generateSKUs` writes `[]` to
  a field named `skus` (Products.tsx:633), not to `skusIds`. The SKU table
  therefore keeps its rows; it is not cleared. `ProductEditor.GenerateSkus`
  does exactly this, and `Scenarios.RemoveOnlyAttribute` shows the effect:
  removing the last attribute leaves two rows.
- **Combinations of zero lists.** The reduce starts from one empty tuple, so
  zero lists give one empty combination (`Combinations([]) == [[]]`). The form
  never reaches this case, because it returns early.
- **Adding an attribute.** The add also refuses a pick without an attribute id.
  The id/values check comes before the duplicate-name check.
- **Empty `tempId`.** A carried-over row whose `tempId` is empty gets a fresh
  id, because the code writes `existingSku?.tempId || generateUniqueId()`.
  Price and stock are carried over whenever they are defined, 0 included.
- **Negative values.** Prices and stock are not checked for sign.

The join key is the model string, not the tuple of values. Two different
combinations can therefore collide (`SkuTable.SeparatorCollision`). A
selection that repeats a value makes reconciliation non-idempotent
(`SkuTable.ReconcileRepeatedModel`). Both are stated as the code behaves.
Idempotence and id uniqueness are proved under the hypothesis that models are
distinct.

The zod schemas are modelled as issue lists in zod 3's order: the field
checks in declaration order, then the `refine` check. The `refine` check also
runs when a length check has failed, because the object is then "dirty" but
not aborted.

## Model

| member | source | states |
|---|---|---|
| JsText.TrimStart | nak_challenge/src/components/Products.tsx:714 | the result is the longest suffix of the input that does not start with JavaScript white space; what was cut is all white space |
| JsText.TrimEnd | nak_challenge/src/components/Products.tsx:714 | the result is the longest prefix that does not end in white space; what was cut is all white space |
| JsText.Trim | nak_challenge/src/components/Products.tsx:714 | `trim()` returns the middle of the string: a contiguous piece beginning where the leading white space ends, with only white space before and after it, and neither starting nor ending with white space |
| JsText.TrimEmptyIffBlank | nak_challenge/src/components/Attribiuttes.tsx:227-230 | `trim()` yields `""` exactly when the string is all white space; otherwise the result starts and ends with a non-white-space character |
| JsText.OrElse | nak_challenge/src/components/Attribiuttes.tsx:253 | `message \|\| fallback`: the result is the message when it is present and non-empty, else the fallback |
| Combinator.Join | nak_challenge/src/components/Products.tsx:656 | `Array.prototype.join`: no parts give `""`, one part gives that part, otherwise the length is the parts' total plus one separator between each neighbouring pair |
| Combinator.JoinEnds | nak_challenge/src/components/Products.tsx:656 | a join of at least one part starts with the first part and ends with the last |
| Combinator.ModelOf | nak_challenge/src/components/Products.tsx:656 | the model of a one-value combination is that value; otherwise its length is the values' total plus three characters per `" / "` |
| Combinator.CartesianProduct | nak_challenge/src/components/Products.tsx:641-651 | the nested loops (reduce over lists, `forEach` over the accumulator, then over the values) compute exactly `Combinations(arrays)` |
| Combinator.ExtendAllLength | nak_challenge/src/components/Products.tsx:643-648 | one reduction step yields `|acc| * |values|` tuples |
| Combinator.ExtendAllAt | nak_challenge/src/components/Products.tsx:644-647 | entry `q * |values| + r` of a step is accumulator tuple q followed by value r: accumulator outer, values inner |
| Combinator.ExtendAllMember | nak_challenge/src/components/Products.tsx:644-647 | a tuple comes out of a step iff its prefix is in the accumulator and its last element is one of the values |
| Combinator.CombinationsLength | nak_challenge/src/components/Products.tsx:641-651 | the number of combinations is the product of the value-list lengths |
| Combinator.CombinationsMember | nak_challenge/src/components/Products.tsx:641-651 | a tuple is produced iff it has one element per list and element i comes from list i (both directions) |
| Combinator.CombinationsOrder | nak_challenge/src/components/Products.tsx:642-648 | adding a list: entry `q * |values| + r` is old combination q extended by value r, so the last attribute varies fastest |
| SkuTable.FindByModel | nak_challenge/src/components/Products.tsx:658-660 | `find` by model: returns the first index with that model, or none when no row has it |
| SkuTable.Reconcile | nak_challenge/src/components/Products.tsx:655-667 | one row per combination in combination order, with model = joined combination; the first previous row with that model lends price, stock and its non-empty id; an unmatched model gets the fresh id, price 0 and stock 0; previous models not generated do not appear |
| SkuTable.ReconcileIdempotent | nak_challenge/src/components/Products.tsx:655-667 | reconciling again with the same combinations returns the same table (distinct models, non-empty generated ids) |
| SkuTable.ReconcileIdsDistinct | nak_challenge/src/components/Products.tsx:658-662 | each id is the surviving row's id or the fresh one; with fresh, unused generated ids and distinct models, ids stay pairwise distinct |
| SkuTable.SeparatorCollision | nak_challenge/src/components/Products.tsx:656 | two different combinations can join to the same model when a value contains `" / "` |
| SkuTable.ReconcileRepeatedModel | nak_challenge/src/components/Products.tsx:658-662 | with a repeated model, a second reconciliation gives the second row the first row's id, so it is not idempotent |
| SkuTable.ParsedPrice | nak_challenge/src/components/Products.tsx:684 | `parseFloat(text) \|\| 0`: the parsed number when there is one, 0 for NaN |
| SkuTable.ParsedStock | nak_challenge/src/components/Products.tsx:696 | `parseInt(text, 10) \|\| 0`: the parsed integer when there is one, 0 for NaN |
| SkuTable.WithPrice | nak_challenge/src/components/Products.tsx:682-686 | rows with the given `tempId` get the parsed price (0 for NaN); every other row is unchanged; ids, models and stock never change |
| SkuTable.WithStock | nak_challenge/src/components/Products.tsx:694-698 | rows with the given `tempId` get the parsed stock (0 for NaN); every other row is unchanged; ids, models and prices never change |
| SkuTable.WithoutSku | nak_challenge/src/components/Products.tsx:705 | no kept row has the id, nothing is added, and a table without that id is returned unchanged |
| SkuTable.WithoutSkuAppend | nak_challenge/src/components/Products.tsx:705 | `filter` distributes over concatenation, so the rows kept stay in order and keep their multiplicity, repeated ids included |
| SkuTable.WithoutSkuMember | nak_challenge/src/components/Products.tsx:705 | a row is kept iff it is in the table and its id differs |
| SkuTable.WithoutSkuAt | nak_challenge/src/components/Products.tsx:702-706 | with unique ids, removing by the id of row k removes exactly row k and keeps the rest in order |
| ProductForm.TotalPages | nak_challenge/src/components/Products.tsx:418-421 | `ceil(totalItems / 10)`: the pages cover all items, the last page is not empty, and there are no pages exactly when there are no items |
| ProductForm.PreviousPage | nak_challenge/src/components/Products.tsx:754-756 | never below 1; one page back from any page above 1 |
| ProductForm.NextPage | nak_challenge/src/components/Products.tsx:757-759 | never beyond `totalPages`; one page on from any page before the last |
| ProductForm.PagingStaysInRange | nak_challenge/src/components/Products.tsx:754-759 | from an existing page, previous and next both land on an existing page, on either side of the current one |
| ProductForm.WithoutIndex | nak_challenge/src/components/Products.tsx:616-618 | the index filter removes exactly the entry at the index and keeps the others in order; an index outside the list changes nothing |
| ProductForm.ValueLists | nak_challenge/src/components/Products.tsx:626-639 | one value list per selected attribute, in selection order: entry i is the values of entry i |
| ProductForm.NameTakenAppend | nak_challenge/src/components/Products.tsx:585-587 | after an append, a name is taken iff it was taken before or is the new entry's name |
| ProductForm.GeneratedTableFollowsSelection | nak_challenge/src/components/Products.tsx:624-676 | the regenerated table has as many rows as the product of the selected value counts, and each row's model joins one chosen value per selected attribute |
| ProductForm.WithoutIndexWellFormed | nak_challenge/src/components/Products.tsx:613-619 | removing an entry keeps the selection's names unique and every entry non-empty |
| ProductForm.FindAvailable | nak_challenge/src/components/Products.tsx:551 | `find`: the attribute returned is the first available one with the requested id (`FirstWithId`); none is returned only when no available attribute has it |
| ProductForm.SavePayload | nak_challenge/src/components/Products.tsx:711-726 | a blank name is refused; otherwise the payload holds the trimmed non-empty name, the selection as name/values in order, and the SKU models in table order |
| ProductForm.AttributesOf | nak_challenge/src/components/Products.tsx:715-718 | the attributes sent: one name/values pair per selected entry, in order |
| ProductForm.ModelsOf | nak_challenge/src/components/Products.tsx:711 | the `skusIds` sent: the model of each row, in table order |
| ProductForm.ProductEditor.constructor | nak_challenge/src/components/Products.tsx:416-448 | empty form, no pick, page 1, no items |
| ProductForm.ProductEditor.AddProductClick | nak_challenge/src/components/Products.tsx:519-536 | when logged in: form shown and reset, pick cleared; otherwise nothing changes |
| ProductForm.ProductEditor.CancelProductForm | nak_challenge/src/components/Products.tsx:538-541 | form hidden, page 1 |
| ProductForm.ProductEditor.ChangeName | nak_challenge/src/components/Products.tsx:543-545 | the product name becomes the input |
| ProductForm.ProductEditor.SelectAttributeName | nak_challenge/src/components/Products.tsx:547-567 | the pick becomes the found attribute with no values chosen, or is cleared when the id is unknown |
| ProductForm.ProductEditor.SelectValues | nak_challenge/src/components/Products.tsx:569-574 | only the chosen values of the pick change |
| ProductForm.ProductEditor.AddSelectedAttribute | nak_challenge/src/components/Products.tsx:576-611 | no id or no values → refused; name already selected → refused; refusals change nothing; otherwise appended as last entry and the pick reset; names stay unique and entries non-empty |
| ProductForm.ProductEditor.RemoveProductAttribute | nak_challenge/src/components/Products.tsx:613-619 | the selection becomes the index filter of the old one; names stay unique |
| ProductForm.ProductEditor.GenerateSkus | nak_challenge/src/components/Products.tsx:624-676 | empty selection: SKU table unchanged; otherwise the table is the reconciliation of the combinations of the selected values with the old table |
| ProductForm.ProductEditor.SkuPriceChange | nak_challenge/src/components/Products.tsx:678-688 | the table becomes `WithPrice` of the old one |
| ProductForm.ProductEditor.SkuInStockChange | nak_challenge/src/components/Products.tsx:690-700 | the table becomes `WithStock` of the old one |
| ProductForm.ProductEditor.RemoveSku | nak_challenge/src/components/Products.tsx:702-707 | the table becomes `WithoutSku` of the old one |
| ProductForm.ProductEditor.SaveProduct | nak_challenge/src/components/Products.tsx:709-752 | blank name → refused before any request; accepted → form closed, page 1; rejected → alert with the server message or "Failed to save product", state unchanged |
| ProductForm.ProductEditor.GoToPreviousPage | nak_challenge/src/components/Products.tsx:754-756 | the page becomes `PreviousPage` of the old one |
| ProductForm.ProductEditor.ProductsLoaded | nak_challenge/src/components/Products.tsx:478-490 | a page sets the item count to its `totalItems`, or to 0 when the body has none (`\|\| 0`); a failed request leaves the count unchanged |
| ProductForm.ProductEditor.GoToNextPage | nak_challenge/src/components/Products.tsx:757-759 | the page becomes `NextPage` of the old one and the page count |
| Scenarios.Pick | nak_challenge/src/components/Products.tsx:547-611 | picking a known attribute with values whose name is not selected yet appends it and leaves the SKU table alone |
| Scenarios.ColorCombinations | nak_challenge/src/components/Products.tsx:641-651 | [Red, Blue] alone gives the one-value tuples [Red], [Blue] |
| Scenarios.ColorSizeCombinations | nak_challenge/src/components/Products.tsx:641-651 | [Red, Blue] then [S, M] gives Red/S, Red/M, Blue/S, Blue/M in that order |
| Scenarios.ColorSizeModels | nak_challenge/src/components/Products.tsx:656 | those tuples join to "Red", "Blue", "Red / S", "Red / M", "Blue / S", "Blue / M" |
| Scenarios.ColorRows | nak_challenge/src/components/Products.tsx:653-667 | against a table with no model "Red" or "Blue", the color tuples give two fresh rows at zero |
| Scenarios.ColorSizeRows | nak_challenge/src/components/Products.tsx:653-667 | against a table with none of the four models, the color/size tuples give four fresh rows at zero |
| Scenarios.ColorOnly | nak_challenge/src/components/Products.tsx:576-667 | adding Color [Red, Blue] to an empty form yields rows "Red" and "Blue" with fresh ids, price 0 and stock 0 |
| Scenarios.ColorThenSize | nak_challenge/src/components/Products.tsx:576-667 | then adding Size [S, M] yields four fresh rows "Red / S", "Red / M", "Blue / S", "Blue / M" at zero; the old rows are gone |
| Scenarios.PriceRedS | nak_challenge/src/components/Products.tsx:678-688 | pricing "Red / S" at 9.99 changes that row's price and nothing else |
| Scenarios.DropSize | nak_challenge/src/components/Products.tsx:613-619 | removing Size leaves Color alone selected, and the table is unchanged until it is regenerated |
| Scenarios.EditThenRemoveSize | nak_challenge/src/components/Products.tsx:613-667 | then removing Size gives rows "Red" and "Blue" with fresh ids at price 0: no part of a model carries a price over |
| Scenarios.RemoveOnlyAttribute | nak_challenge/src/components/Products.tsx:624-635 | removing the only attribute leaves the selection empty but the two SKU rows in place |
| AttributeForm.NonBlankValues | nak_challenge/src/components/Attribiuttes.tsx:227 | the filter never grows the list |
| AttributeForm.NonBlankValuesMember | nak_challenge/src/components/Attribiuttes.tsx:227 | a value is kept iff it is in the input and not blank; kept values are untrimmed |
| AttributeForm.NonBlankValuesAppend | nak_challenge/src/components/Attribiuttes.tsx:227 | filtering a concatenation is concatenating the filtered parts, so the original order is kept |
| AttributeForm.NonBlankValuesIdempotent | nak_challenge/src/components/Attribiuttes.tsx:227 | filtering twice equals filtering once |
| AttributeForm.ValidateDraft | nak_challenge/src/components/Attribiuttes.tsx:225-239 | blank name → NameRequired (checked first); otherwise all values blank → ValueRequired; otherwise the untrimmed name with the non-blank values, at least one |
| AttributeForm.AttributesPage.constructor | nak_challenge/src/components/Attribiuttes.tsx:166-173 | no attributes, form hidden, form `{name: "", values: [""]}` |
| AttributeForm.AttributesPage.AttributesLoaded | nak_challenge/src/components/Attribiuttes.tsx:187-191 | a parsed list replaces the attributes shown; a failed request leaves them unchanged |
| AttributeForm.AttributesPage.AddClick | nak_challenge/src/components/Attribiuttes.tsx:199-202 | form shown and reset to `{name: "", values: [""]}` |
| AttributeForm.AttributesPage.Cancel | nak_challenge/src/components/Attribiuttes.tsx:204 | form hidden |
| AttributeForm.AttributesPage.ChangeName | nak_challenge/src/components/Attribiuttes.tsx:206-208 | only the name changes |
| AttributeForm.AttributesPage.ChangeValue | nak_challenge/src/components/Attribiuttes.tsx:210-217 | the value at `index` becomes the input; length, name and every other value stay the same |
| AttributeForm.AttributesPage.AddValueField | nak_challenge/src/components/Attribiuttes.tsx:219-221 | exactly one `""` appended at the end |
| AttributeForm.AttributesPage.Save | nak_challenge/src/components/Attribiuttes.tsx:223-264 | invalid draft → refused, nothing changes; created → returned attribute appended at the end, form hidden; refused by the server → alert with its message or "Failed to save attribute", nothing changes |
| AuthStore.RegisterIssues | nak_challenge/src/stores/authStore.ts:5-16 | no issues iff first name, last name and user name are non-empty, both passwords have at least 8 characters and they are equal; on a mismatch the last issue is the refinement's on `confirmPassword` |
| AuthStore.RegisterIssuesMember | nak_challenge/src/stores/authStore.ts:5-16 | an issue is reported iff it is the issue of a rule that fails, the refinement included |
| AuthStore.StoreRegisterIssues | nak_challenge/src/stores/authStore.ts:13-16 | the issue "errors.passwordsDontMatch" on `confirmPassword` is reported iff the passwords differ |
| AuthStore.FailureMessage | nak_challenge/src/stores/authStore.ts:60-68 | the message of the caught error: on an HTTP error, the server's message when present and non-empty, else the fallback; on an exception, its own message |
| AuthStore.LoginIssues | nak_challenge/src/stores/authStore.ts:21-24 | no issues iff user name and password are both non-empty; each field's issue is reported iff that field is empty |
| AuthStore.Session.constructor | nak_challenge/src/stores/authStore.ts:39-50 | logged in iff a user name was stored; stored name and token taken over; not loading, no error |
| AuthStore.Session.BeginRequest | nak_challenge/src/stores/authStore.ts:52 | loading, error cleared |
| AuthStore.Session.Register | nak_challenge/src/stores/authStore.ts:51-71 | ends not loading; succeeds iff the reply is ok, then no error; failure records the server message, "errors.registrationFailed" or the exception's message; session untouched |
| AuthStore.Session.Login | nak_challenge/src/stores/authStore.ts:72-101 | ends not loading; success: no error, logged in as the submitted user with the returned token; failure: error recorded ("errors.loginFailed" fallback), session unchanged |
| AuthStore.Session.Logout | nak_challenge/src/stores/authStore.ts:102-106 | user name cleared, logged out, in-store access token untouched |
| SignUp.FormRegisterIssues | nak_challenge/src/components/SignUpPage.tsx:116-127 | each field issue is reported iff its rule fails (names non-empty, passwords at least 8 characters); "errors.passwordDontMatch" on `confirmPassword` iff the passwords differ |
| SignUp.SchemasAgree | nak_challenge/src/components/SignUpPage.tsx:124-127 | the page's schema accepts exactly what the store's accepts; on a mismatch the page reports "errors.passwordDontMatch", which the store never reports |
| SignUp.ApiDataForgetsOnlyConfirmation | nak_challenge/src/components/SignUpPage.tsx:156-160 | two form data give the same submitted data iff they agree on every field but `confirmPassword` |
| SignUp.RegistrationError | nak_challenge/src/components/SignUpPage.tsx:144-148 | the store's error when there is one, else "errors.registrationFailed" |
| SignUp.Submit | nak_challenge/src/components/SignUpPage.tsx:142-160 | for accepted data: success iff the store's register succeeds; on failure the raised error is exactly the message the store recorded; the store ends not loading |

## Left out

- HTTP requests are not modelled: loading the product list and the attribute
  lists, posting products, attributes, registrations and logins, and
  status-code handling such as 401 and the page-level `loading`/`error` flags.
  Each request is replaced by an abstract reply parameter: accepted or
  rejected with an optional message for the saves, a thrown exception for the
  store, the parsed body or a failure for the two list loads
  (`ProductsLoaded`, `AttributesLoaded`). The product list itself is not kept:
  the model records only `totalItems`, which drives the paging. The 401 branch
  of the product load is folded into the reply: it reads the body anyway, so it
  arrives as a page (`ProductsPage`).
- `localStorage` is not modelled. The stored token and user name are
  constructor parameters of `Session`; the writes in `login` and `logout` are
  browser I/O and are omitted.
- `generateUniqueId` uses `Math.random`. It is replaced by a sequence `newIds`
  supplied by the caller, one id per combination. Freshness is a hypothesis
  (`FreshFor`) of the lemmas that need it.
- `parseFloat`/`parseInt` are not modelled. The parsed number is an input, with
  `None` standing for NaN, and a price is a mathematical real rather than a
  double.
- The trash button of a selected attribute only opens a confirmation modal
  (Products.tsx:1009-1013). Its confirm calls `handleRemoveProductAttribute`
  once (Products.tsx:770-771); `RemoveProductAttribute` is that call. The
  modal's open flag and delete target are not modelled.
- The product form's own load of the available attributes
  (Products.tsx:500-517) is not kept as state: `SelectAttributeName` receives
  that list as its `available` parameter.
- The busy flags `savingProduct` and `saving` are not modelled: every path
  resets them to false, so they are visible only while a request is pending.
- Rendering, styling, translation, routing, toasts, the dashboard and the
  sign-in page are not modelled.
- Zod and react-hook-form are restated as issue lists. String lengths count
  Dafny characters, not UTF-16 code units.
- AuthStore.RegisterIssues: the mismatch issue is stated in one direction only,
  because the message is a parameter that could equal another rule's message.
  Both directions are stated for each concrete schema, in
  `StoreRegisterIssues` and `FormRegisterIssues`.
- AttributeForm.NonBlankValues: its own contract states only a length bound.
  Membership, order and idempotence of the filter are proved in the
  `NonBlankValues*` lemmas.
