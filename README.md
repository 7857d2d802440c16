# HeadlessCart session and cart core, in Dafny

HeadlessCart is a WordPress/WooCommerce plugin that serves a cart over REST
without cookies. A client holds a signed token. The token names a `cart_key`,
and the key names a row of the plugin's own cart table, which has a JSON value
and an expiry. This project models that core and proves what it promises:

- `Base64Url` and `Token` (`token.dfy`, `base64url.dfy`): the unpadded
  base64url codec and the `header.claims.signature` token signed with HS256.
  Also `verify`'s ordered error ladder (malformed, signature, payload, expiry)
  and the header search of `fromRequest`.
- `CartStorage` (`cartstorage.dfy`): the table as a map from cart key to row.
  It has `createSession`, `load`, `save`, `cleanup` and the reuse-or-create
  resolution `getOrCreateFromRequest`. The table lives in the class
  `CartStore`, and its methods change the `rows` field. Each method is proved
  equal to a function of the old table, and the lemmas are about those
  functions.
- `CartController` (`cartcontroller.dfy`): the REST cart handlers. These are
  get, add (with quantity clamping and the 201/200 choice), the batch
  quantity update, clear, remove by key or by product, add-one and
  remove-one. Each handler is a method over the store, tied to a
  specification function of the table and request.
- `CartMapper` (`cartmapper.dfy`): the light projection of a cart. It is an
  order-preserving filter-map.
- `Checkout` (`checkout.dfy`): the strict resolution `getStrictSession`, the
  legacy `cart` unwrap and empty checks of `prepare` and `wooInit`, the
  duplicate-order guard, the order-line filter and the deletion of the cart
  row.
- `SessionHandler` (`sessionhandler.dfy`): a class holding the handler's
  fields (`cartKey`, `token`, `expiry`, `_data`, `_has_cookie`) and its
  REST-mode methods.
- `SessionRouter` (`sessionrouter.dfy`): the substring test that picks
  WooCommerce's native session handler or the headless one.
- `Catalog` and `Related` (`catalog.dfy`, `related.dfy`): the listing
  arithmetic. For the catalogue this is page normalisation, page count and
  slices, the search predicate and the sort arguments. For related products
  it is the limit clamp and "truncate the tag matches, then fill from the
  fallback".
- `Php` (`php.dfy`): the PHP values and operators the core relies on.
  These are ordered arrays, `isset`, `??`, `empty`, `array_filter`, string
  truthiness, `trim`, `strtolower`, `explode` and substring search. It also
  has PHP 8's `(int)` on strings and `is_numeric`. Both read the leading
  numeric prefix: a sign, digits, a fraction and an exponent. `(int)` cuts a
  non-integral value toward zero and saturates at the 64-bit bounds.

Things outside the plugin are inputs of the model:

- The clock is an explicit `now`.
- `wp_generate_password` is the chosen `Password`.
- HMAC-SHA256, the `auth` salt, the site URL, the ttl filter and the JSON
  codec are fields of `Token.Config`.
- What `wc_get_product` finds is a `Catalog` predicate.
- What `WC_Cart::add_to_cart` does is `CartController.Woo`.
- The product queries are parameters of the listing functions.

Where the code and the plugin's documentation differ, the model follows the
code:

- The documentation describes a retry with a new key when the INSERT hits a
  key collision. The code has no retry: the INSERT fails silently on the
  UNIQUE column and the session refers to the row already there
  (`CartStorage.CreateCollisionIsSilent`).
- `getStrictSession`'s "missing `cart_key`" rung (403) cannot be reached,
  because `Token::verify` already refuses such a payload
  (`Checkout.StrictLadder`).

## Model

| member | source | states |
|---|---|---|
| Base64Url.EncodeIsUrlChars | src/Utils/Base64Url.php:21-26 | encode is the URL-safe alphabet (`-` and `_` for 62 and 63) applied to the sextets of the input, with every `=` of the padding removed |
| Base64Url.EncodeAlphabet | src/Utils/Base64Url.php:23-25 | every character of an encoding is one of `A-Z a-z 0-9 - _`; none is `=`, `+` or `/` |
| Base64Url.EncodeLength | src/Utils/Base64Url.php:23-25 | an encoding of n bytes has ceil(4n/3) characters, the padded length minus the padding, so its length is never 1 modulo 4 |
| Base64Url.Padded | src/Utils/Base64Url.php:36-41 | decode's padding keeps the input as a prefix, appends `(4 - len % 4) % 4` characters, all `=`, and yields a multiple of 4 |
| Base64Url.SubstitutionInverse | src/Utils/Base64Url.php:25-36 | `+/`→`-_` followed by `-_`→`+/` gives back any string without `-` or `_`, and the reverse order gives back any string without `+` or `/` |
| Base64Url.SextetsLength | src/Utils/Base64Url.php:23 | base64 splits n bytes into ceil(4n/3) sextets |
| Base64Url.SextetsRoundTrip | src/Utils/Base64Url.php:23-42 | packing the sextets of any byte string back into bytes gives that byte string |
| Base64Url.DecodeValues | src/Utils/Base64Url.php:34-43 | undoing the substitution on an encoding and padding it gives exactly its sextets to base64_decode; the `=` characters contribute nothing |
| Base64Url.RoundTrip | src/Utils/Base64Url.php:21-43 | decode(encode(d)) == d for every byte string d |
| Base64Url.EncodeInjective | src/Utils/Base64Url.php:21-26 | two byte strings with the same encoding are equal |
| Token.Verify | src/Core/Token.php:83-110 | a successful verify means the token is truthy with exactly two dots, its third segment is the HMAC of the first two, and the claims have a non-empty `cart_key` and `exp` with `exp >= now` |
| Token.Admit | src/Core/Token.php:98-109 | the payload rungs pass iff the decoded claims are an array with non-empty `cart_key` and `exp` and `exp >= now`; they then return those claims, and otherwise fail with `invalid_payload` or `token_expired` |
| Token.FirstTruthy | src/Core/Token.php:133-137 | the header loop stops at the first name whose header is truthy; every earlier one is falsy |
| Token.FromRequest | src/Core/Token.php:125-147 | null iff none of `x-headlesscart-token`, `cart-token`, `authorization` is truthy; otherwise the first truthy one, with a Bearer prefix stripped and trimmed |
| Token.ThreeSegments | src/Core/Token.php:85-89 | three dot-free segments joined with dots have exactly two dots and explode back into those segments |
| Token.GenerateShape | src/Core/Token.php:52-74 | a generated token has two dots and three parts; the third is the HMAC of the first two; the first decodes to the HS256/JWT header JSON and the second to claims `cart_key = k, iat = now, exp = now + ttl, iss = site url` |
| Token.GeneratedHasNoSpace | src/Core/Token.php:66-73 | a generated token has no space, so it never looks like a Bearer value |
| Token.VerifyLadder | src/Core/Token.php:83-107 | `invalid_token` iff the token is falsy or has a dot count other than 2; `invalid_signature` iff it is well formed and the signature differs; `token_expired` only when the claims' `exp` is before now |
| Token.SignatureIntegrity | src/Core/Token.php:91-96 | for dot-free segments, `invalid_signature` is returned exactly when the third segment differs from the HMAC of the first two |
| Token.TamperedSignatureRejected | src/Core/Token.php:91-96 | replacing a generated token's signature with any other dot-free string fails with `invalid_signature` |
| Token.ClaimsLookups | src/Core/Token.php:57-62 | the generated claims read back `cart_key`, `iat` and `exp` as written |
| Token.VerifyGeneratedAt | src/Core/Token.php:52-110 | verifying a generated token at time `now` is `invalid_payload` when exp is 0, `token_expired` when exp < now, and otherwise its own claims |
| Token.VerifyGenerated | src/Core/Token.php:52-110 | round trip: a token generated for a non-empty key with a non-zero expiry verifies at every time up to and including its expiry, with `cart_key`, `iat` and `exp` as generated |
| Token.ExpiryIsStrict | src/Core/Token.php:105-107 | a generated token is expired iff `exp < now`; `exp == now` still verifies |
| Token.NegativeTtlExpiresImmediately | src/Core/Token.php:105-107 | with ttl -1 the token fails with `token_expired` from its issue time on |
| Token.ZeroExpiryRejected | src/Core/Token.php:101-103 | an expiry of 0 is empty, so such a token is `invalid_payload` whatever the time |
| Token.BearerAnyCase | src/Core/Token.php:139-141 | `Bearer ` in any letter case is cut off and the rest trimmed |
| Token.BearerFromAnyHeader | src/Core/Token.php:127-143 | when the first truthy header is `Bearer ` in any letter case followed by `rest`, the token is `trim(rest)` |
| Token.CustomHeaderWins | src/Core/Token.php:127-143 | a truthy `x-headlesscart-token` is chosen over the later headers |
| CartStorage.GenerateCartKey | src/Core/CartStorage.php:78-81 | the key is `ck_` followed by the 40 password characters: 43 characters, within 64 |
| CartStorage.CartKeyFitsColumn | src/Core/CartStorage.php:60 | a generated key fits the `VARCHAR(64)` column |
| CartStorage.CartKeyAlphabet | src/Core/CartStorage.php:78-81 | after `ck_` a key holds only letters and digits |
| CartStorage.Load | src/Core/CartStorage.php:127-153 | null iff there is no row or its expiry is before now; otherwise the row's key and expiry, and its value when that decodes to an array, else `[]` |
| CartStorage.ExpiredRowsInvisible | src/Core/CartStorage.php:145-148 | an existing row loads iff `now <= expiry`: a row is visible in its expiry second and never after |
| CartStorage.Saved | src/Core/CartStorage.php:183-202 | save returns `now + ttl` when extending, else `now + 3600`; only an existing row of that key is rewritten with the value and that expiry; the keys and all other rows stay |
| CartStorage.CartStore.Save | src/Core/CartStorage.php:183-202 | the method's expiry and new table are those of `Saved` |
| CartStorage.SaveThenLoad | src/Core/CartStorage.php:183-202 | after saving under a live key, `load` returns that value until the new expiry; other keys load as before |
| CartStorage.SaveAbsentKeyNoop | src/Core/CartStorage.php:190-199 | saving under a key with no row changes nothing and creates no row |
| CartStorage.NewSession | src/Core/CartStorage.php:89-119 | createSession returns the generated key, an empty value and `now + ttl`, the ttl defaulting to Token::ttl |
| CartStorage.CartStore.CreateSession | src/Core/CartStorage.php:89-119 | the method's session and new table are those of `Created` |
| CartStorage.CreateAddsOneRow | src/Core/CartStorage.php:89-119 | for a new key, createSession adds exactly one row, with an empty value and expiry `now + ttl`, and every other row stays as it was |
| CartStorage.InsertAddsOneRow | src/Core/CartStorage.php:101-109 | the INSERT of a new key adds that one row, which `load` returns with an empty cart until its expiry |
| CartStorage.CreateCollisionIsSilent | src/Core/CartStorage.php:101-109 | when the key is taken, the table is unchanged and the returned key names the existing row; there is no retry |
| CartStorage.CreatedTokenVerifies | src/Core/CartStorage.php:111-118 | a new session's token verifies up to its expiry and names the new key |
| CartStorage.PruneItems | src/Core/CartStorage.php:244-252 | cleanup's item loop keeps exactly `Prune` of the lines and counts the removed ones |
| CartStorage.PruneKeepsExactly | src/Core/CartStorage.php:245-251 | a line survives iff it has no non-empty `product_id` or its product resolves; kept plus removed is the line count |
| CartStorage.PruneIdempotent | src/Core/CartStorage.php:245-251 | a pruned cart has nothing left to prune |
| CartStorage.CartStore.Cleanup | src/Core/CartStorage.php:214-271 | the new table is `Cleaned` of the old one, and the three logged counters are the expired rows, the malformed rows and the removed lines |
| CartStorage.CartStore.SweepAll | src/Core/CartStorage.php:231-263 | the loop over the remaining rows soft-cleans every row and sums the per-row counters |
| CartStorage.CartStore.SweepRow | src/Core/CartStorage.php:232-262 | one pass deletes a malformed row or replaces an array cart by its pruned lines, and reports that row's counters |
| CartStorage.CleanupResult | src/Core/CartStorage.php:214-263 | a row survives cleanup iff it was unexpired and well formed; it keeps its expiry, so none is expired; an array cart loses exactly its lines with a missing product (lines without `product_id` stay); any other value is kept |
| CartStorage.CleanupLeavesNoMissing | src/Core/CartStorage.php:244-252 | no line left by cleanup points at a missing product |
| CartStorage.CleanupIdempotent | src/Core/CartStorage.php:221-262 | a second cleanup at the same time with the same catalogue changes nothing and counts (0, 0, 0) |
| CartStorage.CartStore.GetOrCreateFromRequest | src/Core/CartStorage.php:282-304 | the method's session and new table are those of `Resolved` |
| CartStorage.ResolveReuseOrCreate | src/Core/CartStorage.php:282-304 | reuse happens iff a token is present, verifies, names a key and the key loads; the presented token comes back unchanged with the loaded value and expiry and the table is untouched; otherwise exactly one createSession runs |
| CartStorage.ResolveWithoutTokenCreates | src/Core/CartStorage.php:284-303 | without a truthy token header a request always gets a new session |
| CartStorage.PresentedGenerated | src/Core/CartStorage.php:284-286 | a generated token sent in `X-HeadlessCart-Token` is the token the request presents |
| CartStorage.CreatedSessionIsReused | src/Core/CartStorage.php:282-304 | a session created at `now` and presented back at any time up to its expiry is reused: same session, no new row |
| CartStorage.ReusableByKey | src/Core/CartStorage.php:284-296 | when the presented token verifies to key k, reuse is exactly whether k loads, with the presented token and the loaded value and expiry |
| CartStorage.CartStore.Delete | src/Checkout/CheckoutController.php:291-296 | clearHeadlessCart removes that key's row and nothing else; an absent key is a no-op |
| CartController.WithQuantity | src/Cart/CartController.php:221 | writing a line's `quantity` gives an array line that reads back that quantity |
| CartController.WithQuantityTwice | src/Cart/CartController.php:221 | a second quantity write replaces the first: the line is as if written once |
| CartController.AddLine | src/Cart/CartController.php:155-160 | add_to_cart yields a cart iff WooCommerce accepts the product and quantity; otherwise 500 follows |
| CartController.ProductIndex | src/Cart/CartController.php:312-317 | the product fallback finds the first line in cart order whose `product_id` matches; no earlier line matches |
| CartController.Clamp | src/Cart/CartController.php:135-137 | a quantity of zero or less becomes 1; a positive one is kept |
| CartController.FindProductLine | src/Cart/CartController.php:312-317 | the loop with `break` returns the key of the first matching line, or nothing |
| CartController.ResolveLineKey | src/Cart/CartController.php:310-318 | the handlers act on the explicit key, or on the product fallback when the key is falsy and the id positive |
| CartController.Boot | src/Cart/CartController.php:302-308 | the cart boots with the loaded contents, or none when the row does not load |
| CartController.GetCart | src/Cart/CartController.php:85-106 | 500 without WooCommerce. Otherwise the resolved session replies 200 with the light projection of its stored value, unfiltered. When a line is not an array, normalizeItem throws a TypeError and the reply is a crash. Either way the table is the one after resolution |
| CartController.AddToCart | src/Cart/CartController.php:117-181 | reply and new table are those of `AddToCartSpec` |
| CartController.AddToSession | src/Cart/CartController.php:139-180 | once the session is resolved: 404 for a missing product, 500 when add_to_cart refuses, else the merged cart saved with 201 or 200 |
| CartController.AddRejectsBadProductFirst | src/Cart/CartController.php:126-133 | a product id of 0 or less is answered 400 before any session is resolved, so the table is unchanged |
| CartController.AddLineMerges | src/Cart/CartController.php:155 | adding a product already in the cart sets its line to the old quantity plus the added one |
| CartController.AddLineAppends | src/Cart/CartController.php:155 | adding a new product adds its line, with that product id, variation 0 and the added quantity |
| CartController.AddLineKeepsOthers | src/Cart/CartController.php:155 | adding a product leaves every other line as it was |
| CartController.SetQuantityKeepsOthers | src/Cart/CartController.php:390 | set_quantity on a line in the cart leaves every other key's line as it was |
| CartController.AddLineKeepsLine | src/Cart/CartController.php:155 | a line under a key other than the added product's is still in the cart after add_to_cart |
| CartController.AddLineKeepsPositive | src/Cart/CartController.php:135-155 | with a clamped quantity, all quantities stay at least 1 when they were |
| CartController.AddTwiceMerges | src/Cart/CartController.php:155 | adding 2 then 1 of a new product gives one line of quantity 3 |
| CartController.AddStatus | src/Cart/CartController.php:142-178 | a successful add answers 201 iff the stored cart was missing or empty before the add, else 200 |
| CartController.AddToNewSessionIs201 | src/Cart/CartController.php:139-178 | a successful add without a token creates a session and answers 201 |
| CartController.UpdateCart | src/Cart/CartController.php:192-240 | reply and new table are those of `UpdateCartSpec` |
| CartController.UpdateSession | src/Cart/CartController.php:202-239 | a body that is not an array is 400; otherwise the updated cart is saved and returned |
| CartController.SetQuantities | src/Cart/CartController.php:217-223 | the update loop's result is `ApplyUpdates` of the booted cart and the body |
| CartController.ApplyUpdateShape | src/Cart/CartController.php:217-222 | one update keeps the cart's keys, in order |
| CartController.ApplyUpdatesAt | src/Cart/CartController.php:217-223 | after the loop the keys are unchanged, a line named in the body has quantity `max(1, (int) qty)` of its last entry, and every other line is untouched, so unknown keys are ignored |
| CartController.UpdateIdempotent | src/Cart/CartController.php:217-223 | applying the same body twice gives the same cart as once |
| CartController.UpdateKeepsPositive | src/Cart/CartController.php:219-221 | updates keep all quantities at least 1 when they were |
| CartController.ClearCart | src/Cart/CartController.php:247-270 | reply and new table are those of `ClearCartSpec` |
| CartController.ClearOnce | src/Cart/CartController.php:255-269 | clearing a reusable session saves an empty cart under the same key with a fresh expiry and replies 200 with an empty cart |
| CartController.ReusableAfterClear | src/Cart/CartController.php:255-258 | after the clear, the same request still reuses the same key and token, now with an empty cart |
| CartController.ClearTwice | src/Cart/CartController.php:255-264 | clearing twice at the same time gives the same table and reply as clearing once |
| CartController.RemoveItem | src/Cart/CartController.php:289-343 | reply and new table are those of `RemoveItemSpec` |
| CartController.RemoveItemFromSession | src/Cart/CartController.php:308-342 | once the session is resolved: 404 when no line key results, else the cart without that line is saved |
| CartController.KeyTakesPrecedence | src/Cart/CartController.php:298-311 | a truthy explicit key is used as given, whatever the product id |
| CartController.ProductFallbackFirstMatch | src/Cart/CartController.php:311-317 | without a key, the first line in order with a matching product is chosen |
| CartController.RemoveItemNotFound | src/Cart/CartController.php:320-324 | remove-item fails iff no line key results |
| CartController.RemoveKeepsPositive | src/Cart/CartController.php:326 | removing a line keeps all quantities at least 1 when they were |
| CartController.RemoveLineIdempotent | src/Cart/CartController.php:326 | after removal the key is gone, all other lines stay, and removing again changes nothing |
| CartController.RemoveAbsentKeySavesUnchanged | src/Cart/CartController.php:320-332 | an explicit key not in the cart is not a 404: the unchanged lines are saved and returned |
| CartController.SetQuantityEffect | src/Cart/CartController.php:390 | set_quantity to q >= 1 rewrites that line's quantity and leaves other lines and positivity intact |
| CartController.SetQuantityZeroRemoves | src/Cart/CartController.php:390 | set_quantity to 0 or less removes the line and leaves the others |
| CartController.FilteredLinesMap | src/Cart/CartController.php:163-171 | get_cart's lines can all be light-mapped iff every truthy line of the contents is an array |
| CartController.ScalarLineCrashes | src/Cart/CartMapper.php:34-101 | a truthy line that is not an array survives get_cart and makes light throw |
| CartController.GetCartCrashes | src/Cart/CartController.php:92-98 | GET /cart crashes iff the resolved session's value holds a line that is not an array; falsy lines are not filtered out here |
| CartController.LineHandlersCrashUnsaved | src/Cart/CartController.php:326-394 | with a non-array truthy line elsewhere in the cart, remove-item, add-one and remove-one crash in light before they save, so the table is unchanged |
| CartController.AddCrashAfterSave | src/Cart/CartController.php:155-171 | with a non-array truthy line in the cart, addToCart has already saved the added cart when light throws: the table is the saved one and the reply a crash |
| CartController.UpdateCrashAfterSave | src/Cart/CartController.php:217-232 | a non-array truthy line that the body does not update makes updateCart crash after it saved the updated cart |
| CartController.SaveThenMap | src/Cart/CartController.php:160-171 | the save-then-map order of add and update: the row is saved first, then the lines are `LightResult` of what was saved |
| CartController.MapThenSave | src/Cart/CartController.php:329-342 | the map-then-save order of the remove and one-step handlers: reply and table are those of `LineReply`, so a crash in light leaves the table unsaved |
| CartController.AddOne | src/Cart/CartController.php:351-407 | reply and new table are those of `AddOneSpec` |
| CartController.AddOneToSession | src/Cart/CartController.php:370-406 | once the session is resolved: 404 unless the line exists, else the incremented cart is saved |
| CartController.LineHandlersNeedLine | src/Cart/CartController.php:381-385 | add-one, and remove-one by the same guard at lines 445-449, fail iff the resolved key is falsy or not in the cart |
| CartController.IncrementEffect | src/Cart/CartController.php:387-390 | add-one sets the line to current + 1, leaves the other lines, and keeps quantities at least 1 |
| CartController.RemoveOne | src/Cart/CartController.php:415-475 | reply and new table are those of `RemoveOneSpec` |
| CartController.RemoveOneFromSession | src/Cart/CartController.php:434-474 | once the session is resolved: 404 unless the line exists, else the decremented cart is saved |
| CartController.DecrementEffect | src/Cart/CartController.php:451-457 | remove-one removes the line at quantity 1 or less, else sets it to current - 1; other lines unchanged; quantities stay at least 1 |
| CartMapper.MapItemRule | src/Cart/CartMapper.php:55-85 | mapItem keeps exactly the array items with a set, positive `product_id` whose product resolves, with that id, the item's key (or '') and `(int) quantity` (1 when unset) |
| CartMapper.EntryKey | src/Cart/CartMapper.php:101-108 | each light line carries the map key of the entry it came from |
| CartMapper.Light | src/Cart/CartMapper.php:34-117 | when every line is an array, the loop appending mapped items computes `LightOf`. Otherwise normalizeItem's `array` return type throws a TypeError at the first other line, and the result is `None` |
| CartMapper.LightSources | src/Cart/CartMapper.php:99-116 | light's output comes from a strictly increasing list of input positions and includes every position that maps, each line carrying its entry's key; so order is kept and the output is never longer than the input |
| CartMapper.LightProducts | src/Cart/CartMapper.php:64-74 | every light line has a positive product id that resolves |
| CartMapper.DroppedItems | src/Cart/CartMapper.php:59-74 | items without `product_id`, with one of 0 or less, or whose product is gone, are dropped |
| CartMapper.LightEmpty | src/Cart/CartMapper.php:99-116 | an empty cart projects to an empty list |
| Checkout.StrictLadder | src/Checkout/CheckoutController.php:48-81 | no token is 401 `missing_token`; a verify error is passed on; the 403 missing-key rung is never reached; a verified key that does not load is 404 `cart_not_found` |
| Checkout.StrictMatchesReuse | src/Checkout/CheckoutController.php:48-89 | getStrictSession succeeds exactly when getOrCreateFromRequest would reuse, and returns that same session; it has no create path |
| Checkout.StrictByKey | src/Checkout/CheckoutController.php:56-89 | with a presented token: no verified key means an error. A verified key gives that row's session with the presented token, or `cart_not_found` when the row does not load |
| Checkout.StrictSessionIsStored | src/Checkout/CheckoutController.php:83-88 | a strict session returns the presented token, a live row's key and that row's expiry |
| Checkout.UnwrapRules | src/Checkout/CheckoutController.php:130-177 | prepare unwraps `value['cart']` only when it is an array (lines 132-134); wooInit unwraps it whenever it is set (lines 175-177) |
| Checkout.ScalarLegacyCart | src/Checkout/CheckoutController.php:132-189 | for a `cart` entry that is set and not an array: wooInit answers `empty_cart` when it is falsy. When it is truthy, wooInit is fatal because bootWooCart needs an array. The table is unchanged. prepare keeps the outer value, so a truthy `cart` line reaches normalizeItem's TypeError and prepare is fatal too |
| Checkout.EmptyCartIs400 | src/Checkout/CheckoutController.php:132-140 | prepare answers `empty_cart` (400) iff its unwrapped cart is empty |
| Checkout.WooInitEmptyIs400 | src/Checkout/CheckoutController.php:174-181 | wooInit answers `empty_cart` (400) iff its unwrapped cart is empty in PHP's sense |
| Checkout.DuplicateKeepsCart | src/Checkout/CheckoutController.php:193-207 | when an order is already tagged with the key, wooInit answers 409 `duplicate_order` and keeps the table, cart row included |
| Checkout.FailureKeepsTable | src/Checkout/CheckoutController.php:167-207 | every wooInit error leaves the table as it was |
| Checkout.CollectOrderLines | src/Checkout/CheckoutController.php:212-222 | the loop adding products to the order computes `OrderLines` |
| Checkout.OrderLinesValid | src/Checkout/CheckoutController.php:212-222 | only lines with product id > 0, quantity > 0 and a resolving product reach the order, at most one per item |
| Checkout.OrderLineQuantity | src/Checkout/CheckoutController.php:213-216 | a missing quantity orders 1; a quantity of 0 or less is skipped |
| Checkout.OrderLinesAppend | src/Checkout/CheckoutController.php:212-222 | the order lines of a concatenation are the concatenation, so every qualifying item is ordered in cart order |
| Checkout.WooInit | src/Checkout/CheckoutController.php:167-259 | result and new table are those of `WooInitSpec` |
| Checkout.PlacedConsumesCart | src/Checkout/CheckoutController.php:249 | a placed order deletes exactly the session's row; deleting again is a no-op, and the same request then finds no cart (404) |
| Checkout.StrictAfterDelete | src/Checkout/CheckoutController.php:74-81 | once the session's row is gone, getStrictSession answers `cart_not_found` |
| SessionHandler.SessionHandler.constructor | src/Core/SessionHandler.php:44-50 | the handler starts with no key, token or expiry, `_data` empty and no cookie flag |
| SessionHandler.SessionHandler.InitSession | src/Core/SessionHandler.php:61-94 | in REST mode the store and the fields become those of the resolved session: createSession without a request, getOrCreateFromRequest with one. `_has_cookie` is set. When the token's `cart_key` claim is not an array, get_session_id then reports the resolved key, whatever the parent's id |
| SessionHandler.InitWithoutRequest | src/Core/SessionHandler.php:78-80 | without a current request the session is new: a `ck_` key that get_session_id reports, an empty cart, and one new row |
| SessionHandler.InitReusesToken | src/Core/SessionHandler.php:81-90 | with a request whose token resolves, the presented token and the stored cart are kept and the store is untouched |
| SessionHandler.ResolvedKeyIsTruthy | src/Core/SessionHandler.php:78-90 | a key init_session resolves is truthy: a created key starts with `ck_`, and a reused one is a verified non-empty `cart_key` claim that is not an array. So get_session_id (line 140) never falls back to the parent |
| SessionHandler.SessionData | src/Core/SessionHandler.php:105-114 | get_session returns an array or the default; a missing row with a falsy default gives `[]` |
| SessionHandler.SessionHandler.GetSession | src/Core/SessionHandler.php:105-114 | the method returns `SessionData` of the store |
| SessionHandler.GetSessionFallback | src/Core/SessionHandler.php:113 | a missing or expired row gives the default, or `[]` when it is falsy such as `false` |
| SessionHandler.SessionHandler.SaveData | src/Core/SessionHandler.php:122-129 | no truthy cart key: nothing changes; otherwise `_data` is saved under the key with the full ttl |
| SessionHandler.SaveThenGetSession | src/Core/SessionHandler.php:105-129 | what save_data writes under a live key, get_session reads back |
| SessionRouter.NativeIffMarker | src/Core/SessionRouter.php:39-47 | the native handler is chosen iff the URI contains `checkout`, `order-pay`, `order-received` or `cart` |
| SessionRouter.MissingUriIsHeadless | src/Core/SessionRouter.php:37-51 | a missing `REQUEST_URI` reads as '' and gets the headless handler |
| SessionRouter.IgnoresIncoming | src/Core/SessionRouter.php:35-52 | the result does not depend on the incoming handler |
| SessionRouter.HeadlessRoutesGoNative | src/Core/SessionRouter.php:43 | containment is unanchored: any URI containing `headlesscart` contains `cart` and goes to the native handler |
| SessionRouter.CartRouteGoesNative | src/Cart/CartRoutes.php:25 | the plugin's own `/wp-json/headlesscart/v1/cart` route gets the native handler |
| Catalog.AtLeastOne | src/Catalog/CatalogController.php:42-43 | `page` and `per_page` become at least 1, and a value of 1 or more is kept |
| Catalog.TotalPages | src/Catalog/CatalogController.php:190 | the page count is at least 1 |
| Catalog.HandleBounds | src/Catalog/CatalogController.php:42-206 | page, per_page and total_pages are at least 1; a page holds at most per_page items; `has_prev` iff page > 1; `has_next` iff page < total_pages; total is the size of the listed query, filtered when filtering runs |
| Catalog.PageSliceShort | src/Catalog/CatalogController.php:193 | a slice holds at most per_page items |
| Catalog.TotalPagesCover | src/Catalog/CatalogController.php:190 | total_pages × per_page holds every item, and one page fewer does not |
| Catalog.PagesUpToPrefix | src/Catalog/CatalogController.php:192-193 | pages 1..n together are the first n × per_page items, or all of them |
| Catalog.PagesCoverList | src/Catalog/CatalogController.php:189-193 | pages 1..total_pages list every item once, in order |
| Catalog.PageSizes | src/Catalog/CatalogController.php:190-205 | every page before the last is full; `has_next` holds iff the next page has items |
| Catalog.FilterMembers | src/Catalog/CatalogController.php:163-188 | a product is listed iff it is in the query and passes the closure; filtering never adds |
| Catalog.NativeBranch | src/Catalog/CatalogController.php:132-147 | without a search and a numeric price bound, total is the whole query's count |
| Catalog.MatchesAnyField | src/Catalog/CatalogController.php:175-183 | a query found in the lower-cased name, SKU or slug matches |
| Catalog.SearchIgnoresCase | src/Catalog/CatalogController.php:49-50 | a search differing only in letter case gives the same query |
| Catalog.SortOrderRule | src/Catalog/CatalogController.php:56 | `ASC` iff the lower-cased `order` is `asc`, else `DESC`, a missing param included |
| Catalog.SortMapping | src/Catalog/CatalogController.php:77-110 | `orderby` becomes the column of price, title or popularity (date for any other name), `order` the requested direction, `meta_key` is set for price and popularity only, and `status` stays `publish` |
| Catalog.SortArgsWrite | src/Catalog/CatalogController.php:89-110 | each case of the switch is the write of its column, meta key and order |
| Catalog.NumericAccepted | src/Catalog/CatalogController.php:62 | `is_numeric` accepts `10`, ` 12.5`, `1e3` and integers |
| Catalog.NumericRejected | src/Catalog/CatalogController.php:62 | `is_numeric` rejects '', `.`, `abc` and null |
| Related.LimitBounds | src/Related/RelatedController.php:34 | the limit is at least 1, and a requested limit of 1 or more is kept |
| Related.NonZero | src/Related/RelatedController.php:52-54 | array_filter keeps exactly the non-zero tag ids, in order |
| Related.NonZeroOfZeros | src/Related/RelatedController.php:52-54 | tag ids that are all 0 leave no tag |
| Related.Handle | src/Related/RelatedController.php:31-116 | the step-by-step reassignment of `$related` computes `Answer` |
| Related.NotFoundBeforeQueries | src/Related/RelatedController.php:37-40 | an unknown target is 404 `not_found`, whatever the related queries return |
| Related.TruncatedPrefix | src/Related/RelatedController.php:75-77 | the tag step keeps the first min(limit, n) matches in query order |
| Related.TagMatchesFirst | src/Related/RelatedController.php:52-109 | the list starts with the truncated tag matches, followed by the fallback; `total` is the length of `data` |
| Related.FallbackOnlyWhenShort | src/Related/RelatedController.php:84-93 | the fallback runs iff fewer than limit items remain; it asks for `limit - count` (at least 1) and excludes the target and every chosen id |
| Related.FallbackIgnoredWhenFull | src/Related/RelatedController.php:84-96 | with at least limit tag matches the fallback decides nothing |
| Related.UntaggedUsesFallback | src/Related/RelatedController.php:52-96 | without a non-zero tag the list is the fallback for limit items excluding the target |
| Related.AtMostLimit | src/Related/RelatedController.php:84-95 | if the fallback honours its limit, the list has at most limit entries |
| Related.ExactlyLimit | src/Related/RelatedController.php:84-95 | if the fallback always returns as many products as asked for, the list has exactly limit entries |
| Php.StringToInt | src/Cart/CartController.php:126-127 | `(int)` of a string is within the 64-bit range |
| Php.IntCast | src/Cart/CartController.php:126-127 | `(int)` of an integer's decimal spelling is that integer inside the 64-bit range. Beyond it the value saturates at the nearer bound, and at a magnitude a double cannot hold it is 0 |
| Php.IntCastRoundTrip | src/Core/CartStorage.php:145 | a 64-bit integer written as a string reads back as itself |
| Php.CastReadsExponent | src/Core/Token.php:105 | `(int) "1e3"` is 1000: the exponent is part of the numeric prefix |
| Php.CastTruncates | src/Cart/CartController.php:219 | `(int) "-3.9"` is -3: a fraction is cut toward zero |
| Php.CastReadsPrefix | src/Cart/CartController.php:127 | `(int) " 12abc"` is 12: leading white space is skipped and the trailing text ignored |
| Php.CastWithoutPrefix | src/Cart/CartController.php:127 | `(int)` of `abc`, '' or `.` is 0 |
| Php.DigitsPrefix | src/Catalog/CatalogController.php:62 | a string of digits is entirely its own integral numeric prefix, with the digits' value |
| Php.NatToStringDigits | src/Cart/CartController.php:399 | the decimal spelling of n is a non-empty digit string whose value is n, and it is truthy when n >= 1 |
| Php.ToStrTruthy | src/Core/CartStorage.php:289-290 | a truthy scalar claim stays truthy once `load(string $cartKey)` converts it to a string |
| Php.ArrayFilter | src/Cart/CartController.php:163 | `array_filter` keeps exactly the truthy entries, in order |

## Left out

- The database: `$wpdb` queries, `createTable`/`dbDelta` and the `tableName` filter. The table is an in-memory map and queries run one at a time.
- Concurrent requests on the same cart key (last writer wins). Each request is one resolve, change, save sequence.
- The clock, `wp_generate_password`, HMAC-SHA256, `wp_salt`, the site URL, the ttl filter and `wp_json_encode`/`json_decode` are foreign. They are inputs or `Token.Config` fields. The round-trip lemmas assume the JSON codec gives the claims back (`Token.JsonKeeps`).
- `hash_equals` is taken as plain string equality. Its constant-time property does not appear in this model.
- PHP floats and objects do without a model here. Line totals in CartMapper, the catalogue's price-range test (the parameter `priceOk`) and ProductMapper are all left out. Products are ids (Related) or `{id, name, sku, slug}` records (Catalog). Cart values hold no objects, so of CartMapper::normalizeItem only its `array` return type is modelled: a line that is not an array throws a TypeError, which every handler that maps lines turns into `Crashed` (a 500 from WordPress's fatal-error handler, whose body is not modelled).
- The WooCommerce cart internals are abstracted. `add_to_cart`'s line key and acceptance are `Woo.lineKey`/`Woo.accepts`. `calculate_totals`, the `needs_shipping` and totals of `prepare`, and the product objects `load` re-attaches (src/Core/CartStorage.php:155-166) are left out.
- `sanitize_text_field` becomes string conversion.
- CartController.WithQuantity: a line that is not an array is written as if it were `[]`. PHP does that only for a `false` line (with a deprecation notice). A `null` line never gets there, because `isset` skips it. For a string, an integer, a float or `true`, the write `$line['quantity'] = $qty` throws an Error: updateCart would end with a 500 before it saves, and for add-one and remove-one that depends on WooCommerce's `set_quantity`. The model saves the written line instead.
- Order creation in `wooInit`: addresses, totals, status, meta tags, the native `WC_Session_Handler` cookie and the payment URL. The order is its product lines. The orders already tagged with a key form the parameter `ordered`.
- The `confirm` and `getOrder` stubs (501 responses) are left out.
- The transient caching in the Catalog and Related controllers is external cache I/O.
- Catalog: in the native branch, WooCommerce pages the query with `limit`/`offset` and counts it with a second query without `meta_key`. The model treats both as the same listed sequence `all`.
- Catalog: the `category`, `tag`, `brand`, `in_stock` and `consigliato` arguments only shape the WooCommerce query. The result of that query is the parameter `all`.
- Related: the tag query and the random fallback query are parameters, so their "published, excluding" filtering is assumed rather than modelled.
- SessionHandler: the non-REST branch (`parent::init_session`), the trivial getters `get_token`/`get_expiry` and the inherited WooCommerce session behaviour are left out.
- error_log calls are left out.
- 64-bit overflow: integers are unbounded, but PHP turns an integer result past 2^63 - 1 into a float. The model computes these results exactly: `time() + $ttl` (src/Core/CartStorage.php:96, 188; src/Core/Token.php:55-57), `$current + 1` (src/Cart/CartController.php:388), `($page - 1) * $perPage` (src/Catalog/CatalogController.php:135, 192) and WooCommerce's quantity merge in `add_to_cart` (`CartController.AddLine`). Only `(int)` of a string is bounded.
- Php.StringToInt: a non-integral numeric prefix is read as an exact decimal and cut toward zero. PHP parses it into a double first. So a prefix that rounds to another integer as a double (`0.99999999999999999` is 1 in PHP, 0 here) differs, and so does the saturation point near 2^63, which PHP decides on the rounded double.
- CartStorage.VerifiedKey: a `cart_key` claim that is an array becomes the empty string here. PHP would throw a TypeError when it passes the claim to `load(string $cartKey)`. Only a token signed with the site's secret can carry such a claim. SessionHandler.SessionHandler.InitSession's get_session_id clause therefore requires the claim not to be an array.
- CartStorage.Saved: save and the createSession INSERT store a cart as the array itself (`Decoded(Arr(value))`), not as `json_decode(wp_json_encode(value), true)`. The model assumes the JSON round trip is exact for cart arrays. SaveThenLoad, SaveThenGetSession, ClearOnce and ReusableAfterClear rely on this. A value JSON cannot carry, such as a float that is not finite, is outside the model. `load` does model a stored value that does not decode (`Malformed`).
- The clock: a request sees one `now`. Where the code reads `time()` more than once in a request (verify, then load, then save), the model reads the same second each time, so a request that straddles a second boundary is not modelled.
- Reply bodies: every handler's success is one `Payload` record with optional message, lines, key, token, count and expiry. The model does not check which of these keys each handler sends: add's `items_count`, clear's empty `cart`, the message texts. WP_Error bodies are reduced to the status and the error code.
- Token.VerifyLadder: the `token_expired` rung is stated one way only, "expired implies exp < now". Token.ExpiryIsStrict states both directions for generated tokens.
- RecommendedController, ProductController, CORS, AntiCookie, ProductFields, the route files, headlesscart.php and Installer are not part of this model.
