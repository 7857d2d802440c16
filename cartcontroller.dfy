/**
 * CartController: the REST cart handlers. Each resolves the session
 * through CartStorage, boots a WooCommerce cart from the stored value,
 * changes its contents and saves them back.
 *
 * The WooCommerce cart is abstracted to the operations the handlers call
 * on its contents (`add_to_cart`, `set_quantity`, `remove_cart_item`, and
 * direct writes to `cart_contents`); `calculate_totals` only adds float
 * totals and is not part of this model. Each handler is a method over the
 * store whose result and new table are those of a specification function.
 */
module CartController {
  import opened Php
  import Token
  import CartStorage
  import CartMapper

  /**
   * What the handlers need from WooCommerce: whether it is loaded, the line
   * key `add_to_cart` computes for a product with variation 0 and no extra
   * data, and whether `add_to_cart` accepts a product and quantity.
   */
  datatype Woo = Woo(loaded: bool, lineKey: int -> string, accepts: (int, int) -> bool)

  /** One request's environment: clock, token config, the key a new session would get, products, WooCommerce. */
  datatype Env = Env(now: int, cfg: Token.Config, pw: CartStorage.Password, catalog: CartStorage.Catalog, woo: Woo)

  /** The request: its headers (lower-case names) and its JSON body. */
  datatype Request = Request(headers: map<string, string>, params: Value)

  /** A handler's JSON body on success; a field is `None` where the handler does not set it. */
  datatype Payload = Payload(
    message: Option<string>,
    cart: seq<CartMapper.LightLine>,
    cartKey: Option<string>,
    token: Option<string>,
    itemsCount: Option<nat>,
    expiry: Option<int>)

  datatype Reply =
    | Failed(status: int, error: string)
      /** The uncaught TypeError of CartMapper::light, which WordPress answers with a 500. */
    | Crashed
      /** A success: the status, the body and the `X-HeadlessCart-Token` header. */
    | Replied(status: int, body: Payload, tokenHeader: Option<string>)

  const WooMissing := "WooCommerce not loaded"
  const ItemMissing := "Cart item not found"

  /** withTokenHeader: the header is set when the token is truthy. */
  function TokenHeader(token: string): Option<string> {
    if Truthy(token) then Some(token) else None
  }

  // ---------------------------------------------------------------------------
  // Cart contents

  /** `(int) ($line['quantity'] ?? 0)`. */
  function Quantity(line: Value): int {
    ToInt(Coalesce(Field(line, "quantity"), Int(0)))
  }

  /** `(int) ($line['product_id'] ?? 0)`. */
  function ProductOf(line: Value): int {
    ToInt(Coalesce(Field(line, "product_id"), Int(0)))
  }

  /** `$line['quantity'] = $q`; a line that is not an array starts out empty. */
  function WithQuantity(line: Value, q: int): (r: Value)
    ensures r.Arr? && Quantity(r) == q
  {
    var r := Arr(Put(if line.Arr? then line.entries else [], "quantity", Int(q)));
    PutFind(if line.Arr? then line.entries else [], "quantity", Int(q));
    r
  }

  /** `isset($cart->cart_contents[$key])`. */
  predicate InCart(c: Entries, key: string) {
    IsSet(Lookup(c, key))
  }

  /** `WC_Cart::remove_cart_item`: unset the line when it is set. */
  function RemoveLine(c: Entries, key: string): Entries {
    if InCart(c, key) then Remove(c, key) else c
  }

  /** `WC_Cart::set_quantity`: a quantity of zero or less removes the line. */
  function SetQuantity(c: Entries, key: string, q: int): Entries {
    if q <= 0 then RemoveLine(c, key)
    else if InCart(c, key) then Put(c, key, WithQuantity(Lookup(c, key).value, q))
    else c
  }

  /** The line `add_to_cart` creates: variation 0, no variation attributes. */
  function NewLine(key: string, productId: int, q: int): Value {
    Arr([("key", Str(key)), ("product_id", Int(productId)), ("variation_id", Int(0)),
         ("variation", Arr([])), ("quantity", Int(q))])
  }

  /** `WC_Cart::add_to_cart($id, $q, 0, [], [])`: merge into the product's line or append a new one. */
  function AddLine(c: Entries, woo: Woo, productId: int, q: int): (r: Option<Entries>)
    ensures r.Some? <==> woo.accepts(productId, q)
  {
    if !woo.accepts(productId, q) then None
    else
      var key := woo.lineKey(productId);
      if InCart(c, key) then Some(SetQuantity(c, key, Quantity(Lookup(c, key).value) + q))
      else Some(Put(c, key, NewLine(key, productId, q)))
  }

  /** The first line, in cart order, whose product id is `productId`; `|c|` when none. */
  function ProductIndex(c: Entries, productId: int): (i: nat)
    ensures i <= |c|
    ensures i < |c| ==> ProductOf(c[i].1) == productId
    ensures forall j :: 0 <= j < i ==> ProductOf(c[j].1) != productId
  {
    if c == [] then 0
    else if ProductOf(c[0].1) == productId then 0
    else 1 + ProductIndex(c[1..], productId)
  }

  /** The line key a remove/add-one/remove-one request acts on: the explicit key, else the product fallback. */
  function ResolveKey(c: Entries, itemKey: string, productId: int): string {
    if !Truthy(itemKey) && productId > 0 then
      var i := ProductIndex(c, productId);
      if i < |c| then c[i].0 else itemKey
    else itemKey
  }

  /** A requested quantity of zero or less becomes 1. */
  function Clamp(q: int): (r: int)
    ensures r >= 1 && (q >= 1 ==> r == q)
    ensures q <= 0 ==> r == 1
  {
    if q <= 0 then 1 else q
  }

  /** One entry of an `updateCart` body: a known line gets `max(1, (int) $qty)`; unknown keys are ignored. */
  function ApplyUpdate(c: Entries, update: (string, Value)): Entries {
    if InCart(c, update.0) then
      Put(c, update.0, WithQuantity(Lookup(c, update.0).value, Clamp(ToInt(update.1))))
    else c
  }

  /** The `updateCart` loop over the body's entries, in order. */
  function ApplyUpdates(c: Entries, updates: Entries): Entries
    decreases |updates|
  {
    if updates == [] then c
    else ApplyUpdate(ApplyUpdates(c, updates[..|updates| - 1]), updates[|updates| - 1])
  }

  // ---------------------------------------------------------------------------
  // Request parameters

  /** `(int) ($params['id'] ?? $params['product_id'] ?? 0)`. */
  function RequestedProduct(params: Value): int {
    ToInt(Coalesce(Field(params, "id"), Coalesce(Field(params, "product_id"), Int(0))))
  }

  /** `(int) ($params['quantity'] ?? 1)`, then raised to 1 when not positive. */
  function RequestedQuantity(params: Value): int {
    Clamp(ToInt(Coalesce(Field(params, "quantity"), Int(1))))
  }

  /** `isset($params['key']) ? sanitize_text_field($params['key']) : ''`, sanitising taken as string conversion. */
  function ItemKeyParam(params: Value): string {
    if IsSet(Field(params, "key")) then ToStr(Field(params, "key").value) else ""
  }

  /** `(int) ($params['id'] ?? 0)`. */
  function IdParam(params: Value): int {
    ToInt(Coalesce(Field(params, "id"), Int(0)))
  }

  // ---------------------------------------------------------------------------
  // Handler specifications

  function Resolve(t: CartStorage.Table, env: Env, req: Request): (CartStorage.Session, CartStorage.Table) {
    CartStorage.Resolved(t, env.cfg, req.headers, env.pw, env.now)
  }

  /** `load($session['cart_key']) ?? [cart_key, [], expiry]`: the contents the cart boots with. */
  function BootContents(t: CartStorage.Table, s: CartStorage.Session, now: int): Entries {
    var loaded := CartStorage.Load(t, s.cartKey, now);
    if loaded.Some? then loaded.value.value else []
  }

  /** `$cart->get_cart()`: WC_Cart::get_cart is `array_filter` of the contents, so falsy lines drop out. */
  function CartItems(c: Entries): Entries {
    ArrayFilter(c)
  }

  /** `CartStorage::save($session['cart_key'], $raw)`: stored under the session key, the ttl extended. */
  function Stored(t: CartStorage.Table, s: CartStorage.Session, raw: Entries, env: Env): CartStorage.Table {
    CartStorage.Saved(t, s.cartKey, raw, true, env.cfg, env.now).1
  }

  /** GET /cart: the stored value is mapped as it is, without get_cart's filter. */
  function GetCartSpec(t: CartStorage.Table, env: Env, req: Request): (CartStorage.Table, Reply) {
    if !env.woo.loaded then (t, Failed(500, WooMissing))
    else
      var (s, t1) := Resolve(t, env, req);
      var lines := CartMapper.LightResult(s.value, env.catalog);
      if lines.None? then (t1, Crashed)
      else
        var body := Payload(None, lines.value, Some(s.cartKey), Some(s.token), Some(|s.value|), Some(s.expiry));
        (t1, Replied(200, body, TokenHeader(s.token)))
  }

  /** POST /cart/add. */
  function AddToCartSpec(t: CartStorage.Table, env: Env, req: Request): (CartStorage.Table, Reply) {
    if !env.woo.loaded then (t, Failed(500, WooMissing))
    else
      var productId := RequestedProduct(req.params);
      if productId <= 0 then (t, Failed(400, "Missing or invalid product ID"))
      else
        var (s, t1) := Resolve(t, env, req);
        AddedToSession(t1, s, env, productId, RequestedQuantity(req.params))
  }

  /** The contents addToCart boots: the stored cart, else the session's own value. */
  function AddBase(t: CartStorage.Table, s: CartStorage.Session, now: int): Entries {
    var existing := CartStorage.Load(t, s.cartKey, now);
    if existing.Some? then existing.value.value else s.value
  }

  /** addToCart once the session is resolved: it saves, then maps the saved cart for the reply. */
  function AddedToSession(t: CartStorage.Table, s: CartStorage.Session, env: Env, productId: int, q: int)
    : (CartStorage.Table, Reply)
  {
    var existing := CartStorage.Load(t, s.cartKey, env.now);
    var wasEmpty := existing.None? || |existing.value.value| == 0;
    if !env.catalog(productId) then (t, Failed(404, "Product not found or invalid"))
    else
      var added := AddLine(AddBase(t, s, env.now), env.woo, productId, q);
      if added.None? then (t, Failed(500, "Unable to add product to cart"))
      else
        var raw := CartItems(added.value);
        var t2 := Stored(t, s, raw, env);
        var lines := CartMapper.LightResult(raw, env.catalog);
        if lines.None? then (t2, Crashed)
        else
          var body := Payload(Some("Product added to cart"), lines.value, Some(s.cartKey), Some(s.token), Some(|raw|), None);
          (t2, Replied(if wasEmpty then 201 else 200, body, TokenHeader(s.token)))
  }

  /** PATCH /cart. */
  function UpdateCartSpec(t: CartStorage.Table, env: Env, req: Request): (CartStorage.Table, Reply) {
    if !env.woo.loaded then (t, Failed(500, WooMissing))
    else
      var (s, t1) := Resolve(t, env, req);
      UpdatedSession(t1, s, env, req.params)
  }

  /** updateCart once the session is resolved: it saves, then maps the saved cart for the reply. */
  function UpdatedSession(t: CartStorage.Table, s: CartStorage.Session, env: Env, params: Value)
    : (CartStorage.Table, Reply)
  {
    if !params.Arr? then (t, Failed(400, "Invalid payload, expected key => quantity map"))
    else
      var raw := CartItems(ApplyUpdates(BootContents(t, s, env.now), params.entries));
      var t2 := Stored(t, s, raw, env);
      var lines := CartMapper.LightResult(raw, env.catalog);
      if lines.None? then (t2, Crashed)
      else
        var body := Payload(Some("Cart quantities updated"), lines.value, None, Some(s.token), Some(|raw|), None);
        (t2, Replied(200, body, TokenHeader(s.token)))
  }

  /** DELETE /cart and POST /cart/clear. */
  function ClearCartSpec(t: CartStorage.Table, env: Env, req: Request): (CartStorage.Table, Reply) {
    if !env.woo.loaded then (t, Failed(500, WooMissing))
    else
      var (s, t1) := Resolve(t, env, req);
      (Stored(t1, s, [], env), Replied(200, Cleared(s), TokenHeader(s.token)))
  }

  /** The body of clearCart. */
  function Cleared(s: CartStorage.Session): Payload {
    Payload(Some("Cart cleared"), [], Some(s.cartKey), None, Some(0), None)
  }

  /** The tail of the line handlers: map the new cart first, and save it only when that succeeds. */
  function LineReply(t: CartStorage.Table, s: CartStorage.Session, env: Env, raw: Entries, message: string)
    : (CartStorage.Table, Reply)
  {
    var lines := CartMapper.LightResult(raw, env.catalog);
    if lines.None? then (t, Crashed)
    else
      var body := Payload(Some(message), lines.value, Some(s.cartKey), None, None, None);
      (Stored(t, s, raw, env), Replied(200, body, TokenHeader(s.token)))
  }

  /** POST /cart/remove-item. */
  function RemoveItemSpec(t: CartStorage.Table, env: Env, req: Request): (CartStorage.Table, Reply) {
    if !env.woo.loaded then (t, Failed(500, WooMissing))
    else
      var (s, t1) := Resolve(t, env, req);
      RemovedItem(t1, s, env, req.params)
  }

  /** The line key a line request names; the product fallback walks `$cart->get_cart()`. */
  function LineKey(t: CartStorage.Table, s: CartStorage.Session, env: Env, params: Value): string {
    ResolveKey(CartItems(BootContents(t, s, env.now)), ItemKeyParam(params), IdParam(params))
  }

  /** removeItem once the session is resolved. */
  function RemovedItem(t: CartStorage.Table, s: CartStorage.Session, env: Env, params: Value)
    : (CartStorage.Table, Reply)
  {
    var key := LineKey(t, s, env, params);
    if !Truthy(key) then (t, Failed(404, ItemMissing))
    else LineReply(t, s, env, CartItems(RemoveLine(BootContents(t, s, env.now), key)), "Item removed from cart")
  }

  /** The new contents of add-one on a line that is in the cart. */
  function Incremented(c: Entries, key: string): Entries
    requires InCart(c, key)
  {
    SetQuantity(c, key, Quantity(Lookup(c, key).value) + 1)
  }

  /** The new contents of remove-one on a line that is in the cart. */
  function Decremented(c: Entries, key: string): Entries
    requires InCart(c, key)
  {
    var current := Quantity(Lookup(c, key).value);
    if current <= 1 then RemoveLine(c, key) else SetQuantity(c, key, current - 1)
  }

  /** `sprintf('Quantity increased to %d', $newQty)`. */
  function IncreasedTo(q: int): string {
    "Quantity increased to " + IntToString(q)
  }

  /** POST /cart/add-one. */
  function AddOneSpec(t: CartStorage.Table, env: Env, req: Request): (CartStorage.Table, Reply) {
    if !env.woo.loaded then (t, Failed(500, WooMissing))
    else
      var (s, t1) := Resolve(t, env, req);
      AddedOne(t1, s, env, req.params)
  }

  /** addOne once the session is resolved. */
  function AddedOne(t: CartStorage.Table, s: CartStorage.Session, env: Env, params: Value)
    : (CartStorage.Table, Reply)
  {
    var c := BootContents(t, s, env.now);
    var key := LineKey(t, s, env, params);
    if !Truthy(key) || !InCart(c, key) then (t, Failed(404, ItemMissing))
    else LineReply(t, s, env, CartItems(Incremented(c, key)), IncreasedTo(Quantity(Lookup(c, key).value) + 1))
  }

  /** POST /cart/remove-one. */
  function RemoveOneSpec(t: CartStorage.Table, env: Env, req: Request): (CartStorage.Table, Reply) {
    if !env.woo.loaded then (t, Failed(500, WooMissing))
    else
      var (s, t1) := Resolve(t, env, req);
      RemovedOne(t1, s, env, req.params)
  }

  /** removeOne once the session is resolved. */
  function RemovedOne(t: CartStorage.Table, s: CartStorage.Session, env: Env, params: Value)
    : (CartStorage.Table, Reply)
  {
    var c := BootContents(t, s, env.now);
    var key := LineKey(t, s, env, params);
    if !Truthy(key) || !InCart(c, key) then (t, Failed(404, ItemMissing))
    else LineReply(t, s, env, CartItems(Decremented(c, key)), "Quantity updated")
  }

  // ---------------------------------------------------------------------------
  // Handlers

  /** The lookup loop: the key of the first line whose product id matches, breaking at it. */
  method FindProductLine(c: Entries, productId: int) returns (key: Option<string>)
    ensures key == if ProductIndex(c, productId) < |c| then Some(c[ProductIndex(c, productId)].0) else None
  {
    key := None;
    var i := 0;
    while i < |c|
      invariant 0 <= i <= |c|
      invariant forall j :: 0 <= j < i ==> ProductOf(c[j].1) != productId
    {
      if ProductOf(c[i].1) == productId {
        key := Some(c[i].0);
        break;
      }
      i := i + 1;
    }
    ProductIndexIs(c, productId, i);
  }

  /** The key-or-product resolution each line handler performs before acting. */
  method ResolveLineKey(c: Entries, params: Value) returns (key: string)
    ensures key == ResolveKey(c, ItemKeyParam(params), IdParam(params))
  {
    key := ItemKeyParam(params);
    var productId := IdParam(params);
    if !Truthy(key) && productId > 0 {
      var found := FindProductLine(c, productId);
      if found.Some? {
        key := found.value;
      }
    }
  }

  /** Boot the cart for a resolved session: the loaded contents, or none. */
  method Boot(store: CartStorage.CartStore, s: CartStorage.Session, now: int) returns (contents: Entries)
    ensures contents == BootContents(store.rows, s, now)
  {
    var existing := CartStorage.Load(store.rows, s.cartKey, now);
    contents := if existing.Some? then existing.value.value else [];
  }

  /** `CartStorage::save($session['cart_key'], $raw)` and then `CartMapper::light($raw)`, as add and update do. */
  method SaveThenMap(store: CartStorage.CartStore, s: CartStorage.Session, raw: Entries, env: Env)
    returns (lines: Option<seq<CartMapper.LightLine>>)
    modifies store
    ensures store.rows == Stored(old(store.rows), s, raw, env)
    ensures lines == CartMapper.LightResult(raw, env.catalog)
  {
    var expiry := store.Save(s.cartKey, raw, true, env.cfg, env.now);
    lines := CartMapper.Light(raw, env.catalog);
  }

  /** `$light = CartMapper::light($raw); CartStorage::save(...)`: the line handlers' tail. */
  method MapThenSave(store: CartStorage.CartStore, s: CartStorage.Session, raw: Entries, env: Env, message: string)
    returns (reply: Reply)
    modifies store
    ensures (store.rows, reply) == LineReply(old(store.rows), s, env, raw, message)
  {
    var lines := CartMapper.Light(raw, env.catalog);
    if lines.None? {
      return Crashed;
    }
    var expiry := store.Save(s.cartKey, raw, true, env.cfg, env.now);
    reply := Replied(200, Payload(Some(message), lines.value, Some(s.cartKey), None, None, None), TokenHeader(s.token));
  }

  /** CartController::getCart. */
  method GetCart(store: CartStorage.CartStore, env: Env, req: Request) returns (reply: Reply)
    modifies store
    ensures (store.rows, reply) == GetCartSpec(old(store.rows), env, req)
  {
    if !env.woo.loaded {
      return Failed(500, WooMissing);
    }
    var s := store.GetOrCreateFromRequest(env.cfg, req.headers, env.pw, env.now);
    var lines := CartMapper.Light(s.value, env.catalog);
    if lines.None? {
      return Crashed;
    }
    var body := Payload(None, lines.value, Some(s.cartKey), Some(s.token), Some(|s.value|), Some(s.expiry));
    reply := Replied(200, body, TokenHeader(s.token));
  }

  /** CartController::addToCart. */
  method AddToCart(store: CartStorage.CartStore, env: Env, req: Request) returns (reply: Reply)
    modifies store
    ensures (store.rows, reply) == AddToCartSpec(old(store.rows), env, req)
  {
    if !env.woo.loaded {
      return Failed(500, WooMissing);
    }
    var productId := RequestedProduct(req.params);
    var quantity := ToInt(Coalesce(Field(req.params, "quantity"), Int(1)));
    if productId <= 0 {
      return Failed(400, "Missing or invalid product ID");
    }
    if quantity <= 0 {
      quantity := 1;
    }
    var s := store.GetOrCreateFromRequest(env.cfg, req.headers, env.pw, env.now);
    reply := AddToSession(store, s, env, productId, quantity);
  }

  method AddToSession(store: CartStorage.CartStore, s: CartStorage.Session, env: Env, productId: int, q: int)
    returns (reply: Reply)
    modifies store
    ensures (store.rows, reply) == AddedToSession(old(store.rows), s, env, productId, q)
  {
    ghost var t0 := store.rows;
    var existing := CartStorage.Load(store.rows, s.cartKey, env.now);
    var wasEmpty := existing.None? || |existing.value.value| == 0;
    var contents := if existing.Some? then existing.value.value else s.value;
    if !env.catalog(productId) {
      return Failed(404, "Product not found or invalid");
    }
    var added := AddLine(contents, env.woo, productId, q);
    if added.None? {
      return Failed(500, "Unable to add product to cart");
    }
    var raw := CartItems(added.value);
    var lines := SaveThenMap(store, s, raw, env);
    if lines.None? {
      return Crashed;
    }
    var body := Payload(Some("Product added to cart"), lines.value, Some(s.cartKey), Some(s.token), Some(|raw|), None);
    reply := Replied(if wasEmpty then 201 else 200, body, TokenHeader(s.token));
  }

  /** CartController::updateCart. */
  method UpdateCart(store: CartStorage.CartStore, env: Env, req: Request) returns (reply: Reply)
    modifies store
    ensures (store.rows, reply) == UpdateCartSpec(old(store.rows), env, req)
  {
    if !env.woo.loaded {
      return Failed(500, WooMissing);
    }
    var s := store.GetOrCreateFromRequest(env.cfg, req.headers, env.pw, env.now);
    reply := UpdateSession(store, s, env, req.params);
  }

  /** updateCart once the session is resolved. */
  method UpdateSession(store: CartStorage.CartStore, s: CartStorage.Session, env: Env, params: Value)
    returns (reply: Reply)
    modifies store
    ensures (store.rows, reply) == UpdatedSession(old(store.rows), s, env, params)
  {
    var contents := Boot(store, s, env.now);
    if !params.Arr? {
      return Failed(400, "Invalid payload, expected key => quantity map");
    }
    contents := SetQuantities(contents, params.entries);
    var raw := CartItems(contents);
    var lines := SaveThenMap(store, s, raw, env);
    if lines.None? {
      return Crashed;
    }
    var body := Payload(Some("Cart quantities updated"), lines.value, None, Some(s.token), Some(|raw|), None);
    reply := Replied(200, body, TokenHeader(s.token));
  }

  /** The `foreach ($updates as $key => $qty)` of updateCart. */
  method SetQuantities(booted: Entries, updates: Entries) returns (contents: Entries)
    ensures contents == ApplyUpdates(booted, updates)
  {
    contents := booted;
    var i := 0;
    while i < |updates|
      invariant 0 <= i <= |updates|
      invariant contents == ApplyUpdates(booted, updates[..i])
    {
      assert updates[..i + 1][..i] == updates[..i];
      var (key, qty) := updates[i];
      if InCart(contents, key) {
        var q := ToInt(qty);
        q := if q <= 0 then 1 else q;
        contents := Put(contents, key, WithQuantity(Lookup(contents, key).value, q));
      }
      i := i + 1;
    }
    assert updates[..i] == updates;
  }

  /** CartController::clearCart, also reached through clearCartPost. */
  method ClearCart(store: CartStorage.CartStore, env: Env, req: Request) returns (reply: Reply)
    modifies store
    ensures (store.rows, reply) == ClearCartSpec(old(store.rows), env, req)
  {
    if !env.woo.loaded {
      return Failed(500, WooMissing);
    }
    var s := store.GetOrCreateFromRequest(env.cfg, req.headers, env.pw, env.now);
    var expiry := store.Save(s.cartKey, [], true, env.cfg, env.now);
    reply := Replied(200, Cleared(s), TokenHeader(s.token));
  }

  /** CartController::removeItem. */
  method RemoveItem(store: CartStorage.CartStore, env: Env, req: Request) returns (reply: Reply)
    modifies store
    ensures (store.rows, reply) == RemoveItemSpec(old(store.rows), env, req)
  {
    if !env.woo.loaded {
      return Failed(500, WooMissing);
    }
    var s := store.GetOrCreateFromRequest(env.cfg, req.headers, env.pw, env.now);
    reply := RemoveItemFromSession(store, s, env, req.params);
  }

  method RemoveItemFromSession(store: CartStorage.CartStore, s: CartStorage.Session, env: Env, params: Value)
    returns (reply: Reply)
    modifies store
    ensures (store.rows, reply) == RemovedItem(old(store.rows), s, env, params)
  {
    var contents := Boot(store, s, env.now);
    var key := ResolveLineKey(CartItems(contents), params);
    if !Truthy(key) {
      return Failed(404, ItemMissing);
    }
    reply := MapThenSave(store, s, CartItems(RemoveLine(contents, key)), env, "Item removed from cart");
  }

  /** CartController::addOne. */
  method AddOne(store: CartStorage.CartStore, env: Env, req: Request) returns (reply: Reply)
    modifies store
    ensures (store.rows, reply) == AddOneSpec(old(store.rows), env, req)
  {
    if !env.woo.loaded {
      return Failed(500, WooMissing);
    }
    var s := store.GetOrCreateFromRequest(env.cfg, req.headers, env.pw, env.now);
    reply := AddOneToSession(store, s, env, req.params);
  }

  method AddOneToSession(store: CartStorage.CartStore, s: CartStorage.Session, env: Env, params: Value)
    returns (reply: Reply)
    modifies store
    ensures (store.rows, reply) == AddedOne(old(store.rows), s, env, params)
  {
    ghost var t0 := store.rows;
    var contents := Boot(store, s, env.now);
    var key := ResolveLineKey(CartItems(contents), params);
    assert key == LineKey(t0, s, env, params);
    if !Truthy(key) || !InCart(contents, key) {
      return Failed(404, ItemMissing);
    }
    var newQty := Quantity(Lookup(contents, key).value) + 1;
    var updated := Incremented(contents, key);
    AddedOneInCart(t0, s, env, params);
    reply := MapThenSave(store, s, CartItems(updated), env, IncreasedTo(newQty));
  }

  /** addOne on a line that is in the cart replies with the incremented cart. */
  lemma AddedOneInCart(t: CartStorage.Table, s: CartStorage.Session, env: Env, params: Value)
    requires var key := LineKey(t, s, env, params);
      Truthy(key) && InCart(BootContents(t, s, env.now), key)
    ensures var c := BootContents(t, s, env.now);
      var key := LineKey(t, s, env, params);
      AddedOne(t, s, env, params) == LineReply(t, s, env, CartItems(Incremented(c, key)), IncreasedTo(Quantity(Lookup(c, key).value) + 1))
  {
  }

  /** CartController::removeOne. */
  method RemoveOne(store: CartStorage.CartStore, env: Env, req: Request) returns (reply: Reply)
    modifies store
    ensures (store.rows, reply) == RemoveOneSpec(old(store.rows), env, req)
  {
    if !env.woo.loaded {
      return Failed(500, WooMissing);
    }
    var s := store.GetOrCreateFromRequest(env.cfg, req.headers, env.pw, env.now);
    reply := RemoveOneFromSession(store, s, env, req.params);
  }

  method RemoveOneFromSession(store: CartStorage.CartStore, s: CartStorage.Session, env: Env, params: Value)
    returns (reply: Reply)
    modifies store
    ensures (store.rows, reply) == RemovedOne(old(store.rows), s, env, params)
  {
    ghost var t0 := store.rows;
    var contents := Boot(store, s, env.now);
    var key := ResolveLineKey(CartItems(contents), params);
    assert key == LineKey(t0, s, env, params);
    if !Truthy(key) || !InCart(contents, key) {
      return Failed(404, ItemMissing);
    }
    var updated := Decremented(contents, key);
    assert RemovedOne(t0, s, env, params) == LineReply(t0, s, env, CartItems(updated), "Quantity updated");
    reply := MapThenSave(store, s, CartItems(updated), env, "Quantity updated");
  }

  // ---------------------------------------------------------------------------
  // Proof helpers

  lemma ProductIndexIs(c: Entries, productId: int, i: nat)
    requires i <= |c| && forall j :: 0 <= j < i ==> ProductOf(c[j].1) != productId
    requires i < |c| ==> ProductOf(c[i].1) == productId
    ensures ProductIndex(c, productId) == i
  {
    var p := ProductIndex(c, productId);
    assert p <= i;
  }

  /** Two entry lists with the same keys at the same positions. */
  predicate SameKeys(p: Entries, q: Entries) {
    |p| == |q| && forall j :: 0 <= j < |p| ==> p[j].0 == q[j].0
  }

  lemma SameKeysFind(p: Entries, q: Entries, k: string)
    requires SameKeys(p, q)
    ensures Find(p, k) == Find(q, k)
  {
    if HasKey(q, k) {
      FindIs(p, k, Find(q, k));
    } else if HasKey(p, k) {
      FindIs(q, k, Find(p, k));
    }
  }

  /** Setting the quantity twice keeps only the second. */
  lemma WithQuantityTwice(line: Value, a: int, b: int)
    ensures WithQuantity(WithQuantity(line, a), b) == WithQuantity(line, b)
  {
    PutPut(if line.Arr? then line.entries else [], "quantity", Int(a), Int(b));
  }

  lemma NewLineQuantity(key: string, productId: int, q: int)
    ensures Quantity(NewLine(key, productId, q)) == q && ProductOf(NewLine(key, productId, q)) == productId
  {
    var e := NewLine(key, productId, q).entries;
    FindIs(e, "quantity", 4);
    FindIs(e, "product_id", 1);
  }

  // ---------------------------------------------------------------------------
  // Properties

  /** Every line has a quantity of at least one. */
  predicate QuantitiesPositive(c: Entries) {
    forall i :: 0 <= i < |c| ==> Quantity(c[i].1) >= 1
  }

  lemma {:induction false} RemoveKeepsPositive(c: Entries, key: string)
    requires QuantitiesPositive(c)
    ensures QuantitiesPositive(RemoveLine(c, key))
  {
    var i := Find(c, key);
    if InCart(c, key) {
      var r := c[..i] + c[i + 1..];
      assert RemoveLine(c, key) == r;
      forall j | 0 <= j < |r| ensures Quantity(r[j].1) >= 1 {
        var k := if j < i then j else j + 1;
        assert r[j] == c[k];
        assert Quantity(c[k].1) >= 1;
      }
    }
  }

  /**
   * set_quantity with a positive quantity on a line in the cart: the line
   * gets that quantity with its other fields kept, no other key changes,
   * and all quantities stay at least 1.
   */
  lemma SetQuantityEffect(c: Entries, key: string, q: int)
    requires InCart(c, key) && q >= 1
    ensures var r := SetQuantity(c, key, q);
      && Lookup(r, key) == Some(WithQuantity(Lookup(c, key).value, q))
      && (forall other :: other != key ==> Lookup(r, other) == Lookup(c, other))
      && (QuantitiesPositive(c) ==> QuantitiesPositive(r))
  {
    var line := WithQuantity(Lookup(c, key).value, q);
    PutFind(c, key, line);
    forall other | other != key ensures Lookup(SetQuantity(c, key, q), other) == Lookup(c, other) {
      PutOther(c, key, line, other);
    }
  }

  /** set_quantity changes no other key, whatever the quantity. */
  lemma SetQuantityKeepsOthers(c: Entries, key: string, q: int, other: string)
    requires InCart(c, key) && other != key
    ensures Lookup(SetQuantity(c, key, q), other) == Lookup(c, other)
  {
    if q >= 1 {
      PutOther(c, key, WithQuantity(Lookup(c, key).value, q), other);
    } else {
      RemoveOther(c, key, other);
    }
  }

  /** set_quantity with zero or less removes the line and changes no other key. */
  lemma SetQuantityZeroRemoves(c: Entries, key: string, q: int)
    requires q <= 0
    ensures !InCart(SetQuantity(c, key, q), key) || !DistinctKeys(c)
    ensures forall other :: other != key ==> Lookup(SetQuantity(c, key, q), other) == Lookup(c, other)
  {
    forall other | other != key ensures Lookup(SetQuantity(c, key, q), other) == Lookup(c, other) {
      RemoveOther(c, key, other);
    }
    if DistinctKeys(c) {
      RemoveGone(c, key);
    }
  }

  /** The 400 for a missing or non-positive product id comes before any session work: the table is untouched. */
  lemma AddRejectsBadProductFirst(t: CartStorage.Table, env: Env, req: Request)
    requires env.woo.loaded && RequestedProduct(req.params) <= 0
    ensures AddToCartSpec(t, env, req) == (t, Failed(400, "Missing or invalid product ID"))
  {
  }

  /**
   * add_to_cart of a product whose line is in the cart: the line's quantity
   * becomes the old one plus the added one, or, should that not be
   * positive, the line is removed.
   */
  lemma AddLineMerges(c: Entries, woo: Woo, productId: int, q: int)
    requires q >= 1 && woo.accepts(productId, q) && InCart(c, woo.lineKey(productId))
    ensures var key := woo.lineKey(productId);
      var line := Lookup(c, key).value;
      var r := AddLine(c, woo, productId, q).value;
      && (Quantity(line) + q >= 1 ==> Lookup(r, key) == Some(WithQuantity(line, Quantity(line) + q)))
      && (Quantity(line) + q < 1 ==> r == Remove(c, key))
  {
    var key := woo.lineKey(productId);
    var line := Lookup(c, key).value;
    var n := Quantity(line) + q;
    var r := SetQuantity(c, key, n);
    assert AddLine(c, woo, productId, q) == Some(r);
    if n >= 1 {
      PutFind(c, key, WithQuantity(line, n));
    } else {
      assert r == Remove(c, key);
    }
  }

  /** add_to_cart of a product without a line in the cart: a new line with the product and quantity. */
  lemma AddLineAppends(c: Entries, woo: Woo, productId: int, q: int)
    requires woo.accepts(productId, q) && !InCart(c, woo.lineKey(productId))
    ensures var key := woo.lineKey(productId);
      var r := AddLine(c, woo, productId, q).value;
      && Lookup(r, key) == Some(NewLine(key, productId, q))
      && Quantity(NewLine(key, productId, q)) == q && ProductOf(NewLine(key, productId, q)) == productId
  {
    var key := woo.lineKey(productId);
    PutFind(c, key, NewLine(key, productId, q));
    NewLineQuantity(key, productId, q);
  }

  /** add_to_cart changes no line but the product's own. */
  lemma AddLineKeepsOthers(c: Entries, woo: Woo, productId: int, q: int, other: string)
    requires woo.accepts(productId, q) && other != woo.lineKey(productId)
    ensures Lookup(AddLine(c, woo, productId, q).value, other) == Lookup(c, other)
  {
    var key := woo.lineKey(productId);
    if InCart(c, key) {
      var n := Quantity(Lookup(c, key).value) + q;
      assert AddLine(c, woo, productId, q) == Some(SetQuantity(c, key, n));
      SetQuantityKeepsOthers(c, key, n, other);
    } else {
      var r := Put(c, key, NewLine(key, productId, q));
      assert AddLine(c, woo, productId, q) == Some(r);
      PutOther(c, key, NewLine(key, productId, q), other);
    }
  }

  /** add_to_cart with a quantity of at least 1 keeps every quantity at least 1. */
  lemma AddLineKeepsPositive(c: Entries, woo: Woo, productId: int, q: int)
    requires q >= 1 && woo.accepts(productId, q) && QuantitiesPositive(c)
    ensures QuantitiesPositive(AddLine(c, woo, productId, q).value)
  {
    var key := woo.lineKey(productId);
    if InCart(c, key) {
      assert Quantity(Lookup(c, key).value) >= 1;
      SetQuantityEffect(c, key, Quantity(Lookup(c, key).value) + q);
    } else {
      NewLineQuantity(key, productId, q);
    }
  }

  /** Adding a product twice (2, then 1) to a cart without it leaves one line with quantity 3. */
  lemma AddTwiceMerges(c: Entries, woo: Woo, productId: int)
    requires woo.accepts(productId, 2) && woo.accepts(productId, 1)
    requires !InCart(c, woo.lineKey(productId))
    ensures var key := woo.lineKey(productId);
      var once := AddLine(c, woo, productId, 2).value;
      var twice := AddLine(once, woo, productId, 1).value;
      InCart(twice, key) && Quantity(Lookup(twice, key).value) == 3
  {
    var key := woo.lineKey(productId);
    AddLineAppends(c, woo, productId, 2);
    var once := AddLine(c, woo, productId, 2).value;
    AddLineMerges(once, woo, productId, 1);
  }

  /**
   * addToCart succeeds with 201 exactly when the cart it booted, the
   * stored cart of the resolved session, was absent or empty; otherwise 200.
   */
  lemma AddStatus(t: CartStorage.Table, env: Env, req: Request)
    requires AddToCartSpec(t, env, req).1.Replied?
    ensures var (s, t1) := Resolve(t, env, req);
      var existing := CartStorage.Load(t1, s.cartKey, env.now);
      AddToCartSpec(t, env, req).1.status == 201 <==> existing.None? || existing.value.value == []
  {
    var (s, t1) := Resolve(t, env, req);
    var productId := RequestedProduct(req.params);
    assert AddToCartSpec(t, env, req) == AddedToSession(t1, s, env, productId, RequestedQuantity(req.params));
    AddedStatus(t1, s, env, productId, RequestedQuantity(req.params));
  }

  lemma AddedStatus(t: CartStorage.Table, s: CartStorage.Session, env: Env, productId: int, q: int)
    requires AddedToSession(t, s, env, productId, q).1.Replied?
    ensures var existing := CartStorage.Load(t, s.cartKey, env.now);
      AddedToSession(t, s, env, productId, q).1.status == 201 <==> existing.None? || existing.value.value == []
  {
  }

  /**
   * A request without a token gets a new, empty session, so its successful
   * add answers 201, unless the fresh key collides with a stored cart.
   */
  lemma AddToNewSessionIs201(t: CartStorage.Table, env: Env, req: Request)
    requires forall j :: 0 <= j < |Token.TokenHeaders| ==> !Truthy(Token.Header(req.headers, Token.TokenHeaders[j]))
    requires CartStorage.GenerateCartKey(env.pw) !in t
    requires AddToCartSpec(t, env, req).1.Replied?
    ensures AddToCartSpec(t, env, req).1.status == 201
  {
    var k := CartStorage.GenerateCartKey(env.pw);
    CartStorage.ResolveWithoutTokenCreates(t, env.cfg, req.headers, env.pw, env.now);
    CartStorage.CreateAddsOneRow(t, env.cfg, env.pw, None, env.now);
    var c := CartStorage.Created(t, env.cfg, env.pw, None, env.now);
    assert Resolve(t, env, req) == c;
    assert c.0.cartKey == k && c.1[k].value == CartStorage.Decoded(Arr([]));
    var existing := CartStorage.Load(c.1, k, env.now);
    assert existing.None? || existing.value.value == [];
    AddStatus(t, env, req);
  }

  /** Updating a line leaves the keys and their positions as they were. */
  lemma ApplyUpdateShape(c: Entries, update: (string, Value))
    ensures SameKeys(ApplyUpdate(c, update), c)
  {
    if InCart(c, update.0) {
      PutExisting(c, update.0, WithQuantity(Lookup(c, update.0).value, Clamp(ToInt(update.1))));
    }
  }

  /** The value of the last entry for `k` in the update body, if any. */
  function LastUpdate(updates: Entries, k: string): Option<Value>
    decreases |updates|
  {
    if updates == [] then None
    else if updates[|updates| - 1].0 == k then Some(updates[|updates| - 1].1)
    else LastUpdate(updates[..|updates| - 1], k)
  }

  /** What updateCart leaves at position `i` of the cart. */
  function UpdatedAt(c: Entries, updates: Entries, i: nat): Value
    requires i < |c|
  {
    var k := c[i].0;
    var last := LastUpdate(updates, k);
    if i == Find(c, k) && c[i].1 != Null && last.Some? then WithQuantity(c[i].1, Clamp(ToInt(last.value)))
    else c[i].1
  }

  /**
   * updateCart, position by position: the line keys and their order do not
   * change; the first line of a key that is set and named by the body gets
   * `max(1, (int) qty)` of the body's last entry for it, its other fields
   * kept; every other line stays as it was, and unknown keys add nothing.
   */
  lemma {:induction false} ApplyUpdatesAt(c: Entries, updates: Entries)
    ensures var r := ApplyUpdates(c, updates);
      && SameKeys(r, c)
      && (forall i :: 0 <= i < |c| ==> r[i].1 == UpdatedAt(c, updates, i))
    decreases |updates|
  {
    if updates != [] {
      var init := updates[..|updates| - 1];
      var (k, qty) := updates[|updates| - 1];
      assert updates == init + [(k, qty)];
      ApplyUpdatesAt(c, init);
      var prev := ApplyUpdates(c, init);
      ApplyUpdateShape(prev, (k, qty));
      forall i | 0 <= i < |c| ensures ApplyUpdates(c, updates)[i].1 == UpdatedAt(c, updates, i) {
        UpdateStep(c, init, k, qty, i);
      }
    }
  }

  lemma UpdateStep(c: Entries, init: Entries, k: string, qty: Value, i: nat)
    requires i < |c|
    requires var prev := ApplyUpdates(c, init);
      SameKeys(prev, c) && forall j :: 0 <= j < |c| ==> prev[j].1 == UpdatedAt(c, init, j)
    ensures ApplyUpdate(ApplyUpdates(c, init), (k, qty))[i].1 == UpdatedAt(c, init + [(k, qty)], i)
  {
    var prev := ApplyUpdates(c, init);
    var updates := init + [(k, qty)];
    assert updates[..|updates| - 1] == init;
    var f := Find(c, k);
    SameKeysFind(prev, c, k);
    var ki := c[i].0;
    if ki != k {
      assert LastUpdate(updates, ki) == LastUpdate(init, ki);
      if InCart(prev, k) {
        PutExisting(prev, k, WithQuantity(Lookup(prev, k).value, Clamp(ToInt(qty))));
      }
    } else if i != f {
      if InCart(prev, k) {
        PutExisting(prev, k, WithQuantity(Lookup(prev, k).value, Clamp(ToInt(qty))));
      }
    } else {
      assert LastUpdate(updates, k) == Some(qty);
      assert prev[i].1 == UpdatedAt(c, init, i);
      if c[i].1 != Null {
        PutExisting(prev, k, WithQuantity(prev[i].1, Clamp(ToInt(qty))));
        if LastUpdate(init, k).Some? {
          WithQuantityTwice(c[i].1, Clamp(ToInt(LastUpdate(init, k).value)), Clamp(ToInt(qty)));
        }
      }
    }
  }

  /** Applying the same quantity map twice gives the same cart as applying it once. */
  lemma UpdateIdempotent(c: Entries, updates: Entries)
    ensures ApplyUpdates(ApplyUpdates(c, updates), updates) == ApplyUpdates(c, updates)
  {
    var r := ApplyUpdates(c, updates);
    var r2 := ApplyUpdates(r, updates);
    ApplyUpdatesAt(c, updates);
    ApplyUpdatesAt(r, updates);
    forall i | 0 <= i < |c| ensures r2[i] == r[i] {
      var k := c[i].0;
      SameKeysFind(r, c, k);
      var last := LastUpdate(updates, k);
      if i == Find(c, k) && c[i].1 != Null && last.Some? {
        var q := Clamp(ToInt(last.value));
        WithQuantityTwice(c[i].1, q, q);
      }
    }
  }

  /** updateCart keeps every quantity at least 1 when they all started so. */
  lemma UpdateKeepsPositive(c: Entries, updates: Entries)
    requires QuantitiesPositive(c)
    ensures QuantitiesPositive(ApplyUpdates(c, updates))
  {
    ApplyUpdatesAt(c, updates);
  }

  /** An explicit (truthy) key wins over the product id. */
  lemma KeyTakesPrecedence(c: Entries, itemKey: string, productId: int)
    requires Truthy(itemKey)
    ensures ResolveKey(c, itemKey, productId) == itemKey
  {
  }

  /** Without a key, the first line in cart order with the product id is chosen. */
  lemma ProductFallbackFirstMatch(c: Entries, itemKey: string, productId: int, i: nat)
    requires !Truthy(itemKey) && productId > 0
    requires i < |c| && ProductOf(c[i].1) == productId
    requires forall j :: 0 <= j < i ==> ProductOf(c[j].1) != productId
    ensures ResolveKey(c, itemKey, productId) == c[i].0
  {
    ProductIndexIs(c, productId, i);
  }

  /** removeItem answers 404 exactly when there is no key and no line with the product. */
  lemma RemoveItemNotFound(t: CartStorage.Table, env: Env, req: Request)
    requires env.woo.loaded
    ensures var (s, t1) := Resolve(t, env, req);
      RemoveItemSpec(t, env, req).1 == Failed(404, ItemMissing) <==> !Truthy(LineKey(t1, s, env, req.params))
  {
  }

  /**
   * Removing a line (distinct keys): the key is gone, every other line
   * remains, and removing it again changes nothing.
   */
  lemma RemoveLineIdempotent(c: Entries, key: string)
    requires DistinctKeys(c)
    ensures !InCart(RemoveLine(c, key), key)
    ensures forall x :: x in c && x.0 != key ==> x in RemoveLine(c, key)
    ensures RemoveLine(RemoveLine(c, key), key) == RemoveLine(c, key)
  {
    RemoveGone(c, key);
  }

  /** A request naming a key absent from the cart is not a 404: the cart is saved with its lines unchanged. */
  lemma RemoveAbsentKeySavesUnchanged(t: CartStorage.Table, s: CartStorage.Session, env: Env, params: Value)
    requires Truthy(ItemKeyParam(params)) && !InCart(BootContents(t, s, env.now), ItemKeyParam(params))
    ensures RemovedItem(t, s, env, params)
      == LineReply(t, s, env, CartItems(BootContents(t, s, env.now)), "Item removed from cart")
  {
  }

  /** add-one and remove-one answer 404 unless the resolved key is a line of the cart. */
  lemma LineHandlersNeedLine(t: CartStorage.Table, s: CartStorage.Session, env: Env, params: Value)
    ensures var key := LineKey(t, s, env, params);
      var missing := !Truthy(key) || !InCart(BootContents(t, s, env.now), key);
      && (AddedOne(t, s, env, params).1 == Failed(404, ItemMissing) <==> missing)
      && (RemovedOne(t, s, env, params).1 == Failed(404, ItemMissing) <==> missing)
  {
  }

  /** add-one sets the line to current + 1 and changes no other key; quantities stay at least 1. */
  lemma IncrementEffect(c: Entries, key: string)
    requires InCart(c, key) && Quantity(Lookup(c, key).value) >= 0
    ensures var r := Incremented(c, key);
      && InCart(r, key) && Quantity(Lookup(r, key).value) == Quantity(Lookup(c, key).value) + 1
      && (forall other :: other != key ==> Lookup(r, other) == Lookup(c, other))
      && (QuantitiesPositive(c) ==> QuantitiesPositive(r))
  {
    var n := Quantity(Lookup(c, key).value) + 1;
    var r := SetQuantity(c, key, n);
    assert Incremented(c, key) == r;
    SetQuantityEffect(c, key, n);
    var line := WithQuantity(Lookup(c, key).value, n);
    assert Lookup(r, key) == Some(line) && line.Arr?;
    assert Quantity(Lookup(r, key).value) == n;
  }

  /**
   * remove-one removes the line when its quantity is at most 1, else sets
   * it to current - 1; no other key changes and quantities stay at least 1.
   */
  lemma DecrementEffect(c: Entries, key: string)
    requires InCart(c, key)
    ensures var current := Quantity(Lookup(c, key).value);
      var r := Decremented(c, key);
      && (current <= 1 ==> r == Remove(c, key))
      && (current > 1 ==> InCart(r, key) && Quantity(Lookup(r, key).value) == current - 1)
      && (forall other :: other != key ==> Lookup(r, other) == Lookup(c, other))
      && (QuantitiesPositive(c) ==> QuantitiesPositive(r))
  {
    var current := Quantity(Lookup(c, key).value);
    if current > 1 {
      SetQuantityEffect(c, key, current - 1);
    } else {
      SetQuantityZeroRemoves(c, key, 0);
      if QuantitiesPositive(c) {
        RemoveKeepsPositive(c, key);
      }
    }
  }

  /**
   * clearCart on a reusable session saves an empty cart under its key with
   * a fresh expiry, and clearing again leaves the same table and reply.
   */
  lemma ClearTwice(t: CartStorage.Table, env: Env, req: Request)
    requires env.woo.loaded && Token.Ttl(env.cfg) >= 0
    requires CartStorage.Reusable(t, env.cfg, req.headers, env.now).Some?
    ensures var (t1, r1) := ClearCartSpec(t, env, req);
      var s := CartStorage.Reusable(t, env.cfg, req.headers, env.now).value;
      && r1 == Replied(200, Cleared(s), TokenHeader(s.token))
      && t1 == t[s.cartKey := CartStorage.Row(CartStorage.Decoded(Arr([])), env.now + Token.Ttl(env.cfg))]
      && ClearCartSpec(t1, env, req) == (t1, r1)
  {
    var s := CartStorage.Reusable(t, env.cfg, req.headers, env.now).value;
    var row := CartStorage.Row(CartStorage.Decoded(Arr([])), env.now + Token.Ttl(env.cfg));
    ClearOnce(t, env, req);
    var t1 := t[s.cartKey := row];
    var s2 := CartStorage.Session(s.cartKey, s.token, [], env.now + Token.Ttl(env.cfg));
    ReusableAfterClear(t, env, req);
    ClearOnce(t1, env, req);
    assert t1[s.cartKey := row] == t1;
  }

  /** clearCart on a reusable session saves an empty cart under its key with the full ttl. */
  lemma ClearOnce(t: CartStorage.Table, env: Env, req: Request)
    requires env.woo.loaded
    requires CartStorage.Reusable(t, env.cfg, req.headers, env.now).Some?
    ensures var s := CartStorage.Reusable(t, env.cfg, req.headers, env.now).value;
      ClearCartSpec(t, env, req)
        == (t[s.cartKey := CartStorage.Row(CartStorage.Decoded(Arr([])), env.now + Token.Ttl(env.cfg))],
            Replied(200, Cleared(s), TokenHeader(s.token)))
  {
    var s := CartStorage.Reusable(t, env.cfg, req.headers, env.now).value;
    assert Resolve(t, env, req) == (s, t);
    assert s.cartKey in t;
    ClearResolved(t, env, req, s);
  }

  lemma ClearResolved(t: CartStorage.Table, env: Env, req: Request, s: CartStorage.Session)
    requires env.woo.loaded && Resolve(t, env, req) == (s, t) && s.cartKey in t
    ensures ClearCartSpec(t, env, req)
      == (t[s.cartKey := CartStorage.Row(CartStorage.Decoded(Arr([])), env.now + Token.Ttl(env.cfg))],
          Replied(200, Cleared(s), TokenHeader(s.token)))
  {
  }

  /** After the clear, the same request reuses the same key and token, now with an empty cart. */
  lemma ReusableAfterClear(t: CartStorage.Table, env: Env, req: Request)
    requires Token.Ttl(env.cfg) >= 0
    requires CartStorage.Reusable(t, env.cfg, req.headers, env.now).Some?
    ensures var s := CartStorage.Reusable(t, env.cfg, req.headers, env.now).value;
      var exp := env.now + Token.Ttl(env.cfg);
      CartStorage.Reusable(t[s.cartKey := CartStorage.Row(CartStorage.Decoded(Arr([])), exp)], env.cfg, req.headers, env.now)
        == Some(CartStorage.Session(s.cartKey, s.token, [], exp))
  {
    var token := CartStorage.PresentedToken(req.headers).value;
    var key := CartStorage.VerifiedKey(env.cfg, token, env.now).value;
    CartStorage.ReusableByKey(t, env.cfg, req.headers, env.now, token, key);
    var exp := env.now + Token.Ttl(env.cfg);
    var t1 := t[key := CartStorage.Row(CartStorage.Decoded(Arr([])), exp)];
    CartStorage.ReusableByKey(t1, env.cfg, req.headers, env.now, token, key);
  }

  // ---------------------------------------------------------------------------
  // Lines that are not arrays

  /**
   * `get_cart()` drops the falsy lines, so light on it throws exactly when
   * the contents hold a truthy line that is not an array.
   */
  lemma FilteredLinesMap(c: Entries)
    ensures CartMapper.Normalizable(CartItems(c)) <==> forall i :: 0 <= i < |c| && !IsEmpty(c[i].1) ==> c[i].1.Arr?
  {
    var r := CartItems(c);
    if CartMapper.Normalizable(r) {
      forall i | 0 <= i < |c| && !IsEmpty(c[i].1) ensures c[i].1.Arr? {
        assert c[i] in r;
      }
    }
    if forall i :: 0 <= i < |c| && !IsEmpty(c[i].1) ==> c[i].1.Arr? {
      forall j | 0 <= j < |r| ensures r[j].1.Arr? {
        assert r[j] in c;
      }
    }
  }

  /** A truthy line that is not an array, kept in the new contents, makes light throw on `get_cart()`. */
  lemma ScalarLineCrashes(c: Entries, x: (string, Value), catalog: CartStorage.Catalog)
    requires x in c && !IsEmpty(x.1) && !x.1.Arr?
    ensures CartMapper.LightResult(CartItems(c), catalog).None?
  {
    var r := CartItems(c);
    var j :| 0 <= j < |r| && r[j] == x;
  }

  /** Lines under other keys pass through every change a line handler makes. */
  lemma OtherLinesKept(c: Entries, key: string, x: (string, Value))
    requires x in c && x.0 != key
    ensures x in RemoveLine(c, key)
    ensures InCart(c, key) ==> x in Incremented(c, key) && x in Decremented(c, key)
  {
    RemoveKeeps(c, key, x);
    if InCart(c, key) {
      PutKeeps(c, key, WithQuantity(Lookup(c, key).value, Quantity(Lookup(c, key).value) + 1), x);
      PutKeeps(c, key, WithQuantity(Lookup(c, key).value, Quantity(Lookup(c, key).value) - 1), x);
    }
  }

  /** getCart maps the stored value unfiltered: any line that is not an array, falsy or not, makes it a 500. */
  lemma GetCartCrashes(t: CartStorage.Table, env: Env, req: Request)
    requires env.woo.loaded
    ensures var (s, t1) := Resolve(t, env, req);
      GetCartSpec(t, env, req) == (t1, Crashed) <==> exists i :: 0 <= i < |s.value| && !s.value[i].1.Arr?
  {
  }

  /**
   * The line handlers map before they save: a truthy line that is not an
   * array, under another key than the one acted on, ends them in light's
   * TypeError with the table as it was.
   */
  lemma LineHandlersCrashUnsaved(t: CartStorage.Table, s: CartStorage.Session, env: Env, params: Value, x: (string, Value))
    requires x in BootContents(t, s, env.now) && !IsEmpty(x.1) && !x.1.Arr?
    requires Truthy(LineKey(t, s, env, params)) && x.0 != LineKey(t, s, env, params)
    ensures RemovedItem(t, s, env, params) == (t, Crashed)
    ensures InCart(BootContents(t, s, env.now), LineKey(t, s, env, params)) ==>
      AddedOne(t, s, env, params) == (t, Crashed) && RemovedOne(t, s, env, params) == (t, Crashed)
  {
    var c := BootContents(t, s, env.now);
    var key := LineKey(t, s, env, params);
    OtherLinesKept(c, key, x);
    ScalarLineCrashes(RemoveLine(c, key), x, env.catalog);
    if InCart(c, key) {
      ScalarLineCrashes(Incremented(c, key), x, env.catalog);
      ScalarLineCrashes(Decremented(c, key), x, env.catalog);
    }
  }

  /**
   * addToCart saves before it maps: with a truthy line that is not an array
   * under another key, the cart with the product added is stored and the
   * reply is light's TypeError.
   */
  lemma AddCrashAfterSave(t: CartStorage.Table, s: CartStorage.Session, env: Env, productId: int, q: int, x: (string, Value))
    requires env.catalog(productId) && env.woo.accepts(productId, q)
    requires x in AddBase(t, s, env.now) && !IsEmpty(x.1) && !x.1.Arr? && x.0 != env.woo.lineKey(productId)
    ensures AddedToSession(t, s, env, productId, q)
      == (Stored(t, s, CartItems(AddLine(AddBase(t, s, env.now), env.woo, productId, q).value), env), Crashed)
  {
    var c := AddBase(t, s, env.now);
    AddLineKeepsLine(c, env.woo, productId, q, x);
    ScalarLineCrashes(AddLine(c, env.woo, productId, q).value, x, env.catalog);
  }

  /** add_to_cart keeps every entry under another key. */
  lemma AddLineKeepsLine(c: Entries, woo: Woo, productId: int, q: int, x: (string, Value))
    requires woo.accepts(productId, q) && x in c && x.0 != woo.lineKey(productId)
    ensures x in AddLine(c, woo, productId, q).value
  {
    var key := woo.lineKey(productId);
    if InCart(c, key) {
      var n := Quantity(Lookup(c, key).value) + q;
      if n <= 0 {
        RemoveKeeps(c, key, x);
      } else {
        PutKeeps(c, key, WithQuantity(Lookup(c, key).value, n), x);
      }
    } else {
      PutKeeps(c, key, NewLine(key, productId, q), x);
    }
  }

  /**
   * updateCart saves before it maps: with a truthy line that is not an
   * array and that the body does not name, the updated cart is stored and
   * the reply is light's TypeError.
   */
  lemma UpdateCrashAfterSave(t: CartStorage.Table, s: CartStorage.Session, env: Env, params: Value, i: nat)
    requires params.Arr?
    requires var c := BootContents(t, s, env.now);
      i < |c| && !IsEmpty(c[i].1) && !c[i].1.Arr? && LastUpdate(params.entries, c[i].0).None?
    ensures var c := BootContents(t, s, env.now);
      UpdatedSession(t, s, env, params) == (Stored(t, s, CartItems(ApplyUpdates(c, params.entries)), env), Crashed)
  {
    var c := BootContents(t, s, env.now);
    var r := ApplyUpdates(c, params.entries);
    ApplyUpdatesAt(c, params.entries);
    assert r[i] == c[i];
    ScalarLineCrashes(r, c[i], env.catalog);
  }
}
