/**
 * CheckoutController: the strict session resolution used by checkout, the
 * legacy `cart` unwrap and empty check of `prepare` and `wooInit`, the
 * duplicate-order guard, the order-line filter and the removal of the
 * headless cart once the order is placed.
 *
 * Creating the WooCommerce order itself, its addresses, totals and payment
 * URL happen in WooCommerce; here the order is the list of
 * `(product id, quantity)` lines handed to `add_product`, and the orders
 * already tagged with a cart key are a parameter.
 */
module Checkout {
  import opened Php
  import Token
  import CartStorage
  import CartMapper

  datatype CheckoutError =
    | MissingToken
    | Rejected(cause: Token.TokenError)
    | MissingCartKey
    | CartNotFound
    | EmptyCart
    | DuplicateOrder
      /**
       * An uncaught TypeError: `bootWooCart(array ...)` given a value that is
       * not an array, or CartMapper::light given a line that is not one.
       */
    | Fatal
  {
    function Code(): string {
      match this
      case MissingToken => "missing_token"
      case Rejected(e) => e.Code()
      case MissingCartKey => "invalid_payload"
      case CartNotFound => "cart_not_found"
      case EmptyCart => "empty_cart"
      case DuplicateOrder => "duplicate_order"
      case Fatal => "fatal_error"
    }

    function Status(): int {
      match this
      case MissingToken => 401
      case Rejected(e) => e.Status()
      case MissingCartKey => 403
      case CartNotFound => 404
      case EmptyCart => 400
      case DuplicateOrder => 409
      case Fatal => 500
    }
  }

  datatype StrictSession = StrictSession(cartKey: string, token: string, value: Entries, expiry: int)

  /** CheckoutController::getStrictSession: the same store, but no create path. */
  function GetStrictSession(t: CartStorage.Table, cfg: Token.Config, headers: map<string, string>, now: int)
    : Result<StrictSession, CheckoutError>
  {
    var token := Token.FromRequest(headers);
    if token.None? || !Truthy(token.value) then Failure(MissingToken)
    else
      var verified := Token.Verify(cfg, token.value, now);
      if verified.Failure? then Failure(Rejected(verified.error))
      else
        var cartKey := Coalesce(Lookup(verified.value, "cart_key"), Str(""));
        if IsEmpty(cartKey) then Failure(MissingCartKey)
        else
          var loaded := CartStorage.Load(t, ToStr(cartKey), now);
          if loaded.None? then Failure(CartNotFound)
          else Success(StrictSession(ToStr(cartKey), token.value, loaded.value.value, loaded.value.expiry))
  }

  datatype Prepared = Prepared(cartKey: string, token: string, lines: seq<CartMapper.LightLine>)

  /** `prepare` unwraps the legacy `cart` entry only when it is an array. */
  function PrepareContents(value: Entries): Entries {
    var legacy := Lookup(value, "cart");
    if IsSet(legacy) && legacy.value.Arr? then legacy.value.entries else value
  }

  /** CheckoutController::prepare, up to the totals WooCommerce computes. */
  function Prepare(t: CartStorage.Table, cfg: Token.Config, headers: map<string, string>, now: int,
                   catalog: CartStorage.Catalog): Result<Prepared, CheckoutError>
  {
    var session := GetStrictSession(t, cfg, headers, now);
    if session.Failure? then Failure(session.error) else PrepareWith(session.value, catalog)
  }

  /** What `prepare` does once it holds a strict session: `light($cart->get_cart())` of the unwrapped contents. */
  function PrepareWith(session: StrictSession, catalog: CartStorage.Catalog): Result<Prepared, CheckoutError> {
    var contents := PrepareContents(session.value);
    if |contents| == 0 then Failure(EmptyCart)
    else
      var lines := CartMapper.LightResult(ArrayFilter(contents), catalog);
      if lines.None? then Failure(Fatal)
      else Success(Prepared(session.cartKey, session.token, lines.value))
  }

  /** `wooInit` unwraps the legacy `cart` entry whenever it is set, whatever it holds. */
  function WooInitContents(value: Entries): Value {
    var legacy := Lookup(value, "cart");
    if IsSet(legacy) then legacy.value else Arr(value)
  }

  /** `(int) ($item['product_id'] ?? 0)` and `(int) ($item['quantity'] ?? 1)`, kept when both are positive and the product resolves. */
  function OrderLine(item: Value, catalog: CartStorage.Catalog): Option<(int, int)> {
    var pid := ToInt(Coalesce(Field(item, "product_id"), Int(0)));
    var qty := ToInt(Coalesce(Field(item, "quantity"), Int(1)));
    if pid > 0 && qty > 0 && catalog(pid) then Some((pid, qty)) else None
  }

  /** The lines the order receives, in cart order. */
  function OrderLines(items: Entries, catalog: CartStorage.Catalog): seq<(int, int)>
    decreases |items|
  {
    if items == [] then []
    else
      var line := OrderLine(items[|items| - 1].1, catalog);
      OrderLines(items[..|items| - 1], catalog) + (if line.Some? then [line.value] else [])
  }

  datatype Placed = Placed(cartKey: string, lines: seq<(int, int)>)

  /**
   * CheckoutController::wooInit: the order is placed for the session's
   * lines unless one is already tagged with the cart key, and the headless
   * cart row is deleted.
   */
  function WooInitSpec(t: CartStorage.Table, cfg: Token.Config, headers: map<string, string>, now: int,
                       catalog: CartStorage.Catalog, ordered: set<string>): (CartStorage.Table, Result<Placed, CheckoutError>)
  {
    var session := GetStrictSession(t, cfg, headers, now);
    if session.Failure? then (t, Failure(session.error)) else WooInitWith(t, session.value, catalog, ordered)
  }

  /** What `wooInit` does once it holds a strict session. */
  function WooInitWith(t: CartStorage.Table, session: StrictSession, catalog: CartStorage.Catalog,
                       ordered: set<string>): (CartStorage.Table, Result<Placed, CheckoutError>)
  {
    var contents := WooInitContents(session.value);
    if IsEmpty(contents) then (t, Failure(EmptyCart))
    else if !contents.Arr? then (t, Failure(Fatal))
    else if session.cartKey in ordered then (t, Failure(DuplicateOrder))
    else (t - {session.cartKey}, Success(Placed(session.cartKey, OrderLines(ArrayFilter(contents.entries), catalog))))
  }

  /** The `foreach ($cart->get_cart() as $item)` that adds products to the order. */
  method CollectOrderLines(items: Entries, catalog: CartStorage.Catalog) returns (lines: seq<(int, int)>)
    ensures lines == OrderLines(items, catalog)
  {
    lines := [];
    var i := 0;
    while i < |items|
      invariant 0 <= i <= |items|
      invariant lines == OrderLines(items[..i], catalog)
    {
      assert items[..i + 1][..i] == items[..i];
      var item := items[i].1;
      var pid := ToInt(Coalesce(Field(item, "product_id"), Int(0)));
      var qty := ToInt(Coalesce(Field(item, "quantity"), Int(1)));
      if pid > 0 && qty > 0 && catalog(pid) {
        lines := lines + [(pid, qty)];
      }
      i := i + 1;
    }
    assert items[..i] == items;
  }

  /** CheckoutController::wooInit over the store; `clearHeadlessCart` is the final delete. */
  method WooInit(store: CartStorage.CartStore, cfg: Token.Config, headers: map<string, string>, now: int,
                 catalog: CartStorage.Catalog, ordered: set<string>) returns (r: Result<Placed, CheckoutError>)
    modifies store
    ensures (store.rows, r) == WooInitSpec(old(store.rows), cfg, headers, now, catalog, ordered)
  {
    var session := GetStrictSession(store.rows, cfg, headers, now);
    if session.Failure? {
      return Failure(session.error);
    }
    var contents := WooInitContents(session.value.value);
    if IsEmpty(contents) {
      return Failure(EmptyCart);
    }
    if !contents.Arr? {
      return Failure(Fatal);
    }
    if session.value.cartKey in ordered {
      return Failure(DuplicateOrder);
    }
    var lines := CollectOrderLines(ArrayFilter(contents.entries), catalog);
    store.Delete(session.value.cartKey);
    r := Success(Placed(session.value.cartKey, lines));
  }

  // ---------------------------------------------------------------------------
  // Properties

  /**
   * The strict ladder, in order: no presented token is 401, a token that
   * does not verify passes its own error on, a verified key that does not
   * load is 404; the empty-`cart_key` rung can never be reached, since
   * verify already refuses such a payload.
   */
  lemma StrictLadder(t: CartStorage.Table, cfg: Token.Config, headers: map<string, string>, now: int)
    ensures var r := GetStrictSession(t, cfg, headers, now);
      var token := CartStorage.PresentedToken(headers);
      && (r == Failure(MissingToken) <==> token.None?)
      && (token.Some? && Token.Verify(cfg, token.value, now).Failure? ==>
            r == Failure(Rejected(Token.Verify(cfg, token.value, now).error)))
      && r != Failure(MissingCartKey)
      && (r == Failure(CartNotFound) <==>
            token.Some? && Token.Verify(cfg, token.value, now).Success?
            && CartStorage.Load(t, CartStorage.VerifiedKey(cfg, token.value, now).value, now).None?)
  {
    var token := CartStorage.PresentedToken(headers);
    if token.Some? {
      var verified := Token.Verify(cfg, token.value, now);
      if verified.Success? {
        assert !EmptyField(Lookup(verified.value, "cart_key"));
      }
    }
  }

  /**
   * getStrictSession succeeds exactly when getOrCreateFromRequest would
   * reuse a session, and then returns that same session (presented token,
   * claimed key, stored value and expiry); where it fails, it has no
   * create path and no table to change.
   */
  lemma StrictMatchesReuse(t: CartStorage.Table, cfg: Token.Config, headers: map<string, string>, now: int)
    ensures var r := GetStrictSession(t, cfg, headers, now);
      var reuse := CartStorage.Reusable(t, cfg, headers, now);
      && (r.Success? <==> reuse.Some?)
      && (r.Success? ==>
            r.value == StrictSession(reuse.value.cartKey, reuse.value.token, reuse.value.value, reuse.value.expiry))
  {
    var token := CartStorage.PresentedToken(headers);
    if token.Some? {
      var key := CartStorage.VerifiedKey(cfg, token.value, now);
      StrictByKey(t, cfg, headers, now, token.value);
      if key.Some? {
        CartStorage.ReusableByKey(t, cfg, headers, now, token.value, key.value);
      }
    }
  }

  lemma StrictByKey(t: CartStorage.Table, cfg: Token.Config, headers: map<string, string>, now: int, token: string)
    requires CartStorage.PresentedToken(headers) == Some(token)
    ensures var key := CartStorage.VerifiedKey(cfg, token, now);
      var r := GetStrictSession(t, cfg, headers, now);
      && (key.None? ==> r.Failure?)
      && (key.Some? ==> r == match CartStorage.Load(t, key.value, now)
            case None => Failure(CartNotFound)
            case Some(l) => Success(StrictSession(key.value, token, l.value, l.expiry)))
  {
  }

  /** A strict session's key is a live row of the table, and its token is the one presented. */
  lemma StrictSessionIsStored(t: CartStorage.Table, cfg: Token.Config, headers: map<string, string>, now: int)
    requires GetStrictSession(t, cfg, headers, now).Success?
    ensures var s := GetStrictSession(t, cfg, headers, now).value;
      && s.cartKey in t && now <= t[s.cartKey].expiry == s.expiry
      && CartStorage.PresentedToken(headers) == Some(s.token)
  {
  }

  /** prepare unwraps `cart` only when it is an array; wooInit unwraps it whenever it is set. */
  lemma UnwrapRules(value: Entries)
    ensures var legacy := Lookup(value, "cart");
      && (IsSet(legacy) && legacy.value.Arr? ==>
            PrepareContents(value) == legacy.value.entries && WooInitContents(value) == legacy.value)
      && (IsSet(legacy) && !legacy.value.Arr? ==>
            PrepareContents(value) == value && WooInitContents(value) == legacy.value)
      && (!IsSet(legacy) ==> PrepareContents(value) == value && WooInitContents(value) == Arr(value))
  {
  }

  /**
   * A legacy `cart` that is set but not an array: a falsy one is an empty
   * cart for wooInit, a truthy one is fatal to both endpoints. prepare
   * keeps the outer value, whose `cart` line light then cannot normalize.
   */
  lemma ScalarLegacyCart(t: CartStorage.Table, s: StrictSession, catalog: CartStorage.Catalog, ordered: set<string>)
    requires IsSet(Lookup(s.value, "cart")) && !Lookup(s.value, "cart").value.Arr?
    ensures var r := WooInitWith(t, s, catalog, ordered);
      && r.0 == t
      && r.1 == Failure(if IsEmpty(Lookup(s.value, "cart").value) then EmptyCart else Fatal)
      && (!IsEmpty(Lookup(s.value, "cart").value) ==> PrepareWith(s, catalog) == Failure(Fatal))
  {
    assert HasKey(s.value, "cart");
    var i := Find(s.value, "cart");
    var v := Lookup(s.value, "cart").value;
    assert s.value[i] == ("cart", v);
    if !IsEmpty(v) {
      var r := ArrayFilter(s.value);
      assert s.value[i] in r;
      var j :| 0 <= j < |r| && r[j] == s.value[i];
      assert !CartMapper.Normalizable(r);
    }
  }

  /** prepare answers 400 `empty_cart` exactly for an empty cart after its unwrap. */
  lemma EmptyCartIs400(s: StrictSession, catalog: CartStorage.Catalog)
    ensures PrepareWith(s, catalog) == Failure(EmptyCart) <==> PrepareContents(s.value) == []
    ensures EmptyCart.Status() == 400
  {
    var contents := PrepareContents(s.value);
    if contents != [] {
      var lines := CartMapper.LightResult(ArrayFilter(contents), catalog);
      assert PrepareWith(s, catalog) == if lines.None? then Failure(Fatal) else Success(Prepared(s.cartKey, s.token, lines.value));
    }
  }

  /** wooInit answers 400 `empty_cart` exactly for an empty cart after its unwrap. */
  lemma WooInitEmptyIs400(t: CartStorage.Table, s: StrictSession, catalog: CartStorage.Catalog, ordered: set<string>)
    ensures WooInitWith(t, s, catalog, ordered).1 == Failure(EmptyCart) <==> IsEmpty(WooInitContents(s.value))
    ensures EmptyCart.Status() == 400
  {
  }

  /** An order already tagged with the cart key: 409, and the table, the cart row included, is kept. */
  lemma DuplicateKeepsCart(t: CartStorage.Table, s: StrictSession, catalog: CartStorage.Catalog, ordered: set<string>)
    requires var c := WooInitContents(s.value); !IsEmpty(c) && c.Arr? && s.cartKey in ordered
    ensures WooInitWith(t, s, catalog, ordered) == (t, Failure(DuplicateOrder))
    ensures DuplicateOrder.Status() == 409
  {
  }

  /** Every wooInit error leaves the table as it was. */
  lemma FailureKeepsTable(t: CartStorage.Table, cfg: Token.Config, headers: map<string, string>, now: int,
                          catalog: CartStorage.Catalog, ordered: set<string>)
    requires WooInitSpec(t, cfg, headers, now, catalog, ordered).1.Failure?
    ensures WooInitSpec(t, cfg, headers, now, catalog, ordered).0 == t
  {
  }

  /**
   * A placed order deletes exactly the session's row, and the same request
   * again finds no cart; deleting a key that is not there is a no-op.
   */
  lemma PlacedConsumesCart(t: CartStorage.Table, cfg: Token.Config, headers: map<string, string>, now: int,
                           catalog: CartStorage.Catalog, ordered: set<string>)
    requires WooInitSpec(t, cfg, headers, now, catalog, ordered).1.Success?
    ensures var (t1, r) := WooInitSpec(t, cfg, headers, now, catalog, ordered);
      && r.value.cartKey in t && t1.Keys == t.Keys - {r.value.cartKey}
      && (forall k :: k in t1 ==> t1[k] == t[k])
      && t1 - {r.value.cartKey} == t1
      && WooInitSpec(t1, cfg, headers, now, catalog, ordered) == (t1, Failure(CartNotFound))
  {
    StrictSessionIsStored(t, cfg, headers, now);
    var s := GetStrictSession(t, cfg, headers, now).value;
    assert WooInitSpec(t, cfg, headers, now, catalog, ordered) == WooInitWith(t, s, catalog, ordered);
    StrictAfterDelete(t, cfg, headers, now);
  }

  /** Once the session's row is gone, the same request finds no cart. */
  lemma StrictAfterDelete(t: CartStorage.Table, cfg: Token.Config, headers: map<string, string>, now: int)
    requires GetStrictSession(t, cfg, headers, now).Success?
    ensures GetStrictSession(t - {GetStrictSession(t, cfg, headers, now).value.cartKey}, cfg, headers, now)
      == Failure(CartNotFound)
  {
    var k := GetStrictSession(t, cfg, headers, now).value.cartKey;
    assert CartStorage.Load(t - {k}, k, now).None?;
  }

  /** Only lines with a positive product id and quantity whose product resolves reach the order. */
  lemma {:induction false} OrderLinesValid(items: Entries, catalog: CartStorage.Catalog)
    ensures |OrderLines(items, catalog)| <= |items|
    ensures forall j :: 0 <= j < |OrderLines(items, catalog)| ==>
      var (pid, qty) := OrderLines(items, catalog)[j];
      pid > 0 && qty > 0 && catalog(pid)
    decreases |items|
  {
    if items != [] {
      OrderLinesValid(items[..|items| - 1], catalog);
    }
  }

  /** A line without a quantity is ordered once; one with a quantity of zero or less is skipped. */
  lemma OrderLineQuantity(item: Value, catalog: CartStorage.Catalog)
    requires var pid := ToInt(Coalesce(Field(item, "product_id"), Int(0))); pid > 0 && catalog(pid)
    ensures !IsSet(Field(item, "quantity")) ==>
      OrderLine(item, catalog) == Some((ToInt(Field(item, "product_id").value), 1))
    ensures IsSet(Field(item, "quantity")) && ToInt(Field(item, "quantity").value) <= 0 ==>
      OrderLine(item, catalog).None?
  {
  }

  /** Every item that qualifies is ordered, in cart order: the order lines of a concatenation concatenate. */
  lemma {:induction false} OrderLinesAppend(a: Entries, b: Entries, catalog: CartStorage.Catalog)
    ensures OrderLines(a + b, catalog) == OrderLines(a, catalog) + OrderLines(b, catalog)
    decreases |b|
  {
    if b == [] {
      assert a + b == a;
    } else {
      var n := |b| - 1;
      assert (a + b)[..|a + b| - 1] == a + b[..n];
      assert (a + b)[|a + b| - 1] == b[n];
      OrderLinesAppend(a, b[..n], catalog);
    }
  }
}
