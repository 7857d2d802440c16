/**
 * SessionHandler: WooCommerce's session object for REST requests, backed by
 * the cart store instead of cookies. The fields are the ones the class
 * keeps: `cartKey`, `token`, `expiry`, the session data `_data` and
 * `_has_cookie`.
 */
module SessionHandler {
  import opened Php
  import Token
  import CartStorage

  /**
   * The session REST-mode `init_session` resolves: createSession() when
   * there is no current REST request, getOrCreateFromRequest() otherwise.
   */
  function InitResolution(t: CartStorage.Table, cfg: Token.Config, request: Option<map<string, string>>,
                          pw: CartStorage.Password, now: int): (CartStorage.Session, CartStorage.Table)
  {
    if request.None? then CartStorage.Created(t, cfg, pw, None, now)
    else CartStorage.Resolved(t, cfg, request.value, pw, now)
  }

  /**
   * The presented token, when it verifies, does not carry an array as its
   * `cart_key` claim (Token::generate writes a string; `load(string)` would
   * throw on an array).
   */
  predicate ScalarKeyClaim(cfg: Token.Config, request: Option<map<string, string>>, now: int) {
    request.Some? ==>
      var token := CartStorage.PresentedToken(request.value);
      token.Some? ==>
        var verified := Token.Verify(cfg, token.value, now);
        verified.Success? && HasKey(verified.value, "cart_key") ==> !Lookup(verified.value, "cart_key").value.Arr?
  }

  /** `get_session($id, $default)`: the stored value if the row loads, else `$default ?: []`. */
  function SessionData(t: CartStorage.Table, id: string, default: Value, now: int): (r: Value)
    ensures r.Arr? || r == default
    ensures CartStorage.Load(t, id, now).None? && IsEmpty(default) ==> r == Arr([])
  {
    var row := CartStorage.Load(t, id, now);
    if row.Some? then Arr(row.value.value)
    else if IsEmpty(default) then Arr([])
    else default
  }

  class SessionHandler {
    const store: CartStorage.CartStore
    var cartKey: Option<string>
    var token: Option<string>
    var expiry: Option<int>
    var data: Entries
    var hasCookie: bool

    /** The constructor drops whatever session data the parent set up. */
    constructor (store: CartStorage.CartStore)
      ensures this.store == store
      ensures cartKey == None && token == None && expiry == None && data == [] && !hasCookie
    {
      this.store := store;
      cartKey := None;
      token := None;
      expiry := None;
      data := [];
      hasCookie := false;
    }

    /** SessionHandler::init_session in REST mode. */
    method InitSession(cfg: Token.Config, request: Option<map<string, string>>, pw: CartStorage.Password, now: int)
      modifies this, store
      ensures store.rows == InitResolution(old(store.rows), cfg, request, pw, now).1
      ensures Holds(InitResolution(old(store.rows), cfg, request, pw, now).0)
      ensures ScalarKeyClaim(cfg, request, now) ==>
        forall parentId :: GetSessionId(parentId) == Some(InitResolution(old(store.rows), cfg, request, pw, now).0.cartKey)
    {
      ghost var t0 := store.rows;
      if ScalarKeyClaim(cfg, request, now) {
        ResolvedKeyIsTruthy(t0, cfg, request, pw, now);
      }
      var s;
      if request.None? {
        s := store.CreateSession(cfg, pw, None, now);
        assert (s, store.rows) == CartStorage.Created(old(store.rows), cfg, pw, None, now);
      } else {
        s := store.GetOrCreateFromRequest(cfg, request.value, pw, now);
      }
      assert (s, store.rows) == InitResolution(old(store.rows), cfg, request, pw, now);
      cartKey := Some(s.cartKey);
      token := Some(s.token);
      expiry := Some(s.expiry);
      data := s.value;
      hasCookie := true;
    }

    /** The handler's fields carry session `s`, with the cookie flag set. */
    predicate Holds(s: CartStorage.Session)
      reads this
    {
      cartKey == Some(s.cartKey) && token == Some(s.token) && expiry == Some(s.expiry)
      && data == s.value && hasCookie
    }

    /** SessionHandler::get_session. */
    method GetSession(id: string, default: Value, now: int) returns (r: Value)
      ensures r == SessionData(store.rows, id, default, now)
    {
      var row := CartStorage.Load(store.rows, id, now);
      if row.Some? {
        return Arr(row.value.value);
      }
      r := if IsEmpty(default) then Arr([]) else default;
    }

    /** SessionHandler::save_data: nothing without a (truthy) cart key, else save with the full ttl. */
    method SaveData(cfg: Token.Config, now: int)
      modifies store
      ensures cartKey.None? || !Truthy(cartKey.value) ==> store.rows == old(store.rows)
      ensures cartKey.Some? && Truthy(cartKey.value) ==>
        store.rows == CartStorage.Saved(old(store.rows), cartKey.value, data, true, cfg, now).1
    {
      if cartKey.None? || !Truthy(cartKey.value) {
        return;
      }
      var expiry := store.Save(cartKey.value, data, true, cfg, now);
    }

    /** SessionHandler::get_session_id: the cart key when truthy, else the parent's id. */
    function GetSessionId(parentId: Option<string>): (r: Option<string>)
      reads this
      ensures cartKey.Some? && Truthy(cartKey.value) ==> r == cartKey
      ensures !(cartKey.Some? && Truthy(cartKey.value)) ==> r == parentId
    {
      if cartKey.Some? && Truthy(cartKey.value) then cartKey else parentId
    }
  }

  // ---------------------------------------------------------------------------
  // Properties

  /**
   * What save_data writes, get_session reads back: after saving `data`
   * under a live key with a non-negative ttl, get_session returns exactly
   * that data.
   */
  lemma SaveThenGetSession(t: CartStorage.Table, k: string, data: Entries, default: Value, cfg: Token.Config, now: int)
    requires k in t && Token.Ttl(cfg) >= 0
    ensures SessionData(CartStorage.Saved(t, k, data, true, cfg, now).1, k, default, now) == Arr(data)
  {
    var t1 := CartStorage.Saved(t, k, data, true, cfg, now).1;
    assert t1[k] == CartStorage.Row(CartStorage.Decoded(Arr(data)), now + Token.Ttl(cfg));
  }

  /** A missing or expired row yields the default, or `[]` for a falsy default such as `false`. */
  lemma GetSessionFallback(t: CartStorage.Table, id: string, default: Value, now: int)
    requires id !in t || t[id].expiry < now
    ensures SessionData(t, id, default, now) == if IsEmpty(default) then Arr([]) else default
    ensures SessionData(t, id, Bool(false), now) == Arr([])
  {
  }

  /**
   * The key init_session resolves is truthy, so get_session_id reports it in
   * place of the parent's id: a created key starts with `ck_`, and a reused
   * one is the token's non-empty `cart_key` claim, as long as that claim is
   * not an array.
   */
  lemma ResolvedKeyIsTruthy(t: CartStorage.Table, cfg: Token.Config, request: Option<map<string, string>>,
                            pw: CartStorage.Password, now: int)
    requires ScalarKeyClaim(cfg, request, now)
    ensures Truthy(InitResolution(t, cfg, request, pw, now).0.cartKey)
  {
    var k := CartStorage.GenerateCartKey(pw);
    assert k[0] == 'c';
    if request.Some? && CartStorage.Reusable(t, cfg, request.value, now).Some? {
      var token := CartStorage.PresentedToken(request.value).value;
      var verified := Token.Verify(cfg, token, now);
      assert HasKey(verified.value, "cart_key");
      ToStrTruthy(Lookup(verified.value, "cart_key").value);
    }
  }

  /**
   * Without a current REST request, init_session creates a fresh session:
   * its key starts with `ck_`, so get_session_id reports it, and, when the
   * key is new, the store gains exactly that row with an empty cart.
   */
  lemma InitWithoutRequest(t: CartStorage.Table, cfg: Token.Config, pw: CartStorage.Password, now: int)
    ensures InitResolution(t, cfg, None, pw, now).0.cartKey == CartStorage.GenerateCartKey(pw)
    ensures InitResolution(t, cfg, None, pw, now).0.value == []
    ensures Truthy(CartStorage.GenerateCartKey(pw))
    ensures CartStorage.GenerateCartKey(pw) !in t ==>
      var t1 := InitResolution(t, cfg, None, pw, now).1;
      && t1.Keys == t.Keys + {CartStorage.GenerateCartKey(pw)}
      && t1[CartStorage.GenerateCartKey(pw)] == CartStorage.Row(CartStorage.Decoded(Arr([])), now + Token.Ttl(cfg))
      && (forall j :: j in t ==> t1[j] == t[j])
  {
    var k := CartStorage.GenerateCartKey(pw);
    assert k[0] == 'c';
    assert InitResolution(t, cfg, None, pw, now) == CartStorage.Created(t, cfg, pw, None, now);
    if k !in t {
      CartStorage.CreateAddsOneRow(t, cfg, pw, None, now);
    }
  }

  /**
   * With a request whose token resolves, init_session keeps the presented
   * token and the stored cart as session data, and the store is untouched.
   */
  lemma InitReusesToken(t: CartStorage.Table, cfg: Token.Config, headers: map<string, string>,
                        pw: CartStorage.Password, now: int)
    requires CartStorage.Reusable(t, cfg, headers, now).Some?
    ensures var (s, t1) := InitResolution(t, cfg, Some(headers), pw, now);
      && t1 == t
      && Some(s.token) == CartStorage.PresentedToken(headers)
      && s.value == CartStorage.Load(t, s.cartKey, now).value.value
  {
    CartStorage.ResolveReuseOrCreate(t, cfg, headers, pw, now);
  }
}
