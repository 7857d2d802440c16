/**
 * The cart session token: `header.claims.signature`, each part base64url
 * without padding, signed with HS256 (section 3.2 of RFC 7518). It borrows
 * the JWS compact shape but is not a full JWT implementation.
 *
 * Everything the plugin takes from WordPress or PHP's runtime is a field of
 * `Config`: the site URL, the `auth` salt used as HMAC key, the
 * `headlesscart_cart_ttl` filter, HMAC-SHA256 itself (RFC 2104) and the JSON
 * encoder and decoder. The clock is the explicit `now` argument.
 */
module Token {
  import opened Php
  import Base64Url

  const HourInSeconds := 3600

  /** 48 hours. */
  const DefaultTtl := 48 * HourInSeconds

  datatype Config = Config(
    siteUrl: string,
    /** `wp_salt('auth')`. */
    secret: string,
    /** `(int) apply_filters('headlesscart_cart_ttl', $ttl)`. */
    ttlFilter: int -> int,
    /** `hash_hmac('sha256', $data, $key, true)`: raw 32-byte digest of data under key. */
    hmac: (string, string) -> seq<byte>,
    /** `wp_json_encode`. */
    jsonEncode: Value -> seq<byte>,
    /** `json_decode($json, true)`; `Null` when the input is not JSON. */
    jsonDecode: seq<byte> -> Value)

  /** The JSON codec gives `v` back after encoding it. */
  predicate JsonKeeps(cfg: Config, v: Value) {
    cfg.jsonDecode(cfg.jsonEncode(v)) == v
  }

  datatype TokenError = InvalidToken | InvalidSignature | InvalidPayload | TokenExpired {
    function Code(): string {
      match this
      case InvalidToken => "headlesscart_invalid_token"
      case InvalidSignature => "headlesscart_invalid_signature"
      case InvalidPayload => "headlesscart_invalid_payload"
      case TokenExpired => "headlesscart_token_expired"
    }

    /** Every verification error is reported as HTTP 403. */
    function Status(): int {
      403
    }
  }

  /** Token::ttl: the filtered default lifetime in seconds. */
  function Ttl(cfg: Config): int {
    cfg.ttlFilter(DefaultTtl)
  }

  function HeaderValue(): Value {
    Arr([("alg", Str("HS256")), ("typ", Str("JWT"))])
  }

  function ClaimsValue(cartKey: string, iat: int, exp: int, iss: string): Value {
    Arr([("cart_key", Str(cartKey)), ("iat", Int(iat)), ("exp", Int(exp)), ("iss", Str(iss))])
  }

  /** The base64url HMAC of `h . p` under the secret. */
  function Sign(cfg: Config, h: string, p: string): string {
    Base64Url.Encode(cfg.hmac(h + "." + p, cfg.secret))
  }

  /** The expiry `generate` writes: `now + ttl`, the ttl defaulting to Token::ttl. */
  function ExpiryFor(cfg: Config, ttl: Option<int>, now: int): int {
    now + ttl.GetOr(Ttl(cfg))
  }

  function HeaderSegment(cfg: Config): string {
    Base64Url.Encode(cfg.jsonEncode(HeaderValue()))
  }

  function ClaimsSegment(cfg: Config, cartKey: string, ttl: Option<int>, now: int): string {
    Base64Url.Encode(cfg.jsonEncode(ClaimsValue(cartKey, now, ExpiryFor(cfg, ttl, now), cfg.siteUrl)))
  }

  /** Token::generate at time `now`. */
  function Generate(cfg: Config, cartKey: string, ttl: Option<int>, now: int): string {
    var h := HeaderSegment(cfg);
    var p := ClaimsSegment(cfg, cartKey, ttl, now);
    h + "." + p + "." + Sign(cfg, h, p)
  }

  /**
   * Token::verify at time `now`: malformed, then signature, then payload,
   * then expiry; on success the decoded claims.
   */
  function Verify(cfg: Config, token: string, now: int): (r: Result<Entries, TokenError>)
    ensures r.Success? ==> Truthy(token) && CountChar(token, '.') == 2
    ensures r.Success? ==>
      var parts := Explode(token, '.');
      parts[2] == Sign(cfg, parts[0], parts[1])
    ensures r.Success? ==>
      && !EmptyField(Lookup(r.value, "cart_key"))
      && !EmptyField(Lookup(r.value, "exp"))
      && ToInt(Lookup(r.value, "exp").value) >= now
  {
    if !Truthy(token) || CountChar(token, '.') != 2 then Failure(InvalidToken)
    else
      var parts := Explode(token, '.');
      if Sign(cfg, parts[0], parts[1]) != parts[2] then Failure(InvalidSignature)
      else Admit(cfg.jsonDecode(Base64Url.Decode(parts[1])), now)
  }

  /** The payload and expiry rungs of Token::verify, on the decoded claims. */
  function Admit(payload: Value, now: int): (r: Result<Entries, TokenError>)
    ensures r.Success? <==>
      && payload.Arr?
      && !EmptyField(Lookup(payload.entries, "cart_key"))
      && !EmptyField(Lookup(payload.entries, "exp"))
      && ToInt(Lookup(payload.entries, "exp").value) >= now
    ensures r.Success? ==> r.value == payload.entries
    ensures r.Failure? ==> r.error == InvalidPayload || r.error == TokenExpired
  {
    if !payload.Arr? || EmptyField(Lookup(payload.entries, "cart_key"))
      || EmptyField(Lookup(payload.entries, "exp")) then Failure(InvalidPayload)
    else if ToInt(Lookup(payload.entries, "exp").value) < now then Failure(TokenExpired)
    else Success(payload.entries)
  }

  /** The headers Token::fromRequest consults, in order. */
  const TokenHeaders := ["x-headlesscart-token", "cart-token", "authorization"]

  /** `$request->get_header($name)`, with a missing header read as "" (both are falsy). */
  function Header(headers: map<string, string>, name: string): string {
    if name in headers then headers[name] else ""
  }

  /** The position of the first name whose header is truthy, or `|names|`. */
  function FirstTruthy(headers: map<string, string>, names: seq<string>): (i: nat)
    ensures i <= |names|
    ensures i < |names| ==> Truthy(Header(headers, names[i]))
    ensures forall j :: 0 <= j < i ==> !Truthy(Header(headers, names[j]))
  {
    if names == [] then 0
    else if Truthy(Header(headers, names[0])) then 0
    else 1 + FirstTruthy(headers, names[1..])
  }

  predicate HasBearerPrefix(v: string) {
    |v| >= 7 && Lower(v[..7]) == "bearer "
  }

  /** A case-insensitive `Bearer ` prefix is cut off and the rest trimmed. */
  function StripBearer(v: string): string {
    if HasBearerPrefix(v) then Trim(v[7..]) else v
  }

  /** Token::fromRequest: the first truthy header of `TokenHeaders`, Bearer-stripped. */
  function FromRequest(headers: map<string, string>): (r: Option<string>)
    ensures r.None? <==> forall j :: 0 <= j < |TokenHeaders| ==> !Truthy(Header(headers, TokenHeaders[j]))
    ensures r.Some? ==>
      exists i ::
        && 0 <= i < |TokenHeaders|
        && Truthy(Header(headers, TokenHeaders[i]))
        && (forall j :: 0 <= j < i ==> !Truthy(Header(headers, TokenHeaders[j])))
        && r.value == StripBearer(Header(headers, TokenHeaders[i]))
  {
    var i := FirstTruthy(headers, TokenHeaders);
    if i < |TokenHeaders| then Some(StripBearer(Header(headers, TokenHeaders[i]))) else None
  }

  // ---------------------------------------------------------------------------
  // Properties

  /** No base64url encoding contains a character outside the URL-safe alphabet, the separator among them. */
  lemma EncodeAvoids(d: seq<byte>, c: char)
    requires !Base64Url.IsUrlChar(c)
    ensures c !in Base64Url.Encode(d)
  {
    var e := Base64Url.Encode(d);
    Base64Url.EncodeAlphabet(d);
    assert forall i :: 0 <= i < |e| ==> e[i] != c;
  }

  lemma EncodeHasNoDot(d: seq<byte>)
    ensures '.' !in Base64Url.Encode(d)
  {
    EncodeAvoids(d, '.');
  }

  /** A generated token holds no white space, so it never carries a Bearer prefix. */
  lemma GeneratedHasNoSpace(cfg: Config, cartKey: string, ttl: Option<int>, now: int)
    ensures ' ' !in Generate(cfg, cartKey, ttl, now)
    ensures !HasBearerPrefix(Generate(cfg, cartKey, ttl, now))
  {
    var h := HeaderSegment(cfg);
    var p := ClaimsSegment(cfg, cartKey, ttl, now);
    var t := Generate(cfg, cartKey, ttl, now);
    EncodeAvoids(cfg.jsonEncode(HeaderValue()), ' ');
    EncodeAvoids(cfg.jsonEncode(ClaimsValue(cartKey, now, ExpiryFor(cfg, ttl, now), cfg.siteUrl)), ' ');
    EncodeAvoids(cfg.hmac(h + "." + p, cfg.secret), ' ');
    assert ' ' !in t;
    if |t| >= 7 {
      assert t[6] in t;
      assert Lower(t[..7])[6] == LowerChar(t[6]) != ' ';
    }
  }

  /** Three separator-free segments joined by dots explode back into those segments. */
  lemma ThreeSegments(h: string, p: string, s: string)
    requires '.' !in h && '.' !in p && '.' !in s
    ensures CountChar(h + "." + p + "." + s, '.') == 2
    ensures Explode(h + "." + p + "." + s, '.') == [h, p, s]
  {
    assert h + "." + p + "." + s == h + ['.'] + (p + ['.'] + s);
    ExplodeCons(h, '.', p + ['.'] + s);
    ExplodeCons(p, '.', s);
    ExplodeNone(s, '.');
  }

  /**
   * A generated token has exactly two separators; its segments are the
   * encoded header, the encoded claims `cart_key = k, iat = now,
   * exp = now + ttl, iss = site url`, and the HMAC of the first two.
   */
  lemma GenerateShape(cfg: Config, cartKey: string, ttl: Option<int>, now: int)
    ensures var t := Generate(cfg, cartKey, ttl, now);
      && CountChar(t, '.') == 2
      && var parts := Explode(t, '.');
      && |parts| == 3
      && parts[2] == Sign(cfg, parts[0], parts[1])
      && Base64Url.Decode(parts[0]) == cfg.jsonEncode(HeaderValue())
      && Base64Url.Decode(parts[1]) == cfg.jsonEncode(ClaimsValue(cartKey, now, ExpiryFor(cfg, ttl, now), cfg.siteUrl))
  {
    var h := HeaderSegment(cfg);
    var p := ClaimsSegment(cfg, cartKey, ttl, now);
    var claims := ClaimsValue(cartKey, now, ExpiryFor(cfg, ttl, now), cfg.siteUrl);
    EncodeHasNoDot(cfg.jsonEncode(HeaderValue()));
    EncodeHasNoDot(cfg.jsonEncode(claims));
    EncodeHasNoDot(cfg.hmac(h + "." + p, cfg.secret));
    ThreeSegments(h, p, Sign(cfg, h, p));
    Base64Url.RoundTrip(cfg.jsonEncode(HeaderValue()));
    Base64Url.RoundTrip(cfg.jsonEncode(claims));
  }

  /** The verdicts of the ladder, one rung at a time, each in both directions. */
  lemma VerifyLadder(cfg: Config, token: string, now: int)
    ensures Verify(cfg, token, now) == Failure(InvalidToken) <==>
      !Truthy(token) || CountChar(token, '.') != 2
    ensures Verify(cfg, token, now) == Failure(InvalidSignature) <==>
      Truthy(token) && CountChar(token, '.') == 2
      && var parts := Explode(token, '.'); Sign(cfg, parts[0], parts[1]) != parts[2]
    ensures Verify(cfg, token, now).Failure? && Verify(cfg, token, now).error.TokenExpired? ==>
      var payload := cfg.jsonDecode(Base64Url.Decode(Explode(token, '.')[1]));
      payload.Arr? && ToInt(Lookup(payload.entries, "exp").GetOr(Null)) < now
  {
  }

  /**
   * Signature integrity: for separator-free segments, the token is rejected
   * with `invalid_signature` exactly when the third segment differs from the
   * HMAC of the first two; so no other signature passes.
   */
  lemma SignatureIntegrity(cfg: Config, h: string, p: string, s: string, now: int)
    requires '.' !in h && '.' !in p && '.' !in s
    ensures Verify(cfg, h + "." + p + "." + s, now) == Failure(InvalidSignature) <==> s != Sign(cfg, h, p)
  {
    ThreeSegments(h, p, s);
    var t := h + "." + p + "." + s;
    assert t[|h|] == '.';
    assert Truthy(t);
  }

  /** Changing the signature of a generated token makes it fail with `invalid_signature`. */
  lemma TamperedSignatureRejected(cfg: Config, cartKey: string, ttl: Option<int>, iat: int, forged: string, now: int)
    requires '.' !in forged && forged != Sign(cfg, HeaderSegment(cfg), ClaimsSegment(cfg, cartKey, ttl, iat))
    ensures Verify(cfg, HeaderSegment(cfg) + "." + ClaimsSegment(cfg, cartKey, ttl, iat) + "." + forged, now)
      == Failure(InvalidSignature)
  {
    EncodeHasNoDot(cfg.jsonEncode(HeaderValue()));
    EncodeHasNoDot(cfg.jsonEncode(ClaimsValue(cartKey, iat, ExpiryFor(cfg, ttl, iat), cfg.siteUrl)));
    SignatureIntegrity(cfg, HeaderSegment(cfg), ClaimsSegment(cfg, cartKey, ttl, iat), forged, now);
  }

  /** Reading the claims back: each claim sits at its own position. */
  lemma ClaimsLookups(cartKey: string, iat: int, exp: int, iss: string)
    ensures var e := ClaimsValue(cartKey, iat, exp, iss).entries;
      && Lookup(e, "cart_key") == Some(Str(cartKey))
      && Lookup(e, "iat") == Some(Int(iat))
      && Lookup(e, "exp") == Some(Int(exp))
  {
    var e := ClaimsValue(cartKey, iat, exp, iss).entries;
    FindIs(e, "cart_key", 0);
    FindIs(e, "iat", 1);
    FindIs(e, "exp", 2);
  }

  /** Verifying a generated token at time `now` runs the payload and expiry rungs on its own claims. */
  lemma VerifyGeneratedAt(cfg: Config, cartKey: string, ttl: Option<int>, iat: int, now: int)
    requires Truthy(cartKey)
    requires JsonKeeps(cfg, ClaimsValue(cartKey, iat, ExpiryFor(cfg, ttl, iat), cfg.siteUrl))
    ensures var exp := ExpiryFor(cfg, ttl, iat);
      var claims := ClaimsValue(cartKey, iat, exp, cfg.siteUrl);
      Verify(cfg, Generate(cfg, cartKey, ttl, iat), now) ==
        if exp == 0 then Failure(InvalidPayload)
        else if exp < now then Failure(TokenExpired)
        else Success(claims.entries)
  {
    var exp := ExpiryFor(cfg, ttl, iat);
    var claims := ClaimsValue(cartKey, iat, exp, cfg.siteUrl);
    GenerateShape(cfg, cartKey, ttl, iat);
    var t := Generate(cfg, cartKey, ttl, iat);
    var h := HeaderSegment(cfg);
    assert t[|h|] == '.';
    assert Truthy(t);
    var parts := Explode(t, '.');
    assert Sign(cfg, parts[0], parts[1]) == parts[2];
    assert cfg.jsonDecode(Base64Url.Decode(parts[1])) == claims;
    assert Verify(cfg, t, now) == Admit(claims, now);
    AdmitClaims(cartKey, iat, exp, cfg.siteUrl, now);
  }

  lemma AdmitClaims(cartKey: string, iat: int, exp: int, iss: string, now: int)
    requires Truthy(cartKey)
    ensures Admit(ClaimsValue(cartKey, iat, exp, iss), now) ==
      if exp == 0 then Failure(InvalidPayload)
      else if exp < now then Failure(TokenExpired)
      else Success(ClaimsValue(cartKey, iat, exp, iss).entries)
  {
    var e := ClaimsValue(cartKey, iat, exp, iss).entries;
    ClaimsLookups(cartKey, iat, exp, iss);
    assert !EmptyField(Lookup(e, "cart_key"));
    assert EmptyField(Lookup(e, "exp")) <==> exp == 0;
    assert ToInt(Lookup(e, "exp").value) == exp;
  }

  /**
   * Round trip: a token generated for a non-empty key with a non-zero
   * expiry verifies at any time up to and including its expiry, and the
   * claims carry the key it was generated for.
   */
  lemma VerifyGenerated(cfg: Config, cartKey: string, ttl: Option<int>, iat: int, now: int)
    requires Truthy(cartKey)
    requires JsonKeeps(cfg, ClaimsValue(cartKey, iat, ExpiryFor(cfg, ttl, iat), cfg.siteUrl))
    requires ExpiryFor(cfg, ttl, iat) != 0 && now <= ExpiryFor(cfg, ttl, iat)
    ensures var r := Verify(cfg, Generate(cfg, cartKey, ttl, iat), now);
      r.Success? && Lookup(r.value, "cart_key") == Some(Str(cartKey))
      && Lookup(r.value, "iat") == Some(Int(iat))
      && Lookup(r.value, "exp") == Some(Int(ExpiryFor(cfg, ttl, iat)))
  {
    var exp := ExpiryFor(cfg, ttl, iat);
    var claims := ClaimsValue(cartKey, iat, exp, cfg.siteUrl);
    VerifyGeneratedAt(cfg, cartKey, ttl, iat, now);
    assert Verify(cfg, Generate(cfg, cartKey, ttl, iat), now) == Success(claims.entries);
    ClaimsLookups(cartKey, iat, exp, cfg.siteUrl);
  }

  /** A generated token is reported expired exactly after its expiry second; `exp == now` still passes. */
  lemma ExpiryIsStrict(cfg: Config, cartKey: string, ttl: Option<int>, iat: int, now: int)
    requires Truthy(cartKey)
    requires JsonKeeps(cfg, ClaimsValue(cartKey, iat, ExpiryFor(cfg, ttl, iat), cfg.siteUrl))
    requires ExpiryFor(cfg, ttl, iat) != 0
    ensures Verify(cfg, Generate(cfg, cartKey, ttl, iat), now) == Failure(TokenExpired)
      <==> ExpiryFor(cfg, ttl, iat) < now
  {
    VerifyGeneratedAt(cfg, cartKey, ttl, iat, now);
  }

  /** With a ttl of -1 the token fails from its issue time on. */
  lemma NegativeTtlExpiresImmediately(cfg: Config, cartKey: string, iat: int, now: int)
    requires Truthy(cartKey) && iat - 1 != 0 && iat <= now
    requires JsonKeeps(cfg, ClaimsValue(cartKey, iat, iat - 1, cfg.siteUrl))
    ensures Verify(cfg, Generate(cfg, cartKey, Some(-1), iat), now) == Failure(TokenExpired)
  {
    VerifyGeneratedAt(cfg, cartKey, Some(-1), iat, now);
  }

  /** An expiry of 0 counts as empty, so such a token is an invalid payload whatever the time. */
  lemma ZeroExpiryRejected(cfg: Config, cartKey: string, ttl: Option<int>, iat: int, now: int)
    requires Truthy(cartKey) && ExpiryFor(cfg, ttl, iat) == 0
    requires JsonKeeps(cfg, ClaimsValue(cartKey, iat, 0, cfg.siteUrl))
    ensures Verify(cfg, Generate(cfg, cartKey, ttl, iat), now) == Failure(InvalidPayload)
  {
    VerifyGeneratedAt(cfg, cartKey, ttl, iat, now);
  }

  /** A `Bearer ` prefix in any letter case is cut off the rest, which is then trimmed. */
  lemma BearerAnyCase(p: string, rest: string)
    requires |p| == 7 && Lower(p) == "bearer "
    ensures StripBearer(p + rest) == Trim(rest)
  {
    assert (p + rest)[..7] == p;
    assert (p + rest)[7..] == rest;
  }

  /** Whichever header supplies the token, a `Bearer ` prefix on it in any letter case is cut off. */
  lemma BearerFromAnyHeader(headers: map<string, string>, i: nat, p: string, rest: string)
    requires |p| == 7 && Lower(p) == "bearer "
    requires i < |TokenHeaders| && Header(headers, TokenHeaders[i]) == p + rest
    requires forall j :: 0 <= j < i ==> !Truthy(Header(headers, TokenHeaders[j]))
    ensures FromRequest(headers) == Some(Trim(rest))
  {
    assert Truthy(p + rest) by { assert |p + rest| >= 7; }
    var f := FirstTruthy(headers, TokenHeaders);
    assert f == i;
    BearerAnyCase(p, rest);
  }

  /** An earlier header wins over a later one, even when only the later one carries a Bearer prefix. */
  lemma CustomHeaderWins(headers: map<string, string>)
    requires "x-headlesscart-token" in headers && Truthy(headers["x-headlesscart-token"])
    ensures FromRequest(headers) == Some(StripBearer(headers["x-headlesscart-token"]))
  {
  }
}
