/**
 * The cart session table: one row per cart key holding the JSON cart value
 * and an expiry timestamp, with the operations CartStorage runs on it. The
 * table is a map from `cart_key` to its row; the JSON column is kept in its
 * decoded form, `Malformed` when `json_decode` reports a syntax error.
 */
module CartStorage {
  import opened Php
  import Token

  datatype Stored = Malformed | Decoded(v: Value)

  datatype Row = Row(value: Stored, expiry: int)

  type Table = map<string, Row>

  /** `wc_get_product($id)` resolves: whether a product with that id exists. */
  type Catalog = int -> bool

  /** What `load` returns: `[cart_key, value, expiry]`. */
  datatype Loaded = Loaded(cartKey: string, value: Entries, expiry: int)

  /** What `createSession` and `getOrCreateFromRequest` return. */
  datatype Session = Session(cartKey: string, token: string, value: Entries, expiry: int)

  predicate IsAlnum(c: char) {
    ('a' <= c <= 'z') || ('A' <= c <= 'Z') || ('0' <= c <= '9')
  }

  /** `wp_generate_password(40, false, false)`: 40 letters and digits. The choice is a parameter. */
  type Password = s: string | |s| == 40 && forall i :: 0 <= i < |s| ==> IsAlnum(s[i])
    witness "0000000000000000000000000000000000000000"

  /** The SQL column is `VARCHAR(64)`. */
  const KeyColumnWidth := 64

  /** CartStorage::generateCartKey. */
  function GenerateCartKey(pw: Password): (k: string)
    ensures |k| == 43 && |k| <= KeyColumnWidth
    ensures k[..3] == "ck_"
  {
    "ck_" + pw
  }

  /** CartStorage::load at time `now`. */
  function Load(t: Table, k: string, now: int): (r: Option<Loaded>)
    ensures r.None? <==> k !in t || t[k].expiry < now
    ensures r.Some? ==> r.value.cartKey == k && r.value.expiry == t[k].expiry
    ensures r.Some? ==> r.value.value == match t[k].value
      case Decoded(Arr(e)) => e
      case _ => []
  {
    if k !in t then None
    else if t[k].expiry < now then None
    else
      var data := match t[k].value
        case Decoded(Arr(e)) => e
        case _ => [];
      Some(Loaded(k, data, t[k].expiry))
  }

  /** The expiry `save` writes: the full ttl when extending, otherwise one hour. */
  function SaveExpiry(cfg: Token.Config, extend: bool, now: int): int {
    if extend then now + Token.Ttl(cfg) else now + Token.HourInSeconds
  }

  /** CartStorage::save on the table: the UPDATE touches only an existing row. */
  function Saved(t: Table, k: string, value: Entries, extend: bool, cfg: Token.Config, now: int): (r: (int, Table))
    ensures r.0 == SaveExpiry(cfg, extend, now)
    ensures r.1.Keys == t.Keys
    ensures k in t ==> r.1[k] == Row(Decoded(Arr(value)), r.0)
    ensures forall j :: j in t && j != k ==> r.1[j] == t[j]
  {
    var exp := SaveExpiry(cfg, extend, now);
    (exp, if k in t then t[k := Row(Decoded(Arr(value)), exp)] else t)
  }

  /**
   * CartStorage::createSession: a fresh key, an empty cart expiring after
   * `ttl` (default Token::ttl), and a token for that key and ttl. The
   * INSERT does nothing when the key is already taken; there is no retry.
   */
  function Created(t: Table, cfg: Token.Config, pw: Password, ttl: Option<int>, now: int): (Session, Table) {
    (NewSession(cfg, pw, ttl, now), Inserted(t, GenerateCartKey(pw), now + ttl.GetOr(Token.Ttl(cfg))))
  }

  /** The session createSession returns: the generated key, its token, an empty cart, `now + ttl`. */
  function NewSession(cfg: Token.Config, pw: Password, ttl: Option<int>, now: int): (s: Session)
    ensures s.cartKey == GenerateCartKey(pw) && s.value == []
    ensures s.expiry == now + ttl.GetOr(Token.Ttl(cfg))
  {
    var k := GenerateCartKey(pw);
    var life := ttl.GetOr(Token.Ttl(cfg));
    Session(k, Token.Generate(cfg, k, Some(life), now), [], now + life)
  }

  /** The INSERT of an empty cart row, ignored when the key already has a row. */
  function Inserted(t: Table, k: string, exp: int): Table {
    if k in t then t else t[k := Row(Decoded(Arr([])), exp)]
  }

  /** The token a request presents: Token::fromRequest, kept when truthy. */
  function PresentedToken(headers: map<string, string>): Option<string> {
    var t := Token.FromRequest(headers);
    if t.Some? && Truthy(t.value) then t else None
  }

  /** The cart key a presented token yields: verified, with a non-empty `cart_key` claim. */
  function VerifiedKey(cfg: Token.Config, token: string, now: int): Option<string> {
    var verified := Token.Verify(cfg, token, now);
    if verified.Success? && !EmptyField(Lookup(verified.value, "cart_key")) then
      Some(ToStr(Lookup(verified.value, "cart_key").value))
    else None
  }

  /** The session a request can reuse: token present, verified, carrying a key that loads. */
  function Reusable(t: Table, cfg: Token.Config, headers: map<string, string>, now: int): Option<Session> {
    var token := PresentedToken(headers);
    if token.None? then None
    else
      var key := VerifiedKey(cfg, token.value, now);
      if key.None? then None
      else
        var loaded := Load(t, key.value, now);
        if loaded.None? then None
        else Some(Session(loaded.value.cartKey, token.value, loaded.value.value, loaded.value.expiry))
  }

  /** CartStorage::getOrCreateFromRequest: reuse when possible, else createSession(). */
  function Resolved(t: Table, cfg: Token.Config, headers: map<string, string>, pw: Password, now: int): (Session, Table) {
    var reuse := Reusable(t, cfg, headers, now);
    if reuse.Some? then (reuse.value, t) else Created(t, cfg, pw, None, now)
  }

  // ---------------------------------------------------------------------------
  // Cleanup

  /** An item pointing at a product that no longer resolves. */
  predicate Missing(item: Value, catalog: Catalog) {
    var pid := Field(item, "product_id");
    !EmptyField(pid) && !catalog(ToInt(pid.value))
  }

  /** The cart lines cleanup keeps, in order. */
  function Prune(items: Entries, catalog: Catalog): Entries
    decreases |items|
  {
    if items == [] then []
    else
      var last := items[|items| - 1];
      Prune(items[..|items| - 1], catalog) + (if Missing(last.1, catalog) then [] else [last])
  }

  /** How many lines cleanup removes from a cart. */
  function CountMissing(items: Entries, catalog: Catalog): nat
    decreases |items|
  {
    if items == [] then 0
    else
      CountMissing(items[..|items| - 1], catalog) + (if Missing(items[|items| - 1].1, catalog) then 1 else 0)
  }

  /** A row after the soft clean: an array value loses its missing lines; other rows stay. */
  function CleanRow(row: Row, catalog: Catalog): Row {
    match row.value
    case Decoded(Arr(e)) => Row(Decoded(Arr(Prune(e, catalog))), row.expiry)
    case _ => row
  }

  function ExpiredKeys(t: Table, now: int): set<string> {
    set k | k in t && t[k].expiry < now
  }

  /** The table after `DELETE ... WHERE cart_expiry < now`. */
  function Unexpired(t: Table, now: int): Table {
    map k | k in t && t[k].expiry >= now :: t[k]
  }

  /** The table once the rows in `done` have been soft-cleaned and the others not yet. */
  function Swept(t: Table, done: set<string>, catalog: Catalog): Table {
    map k | k in t && !(k in done && t[k].value.Malformed?) ::
      if k in done then CleanRow(t[k], catalog) else t[k]
  }

  /** CartStorage::cleanup at time `now` on the table. */
  function Cleaned(t: Table, now: int, catalog: Catalog): Table {
    var live := Unexpired(t, now);
    Swept(live, live.Keys, catalog)
  }

  ghost function Pick(s: set<string>): string
    requires s != {}
  {
    var x :| x in s; x
  }

  /** The sum of `f` over a set of keys. */
  ghost function SumOver(keys: set<string>, f: string -> nat): nat
    decreases keys
  {
    if keys == {} then 0
    else
      var k := Pick(keys);
      f(k) + SumOver(keys - {k}, f)
  }

  ghost function BrokenCount(t: Table): string -> nat {
    k => if k in t && t[k].value.Malformed? then 1 else 0
  }

  ghost function MissingCount(t: Table, catalog: Catalog): string -> nat {
    k => if k in t then
      match t[k].value
      case Decoded(Arr(e)) => CountMissing(e, catalog)
      case _ => 0
    else 0
  }

  /** The counters cleanup logs: expired rows, malformed rows and removed lines. */
  ghost function CleanupCounts(t: Table, now: int, catalog: Catalog): (nat, nat, nat) {
    var live := Unexpired(t, now);
    (|ExpiredKeys(t, now)|, SumOver(live.Keys, BrokenCount(live)), SumOver(live.Keys, MissingCount(live, catalog)))
  }

  /** The loop over one cart's lines: unset each line whose product does not resolve. */
  method PruneItems(items: Entries, catalog: Catalog) returns (kept: Entries, removed: nat)
    ensures kept == Prune(items, catalog)
    ensures removed == CountMissing(items, catalog)
  {
    kept, removed := [], 0;
    var i := 0;
    while i < |items|
      invariant 0 <= i <= |items|
      invariant kept == Prune(items[..i], catalog)
      invariant removed == CountMissing(items[..i], catalog)
    {
      assert items[..i + 1][..i] == items[..i];
      if Missing(items[i].1, catalog) {
        removed := removed + 1;
      } else {
        kept := kept + [items[i]];
      }
      i := i + 1;
    }
    assert items[..i] == items;
  }

  class CartStore {
    var rows: Table

    constructor (initial: Table)
      ensures rows == initial
    {
      rows := initial;
    }

    /** CartStorage::createSession. */
    method CreateSession(cfg: Token.Config, pw: Password, ttl: Option<int>, now: int) returns (s: Session)
      modifies this
      ensures s == Created(old(rows), cfg, pw, ttl, now).0
      ensures rows == Created(old(rows), cfg, pw, ttl, now).1
    {
      var k := GenerateCartKey(pw);
      var life := ttl.GetOr(Token.Ttl(cfg));
      var exp := now + life;
      if k !in rows {
        rows := rows[k := Row(Decoded(Arr([])), exp)];
      }
      var token := Token.Generate(cfg, k, Some(life), now);
      s := Session(k, token, [], exp);
    }

    /** CartStorage::save; returns the new expiry. */
    method Save(k: string, value: Entries, extend: bool, cfg: Token.Config, now: int) returns (exp: int)
      modifies this
      ensures (exp, rows) == Saved(old(rows), k, value, extend, cfg, now)
    {
      exp := if extend then now + Token.Ttl(cfg) else now + Token.HourInSeconds;
      if k in rows {
        rows := rows[k := Row(Decoded(Arr(value)), exp)];
      }
    }

    /** Deletes the row of `k`, if there is one. */
    method Delete(k: string)
      modifies this
      ensures rows == old(rows) - {k}
    {
      rows := rows - {k};
    }

    /**
     * CartStorage::cleanup: delete expired rows, then visit the remaining
     * rows (in no particular order), deleting malformed ones and pruning
     * lines whose product is gone. Returns the three counters it logs.
     */
    method Cleanup(now: int, catalog: Catalog) returns (expired: nat, broken: nat, missing: nat)
      modifies this
      ensures rows == Cleaned(old(rows), now, catalog)
      ensures (expired, broken, missing) == CleanupCounts(old(rows), now, catalog)
    {
      expired := |ExpiredKeys(rows, now)|;
      rows := Unexpired(rows, now);
      broken, missing := SweepAll(catalog);
    }

    /** Cleanup's loop over the rows left after the expiry delete. */
    method SweepAll(catalog: Catalog) returns (broken: nat, missing: nat)
      modifies this
      ensures rows == Swept(old(rows), old(rows).Keys, catalog)
      ensures broken == SumOver(old(rows).Keys, BrokenCount(old(rows)))
      ensures missing == SumOver(old(rows).Keys, MissingCount(old(rows), catalog))
    {
      var live := rows;
      var pending := live.Keys;
      broken, missing := 0, 0;
      while pending != {}
        invariant pending <= live.Keys
        invariant rows == Swept(live, live.Keys - pending, catalog)
        invariant broken + SumOver(pending, BrokenCount(live)) == SumOver(live.Keys, BrokenCount(live))
        invariant missing + SumOver(pending, MissingCount(live, catalog)) == SumOver(live.Keys, MissingCount(live, catalog))
        decreases pending
      {
        var k :| k in pending;
        SumOverRemove(pending, BrokenCount(live), k);
        SumOverRemove(pending, MissingCount(live, catalog), k);
        SweepStep(live, live.Keys - pending, k, catalog);
        assert live.Keys - (pending - {k}) == (live.Keys - pending) + {k};
        var b, m := SweepRow(live, k, catalog);
        broken, missing := broken + b, missing + m;
        pending := pending - {k};
      }
      assert live.Keys - pending == live.Keys;
    }

    /** One pass of cleanup's loop: drop a malformed row, or prune the lines of an array value. */
    method SweepRow(live: Table, k: string, catalog: Catalog) returns (broken: nat, missing: nat)
      requires k in live && k in rows && rows[k] == live[k]
      modifies this
      ensures rows == if live[k].value.Malformed? then old(rows) - {k} else old(rows)[k := CleanRow(live[k], catalog)]
      ensures broken == BrokenCount(live)(k) && missing == MissingCount(live, catalog)(k)
    {
      var row := rows[k];
      broken, missing := 0, 0;
      if row.value.Malformed? {
        rows := rows - {k};
        broken := 1;
      } else if row.value.v.Arr? {
        var kept, removed := PruneItems(row.value.v.entries, catalog);
        if removed > 0 {
          rows := rows[k := Row(Decoded(Arr(kept)), row.expiry)];
        } else {
          NothingMissing(row.value.v.entries, catalog);
          assert rows == rows[k := CleanRow(live[k], catalog)];
        }
        missing := removed;
      } else {
        assert rows == rows[k := CleanRow(live[k], catalog)];
      }
    }

    /** CartStorage::getOrCreateFromRequest. */
    method GetOrCreateFromRequest(cfg: Token.Config, headers: map<string, string>, pw: Password, now: int)
      returns (s: Session)
      modifies this
      ensures (s, rows) == Resolved(old(rows), cfg, headers, pw, now)
    {
      var maybeToken := Token.FromRequest(headers);
      if maybeToken.Some? && Truthy(maybeToken.value) {
        var verified := Token.Verify(cfg, maybeToken.value, now);
        if verified.Success? && !EmptyField(Lookup(verified.value, "cart_key")) {
          var loaded := Load(rows, ToStr(Lookup(verified.value, "cart_key").value), now);
          if loaded.Some? {
            return Session(loaded.value.cartKey, maybeToken.value, loaded.value.value, loaded.value.expiry);
          }
        }
      }
      s := CreateSession(cfg, pw, None, now);
    }
  }

  // ---------------------------------------------------------------------------
  // Proof helpers

  lemma {:induction false} SumOverRemove(keys: set<string>, f: string -> nat, k: string)
    requires k in keys
    ensures SumOver(keys, f) == f(k) + SumOver(keys - {k}, f)
    decreases keys
  {
    var p := Pick(keys);
    if p != k {
      SumOverRemove(keys - {p}, f, k);
      SumOverRemove(keys - {k}, f, p);
      assert keys - {p} - {k} == keys - {k} - {p};
    }
  }

  lemma {:induction false} SumOverZero(keys: set<string>, f: string -> nat)
    requires forall k :: k in keys ==> f(k) == 0
    ensures SumOver(keys, f) == 0
    decreases keys
  {
    if keys != {} {
      SumOverZero(keys - {Pick(keys)}, f);
    }
  }

  lemma SweepStep(t: Table, done: set<string>, k: string, catalog: Catalog)
    requires k in t && k !in done
    ensures Swept(t, done + {k}, catalog) ==
      if t[k].value.Malformed? then Swept(t, done, catalog) - {k}
      else Swept(t, done, catalog)[k := CleanRow(t[k], catalog)]
  {
  }

  lemma {:induction false} NothingMissing(items: Entries, catalog: Catalog)
    requires CountMissing(items, catalog) == 0
    ensures Prune(items, catalog) == items
    decreases |items|
  {
    if items != [] {
      NothingMissing(items[..|items| - 1], catalog);
      assert items[..|items| - 1] + [items[|items| - 1]] == items;
    }
  }

  // ---------------------------------------------------------------------------
  // Properties

  /** The cart key fits the `VARCHAR(64)` column, so a created row never loses its key. */
  lemma CartKeyFitsColumn(pw: Password)
    ensures |GenerateCartKey(pw)| <= KeyColumnWidth
  {
  }

  /** After the `ck_` prefix the key holds only letters and digits. */
  lemma CartKeyAlphabet(pw: Password)
    ensures forall i :: 3 <= i < |GenerateCartKey(pw)| ==> IsAlnum(GenerateCartKey(pw)[i])
  {
    var k := GenerateCartKey(pw);
    forall i | 3 <= i < |k| ensures IsAlnum(k[i]) {
      assert k[i] == pw[i - 3];
    }
  }

  /**
   * createSession adds exactly one row, with an empty value and expiry
   * `now + ttl`, and leaves every other row as it was.
   */
  lemma CreateAddsOneRow(t: Table, cfg: Token.Config, pw: Password, ttl: Option<int>, now: int)
    requires GenerateCartKey(pw) !in t
    ensures Created(t, cfg, pw, ttl, now).1.Keys == t.Keys + {GenerateCartKey(pw)}
    ensures |Created(t, cfg, pw, ttl, now).1| == |t| + 1
    ensures forall j :: j in t ==> Created(t, cfg, pw, ttl, now).1[j] == t[j]
    ensures Created(t, cfg, pw, ttl, now).1[GenerateCartKey(pw)] == Row(Decoded(Arr([])), now + ttl.GetOr(Token.Ttl(cfg)))
  {
    var exp := now + ttl.GetOr(Token.Ttl(cfg));
    InsertAddsOneRow(t, GenerateCartKey(pw), exp, exp);
  }

  /** The INSERT of a new key adds exactly that row, which `load` sees until its expiry. */
  lemma InsertAddsOneRow(t: Table, k: string, exp: int, later: int)
    requires k !in t && later <= exp
    ensures var t' := Inserted(t, k, exp);
      && t'.Keys == t.Keys + {k}
      && |t'| == |t| + 1
      && (forall j :: j in t ==> t'[j] == t[j])
      && t'[k] == Row(Decoded(Arr([])), exp)
      && Load(t', k, later) == Some(Loaded(k, [], exp))
  {
    var t' := Inserted(t, k, exp);
    assert t'.Keys == t.Keys + {k};
  }

  /** A colliding key leaves the table untouched, and the returned session names the row that was already there. */
  lemma CreateCollisionIsSilent(t: Table, cfg: Token.Config, pw: Password, ttl: Option<int>, now: int)
    requires GenerateCartKey(pw) in t
    ensures Created(t, cfg, pw, ttl, now).1 == t
    ensures Created(t, cfg, pw, ttl, now).0.cartKey in t
  {
  }

  /** The token of a new session verifies at any time up to its expiry and names the new key. */
  lemma CreatedTokenVerifies(t: Table, cfg: Token.Config, pw: Password, ttl: Option<int>, now: int, later: int)
    requires var life := ttl.GetOr(Token.Ttl(cfg));
      && now + life != 0 && later <= now + life
      && Token.JsonKeeps(cfg, Token.ClaimsValue(GenerateCartKey(pw), now, now + life, cfg.siteUrl))
    ensures var s := Created(t, cfg, pw, ttl, now).0;
      VerifiedKey(cfg, s.token, later) == Some(s.cartKey)
  {
    var k := GenerateCartKey(pw);
    var life := ttl.GetOr(Token.Ttl(cfg));
    assert k[0] == 'c';
    assert Token.ExpiryFor(cfg, Some(life), now) == now + life;
    var token := Token.Generate(cfg, k, Some(life), now);
    assert Created(t, cfg, pw, ttl, now).0 == Session(k, token, [], now + life);
    Token.VerifyGenerated(cfg, k, Some(life), now, later);
    var r := Token.Verify(cfg, token, later);
    assert r.Success? && Lookup(r.value, "cart_key") == Some(Str(k));
  }

  /** `load` sees a row up to and including its expiry second, and never after. */
  lemma ExpiredRowsInvisible(t: Table, k: string, now: int)
    requires k in t
    ensures Load(t, k, now).Some? <==> now <= t[k].expiry
  {
  }

  /** What `save` writes, `load` reads back, up to the new expiry; other keys are unaffected. */
  lemma SaveThenLoad(t: Table, k: string, value: Entries, extend: bool, cfg: Token.Config, now: int, later: int, other: string)
    requires k in t && later <= SaveExpiry(cfg, extend, now)
    requires other != k
    ensures var (exp, t') := Saved(t, k, value, extend, cfg, now);
      && Load(t', k, later) == Some(Loaded(k, value, exp))
      && Load(t', other, later) == Load(t, other, later)
  {
  }

  /** Saving under an unknown key creates nothing. */
  lemma SaveAbsentKeyNoop(t: Table, k: string, value: Entries, extend: bool, cfg: Token.Config, now: int)
    requires k !in t
    ensures Saved(t, k, value, extend, cfg, now).1 == t
  {
  }

  /** The lines Prune keeps are exactly the lines that do not point at a missing product. */
  lemma {:induction false} PruneKeepsExactly(items: Entries, catalog: Catalog)
    ensures forall x :: x in Prune(items, catalog) <==> x in items && !Missing(x.1, catalog)
    ensures |Prune(items, catalog)| + CountMissing(items, catalog) == |items|
    decreases |items|
  {
    if items != [] {
      var init := items[..|items| - 1];
      PruneKeepsExactly(init, catalog);
      assert items == init + [items[|items| - 1]];
    }
  }

  /** Pruning is idempotent: a pruned cart has nothing left to prune. */
  lemma {:induction false} PruneIdempotent(items: Entries, catalog: Catalog)
    ensures CountMissing(Prune(items, catalog), catalog) == 0
    ensures Prune(Prune(items, catalog), catalog) == Prune(items, catalog)
    decreases |items|
  {
    if items != [] {
      var init := items[..|items| - 1];
      var last := items[|items| - 1];
      PruneIdempotent(init, catalog);
      var p := Prune(init, catalog);
      assert Prune(items, catalog) == p + (if Missing(last.1, catalog) then [] else [last]);
      if Missing(last.1, catalog) {
        assert p + [] == p;
      } else {
        assert (p + [last])[..|p|] == p;
        assert CountMissing(p + [last], catalog) == CountMissing(p, catalog);
      }
      NothingMissing(Prune(items, catalog), catalog);
    }
  }

  /**
   * After cleanup: a row survives iff it was unexpired and well-formed; it
   * keeps its expiry, so no surviving row is expired; a surviving array cart
   * is exactly its lines minus those whose product is missing (lines without
   * a product id survive), and any other value is kept as it was.
   */
  lemma CleanupResult(t: Table, now: int, catalog: Catalog)
    ensures var c := Cleaned(t, now, catalog);
      && (forall k :: k in c <==> k in t && t[k].expiry >= now && !t[k].value.Malformed?)
      && (forall k :: k in c ==> c[k].expiry == t[k].expiry && c[k].expiry >= now)
      && (forall k :: k in c && t[k].value.Decoded? && t[k].value.v.Arr? ==>
            c[k] == Row(Decoded(Arr(Prune(t[k].value.v.entries, catalog))), t[k].expiry))
      && (forall k :: k in c && t[k].value.Decoded? && !t[k].value.v.Arr? ==> c[k] == t[k])
  {
  }

  /** No cart left by cleanup holds a line whose product is missing. */
  lemma CleanupLeavesNoMissing(t: Table, now: int, catalog: Catalog)
    ensures var c := Cleaned(t, now, catalog);
      forall k, i :: k in c && c[k].value.Decoded? && c[k].value.v.Arr? && 0 <= i < |c[k].value.v.entries| ==>
        !Missing(c[k].value.v.entries[i].1, catalog)
  {
    var c := Cleaned(t, now, catalog);
    forall k, i | k in c && c[k].value.Decoded? && c[k].value.v.Arr? && 0 <= i < |c[k].value.v.entries|
      ensures !Missing(c[k].value.v.entries[i].1, catalog)
    {
      PruneKeepsExactly(t[k].value.v.entries, catalog);
      assert c[k].value.v.entries[i] in Prune(t[k].value.v.entries, catalog);
    }
  }

  /** Cleanup is idempotent: a second run at the same time with the same catalog changes and counts nothing. */
  lemma CleanupIdempotent(t: Table, now: int, catalog: Catalog)
    ensures Cleaned(Cleaned(t, now, catalog), now, catalog) == Cleaned(t, now, catalog)
    ensures CleanupCounts(Cleaned(t, now, catalog), now, catalog) == (0, 0, 0)
  {
    var c := Cleaned(t, now, catalog);
    assert ExpiredKeys(c, now) == {};
    assert Unexpired(c, now) == c;
    forall k | k in c && c[k].value.Decoded? && c[k].value.v.Arr?
      ensures CountMissing(c[k].value.v.entries, catalog) == 0
      ensures Prune(c[k].value.v.entries, catalog) == c[k].value.v.entries
    {
      PruneIdempotent(t[k].value.v.entries, catalog);
    }
    assert Cleaned(c, now, catalog) == c;
    SumOverZero(c.Keys, BrokenCount(c));
    SumOverZero(c.Keys, MissingCount(c, catalog));
  }

  /**
   * getOrCreateFromRequest reuses exactly when a token is presented,
   * verifies, names a key and that key loads: the presented token comes
   * back unchanged and the table is untouched. Otherwise exactly one
   * createSession runs.
   */
  lemma ResolveReuseOrCreate(t: Table, cfg: Token.Config, headers: map<string, string>, pw: Password, now: int)
    ensures Reusable(t, cfg, headers, now).Some? <==>
      var token := PresentedToken(headers);
      && token.Some? && VerifiedKey(cfg, token.value, now).Some?
      && Load(t, VerifiedKey(cfg, token.value, now).value, now).Some?
    ensures Reusable(t, cfg, headers, now).Some? ==>
      var s := Resolved(t, cfg, headers, pw, now).0;
      && Resolved(t, cfg, headers, pw, now).1 == t
      && Some(s.token) == PresentedToken(headers)
      && Some(s.cartKey) == VerifiedKey(cfg, s.token, now)
      && Load(t, s.cartKey, now) == Some(Loaded(s.cartKey, s.value, s.expiry))
    ensures Reusable(t, cfg, headers, now).None? ==> Resolved(t, cfg, headers, pw, now) == Created(t, cfg, pw, None, now)
  {
    var reuse := Reusable(t, cfg, headers, now);
    if reuse.Some? {
      var token := PresentedToken(headers).value;
      var key := VerifiedKey(cfg, token, now).value;
      var loaded := Load(t, key, now).value;
      assert reuse.value == Session(loaded.cartKey, token, loaded.value, loaded.expiry);
      assert loaded.cartKey == key;
    }
  }

  /** Once the presented token's key is known, reuse is just `load` on that key. */
  lemma ReusableByKey(t: Table, cfg: Token.Config, headers: map<string, string>, now: int, token: string, key: string)
    requires PresentedToken(headers) == Some(token) && VerifiedKey(cfg, token, now) == Some(key)
    ensures Reusable(t, cfg, headers, now)
      == if Load(t, key, now).None? then None else Some(Session(key, token, Load(t, key, now).value.value, Load(t, key, now).value.expiry))
  {
  }

  /** Without a token header a request always gets a brand-new session. */
  lemma ResolveWithoutTokenCreates(t: Table, cfg: Token.Config, headers: map<string, string>, pw: Password, now: int)
    requires forall j :: 0 <= j < |Token.TokenHeaders| ==> !Truthy(Token.Header(headers, Token.TokenHeaders[j]))
    ensures Resolved(t, cfg, headers, pw, now) == Created(t, cfg, pw, None, now)
  {
  }

  /** A generated token sent in `X-HeadlessCart-Token` is what the request presents. */
  lemma PresentedGenerated(cfg: Token.Config, k: string, ttl: Option<int>, now: int)
    ensures var token := Token.Generate(cfg, k, ttl, now);
      PresentedToken(map["x-headlesscart-token" := token]) == Some(token)
  {
    var token := Token.Generate(cfg, k, ttl, now);
    var headers := map["x-headlesscart-token" := token];
    assert token[|Token.HeaderSegment(cfg)|] == '.';
    assert Truthy(token);
    assert Token.FirstTruthy(headers, Token.TokenHeaders) == 0;
    Token.GeneratedHasNoSpace(cfg, k, ttl, now);
  }

  /**
   * A session created at `now` and presented back in `X-HeadlessCart-Token`
   * at any time up to its expiry is reused: same key, same token, and no
   * new row.
   */
  lemma CreatedSessionIsReused(t: Table, cfg: Token.Config, pw: Password, pw2: Password, now: int, later: int)
    requires GenerateCartKey(pw) !in t
    requires now <= later <= now + Token.Ttl(cfg) && now + Token.Ttl(cfg) != 0
    requires Token.JsonKeeps(cfg, Token.ClaimsValue(GenerateCartKey(pw), now, now + Token.Ttl(cfg), cfg.siteUrl))
    ensures var created := Created(t, cfg, pw, None, now);
      Resolved(created.1, cfg, map["x-headlesscart-token" := created.0.token], pw2, later) == created
  {
    var created := Created(t, cfg, pw, None, now);
    var s := created.0;
    CreatedTokenVerifies(t, cfg, pw, None, now, later);
    PresentedGenerated(cfg, s.cartKey, Some(Token.Ttl(cfg)), now);
    InsertAddsOneRow(t, s.cartKey, s.expiry, later);
  }
}
