/**
 * PHP values as `json_decode($x, true)` and the REST layer hand them to the
 * plugin, together with the few PHP operators the core applies to them:
 * `isset`, `??`, `empty`, the `(int)` cast, string truthiness, `trim`,
 * `strtolower` and substring search.
 *
 * A PHP array is an ordered list of (key, value) entries; keys are kept as
 * strings. Floats and objects are not part of this model.
 */
module Php {

  datatype Option<+T> = None | Some(value: T) {
    function GetOr(default: T): T {
      match this
      case Some(v) => v
      case None => default
    }
  }

  datatype Result<+T, +E> = Success(value: T) | Failure(error: E)

  /** One byte of a PHP binary string. */
  type byte = b: int | 0 <= b < 256

  datatype Value =
    | Null
    | Bool(b: bool)
    | Int(i: int)
    | Str(s: string)
    | Arr(entries: seq<(string, Value)>)

  /** The entries of a PHP array, in iteration order. */
  type Entries = seq<(string, Value)>

  /** PHP array keys are unique. */
  ghost predicate DistinctKeys(p: Entries) {
    forall i, j :: 0 <= i < j < |p| ==> p[i].0 != p[j].0
  }

  predicate HasKey(p: Entries, k: string) {
    exists i :: 0 <= i < |p| && p[i].0 == k
  }

  /** Position of the first entry with key `k`, or `|p|` when there is none. */
  function Find(p: Entries, k: string): (i: nat)
    ensures i <= |p|
    ensures i < |p| ==> p[i].0 == k
    ensures forall j :: 0 <= j < i ==> p[j].0 != k
    ensures i == |p| <==> !HasKey(p, k)
  {
    if p == [] then 0
    else if p[0].0 == k then 0
    else 1 + Find(p[1..], k)
  }

  /** `$p[$k]` when the key exists. */
  function Lookup(p: Entries, k: string): Option<Value> {
    var i := Find(p, k);
    if i < |p| then Some(p[i].1) else None
  }

  /** `$p[$k] = $v`: overwrite in place, or append a new key at the end. */
  function Put(p: Entries, k: string, v: Value): Entries {
    var i := Find(p, k);
    if i < |p| then p[i := (k, v)] else p + [(k, v)]
  }

  /** `unset($p[$k])`. */
  function Remove(p: Entries, k: string): Entries {
    var i := Find(p, k);
    if i < |p| then p[..i] + p[i + 1..] else p
  }

  /** Reading `$item[$k]` under `isset`, `??` or `empty`: a non-array has no offsets. */
  function Field(item: Value, k: string): Option<Value> {
    if item.Arr? then Lookup(item.entries, k) else None
  }

  /** `isset($x)` for a value that may be missing. */
  predicate IsSet(o: Option<Value>) {
    o.Some? && o.value != Null
  }

  /** `$x ?? $default`. */
  function Coalesce(o: Option<Value>, default: Value): Value {
    if IsSet(o) then o.value else default
  }

  /** `empty($v)`: PHP's falsy values. */
  predicate IsEmpty(v: Value) {
    match v
    case Null => true
    case Bool(b) => !b
    case Int(i) => i == 0
    case Str(s) => s == "" || s == "0"
    case Arr(e) => |e| == 0
  }

  /** `empty($x)` for a value that may be missing. */
  predicate EmptyField(o: Option<Value>) {
    o.None? || IsEmpty(o.value)
  }

  /** A string is truthy unless it is `""` or `"0"`. */
  predicate Truthy(s: string) {
    s != "" && s != "0"
  }

  predicate IsDigit(c: char) {
    '0' <= c <= '9'
  }

  predicate IsSpace(c: char) {
    c == ' ' || c == '\t' || c == '\n' || c == '\r' || c as int == 11 || c as int == 12
  }

  function SkipSpaces(s: string): string
    decreases |s|
  {
    if s != [] && IsSpace(s[0]) then SkipSpaces(s[1..]) else s
  }

  function SkipSpacesRight(s: string): string
    decreases |s|
  {
    if s != [] && IsSpace(s[|s| - 1]) then SkipSpacesRight(s[..|s| - 1]) else s
  }

  // ---------------------------------------------------------------------------
  // Numeric strings (PHP 8)

  const IntMax := 0x7FFF_FFFF_FFFF_FFFF
  const IntMin := -0x8000_0000_0000_0000

  /** 2^1024 - 2^970: the smallest magnitude that rounds to an infinite double. */
  const DoubleOverflow := 179769313486231580793728971405303415079934132710037826936173778980444968292764750946649017977587207096330286416692887910946555547851940402630657488671505820681908902000708383676273854845817711531764475730270069855571366959622842914819860834936475292719074168444365510704342711559699508093042880177904174497792

  function DigitOf(c: char): nat {
    if IsDigit(c) then c as int - '0' as int else 0
  }

  /** The digits of `s` read from the left onto `acc`. */
  function DigitsValue(s: string, acc: nat): nat
    decreases |s|
  {
    if s != [] && IsDigit(s[0]) then DigitsValue(s[1..], acc * 10 + DigitOf(s[0])) else acc
  }

  /**
   * A numeric prefix: its sign and the magnitude `mantissa * 10^scale`;
   * `integral` when it has neither a decimal point nor an exponent; `end`
   * the index just after it.
   */
  datatype Numeral = Numeral(negative: bool, mantissa: nat, scale: int, integral: bool, end: nat)

  datatype Phase = IntegerDigits | FractionDigits | ExponentDigits

  /**
   * What a scan has read so far: the digits outside the exponent as one
   * `mantissa` (`places` of them after the point, `digits` in all) and the
   * exponent's sign and digits.
   */
  datatype Scanned = Scanned(phase: Phase, negative: bool, mantissa: nat, places: nat, digits: nat,
                             expNegative: bool, exponent: nat)

  /** An exponent can start here: a digit, or a sign followed by one. */
  predicate ExponentFollows(b: string, i: nat) {
    (i < |b| && IsDigit(b[i])) || (i + 1 < |b| && (b[i] == '+' || b[i] == '-') && IsDigit(b[i + 1]))
  }

  /**
   * The scan of a numeric prefix from index `i`, one character at a time:
   * digits, at most one decimal point before any exponent, and an `e` or
   * `E` that starts an exponent only after some digit and when an exponent
   * follows. It ends at the first other character; no digit at all is no
   * number.
   */
  function ScanNumber(b: string, i: nat, st: Scanned): Option<Numeral>
    requires i <= |b|
    decreases |b| - i
  {
    if i < |b| && IsDigit(b[i]) && st.phase != ExponentDigits then
      var places := if st.phase == FractionDigits then st.places + 1 else st.places;
      ScanNumber(b, i + 1, st.(mantissa := st.mantissa * 10 + DigitOf(b[i]), places := places, digits := st.digits + 1))
    else if i < |b| && IsDigit(b[i]) then
      ScanNumber(b, i + 1, st.(exponent := st.exponent * 10 + DigitOf(b[i])))
    else if i < |b| && b[i] == '.' && st.phase == IntegerDigits then
      ScanNumber(b, i + 1, st.(phase := FractionDigits))
    else if i < |b| && (b[i] == 'e' || b[i] == 'E') && st.phase != ExponentDigits && st.digits > 0
      && ExponentFollows(b, i + 1)
    then
      var signed := b[i + 1] == '+' || b[i + 1] == '-';
      ScanNumber(b, if signed then i + 2 else i + 1, st.(phase := ExponentDigits, expNegative := b[i + 1] == '-'))
    else if st.digits == 0 then None
    else
      var exponent: int := st.exponent;
      var power := if st.expNegative then -exponent else exponent;
      Some(Numeral(st.negative, st.mantissa, power - st.places, st.phase == IntegerDigits, i))
  }

  /** The longest numeric prefix of `b`: an optional sign, then what `ScanNumber` reads. */
  function NumericPrefix(b: string): Option<Numeral> {
    var signed := b != [] && (b[0] == '+' || b[0] == '-');
    ScanNumber(b, if signed then 1 else 0, Scanned(IntegerDigits, signed && b[0] == '-', 0, 0, 0, false, 0))
  }

  /** PHP 8's numeric strings: a numeric prefix making up the whole string apart from white space around it. */
  predicate IsNumericString(s: string) {
    var b := SkipSpacesRight(SkipSpaces(s));
    var p := NumericPrefix(b);
    p.Some? && p.value.end == |b|
  }

  /** The integral part of `mantissa * 10^scale`. */
  function Whole(mantissa: nat, scale: int): nat
    decreases if scale < 0 then -scale else scale
  {
    if scale == 0 then mantissa
    else if scale > 0 then Whole(mantissa * 10, scale - 1)
    else Whole(mantissa / 10, scale + 1)
  }

  /**
   * `(int) $s` in PHP 8: the numeric prefix after leading white space, and
   * 0 when there is none. An integer prefix that fits 64 bits is taken as
   * it is. Any other prefix is read as a double, which is truncated toward
   * zero and saturates at the 64-bit bounds; a magnitude too large for a
   * double (at least `DoubleOverflow`, a bound an integral part reaches
   * exactly when the number does) is infinite and gives 0.
   */
  function StringToInt(s: string): (r: int)
    ensures IntMin <= r <= IntMax
  {
    var p := NumericPrefix(SkipSpaces(s));
    if p.None? then 0
    else
      var n := p.value;
      var whole: int := Whole(n.mantissa, n.scale);
      var v := if n.negative then -whole else whole;
      if n.integral && IntMin <= v <= IntMax then v
      else if whole >= DoubleOverflow then 0
      else if v > IntMax then IntMax
      else if v < IntMin then IntMin
      else v
  }

  /** `(int) $v`. */
  function ToInt(v: Value): int {
    match v
    case Null => 0
    case Bool(b) => if b then 1 else 0
    case Int(i) => i
    case Str(s) => StringToInt(s)
    case Arr(e) => if |e| == 0 then 0 else 1
  }

  function NatToString(n: nat): string
    decreases n
  {
    var d := [('0' as int + n % 10) as char];
    if n < 10 then d else NatToString(n / 10) + d
  }

  /** The decimal form PHP gives an integer in a string context. */
  function IntToString(i: int): string {
    if i < 0 then "-" + NatToString(-i) else NatToString(i)
  }

  /**
   * A scalar passed where PHP expects a string: integers become their
   * decimal form, `true` becomes "1", `false` and null become "".
   * Arrays raise a TypeError in PHP; they are mapped to "" here.
   */
  function ToStr(v: Value): string {
    match v
    case Str(s) => s
    case Int(i) => IntToString(i)
    case Bool(b) => if b then "1" else ""
    case Null => ""
    case Arr(_) => ""
  }

  /** The characters `trim` strips by default. */
  predicate IsTrimmed(c: char) {
    c == ' ' || c == '\t' || c == '\n' || c == '\r' || c as int == 0 || c as int == 11
  }

  function TrimLeft(s: string): string
    decreases |s|
  {
    if s != [] && IsTrimmed(s[0]) then TrimLeft(s[1..]) else s
  }

  function TrimRight(s: string): string
    decreases |s|
  {
    if s != [] && IsTrimmed(s[|s| - 1]) then TrimRight(s[..|s| - 1]) else s
  }

  /** `trim($s)`. */
  function Trim(s: string): string {
    TrimRight(TrimLeft(s))
  }

  function LowerChar(c: char): char {
    if 'A' <= c <= 'Z' then (c as int - 'A' as int + 'a' as int) as char else c
  }

  /** `strtolower($s)`: ASCII letters only. */
  function Lower(s: string): string {
    seq(|s|, i requires 0 <= i < |s| => LowerChar(s[i]))
  }

  /** `substr_count($s, $c)` for a one-character needle. */
  function CountChar(s: string, c: char): nat
    decreases |s|
  {
    if s == [] then 0 else (if s[0] == c then 1 else 0) + CountChar(s[1..], c)
  }

  /** `explode($c, $s)` for a one-character separator: the pieces between separators, in order. */
  function Explode(s: string, c: char): (parts: seq<string>)
    ensures |parts| == CountChar(s, c) + 1
    ensures forall k :: 0 <= k < |parts| ==> c !in parts[k]
    decreases |s|
  {
    if s == [] then [""]
    else
      var rest := Explode(s[1..], c);
      if s[0] == c then [""] + rest else [[s[0]] + rest[0]] + rest[1..]
  }

  /** Exploding `a . rest`, where `a` holds no separator, peels `a` off the front. */
  lemma {:induction false} ExplodeCons(a: string, c: char, rest: string)
    requires c !in a
    ensures Explode(a + [c] + rest, c) == [a] + Explode(rest, c)
    ensures CountChar(a + [c] + rest, c) == CountChar(rest, c) + 1
    decreases |a|
  {
    var s := a + [c] + rest;
    if a == [] {
      assert s[1..] == rest;
    } else {
      assert s[0] == a[0] && s[1..] == a[1..] + [c] + rest;
      ExplodeCons(a[1..], c, rest);
      var tail := Explode(s[1..], c);
      assert tail[0] == a[1..] && tail[1..] == Explode(rest, c);
      assert [a[0]] + a[1..] == a;
    }
  }

  /** A string with no separator explodes to itself. */
  lemma {:induction false} ExplodeNone(a: string, c: char)
    requires c !in a
    ensures Explode(a, c) == [a]
    ensures CountChar(a, c) == 0
    decreases |a|
  {
    if a != [] {
      ExplodeNone(a[1..], c);
      assert [a[0]] + a[1..] == a;
    }
  }

  /** `Find` is the first position holding the key. */
  lemma FindIs(p: Entries, k: string, i: nat)
    requires i < |p| && p[i].0 == k && forall j :: 0 <= j < i ==> p[j].0 != k
    ensures Find(p, k) == i
  {
    var f := Find(p, k);
    assert f <= i;
  }

  /** After `$p[$k] = $v`, reading `$p[$k]` gives `$v`. */
  lemma {:induction false} PutFind(p: Entries, k: string, v: Value)
    ensures Lookup(Put(p, k, v), k) == Some(v)
  {
    var i := Find(p, k);
    if i == |p| {
      var q := p + [(k, v)];
      assert forall j :: 0 <= j < |p| ==> q[j].0 != k;
      FindIs(q, k, |p|);
    } else {
      FindIs(p[i := (k, v)], k, i);
    }
  }

  /** `$p[$k] = $v` leaves every other key's value alone. */
  lemma {:induction false} PutOther(p: Entries, k: string, v: Value, other: string)
    requires other != k
    ensures Lookup(Put(p, k, v), other) == Lookup(p, other)
  {
    var j := Find(p, other);
    var q := Put(p, k, v);
    if j < |p| {
      FindIs(q, other, j);
    } else {
      assert forall x :: 0 <= x < |q| ==> q[x].0 != other;
    }
  }

  /** Overwriting an existing key keeps the key order and changes only that position. */
  lemma PutExisting(p: Entries, k: string, v: Value)
    requires HasKey(p, k)
    ensures var q := Put(p, k, v);
      && |q| == |p| && Find(q, k) == Find(p, k)
      && (forall i :: 0 <= i < |p| ==> q[i].0 == p[i].0)
      && (forall i :: 0 <= i < |p| && i != Find(p, k) ==> q[i] == p[i])
      && q[Find(p, k)] == (k, v)
  {
    var i := Find(p, k);
    FindIs(Put(p, k, v), k, i);
  }

  /** A second write to the same key replaces the first. */
  lemma PutPut(p: Entries, k: string, v: Value, w: Value)
    ensures Put(Put(p, k, v), k, w) == Put(p, k, w)
  {
    var q := Put(p, k, v);
    PutFind(p, k, v);
    PutExisting(q, k, w);
    if HasKey(p, k) {
      PutExisting(p, k, v);
    } else {
      FindIs(q, k, |p|);
    }
  }

  /** Dropping position `i` shifts every later entry down by one. */
  lemma DropAt(p: Entries, i: nat)
    requires i < |p|
    ensures var r := p[..i] + p[i + 1..];
      && |r| == |p| - 1
      && (forall x :: 0 <= x < i ==> r[x] == p[x])
      && (forall x :: i <= x < |r| ==> r[x] == p[x + 1])
  {
  }

  /** `unset($p[$k])` leaves every other key's value alone. */
  lemma {:induction false} RemoveOther(p: Entries, k: string, other: string)
    requires other != k
    ensures Lookup(Remove(p, k), other) == Lookup(p, other)
  {
    var i := Find(p, k);
    if i < |p| {
      var r := p[..i] + p[i + 1..];
      DropAt(p, i);
      var j := Find(p, other);
      if j < i {
        FindIs(r, other, j);
      } else if j < |p| {
        assert j != i;
        FindIs(r, other, j - 1);
      } else {
        assert forall x :: 0 <= x < |r| ==> r[x].0 != other;
      }
    }
  }

  /** With distinct keys, `unset($p[$k])` leaves no entry for the key and keeps the others in order. */
  lemma RemoveGone(p: Entries, k: string)
    requires DistinctKeys(p)
    ensures !HasKey(Remove(p, k), k)
    ensures DistinctKeys(Remove(p, k))
    ensures forall x :: x in Remove(p, k) <==> x in p && x.0 != k
  {
    var i := Find(p, k);
    if i < |p| {
      var r := p[..i] + p[i + 1..];
      DropAt(p, i);
      assert Remove(p, k) == r;
      forall x | 0 <= x < |r| ensures r[x].0 != k && r[x] in p {
        if x < i { assert r[x] == p[x]; } else { assert r[x] == p[x + 1]; }
      }
      forall x | x in p && x.0 != k ensures x in r {
        var j :| 0 <= j < |p| && p[j] == x;
        if j < i { assert r[j] == x; } else { assert r[j - 1] == x; }
      }
      forall a, b | 0 <= a < b < |r| ensures r[a].0 != r[b].0 {
        var a', b' := if a < i then a else a + 1, if b < i then b else b + 1;
        assert r[a] == p[a'] && r[b] == p[b'];
      }
    }
  }

  /** `str_contains($s, $sub)`, also `strpos($s, $sub) !== false`. */
  predicate IsSubstring(sub: string, s: string)
    decreases |s|
  {
    (|sub| <= |s| && s[..|sub|] == sub) || (s != [] && IsSubstring(sub, s[1..]))
  }

  lemma {:induction false} SubstringAt(sub: string, s: string, i: nat)
    requires i + |sub| <= |s| && s[i..i + |sub|] == sub
    ensures IsSubstring(sub, s)
    decreases i
  {
    if i > 0 {
      assert s[1..][i - 1..i - 1 + |sub|] == s[i..i + |sub|];
      SubstringAt(sub, s[1..], i - 1);
    }
  }

  /** Containment is transitive: whatever contains `b` contains every part of `b`. */
  lemma {:induction false} SubstringTransitive(a: string, b: string, s: string)
    requires IsSubstring(a, b) && IsSubstring(b, s)
    ensures IsSubstring(a, s)
    decreases |s|
  {
    if |b| <= |s| && s[..|b|] == b {
      var i := SubstringPosition(a, b);
      assert i + |a| <= |b|;
      forall k | 0 <= k < |a| ensures s[i + k] == a[k] {
        assert s[..|b|][i + k] == s[i + k];
        assert b[i..i + |a|][k] == b[i + k];
      }
      assert s[i..i + |a|] == a;
      SubstringAt(a, s, i);
    } else {
      SubstringTransitive(a, b, s[1..]);
      var j := SubstringPosition(a, s[1..]);
      assert s[j + 1..j + 1 + |a|] == s[1..][j..j + |a|];
      SubstringAt(a, s, j + 1);
    }
  }

  lemma {:induction false} SubstringPosition(sub: string, s: string) returns (i: nat)
    requires IsSubstring(sub, s)
    ensures i + |sub| <= |s| && s[i..i + |sub|] == sub
    decreases |s|
  {
    if |sub| <= |s| && s[..|sub|] == sub {
      i := 0;
    } else {
      var j := SubstringPosition(sub, s[1..]);
      assert s[j + 1..j + 1 + |sub|] == s[1..][j..j + |sub|];
      i := j + 1;
    }
  }

  /** An entry under another key survives a write. */
  lemma PutKeeps(p: Entries, k: string, v: Value, x: (string, Value))
    requires x in p && x.0 != k
    ensures x in Put(p, k, v)
  {
    var j :| 0 <= j < |p| && p[j] == x;
    assert Put(p, k, v)[j] == x;
  }

  /** An entry under another key survives an `unset`. */
  lemma RemoveKeeps(p: Entries, k: string, x: (string, Value))
    requires x in p && x.0 != k
    ensures x in Remove(p, k)
  {
    var j :| 0 <= j < |p| && p[j] == x;
    var i := Find(p, k);
    if i < |p| {
      var r := p[..i] + p[i + 1..];
      if j < i {
        assert r[j] == x;
      } else {
        assert j != i;
        assert r[j - 1] == x;
      }
    }
  }

  // ---------------------------------------------------------------------------
  // Sequences

  /** `a` is `b` with some elements left out and the rest in their order. */
  predicate Subsequence<T(==)>(a: seq<T>, b: seq<T>)
    decreases |b|
  {
    a == [] || (b != [] && if a[0] == b[0] then Subsequence(a[1..], b[1..]) else Subsequence(a, b[1..]))
  }

  /** `array_filter($p)`: the entries whose value is truthy, with their keys and in their order. */
  function ArrayFilter(p: Entries): (r: Entries)
    ensures forall x :: x in r <==> x in p && !IsEmpty(x.1)
    ensures Subsequence(r, p)
    decreases |p|
  {
    if p == [] then []
    else
      assert p == [p[0]] + p[1..];
      if IsEmpty(p[0].1) then ArrayFilter(p[1..]) else [p[0]] + ArrayFilter(p[1..])
  }

  // ---------------------------------------------------------------------------
  // Integer casts

  /** Reading one more digit multiplies what was read by ten and adds it. */
  lemma {:induction false} DigitsValueAppend(s: string, c: char, acc: nat)
    requires forall k :: 0 <= k < |s| ==> IsDigit(s[k])
    requires IsDigit(c)
    ensures DigitsValue(s + [c], acc) == DigitsValue(s, acc) * 10 + DigitOf(c)
    decreases |s|
  {
    if s != [] {
      assert (s + [c])[1..] == s[1..] + [c];
      DigitsValueAppend(s[1..], c, acc * 10 + DigitOf(s[0]));
    }
  }

  /** The decimal form of a natural number is a non-empty run of digits with that value. */
  lemma {:induction false} NatToStringDigits(n: nat)
    ensures |NatToString(n)| >= 1
    ensures forall k :: 0 <= k < |NatToString(n)| ==> IsDigit(NatToString(n)[k])
    ensures DigitsValue(NatToString(n), 0) == n
    ensures n >= 1 ==> Truthy(NatToString(n))
    decreases n
  {
    var s := NatToString(n);
    var d := ('0' as int + n % 10) as char;
    if n >= 10 {
      NatToStringDigits(n / 10);
      assert s == NatToString(n / 10) + [d];
      DigitsValueAppend(NatToString(n / 10), d, 0);
    }
  }

  /** A string cast of a non-empty scalar is truthy. */
  lemma ToStrTruthy(v: Value)
    requires !IsEmpty(v) && !v.Arr?
    ensures Truthy(ToStr(v))
  {
    if v.Int? {
      if v.i < 0 {
        NatToStringDigits(-v.i);
      } else {
        NatToStringDigits(v.i);
      }
    }
  }

  /** A run of digits to the end of the string is read whole, as an integer prefix. */
  lemma {:induction false} ScanDigits(b: string, i: nat, negative: bool, m: nat, count: nat)
    requires i <= |b| && forall k :: i <= k < |b| ==> IsDigit(b[k])
    ensures ScanNumber(b, i, Scanned(IntegerDigits, negative, m, 0, count, false, 0))
      == if count + (|b| - i) == 0 then None else Some(Numeral(negative, DigitsValue(b[i..], m), 0, true, |b|))
    decreases |b| - i
  {
    if i < |b| {
      assert b[i..][1..] == b[i + 1..];
      ScanDigits(b, i + 1, negative, m * 10 + DigitOf(b[i]), count + 1);
    }
  }

  /** A string of digits is read whole, as an integer prefix. */
  lemma DigitsPrefix(s: string)
    requires |s| >= 1 && forall k :: 0 <= k < |s| ==> IsDigit(s[k])
    ensures SkipSpaces(s) == s
    ensures NumericPrefix(s) == Some(Numeral(false, DigitsValue(s, 0), 0, true, |s|))
  {
    ScanDigits(s, 0, false, 0, 0);
    assert s[0..] == s;
  }

  /** `(int) (string) $i` for an integer of any size: itself within 64 bits, saturated beyond, and 0 beyond the doubles. */
  lemma IntCast(i: int)
    ensures var r := StringToInt(IntToString(i));
      && (IntMin <= i <= IntMax ==> r == i)
      && (IntMax < i < DoubleOverflow ==> r == IntMax)
      && (-DoubleOverflow < i < IntMin ==> r == IntMin)
      && (i >= DoubleOverflow || i <= -DoubleOverflow ==> r == 0)
  {
    var n: nat := if i < 0 then -i else i;
    NatToStringDigits(n);
    DigitsPrefix(NatToString(n));
    var s := IntToString(i);
    if i < 0 {
      assert s[1..] == NatToString(n);
      assert SkipSpaces(s) == s;
      ScanDigits(s, 1, true, 0, 0);
    }
  }

  /** `(int) (string) $i == $i` for every 64-bit integer. */
  lemma IntCastRoundTrip(i: int)
    requires IntMin <= i <= IntMax
    ensures StringToInt(IntToString(i)) == i
  {
    IntCast(i);
  }

  /** `(int) "1e3"` reads the exponent. */
  lemma CastReadsExponent()
    ensures StringToInt("1e3") == 1000
  {
    var st := Scanned(IntegerDigits, false, 0, 0, 0, false, 0);
    assert ExponentFollows("1e3", 2);
    assert ScanNumber("1e3", 1, st.(mantissa := 1, digits := 1)) == ScanNumber("1e3", 2, Scanned(ExponentDigits, false, 1, 0, 1, false, 0));
    assert NumericPrefix("1e3") == Some(Numeral(false, 1, 3, false, 3));
  }

  /** `(int) "-3.9"` truncates toward zero. */
  lemma CastTruncates()
    ensures StringToInt("-3.9") == -3
  {
    var st := Scanned(IntegerDigits, true, 0, 0, 0, false, 0);
    assert ScanNumber("-3.9", 2, st.(mantissa := 3, digits := 1)) == ScanNumber("-3.9", 3, Scanned(FractionDigits, true, 3, 0, 1, false, 0));
    assert NumericPrefix("-3.9") == Some(Numeral(true, 39, -1, false, 4));
  }

  /** `(int) " 12abc"` skips the leading space and stops where the number does. */
  lemma CastReadsPrefix()
    ensures StringToInt(" 12abc") == 12
  {
    assert SkipSpaces(" 12abc") == "12abc";
    assert !ExponentFollows("12abc", 3);
    assert NumericPrefix("12abc") == Some(Numeral(false, 12, 0, true, 2));
  }

  /** A string without a numeric prefix casts to 0. */
  lemma CastWithoutPrefix()
    ensures StringToInt("abc") == 0 && StringToInt("") == 0 && StringToInt(".") == 0
  {
    assert NumericPrefix("abc") == None;
    assert NumericPrefix(".") == None;
  }
}
