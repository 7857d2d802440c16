/**
 * Base64url without padding (section 5 of RFC 4648, Appendix C of RFC 7515),
 * built the way the plugin builds it: PHP's `base64_encode`, then `strtr`
 * from `+/` to `-_` and `rtrim` of `=`; decoding reverses the substitution,
 * pads to a multiple of four and calls PHP's (non-strict) `base64_decode`.
 */
module Base64Url {
  import opened Php

  /** A six-bit group, the unit of a base64 character. */
  type sextet = x: int | 0 <= x < 64

  /** Table 1 of RFC 4648: the standard alphabet. */
  function StdChar(v: sextet): char {
    if v < 26 then ('A' as int + v) as char
    else if v < 52 then ('a' as int + (v - 26)) as char
    else if v < 62 then ('0' as int + (v - 52)) as char
    else if v == 62 then '+'
    else '/'
  }

  /** The inverse of `StdChar`; `None` for characters outside the alphabet. */
  function StdValue(c: char): Option<sextet> {
    if 'A' <= c <= 'Z' then Some(c as int - 'A' as int)
    else if 'a' <= c <= 'z' then Some(c as int - 'a' as int + 26)
    else if '0' <= c <= '9' then Some(c as int - '0' as int + 52)
    else if c == '+' then Some(62)
    else if c == '/' then Some(63)
    else None
  }

  /** Table 2 of RFC 4648: the URL- and filename-safe alphabet. */
  predicate IsUrlChar(c: char) {
    ('A' <= c <= 'Z') || ('a' <= c <= 'z') || ('0' <= c <= '9') || c == '-' || c == '_'
  }

  /** Split bytes into sextets, three bytes to four sextets; a short tail gives two or three. */
  function Sextets(d: seq<byte>): seq<sextet>
    decreases |d|
  {
    if |d| == 0 then []
    else if |d| == 1 then [d[0] / 4, (d[0] % 4) * 16]
    else if |d| == 2 then [d[0] / 4, (d[0] % 4) * 16 + d[1] / 16, (d[1] % 16) * 4]
    else [d[0] / 4, (d[0] % 4) * 16 + d[1] / 16, (d[1] % 16) * 4 + d[2] / 64, d[2] % 64] + Sextets(d[3..])
  }

  function StdChars(v: seq<sextet>): string {
    seq(|v|, i requires 0 <= i < |v| => StdChar(v[i]))
  }

  function Equals(n: nat): string {
    seq(n, i => '=')
  }

  /** PHP's `base64_encode`: standard alphabet, `=` padding to a multiple of four. */
  function StdEncode(d: seq<byte>): string {
    StdChars(Sextets(d)) + Equals(if |d| % 3 == 0 then 0 else 3 - |d| % 3)
  }

  /** `strtr($s, from, to)` with two-character `from` and `to`. */
  function Strtr(s: string, from: (char, char), to: (char, char)): string {
    seq(|s|, i requires 0 <= i < |s| =>
      if s[i] == from.0 then to.0 else if s[i] == from.1 then to.1 else s[i])
  }

  /** `rtrim($s, '=')`. */
  function RTrimEquals(s: string): string
    decreases |s|
  {
    if s != [] && s[|s| - 1] == '=' then RTrimEquals(s[..|s| - 1]) else s
  }

  /** Base64Url::encode. */
  function Encode(d: seq<byte>): string {
    RTrimEquals(Strtr(StdEncode(d), ('+', '/'), ('-', '_')))
  }

  /**
   * PHP's non-strict `base64_decode`: characters outside the standard
   * alphabet (`=` among them) are skipped, the remaining sextets are packed
   * into bytes, and a last group of a single sextet contributes nothing.
   * It never fails.
   */
  function PhpBase64Decode(s: string): seq<byte> {
    Unsextets(Values(s))
  }

  function Values(s: string): seq<sextet>
    decreases |s|
  {
    if s == [] then []
    else
      var v := StdValue(s[0]);
      (if v.Some? then [v.value] else []) + Values(s[1..])
  }

  function Unsextets(v: seq<sextet>): seq<byte>
    decreases |v|
  {
    if |v| < 2 then []
    else
      var b0: byte := v[0] as int * 4 + v[1] as int / 16;
      if |v| == 2 then [b0]
      else
        var b1: byte := (v[1] as int % 16) * 16 + v[2] as int / 4;
        if |v| == 3 then [b0, b1]
        else
          var b2: byte := (v[2] as int % 4) * 64 + v[3] as int;
          [b0, b1, b2] + Unsextets(v[4..])
  }

  /** The `=` padding Base64Url::decode appends: `(4 - len % 4) % 4` characters. */
  function Padded(s: string): (r: string)
    ensures |r| % 4 == 0
    ensures |r| - |s| == (4 - |s| % 4) % 4
    ensures r[..|s|] == s && forall i :: |s| <= i < |r| ==> r[i] == '='
  {
    PadArithmetic(|s|);
    var pad := |s| % 4;
    if pad > 0 then s + Equals(4 - pad) else s
  }

  lemma PadArithmetic(n: nat)
    ensures n % 4 > 0 ==> (4 - n % 4) % 4 == 4 - n % 4 && (n + (4 - n % 4)) % 4 == 0
    ensures n % 4 == 0 ==> (4 - n % 4) % 4 == 0
  {
    var q, m := n / 4, n % 4;
    assert n == 4 * q + m;
    if m > 0 {
      assert n + (4 - m) == 4 * (q + 1);
    }
  }

  /** Base64Url::decode. */
  function Decode(s: string): seq<byte> {
    PhpBase64Decode(Padded(Strtr(s, ('-', '_'), ('+', '/'))))
  }

  // ---------------------------------------------------------------------------
  // Properties

  function UrlChar(v: sextet): char {
    if v == 62 then '-' else if v == 63 then '_' else StdChar(v)
  }

  function UrlChars(v: seq<sextet>): string {
    seq(|v|, i requires 0 <= i < |v| => UrlChar(v[i]))
  }

  /** Each group of three bytes survives the trip through four sextets. */
  lemma GroupRoundTrip(a: byte, b: byte, c: byte)
    ensures var s0, s1, s2, s3 := a / 4, (a % 4) * 16 + b / 16, (b % 16) * 4 + c / 64, c % 64;
      && s0 * 4 + s1 / 16 == a
      && (s1 % 16) * 16 + s2 / 4 == b
      && (s2 % 4) * 64 + s3 == c
  {
    var s1, s2 := (a % 4) * 16 + b / 16, (b % 16) * 4 + c / 64;
    assert s1 / 16 == a % 4 && s1 % 16 == b / 16;
    assert s2 / 4 == b % 16 && s2 % 4 == c / 64;
  }

  /** Unpacking the four sextets of a group gives the three bytes back, in front of the rest. */
  lemma GroupUnsextets(a: byte, b: byte, c: byte, rest: seq<sextet>)
    ensures Unsextets([a / 4, (a % 4) * 16 + b / 16, (b % 16) * 4 + c / 64, c % 64] + rest)
         == [a, b, c] + Unsextets(rest)
  {
    GroupRoundTrip(a, b, c);
    var v: seq<sextet> := [a / 4, (a % 4) * 16 + b / 16, (b % 16) * 4 + c / 64, c % 64] + rest;
    assert v[4..] == rest;
  }

  lemma {:induction false} SextetsRoundTrip(d: seq<byte>)
    ensures Unsextets(Sextets(d)) == d
    decreases |d|
  {
    if |d| == 1 {
      GroupRoundTrip(d[0], 0, 0);
    } else if |d| == 2 {
      GroupRoundTrip(d[0], d[1], 0);
    } else if |d| >= 3 {
      GroupUnsextets(d[0], d[1], d[2], Sextets(d[3..]));
      SextetsRoundTrip(d[3..]);
      assert d == [d[0], d[1], d[2]] + d[3..];
    }
  }

  lemma {:induction false} SextetsLength(d: seq<byte>)
    ensures |Sextets(d)| == (4 * |d| + 2) / 3
    decreases |d|
  {
    if |d| >= 3 {
      SextetsLength(d[3..]);
    }
  }

  lemma {:induction false} ValuesAppend(s: string, t: string)
    ensures Values(s + t) == Values(s) + Values(t)
    decreases |s|
  {
    if s == [] {
      assert s + t == t;
    } else {
      var head := var v := StdValue(s[0]); if v.Some? then [v.value] else [];
      assert (s + t)[0] == s[0];
      assert (s + t)[1..] == s[1..] + t;
      assert Values(s + t) == head + Values(s[1..] + t);
      assert Values(s) == head + Values(s[1..]);
      ValuesAppend(s[1..], t);
      assert head + (Values(s[1..]) + Values(t)) == (head + Values(s[1..])) + Values(t);
    }
  }

  lemma {:induction false} ValuesOfStdChars(v: seq<sextet>)
    ensures Values(StdChars(v)) == v
    decreases |v|
  {
    if v != [] {
      var s := StdChars(v);
      assert StdValue(s[0]) == Some(v[0]);
      assert s[1..] == StdChars(v[1..]);
      ValuesOfStdChars(v[1..]);
    }
  }

  lemma {:induction false} ValuesOfEquals(n: nat)
    ensures Values(Equals(n)) == []
    decreases n
  {
    if n > 0 {
      assert Equals(n)[1..] == Equals(n - 1);
      ValuesOfEquals(n - 1);
    }
  }

  lemma {:induction false} RTrimPadding(s: string, n: nat)
    requires s == [] || s[|s| - 1] != '='
    ensures RTrimEquals(s + Equals(n)) == s
    decreases n
  {
    if n > 0 {
      assert (s + Equals(n))[..|s| + n - 1] == s + Equals(n - 1);
      RTrimPadding(s, n - 1);
    } else {
      assert s + Equals(0) == s;
    }
  }

  /** Encode is the URL-safe alphabet applied to the sextets, with no padding. */
  lemma EncodeIsUrlChars(d: seq<byte>)
    ensures Encode(d) == UrlChars(Sextets(d))
  {
    var v := Sextets(d);
    var n := if |d| % 3 == 0 then 0 else 3 - |d| % 3;
    var swapped := Strtr(StdEncode(d), ('+', '/'), ('-', '_'));
    assert swapped == UrlChars(v) + Equals(n);
    var u := UrlChars(v);
    assert u != [] ==> u[|u| - 1] == UrlChar(v[|v| - 1]);
    RTrimPadding(u, n);
  }

  /** Only `A-Z a-z 0-9 - _` appear in an encoding: no `=`, `+` or `/`. */
  lemma EncodeAlphabet(d: seq<byte>)
    ensures forall i :: 0 <= i < |Encode(d)| ==> IsUrlChar(Encode(d)[i])
    ensures forall i :: 0 <= i < |Encode(d)| ==> Encode(d)[i] !in {'=', '+', '/'}
  {
    EncodeIsUrlChars(d);
  }

  /** The encoding has ceil(4n/3) characters, so its length is never 1 modulo 4. */
  lemma EncodeLength(d: seq<byte>)
    ensures |Encode(d)| == (4 * |d| + 2) / 3
    ensures |Encode(d)| % 4 != 1
  {
    EncodeIsUrlChars(d);
    SextetsLength(d);
  }

  /** The two substitutions are inverse on strings that avoid the other alphabet's two characters. */
  lemma SubstitutionInverse(s: string)
    ensures (forall i :: 0 <= i < |s| ==> s[i] != '-' && s[i] != '_') ==>
      Strtr(Strtr(s, ('+', '/'), ('-', '_')), ('-', '_'), ('+', '/')) == s
    ensures (forall i :: 0 <= i < |s| ==> s[i] != '+' && s[i] != '/') ==>
      Strtr(Strtr(s, ('-', '_'), ('+', '/')), ('+', '/'), ('-', '_')) == s
  {
  }

  /** Undoing the substitution and padding an encoding yields standard characters and `=` only. */
  lemma {:induction false} DecodeValues(v: seq<sextet>)
    ensures Values(Padded(Strtr(UrlChars(v), ('-', '_'), ('+', '/')))) == v
  {
    var back := Strtr(UrlChars(v), ('-', '_'), ('+', '/'));
    assert back == StdChars(v);
    var n := |Padded(back)| - |back|;
    assert Padded(back) == back + Equals(n);
    ValuesAppend(back, Equals(n));
    ValuesOfStdChars(v);
    ValuesOfEquals(n);
  }

  /** Decoding an encoding gives the original bytes back, so Encode is injective. */
  lemma RoundTrip(d: seq<byte>)
    ensures Decode(Encode(d)) == d
  {
    EncodeIsUrlChars(d);
    DecodeValues(Sextets(d));
    SextetsRoundTrip(d);
  }

  lemma EncodeInjective(d: seq<byte>, e: seq<byte>)
    ensures Encode(d) == Encode(e) ==> d == e
  {
    RoundTrip(d);
    RoundTrip(e);
  }
}
