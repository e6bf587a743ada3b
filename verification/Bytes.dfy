/**
 Byte strings, fixed-width integers and the lower-case hexadecimal text form that the
 chain code uses for map keys and for persisted identifiers.
 */
module Bytes {

  type Byte = b: int | 0 <= b < 256

  type Bytes = seq<Byte>

  datatype Option<+T> = None | Some(value: T)

  datatype Result<+T, +E> = Ok(value: T) | Err(error: E)

  const U16_MAX: nat := 0xFFFF
  const U32_MAX: nat := 0xFFFF_FFFF
  const U32_MODULUS: nat := 0x1_0000_0000
  const U64_MAX: nat := 0xFFFF_FFFF_FFFF_FFFF
  const U64_MODULUS: nat := 0x1_0000_0000_0000_0000

  type U16 = x: nat | x <= 0xFFFF
  type U32 = x: nat | x <= 0xFFFF_FFFF
  type U64 = x: nat | x <= 0xFFFF_FFFF_FFFF_FFFF

  /** `+=` on `u64` as the release profile compiles it: the carry is lost. */
  function WrappingAdd(x: U64, y: U64): U64 {
    if x + y <= U64_MAX then x + y else x + y - U64_MODULUS
  }

  function SaturatingAdd(x: nat, y: nat, max: nat): nat {
    if x + y <= max then x + y else max
  }

  function Min(x: int, y: int): int {
    if x <= y then x else y
  }

  // ---------- little-endian integers ----------

  /** `to_le_bytes` of a `width`-byte integer. */
  function LittleEndian(v: nat, width: nat): (r: Bytes)
    ensures |r| == width
    ensures width > 0 ==> r[0] == v % 256
  {
    if width == 0 then [] else [v % 256] + LittleEndian(v / 256, width - 1)
  }

  function FromLittleEndian(b: Bytes): nat {
    if b == [] then 0 else b[0] + 256 * FromLittleEndian(b[1..])
  }

  function Pow256(n: nat): nat {
    if n == 0 then 1 else 256 * Pow256(n - 1)
  }

  lemma {:induction false} LittleEndianRoundTrip(v: nat, width: nat)
    requires v < Pow256(width)
    ensures FromLittleEndian(LittleEndian(v, width)) == v
  {
    if width > 0 {
      LittleEndianRoundTrip(v / 256, width - 1);
      assert LittleEndian(v, width)[1..] == LittleEndian(v / 256, width - 1);
    }
  }

  /** Every byte string is the little-endian form of some number. */
  lemma {:induction false} FromLittleEndianRoundTrip(b: Bytes)
    ensures FromLittleEndian(b) < Pow256(|b|)
    ensures LittleEndian(FromLittleEndian(b), |b|) == b
  {
    if b != [] {
      var rest := b[1..];
      FromLittleEndianRoundTrip(rest);
      Digits(b[0], FromLittleEndian(rest));
      assert FromLittleEndian(b) == b[0] + 256 * FromLittleEndian(rest);
      assert LittleEndian(FromLittleEndian(b), |b|) == [b[0]] + LittleEndian(FromLittleEndian(rest), |rest|);
      hide LittleEndian, FromLittleEndian;
      assert b == [b[0]] + rest;
    }
  }

  lemma Digits(low: Byte, high: nat)
    ensures (low + 256 * high) % 256 == low && (low + 256 * high) / 256 == high
  {
  }

  lemma WordSizes()
    ensures Pow256(4) == U32_MODULUS
    ensures Pow256(8) == U64_MODULUS
  {
    assert Pow256(1) == 256;
    assert Pow256(2) == 0x1_0000;
    assert Pow256(3) == 0x100_0000;
    assert Pow256(4) == 0x1_0000_0000;
    assert Pow256(5) == 0x100_0000_0000;
    assert Pow256(6) == 0x1_0000_0000_0000;
    assert Pow256(7) == 0x100_0000_0000_0000;
  }

  lemma {:induction false} WordRecovered(x: nat, y: nat, width: nat)
    requires x < Pow256(width) && y < Pow256(width)
    requires LittleEndian(x, width) == LittleEndian(y, width)
    ensures x == y
  {
    hide LittleEndian, FromLittleEndian;
    LittleEndianRoundTrip(x, width);
    LittleEndianRoundTrip(y, width);
  }

  // ---------- hexadecimal text ----------

  const HEX_DIGITS: string := "0123456789abcdef"

  function HexDigit(n: nat): char
    requires n < 16
  {
    HEX_DIGITS[n]
  }

  function HexValue(c: char): (r: Option<nat>)
    ensures r.Some? ==> r.value < 16
  {
    if '0' <= c <= '9' then Some((c - '0') as nat)
    else if 'a' <= c <= 'f' then Some((c - 'a') as nat + 10)
    else if 'A' <= c <= 'F' then Some((c - 'A') as nat + 10)
    else None
  }

  /** `hex::encode`. */
  function HexEncode(b: Bytes): (s: string)
    ensures |s| == 2 * |b|
  {
    if b == [] then "" else [HexDigit(b[0] / 16), HexDigit(b[0] % 16)] + HexEncode(b[1..])
  }

  /** `hex::decode`: an odd length or a non-digit is an error. */
  function HexDecode(s: string): Option<Bytes> {
    if |s| == 0 then Some([])
    else if |s| == 1 then None
    else
      var h, l, rest := HexValue(s[0]), HexValue(s[1]), HexDecode(s[2..]);
      if h.Some? && l.Some? && rest.Some? then Some([HexPair(h.value, l.value)] + rest.value) else None
  }

  function HexPair(h: nat, l: nat): Byte
    requires h < 16 && l < 16
  {
    16 * h + l
  }

  /** Two lower-case digits per byte, the high half first. */
  lemma {:induction false} HexDigitsOf(b: Bytes, i: nat)
    requires i < |b|
    ensures HexEncode(b)[2 * i] == "0123456789abcdef"[b[i] / 16] && HexEncode(b)[2 * i + 1] == "0123456789abcdef"[b[i] % 16]
  {
    if i > 0 {
      HexDigitsOf(b[1..], i - 1);
    }
  }

  /** A text decodes exactly if it is made of digits in pairs; case does not matter. */
  lemma {:induction false} HexDecodesIff(s: string)
    ensures HexDecode(s).Some? <==>
      |s| % 2 == 0 && forall i | 0 <= i < |s| :: '0' <= s[i] <= '9' || 'a' <= s[i] <= 'f' || 'A' <= s[i] <= 'F'
    ensures HexDecode(s).Some? ==> |HexDecode(s).value| == |s| / 2
  {
    if |s| >= 2 {
      HexDecodesIff(s[2..]);
      assert s == s[..2] + s[2..];
      assert forall i | 2 <= i < |s| :: s[i] == s[2..][i - 2];
    }
  }

  lemma HexDigitRoundTrip(n: nat)
    requires n < 16
    ensures HexValue(HexDigit(n)) == Some(n)
  {
    assert HEX_DIGITS[0] == '0' && HEX_DIGITS[9] == '9' && HEX_DIGITS[10] == 'a' && HEX_DIGITS[15] == 'f';
  }

  lemma HexDecodeByte(c: char, d: char, h: nat, l: nat, text: string, rest: Bytes)
    requires HexValue(c) == Some(h) && HexValue(d) == Some(l) && HexDecode(text) == Some(rest)
    ensures HexDecode([c, d] + text) == Some([HexPair(h, l)] + rest)
  {
    assert ([c, d] + text)[2..] == text;
  }

  lemma {:induction false} HexRoundTrip(b: Bytes)
    ensures HexDecode(HexEncode(b)) == Some(b)
  {
    if b != [] {
      var h, l := b[0] / 16, b[0] % 16;
      HexRoundTrip(b[1..]);
      HexDigitRoundTrip(h);
      HexDigitRoundTrip(l);
      HexDecodeByte(HexDigit(h), HexDigit(l), h, l, HexEncode(b[1..]), b[1..]);
      assert [b[0]] + b[1..] == b;
    }
  }

  lemma HexInjective(a: Bytes, b: Bytes)
    requires HexEncode(a) == HexEncode(b)
    ensures a == b
  {
    HexRoundTrip(a);
    HexRoundTrip(b);
  }
}

/** Sums over the values of a finite map: the "total supply" of a ledger column. */
module MapSums {

  ghost function Sum<K>(m: map<K, nat>): nat {
    SumOver(m, m.Keys)
  }

  ghost function SumOver<K>(m: map<K, nat>, keys: set<K>): nat
    requires keys <= m.Keys
  {
    if keys == {} then 0
    else
      var k :| k in keys;
      m[k] + SumOver(m, keys - {k})
  }

  function Lookup<K>(m: map<K, nat>, k: K): nat {
    if k in m then m[k] else 0
  }

  lemma {:induction false} SumOverRemove<K>(m: map<K, nat>, keys: set<K>, k: K)
    requires k in keys && keys <= m.Keys
    ensures SumOver(m, keys) == m[k] + SumOver(m, keys - {k})
    decreases keys
  {
    var c :| c in keys && SumOver(m, keys) == m[c] + SumOver(m, keys - {c});
    if c != k {
      SumOverRemove(m, keys - {c}, k);
      SumOverRemove(m, keys - {k}, c);
      assert keys - {c} - {k} == keys - {k} - {c};
    }
  }

  lemma {:induction false} SumOverAgree<K>(m: map<K, nat>, m': map<K, nat>, keys: set<K>)
    requires keys <= m.Keys && keys <= m'.Keys
    requires forall k | k in keys :: m[k] == m'[k]
    ensures SumOver(m, keys) == SumOver(m', keys)
    decreases keys
  {
    if keys != {} {
      var k :| k in keys;
      SumOverRemove(m, keys, k);
      SumOverRemove(m', keys, k);
      SumOverAgree(m, m', keys - {k});
    }
  }

  lemma SumUpdate<K>(m: map<K, nat>, k: K, v: nat)
    ensures Sum(m[k := v]) == Sum(m) - Lookup(m, k) + v
  {
    var m' := m[k := v];
    var rest := m.Keys - {k};
    assert m'.Keys - {k} == rest;
    SumOverRemove(m', m'.Keys, k);
    SumOverAgree(m, m', rest);
    if k in m {
      SumOverRemove(m, m.Keys, k);
    } else {
      assert rest == m.Keys;
    }
  }

  lemma SumBoundsEach<K>(m: map<K, nat>, k: K)
    ensures Lookup(m, k) <= Sum(m)
  {
    if k in m {
      SumOverRemove(m, m.Keys, k);
    }
  }
}
