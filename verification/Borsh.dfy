/**
 Borsh (the Borsh specification): little-endian integers, fixed arrays as raw bytes, options as a 0/1 tag.

 An encoder `Put...(x, tail)` writes `x` in front of `tail`; a decoder `Get...(bytes)` reads one value and
 returns what is left. Each pair obeys two laws: reading returns what was written and leaves the tail alone,
 and whatever can be read is exactly what writing the value would have produced.
 */
module Borsh {
  import opened Wrappers
  import opened MachineInts
  import opened Arithmetic

  type Bytes = seq<u8>

  /** A 32-byte address. */
  type Key = k: Bytes | |k| == 32 witness seq(32, _ => 0)

  // ---------------------------------------------------------------- little-endian integers

  function Pow256(n: nat): nat {
    if n == 0 then 1 else 256 * Pow256(n - 1)
  }

  function LittleEndian(v: nat, n: nat): (b: Bytes)
    ensures |b| == n
  {
    if n == 0 then [] else [v % 256] + LittleEndian(v / 256, n - 1)
  }

  function FromLittleEndian(b: Bytes): nat {
    if b == [] then 0 else b[0] + 256 * FromLittleEndian(b[1..])
  }

  lemma {:induction false} LittleEndianRoundTrip(v: nat, n: nat)
    requires v < Pow256(n)
    ensures FromLittleEndian(LittleEndian(v, n)) == v
  {
    if n > 0 {
      var rest := LittleEndian(v / 256, n - 1);
      LittleEndianRoundTrip(v / 256, n - 1);
      assert LittleEndian(v, n)[1..] == rest;
    }
  }

  lemma {:induction false} LittleEndianCanonical(b: Bytes)
    ensures FromLittleEndian(b) < Pow256(|b|)
    ensures LittleEndian(FromLittleEndian(b), |b|) == b
  {
    if b != [] {
      LittleEndianCanonical(b[1..]);
      var v := FromLittleEndian(b);
      assert v % 256 == b[0] && v / 256 == FromLittleEndian(b[1..]);
      assert [b[0]] + b[1..] == b;
    }
  }

  lemma PowPositive(n: nat)
    ensures 0 < Pow256(n)
  {
  }

  lemma DivDiv(v: nat, a: nat, b: nat)
    requires 0 < a && 0 < b
    ensures 0 < a * b && v / (a * b) == v / a / b
  {
    DivBracket(v, a);
    DivBracket(v / a, b);
    var q := v / a / b;
    var high, low := v / a - q * b, v - v / a * a;
    assert v == q * (a * b) + (high * a + low) by {
      assert (q * b + high) * a == q * (a * b) + high * a;
    }
    MulMono(high + 1, b, a);
    DivUnique(v, a * b, q, high * a + low);
  }

  /** Byte i of an encoding is the i-th digit of the number to the base 256, the lowest one first. */
  lemma {:induction false} LittleEndianBytes(v: nat, n: nat, i: nat)
    requires i < n
    ensures 0 < Pow256(i) && LittleEndian(v, n)[i] == v / Pow256(i) % 256
  {
    PowPositive(i);
    if 0 < i {
      LittleEndianBytes(v / 256, n - 1, i - 1);
      DivDiv(v, 256, Pow256(i - 1));
    }
  }

  /** And byte i of anything decoded is the i-th digit of the result, which has no further ones. */
  lemma FromLittleEndianDigits(b: Bytes, i: nat)
    requires i < |b|
    ensures 0 < Pow256(i) && FromLittleEndian(b) / Pow256(i) % 256 == b[i]
    ensures FromLittleEndian(b) < Pow256(|b|)
  {
    LittleEndianCanonical(b);
    LittleEndianBytes(FromLittleEndian(b), |b|, i);
  }

  lemma EightBytes()
    ensures Pow256(8) == U64_MAX + 1
  {
    assert Pow256(4) == 0x1_0000_0000;
    assert Pow256(8) == 256 * (256 * (256 * (256 * Pow256(4))));
  }

  // ---------------------------------------------------------------- raw bytes

  /** The next `n` bytes and the rest. */
  function Take(b: Bytes, n: nat): Option<(Bytes, Bytes)> {
    if n <= |b| then Some((b[..n], b[n..])) else None
  }

  lemma TakeOfConcat(x: Bytes, tail: Bytes)
    ensures Take(x + tail, |x|) == Some((x, tail))
  {
    assert (x + tail)[..|x|] == x && (x + tail)[|x|..] == tail;
  }

  function PutKey(k: Key, tail: Bytes): Bytes {
    k + tail
  }

  function GetKey(b: Bytes): Option<(Key, Bytes)> {
    var (k, rest) :- Take(b, 32);
    Some((k, rest))
  }

  lemma KeyLaws(k: Key, tail: Bytes, b: Bytes)
    ensures GetKey(PutKey(k, tail)) == Some((k, tail))
    ensures GetKey(b).Some? ==> b == PutKey(GetKey(b).value.0, GetKey(b).value.1)
    ensures PutKey(k, tail) == PutKey(k, []) + tail
  {
    TakeOfConcat(k, tail);
  }

  // ---------------------------------------------------------------- integers

  function PutU64(v: u64, tail: Bytes): Bytes {
    LittleEndian(v, 8) + tail
  }

  function GetU64(b: Bytes): Option<(u64, Bytes)> {
    var (le, rest) :- Take(b, 8);
    EightBytes();
    LittleEndianCanonical(le);
    Some((FromLittleEndian(le), rest))
  }

  lemma U64Canonical(b: Bytes)
    requires 8 <= |b|
    ensures b == LittleEndian(FromLittleEndian(b[..8]), 8) + b[8..]
  {
    LittleEndianCanonical(b[..8]);
    assert b == b[..8] + b[8..];
  }

  lemma U64Laws(v: u64, tail: Bytes, b: Bytes)
    ensures GetU64(PutU64(v, tail)) == Some((v, tail))
    ensures GetU64(b).Some? ==> b == PutU64(GetU64(b).value.0, GetU64(b).value.1)
    ensures PutU64(v, tail) == PutU64(v, []) + tail
  {
    EightBytes();
    TakeOfConcat(LittleEndian(v, 8), tail);
    LittleEndianRoundTrip(v, 8);
    if 8 <= |b| {
      U64Canonical(b);
    }
  }

  /** Two's complement. */
  function PutI64(v: i64, tail: Bytes): Bytes {
    PutU64(if v < 0 then v + U64_MAX + 1 else v, tail)
  }

  function GetI64(b: Bytes): Option<(i64, Bytes)> {
    var (v, rest) :- GetU64(b);
    Some((AsI64(v), rest))
  }

  lemma I64Laws(v: i64, tail: Bytes, b: Bytes)
    ensures GetI64(PutI64(v, tail)) == Some((v, tail))
    ensures GetI64(b).Some? ==> b == PutI64(GetI64(b).value.0, GetI64(b).value.1)
    ensures PutI64(v, tail) == PutI64(v, []) + tail
  {
    U64Laws(if v < 0 then v + U64_MAX + 1 else v, tail, b);
  }

  function PutU16(v: u16, tail: Bytes): Bytes {
    LittleEndian(v, 2) + tail
  }

  function GetU16(b: Bytes): Option<(u16, Bytes)> {
    var (le, rest) :- Take(b, 2);
    LittleEndianCanonical(le);
    assert Pow256(2) == U16_MAX + 1;
    Some((FromLittleEndian(le), rest))
  }

  lemma U16Laws(v: u16, tail: Bytes, b: Bytes)
    ensures GetU16(PutU16(v, tail)) == Some((v, tail))
    ensures GetU16(b).Some? ==> b == PutU16(GetU16(b).value.0, GetU16(b).value.1)
    ensures PutU16(v, tail) == PutU16(v, []) + tail
  {
    assert Pow256(2) == U16_MAX + 1;
    TakeOfConcat(LittleEndian(v, 2), tail);
    LittleEndianRoundTrip(v, 2);
    if 2 <= |b| {
      LittleEndianCanonical(b[..2]);
      assert b == b[..2] + b[2..];
    }
  }

  function PutU8(v: u8, tail: Bytes): Bytes {
    [v] + tail
  }

  function GetU8(b: Bytes): Option<(u8, Bytes)> {
    if b == [] then None else Some((b[0], b[1..]))
  }

  lemma U8Laws(v: u8, tail: Bytes, b: Bytes)
    ensures GetU8(PutU8(v, tail)) == Some((v, tail))
    ensures GetU8(b).Some? ==> b == PutU8(GetU8(b).value.0, GetU8(b).value.1)
    ensures PutU8(v, tail) == PutU8(v, []) + tail
  {
  }

  // ---------------------------------------------------------------- options

  /** The tag of an option: absent is 0, present is 1, and anything else is not an encoding. */
  function GetTag(b: Bytes): Option<(bool, Bytes)> {
    if b == [] || b[0] > 1 then None else Some((b[0] == 1, b[1..]))
  }

  function PutTag(present: bool, tail: Bytes): Bytes {
    [if present then 1 else 0] + tail
  }

  lemma TagLaws(present: bool, tail: Bytes, b: Bytes)
    ensures GetTag(PutTag(present, tail)) == Some((present, tail))
    ensures GetTag(b).Some? ==> b == PutTag(GetTag(b).value.0, GetTag(b).value.1)
    ensures PutTag(present, tail) == PutTag(present, []) + tail
  {
  }

  function PutOptional<T>(put: (T, Bytes) -> Bytes, x: Option<T>, tail: Bytes): Bytes {
    match x
    case None => PutTag(false, tail)
    case Some(v) => PutTag(true, put(v, tail))
  }

  function GetOptional<T>(get: Bytes -> Option<(T, Bytes)>, b: Bytes): Option<(Option<T>, Bytes)> {
    var (present, b1) :- GetTag(b);
    if !present then Some((None, b1))
    else
      var (v, b2) :- get(b1);
      Some((Some(v), b2))
  }

  lemma OptionalRead<T>(put: (T, Bytes) -> Bytes, get: Bytes -> Option<(T, Bytes)>, x: Option<T>, tail: Bytes)
    requires x.Some? ==> get(put(x.value, tail)) == Some((x.value, tail))
    requires x.Some? ==> put(x.value, tail) == put(x.value, []) + tail
    ensures GetOptional(get, PutOptional(put, x, tail)) == Some((x, tail))
    ensures PutOptional(put, x, tail) == PutOptional(put, x, []) + tail
  {
    match x {
      case None => TagLaws(false, tail, []);
      case Some(v) =>
        TagLaws(true, put(v, tail), []);
        TagLaws(true, put(v, []), []);
    }
  }

  lemma OptionalCanonical<T>(put: (T, Bytes) -> Bytes, get: Bytes -> Option<(T, Bytes)>, b: Bytes)
    requires GetOptional(get, b).Some?
    requires b[0] == 1 ==> get(b[1..]).Some? && b[1..] == put(get(b[1..]).value.0, get(b[1..]).value.1)
    ensures b == PutOptional(put, GetOptional(get, b).value.0, GetOptional(get, b).value.1)
  {
    TagLaws(false, [], b);
  }
}
