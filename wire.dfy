/** Fixed-width integers, little-endian byte codecs and the error wrappers
    shared by the packet codec, the receiver and the sender. Every integer of
    the source is an unbounded Dafny `int` restricted to its Rust range; the
    places where Rust arithmetic would leave that range are written out. */
module Wire {

  type u8 = x: int | 0 <= x < 0x100
  type u16 = x: int | 0 <= x < 0x1_0000
  type u32 = x: int | 0 <= x < 0x1_0000_0000
  type i16 = x: int | -0x8000 <= x < 0x8000
  type i32 = x: int | -0x8000_0000 <= x < 0x8000_0000

  const I32_MAX: i32 := 0x7FFF_FFFF

  datatype Option<T> = None | Some(value: T)

  datatype Result<T, E> = Ok(value: T) | Err(error: E)

  function Min(a: int, b: int): int { if a <= b then a else b }

  /** `a + b` on two `u8`s: `None` when the sum leaves the type, which panics
      in a debug build (and wraps in a release build). */
  function AddU8(a: u8, b: u8): (r: Option<u8>)
    ensures r.Some? <==> a + b < 0x100
    ensures r.Some? ==> r.value == a + b
  {
    if a + b < 0x100 then Some(a + b) else None
  }

  /** `a - b` on two unsigned Rust integers: `None`
      when the difference is negative, which panics in a debug build. */
  function SubChecked(a: nat, b: nat): (r: Option<nat>)
    ensures r.Some? <==> b <= a
    ensures r.Some? ==> r.value + b == a
  {
    if b <= a then Some(a - b) else None
  }

  function Pow256(n: nat): (p: nat)
    ensures p >= 1
  {
    if n == 0 then 1 else 256 * Pow256(n - 1)
  }

  /** The `n` low-order bytes of `x`, least significant first. */
  function LeBytes(x: nat, n: nat): (r: seq<u8>)
    ensures |r| == n
  {
    if n == 0 then [] else [x % 256] + LeBytes(x / 256, n - 1)
  }

  /** The number whose little-endian bytes are `b`. */
  function FromLe(b: seq<u8>): (x: nat)
    ensures x < Pow256(|b|)
  {
    if b == [] then 0
    else
      var rest := FromLe(b[1..]);
      assert rest <= Pow256(|b| - 1) - 1;
      assert 256 * rest <= 256 * Pow256(|b| - 1) - 256;
      b[0] + 256 * rest
  }

  lemma {:induction false} FromLeOfLeBytes(x: nat, n: nat)
    requires x < Pow256(n)
    ensures FromLe(LeBytes(x, n)) == x
  {
    if n > 0 {
      assert x / 256 < Pow256(n - 1);
      FromLeOfLeBytes(x / 256, n - 1);
      assert LeBytes(x, n)[1..] == LeBytes(x / 256, n - 1);
    }
  }

  lemma {:induction false} LeBytesOfFromLe(b: seq<u8>)
    ensures LeBytes(FromLe(b), |b|) == b
  {
    if b != [] {
      var rest := FromLe(b[1..]);
      assert (b[0] + 256 * rest) % 256 == b[0];
      assert (b[0] + 256 * rest) / 256 == rest;
      LeBytesOfFromLe(b[1..]);
    }
  }

  /** `write_u32::<LittleEndian>`. */
  function LeU32(x: u32): (r: seq<u8>)
    ensures |r| == 4
    ensures FromLe(r) == x
  {
    assert Pow256(4) == 0x1_0000_0000;
    FromLeOfLeBytes(x, 4);
    LeBytes(x, 4)
  }

  /** `read_u32::<LittleEndian>`. */
  function ReadLeU32(b: seq<u8>): (x: u32)
    requires |b| == 4
    ensures LeU32(x) == b
  {
    assert Pow256(4) == 0x1_0000_0000;
    LeBytesOfFromLe(b);
    FromLe(b)
  }

  /** `i16::to_le_bytes`: the two's-complement bit pattern, low byte first. */
  function I16ToLe(v: i16): (r: seq<u8>)
    ensures |r| == 2
  {
    LeBytes(if v < 0 then v + 0x1_0000 else v, 2)
  }

  /** `read_i16::<LittleEndian>` on exactly two bytes. */
  function ReadLeI16(b: seq<u8>): (v: i16)
    requires |b| == 2
  {
    assert Pow256(2) == 0x1_0000;
    var u := FromLe(b);
    if u < 0x8000 then u else u - 0x1_0000
  }

  lemma I16RoundTrip(v: i16)
    ensures ReadLeI16(I16ToLe(v)) == v
  {
    assert Pow256(2) == 0x1_0000;
    FromLeOfLeBytes(if v < 0 then v + 0x1_0000 else v, 2);
  }

  lemma I16BytesRoundTrip(b: seq<u8>)
    requires |b| == 2
    ensures I16ToLe(ReadLeI16(b)) == b
  {
    assert Pow256(2) == 0x1_0000;
    LeBytesOfFromLe(b);
  }
}
