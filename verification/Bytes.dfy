/** Bytes, fixed-width little-endian integers and bitwise XOR, over unbounded integers. */
module ByteStrings {

  type byte = x: int | 0 <= x < 256
  type Bytes = seq<byte>

  type uint16 = x: int | 0 <= x < 0x1_0000
  type uint32 = x: int | 0 <= x < 0x1_0000_0000
  type int64 = x: int | -0x8000_0000_0000_0000 <= x < 0x8000_0000_0000_0000

  // ---------------------------------------------------------------------------
  // Little-endian integers
  // ---------------------------------------------------------------------------

  /** The number whose little-endian bytes these are. */
  function ReadLE(data: Bytes): (v: nat) {
    if data == [] then 0 else data[0] + 256 * ReadLE(data[1..])
  }

  /** The low `n` bytes of `v`, least significant first. */
  function PackLE(v: nat, n: nat): (r: Bytes)
    ensures |r| == n
  {
    if n == 0 then [] else [v % 256] + PackLE(v / 256, n - 1)
  }

  function Power256(n: nat): (p: nat)
    ensures p > 0
  {
    if n == 0 then 1 else 256 * Power256(n - 1)
  }

  lemma {:induction false} ReadBound(data: Bytes)
    ensures ReadLE(data) < Power256(|data|)
  {
    if data == [] {
    } else {
      ReadBound(data[1..]);
    }
  }

  /** Reading back a packed number gives the number, reduced to the width. */
  lemma {:induction false} PackRoundTrip(v: nat, n: nat)
    requires v < Power256(n)
    ensures ReadLE(PackLE(v, n)) == v
  {
    if n == 0 {
    } else {
      PackRoundTrip(v / 256, n - 1);
      assert PackLE(v, n)[1..] == PackLE(v / 256, n - 1);
    }
  }

  lemma {:induction false} ReadInjective(a: Bytes, b: Bytes)
    requires |a| == |b| && ReadLE(a) == ReadLE(b)
    ensures a == b
  {
    if a == [] {
    } else {
      assert a[0] == b[0] && ReadLE(a[1..]) == ReadLE(b[1..]);
      ReadInjective(a[1..], b[1..]);
      assert a == [a[0]] + a[1..] && b == [b[0]] + b[1..];
    }
  }

  // ---------------------------------------------------------------------------
  // XOR
  // ---------------------------------------------------------------------------

  function Power2(n: nat): (p: nat)
    ensures p > 0
  {
    if n == 0 then 1 else 2 * Power2(n - 1)
  }

  /** Bitwise exclusive or of the low `n` bits. */
  function Xor(x: nat, y: nat, n: nat): (r: nat)
    ensures r < Power2(n)
  {
    if n == 0 then 0 else 2 * Xor(x / 2, y / 2, n - 1) + if x % 2 == y % 2 then 0 else 1
  }

  /** XOR with the same number twice is the identity on the low bits. */
  lemma {:induction false} XorInvolution(x: nat, t: nat, n: nat)
    requires x < Power2(n)
    ensures Xor(Xor(x, t, n), t, n) == x
  {
    if n == 0 {
    } else {
      XorInvolution(x / 2, t / 2, n - 1);
      var r := Xor(x, t, n);
      assert r / 2 == Xor(x / 2, t / 2, n - 1);
    }
  }

  lemma XorInjective(x: nat, y: nat, t: nat, n: nat)
    requires x < Power2(n) && y < Power2(n) && Xor(x, t, n) == Xor(y, t, n)
    ensures x == y
  {
  }

  lemma {:induction false} XorCommutes(x: nat, y: nat, n: nat)
    ensures Xor(x, y, n) == Xor(y, x, n)
  {
    if n == 0 {
    } else {
      XorCommutes(x / 2, y / 2, n - 1);
    }
  }
}
