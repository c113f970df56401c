/** Machine-level integer helpers shared by the modem and the audio
    adapters: powers of two, little-endian bit strings, byte packing in the
    order of the firmware's `get_le_bit`/`set_le_bit`, byte XOR, signed
    16-bit samples, and C's truncating `/` and `%`. */
module Bits {

  /** An unsigned 8-bit value, as held in a `uint8_t` buffer. */
  type byte = x: int | 0 <= x < 256

  /** An unsigned 64-bit value (`uint64_t`). */
  type u64 = x: int | 0 <= x < 0x1_0000_0000_0000_0000

  /** `x << k` on a `uint64_t`: the bits shifted past bit 63 are lost. */
  function Shl64(x: nat, k: nat): u64
  {
    (x * Pow2(k)) % 0x1_0000_0000_0000_0000
  }

  /** A signed 16-bit PCM sample (`int16_t`). */
  type Int16 = x: int | -0x8000 <= x < 0x8000

  function Pow2(n: nat): (r: nat)
    ensures r >= 1
  {
    if n == 0 then 1 else 2 * Pow2(n - 1)
  }

  lemma {:induction false} Pow2Add(a: nat, b: nat)
    ensures Pow2(a + b) == Pow2(a) * Pow2(b)
  {
    if a > 0 {
      Pow2Add(a - 1, b);
    }
  }

  lemma {:induction false} Pow2Monotone(a: nat, b: nat)
    requires a <= b
    ensures Pow2(a) <= Pow2(b)
  {
    if a < b {
      Pow2Monotone(a, b - 1);
    }
  }

  /** The powers of two the 64-bit header arithmetic uses. */
  lemma Pow2Values()
    ensures Pow2(8) == 0x100 && Pow2(9) == 0x200 && Pow2(16) == 0x1_0000
    ensures Pow2(47) == 0x8000_0000_0000 && Pow2(55) == 0x80_0000_0000_0000
  {
    assert Pow2(8) == 0x100 && Pow2(15) == 0x8000 && Pow2(16) == 0x1_0000;
    Pow2Add(16, 16);
    Pow2Add(32, 15);
    Pow2Add(47, 8);
  }

  /** The low `n` bits of `x`, least significant first: element `i` is
      `(x >> i) & 1`. */
  function BitsOf(x: nat, n: nat): (bs: seq<bool>)
    ensures |bs| == n
  {
    if n == 0 then [] else [x % 2 == 1] + BitsOf(x / 2, n - 1)
  }

  /** The number whose bit `i` is `bs[i]`, i.e. `sum bs[i] << i`. */
  function FromBits(bs: seq<bool>): (x: nat)
    ensures x < Pow2(|bs|)
  {
    if |bs| == 0 then 0 else (if bs[0] then 1 else 0) + 2 * FromBits(bs[1..])
  }

  /** Euclidean quotient and remainder are unique. */
  lemma DivModUnique(x: int, d: int, q: int, r: int)
    requires d > 0 && 0 <= r < d && x == d * q + r
    ensures x / d == q && x % d == r
  {
    var q', r' := x / d, x % d;
    assert x == d * q' + r';
    assert d * (q - q') == r' - r;
    if q > q' {
      MulAtLeast(d, q - q');
      assert false;
    } else if q < q' {
      MulAtLeast(d, q' - q);
      assert false;
    }
  }

  lemma MulSucc(a: int, b: int)
    ensures (a + 1) * b == a * b + b
  {
  }

  lemma MulAtLeast(d: int, k: int)
    requires d > 0 && k >= 1
    ensures d * k >= d
  {
  }

  lemma ModOfDouble(x: nat, m: nat)
    requires m >= 1
    ensures x % (2 * m) == x % 2 + 2 * ((x / 2) % m)
  {
    var r := x % 2;
    var q := x / 2;
    var a := q / m;
    var b := q % m;
    assert q == m * a + b;
    assert x == (2 * m) * a + (2 * b + r);
    DivModUnique(x, 2 * m, a, 2 * b + r);
  }

  /** Reading back the low `n` bits of `x` gives `x` modulo `2^n`. */
  lemma {:induction false} FromBitsOf(x: nat, n: nat)
    ensures FromBits(BitsOf(x, n)) == x % Pow2(n)
  {
    if n > 0 {
      FromBitsOf(x / 2, n - 1);
      assert BitsOf(x, n)[1..] == BitsOf(x / 2, n - 1);
      ModOfDouble(x, Pow2(n - 1));
    }
  }

  /** Taking the bits of the number a bit string denotes gives the string back. */
  lemma {:induction false} BitsOfFrom(bs: seq<bool>)
    ensures BitsOf(FromBits(bs), |bs|) == bs
  {
    if |bs| > 0 {
      BitsOfFrom(bs[1..]);
      var x := FromBits(bs);
      assert x % 2 == 1 <==> bs[0];
      assert x / 2 == FromBits(bs[1..]);
    }
  }

  /** Bits below position `n` only depend on `x` modulo `2^n`. */
  lemma BitsOfMod(x: nat, n: nat)
    ensures BitsOf(x, n) == BitsOf(x % Pow2(n), n)
  {
    FromBitsOf(x, n);
    BitsOfFrom(BitsOf(x, n));
  }

  /** Bit string of a byte buffer in `get_le_bit` order: bit `i` is bit
      `i % 8` of byte `i / 8`. */
  function UnpackLE(bytes: seq<byte>): (bits: seq<bool>)
    ensures |bits| == 8 * |bytes|
  {
    if |bytes| == 0 then [] else BitsOf(bytes[0], 8) + UnpackLE(bytes[1..])
  }

  /** The byte buffer `set_le_bit` builds from a bit string. */
  function PackLE(bits: seq<bool>): (bytes: seq<byte>)
    requires |bits| % 8 == 0
    ensures |bytes| == |bits| / 8
  {
    if |bits| == 0 then []
    else
      assert Pow2(8) == 256;
      [FromBits(bits[..8])] + PackLE(bits[8..])
  }

  lemma {:induction false} PackUnpackLE(bytes: seq<byte>)
    ensures PackLE(UnpackLE(bytes)) == bytes
  {
    if |bytes| > 0 {
      UnpackFront(bytes);
      ByteBits(bytes[0]);
      PackUnpackLE(bytes[1..]);
      assert bytes == [bytes[0]] + bytes[1..];
    }
  }

  /** A byte is its eight low bits. */
  lemma ByteBits(b: byte)
    ensures FromBits(BitsOf(b, 8)) == b
  {
    FromBitsOf(b, 8);
    assert Pow2(8) == 256;
    DivModUnique(b, 256, 0, b);
  }

  lemma UnpackFront(bytes: seq<byte>)
    requires |bytes| > 0
    ensures var bits := UnpackLE(bytes);
      && bits[..8] == BitsOf(bytes[0], 8) && bits[8..] == UnpackLE(bytes[1..])
      && PackLE(bits) == [FromBits(BitsOf(bytes[0], 8))] + PackLE(UnpackLE(bytes[1..]))
  {
    var bits := UnpackLE(bytes);
    assert bits[..8] == BitsOf(bytes[0], 8);
    assert bits[8..] == UnpackLE(bytes[1..]);
  }

  /** Unpacking loses nothing: equal bit strings come from equal buffers. */
  lemma UnpackInjective(a: seq<byte>, b: seq<byte>)
    requires UnpackLE(a) == UnpackLE(b)
    ensures a == b
  {
    PackUnpackLE(a);
    PackUnpackLE(b);
  }

  lemma {:induction false} UnpackPackLE(bits: seq<bool>)
    requires |bits| % 8 == 0
    ensures UnpackLE(PackLE(bits)) == bits
  {
    if |bits| > 0 {
      BitsOfFrom(bits[..8]);
      UnpackPackLE(bits[8..]);
      assert bits == bits[..8] + bits[8..];
    }
  }

  /** `n` zero bytes, as `memset` leaves them. */
  function Zeros(n: nat): (z: seq<byte>)
    ensures |z| == n && forall i :: 0 <= i < n ==> z[i] == 0
  {
    seq(n, _ => 0)
  }

  /** Bitwise exclusive or of two equally long bit strings. */
  function XorBits(a: seq<bool>, b: seq<bool>): (r: seq<bool>)
    requires |a| == |b|
    ensures |r| == |a|
    ensures forall i :: 0 <= i < |a| ==> r[i] == (a[i] != b[i])
  {
    seq(|a|, i requires 0 <= i < |a| => a[i] != b[i])
  }

  /** `a ^ b` on bytes. */
  function Xor(a: byte, b: byte): byte
  {
    assert Pow2(8) == 256;
    FromBits(XorBits(BitsOf(a, 8), BitsOf(b, 8)))
  }

  /** XOR with the same key bits twice restores an `n`-bit number. */
  lemma XorBitsTwice(a: nat, k: nat, n: nat)
    requires a < Pow2(n)
    ensures FromBits(XorBits(BitsOf(FromBits(XorBits(BitsOf(a, n), BitsOf(k, n))), n), BitsOf(k, n))) == a
  {
    var ka := BitsOf(k, n);
    var x := XorBits(BitsOf(a, n), ka);
    BitsOfFrom(x);
    assert XorBits(x, ka) == BitsOf(a, n);
    FromBitsOf(a, n);
    DivModUnique(a, Pow2(n), 0, a);
  }

  /** XOR with the same key byte twice is the identity. */
  lemma XorTwice(a: byte, k: byte)
    ensures Xor(Xor(a, k), k) == a
  {
    assert Pow2(8) == 256;
    XorBitsTwice(a, k, 8);
  }

  /** Byte-wise XOR of `data` with the first `|data|` bytes of a key stream. */
  function XorStream(data: seq<byte>, key: seq<byte>): (r: seq<byte>)
    requires |key| >= |data|
    ensures |r| == |data|
  {
    seq(|data|, i requires 0 <= i < |data| => Xor(data[i], key[i]))
  }

  /** Applying the same key stream twice restores the data. */
  lemma XorStreamTwice(data: seq<byte>, key: seq<byte>)
    requires |key| >= |data|
    ensures XorStream(XorStream(data, key), key) == data
  {
    forall i | 0 <= i < |data|
      ensures XorStream(XorStream(data, key), key)[i] == data[i]
    {
      XorTwice(data[i], key[i]);
    }
  }

  function Abs(a: int): nat
  {
    if a < 0 then -a else a
  }

  /** C's integer division, which truncates toward zero. */
  function CDiv(a: int, b: int): int
    requires b != 0
  {
    var q := Abs(a) / Abs(b);
    if (a < 0) != (b < 0) then -q else q
  }

  /** C's `%`: the remainder takes the sign of the dividend. */
  function CMod(a: int, b: int): int
    requires b != 0
  {
    a - b * CDiv(a, b)
  }

  /** C and Euclidean division agree on a non-negative dividend and a
      positive divisor; on a negative dividend C's remainder is the
      Euclidean one shifted down by the divisor unless it is zero. */
  lemma CModAgainstEuclid(a: int, b: int)
    requires b > 0
    ensures a >= 0 ==> CDiv(a, b) == a / b && CMod(a, b) == a % b
    ensures a < 0 ==> CMod(a, b) == (if a % b == 0 then 0 else a % b - b)
  {
    if a < 0 {
      var q := (-a) / b;
      var r := (-a) % b;
      assert -a == b * q + r;
      assert CDiv(a, b) == -q;
      assert CMod(a, b) == -r;
      if r == 0 {
        DivModUnique(a, b, -q, 0);
      } else {
        assert a == b * (-q - 1) + (b - r);
        DivModUnique(a, b, -q - 1, b - r);
      }
    }
  }

  /** Little-endian bytes of a sample, as `reinterpret_cast<uint8_t*>`
      exposes them on the ESP32. */
  function Int16Bytes(x: Int16): seq<byte>
  {
    [x % 256, (x / 256) % 256]
  }

  /** The sample a little-endian byte pair holds, as
      `reinterpret_cast<int16_t*>` reads it. */
  function Int16FromBytes(lo: byte, hi: byte): Int16
  {
    var w := lo + 256 * hi;
    if w >= 0x8000 then w - 0x10000 else w
  }

  lemma Int16BytesRoundTrip(x: Int16)
    ensures Int16FromBytes(Int16Bytes(x)[0], Int16Bytes(x)[1]) == x
  {
  }
}
