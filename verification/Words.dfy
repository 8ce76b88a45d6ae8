/** Bytes, 64-bit words, counters, and the little-endian conversions between them. */
module Words {
  import Arithmetic

  type Byte = bv8
  type Word = bv64

  /** A `uint64_t` or `size_t` that only counts, kept as an integer below 2^64. */
  type U64 = x: int | 0 <= x < 0x1_0000_0000_0000_0000

  const TWO64: int := 0x1_0000_0000_0000_0000
  const TWO128: int := 0x1_0000_0000_0000_0000_0000_0000_0000_0000

  const ALL_ONES: Word := 0xFFFF_FFFF_FFFF_FFFF

  /** The low and the high word of a 128-bit counter. */
  function Lo(t: nat): U64 { t % TWO64 }
  function Hi(t: nat): U64 { t / TWO64 % TWO64 }

  function Zeros(n: nat): (z: seq<Byte>)
    ensures |z| == n
    ensures forall i :: 0 <= i < n ==> z[i] == 0
  {
    seq(n, _ => 0)
  }

  // ----- little-endian byte strings -----

  /** The `w` low-order bytes of `n`, least significant first. */
  function LeBytes(n: nat, w: nat): (b: seq<Byte>)
    ensures |b| == w
    decreases w
  {
    if w == 0 then [] else [(n % 256) as Byte] + LeBytes(n / 256, w - 1)
  }

  function FromLe(b: seq<Byte>): nat {
    if b == [] then 0 else b[0] as int + 256 * FromLe(b[1..])
  }

  function Pow256(w: nat): (p: nat)
    ensures p > 0
  {
    if w == 0 then 1 else 256 * Pow256(w - 1)
  }

  lemma ByteOfNat(x: int)
    requires 0 <= x < 256
    ensures (x as Byte) as int == x
  {
    Arithmetic.ByteRoundTrip(x);
  }

  lemma DivByProduct(v: nat, p: nat)
    requires p > 0
    ensures v / (256 * p) == v / 256 / p
  {
    var q := v / 256;
    var r := q / p;
    assert p * r <= q < p * r + p;
    assert 256 * p * r <= v < 256 * p * r + 256 * p;
    QuotientIs(v, 256 * p, r);
  }

  lemma MultiplesApart(d: nat, a: nat, b: nat)
    ensures a < b ==> d * a + d <= d * b
  {
    if a < b {
      var c: nat := b - a - 1;
      assert d * (a + 1 + c) == d * a + d + d * c;
      assert d * c >= 0;
    }
  }

  lemma QuotientIs(v: nat, d: nat, r: nat)
    requires d > 0 && d * r <= v < d * r + d
    ensures v / d == r
  {
    var q := v / d;
    assert d * q <= v < d * q + d;
    MultiplesApart(d, q, r);
    MultiplesApart(d, r, q);
  }

  /** Byte i is the number shifted right by 8i bits, truncated. */
  lemma {:induction false} LeByteAt(n: nat, w: nat, i: nat)
    requires i < w
    ensures LeBytes(n, w)[i] == (n / Pow256(i) % 256) as Byte
    decreases i
  {
    if i == 0 {
    } else {
      LeByteAt(n / 256, w - 1, i - 1);
      DivByProduct(n, Pow256(i - 1));
    }
  }

  /** Reading back the bytes of a number that fits gives the number. */
  lemma {:induction false} FromLeOfLeBytes(n: nat, w: nat)
    requires n < Pow256(w)
    ensures FromLe(LeBytes(n, w)) == n
    decreases w
  {
    if w == 0 {
    } else {
      ByteOfNat(n % 256);
      FromLeOfLeBytes(n / 256, w - 1);
    }
  }

  /** Writing the number a byte string denotes gives the string. */
  lemma {:induction false} LeBytesOfFromLe(b: seq<Byte>)
    ensures FromLe(b) < Pow256(|b|)
    ensures LeBytes(FromLe(b), |b|) == b
  {
    if b == [] {
    } else {
      LeBytesOfFromLe(b[1..]);
      var rest := FromLe(b[1..]);
      assert FromLe(b) / 256 == rest && FromLe(b) % 256 == b[0] as int;
      assert b == [b[0]] + b[1..];
    }
  }

  // ----- 64-bit words -----

  /** Eight bytes to a word, least significant byte first. */
  function Load64(p: seq<Byte>): Word
    requires |p| == 8
  {
    (p[0] as Word) | ((p[1] as Word) << 8) | ((p[2] as Word) << 16) | ((p[3] as Word) << 24)
    | ((p[4] as Word) << 32) | ((p[5] as Word) << 40) | ((p[6] as Word) << 48) | ((p[7] as Word) << 56)
  }

  /** A word to eight bytes, least significant byte first. */
  function Store64(w: Word): (p: seq<Byte>)
    ensures |p| == 8
  {
    [(w & 0xFF) as Byte, ((w >> 8) & 0xFF) as Byte, ((w >> 16) & 0xFF) as Byte, ((w >> 24) & 0xFF) as Byte,
     ((w >> 32) & 0xFF) as Byte, ((w >> 40) & 0xFF) as Byte, ((w >> 48) & 0xFF) as Byte, ((w >> 56) & 0xFF) as Byte]
  }

  lemma LoadOfStore(w: Word)
    ensures Load64(Store64(w)) == w
  {
  }

  lemma StoreOfLoad(p: seq<Byte>)
    requires |p| == 8
    ensures Store64(Load64(p)) == p
  {
  }

  lemma PowEight()
    ensures Pow256(8) == TWO64
  {
    assert Pow256(4) == 0x1_0000_0000;
    assert Pow256(8) == 0x1_0000_0000 * Pow256(4);
  }

  /** The unsigned value of a word, and the word with a given value. */
  function Value(w: Word): (n: U64) {
    LeBytesOfFromLe(Store64(w)); PowEight();
    FromLe(Store64(w))
  }

  function OfValue(n: U64): Word {
    Load64(LeBytes(n, 8))
  }

  lemma ValueOfOfValue(n: U64)
    ensures Value(OfValue(n)) == n
  {
    hide Load64, Store64;
    PowEight();
    StoreOfLoad(LeBytes(n, 8));
    FromLeOfLeBytes(n, 8);
  }

  lemma OfValueOfValue(w: Word)
    ensures OfValue(Value(w)) == w
  {
    hide Load64, Store64;
    LeBytesOfFromLe(Store64(w));
    LoadOfStore(w);
  }

  /** `uint64_t` addition: the 64-bit adder, which wraps. */
  function Add(x: Word, y: Word): Word { x + y }
  function Xor(x: Word, y: Word): Word { x ^ y }

  function Rotr32(w: Word): Word { (w >> 32) | (w << 32) }
  function Rotr24(w: Word): Word { (w >> 24) | (w << 40) }
  function Rotr16(w: Word): Word { (w >> 16) | (w << 48) }
  function Rotr63(w: Word): Word { (w >> 63) | (w << 1) }

  lemma XorAssoc(x: Word, y: Word, z: Word)
    ensures Xor(Xor(x, y), z) == Xor(x, Xor(y, z))
  {
  }

  lemma XorCancels(x: Word, y: Word)
    ensures Xor(Xor(x, y), y) == x && Xor(x, y) == Xor(y, x)
  {
  }
}
