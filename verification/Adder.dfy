/** Word addition is addition of unsigned values modulo 2^64, followed through the bytes with a carry. */
module Adder {
  import opened Arithmetic
  import opened Words

  /** Two bytes and a carry leave a byte, and carry on. */
  predicate Leaves(a: Word, b: Word, c: Word, z: Word) { z == (a + b + c) & 0xFF }
  predicate CarriesOn(a: Word, b: Word, c: Word, d: Word) { d == (a + b + c) >> 8 }

  /** Byte k of a word. */
  function Field(w: Word, k: nat): Word
    requires k < 8
  {
    match k
    case 0 => w & 0xFF
    case 1 => (w >> 8) & 0xFF
    case 2 => (w >> 16) & 0xFF
    case 3 => (w >> 24) & 0xFF
    case 4 => (w >> 32) & 0xFF
    case 5 => (w >> 40) & 0xFF
    case 6 => (w >> 48) & 0xFF
    case _ => (w >> 56) & 0xFF
  }

  /** What the lowest k bytes of x and y carry into byte k. */
  function Carry(x: Word, y: Word, k: nat): Word
    requires k <= 8
  {
    match k
    case 0 => 0
    case 1 => ((x & 0xFF) + (y & 0xFF)) >> 8
    case 2 => ((x & 0xFFFF) + (y & 0xFFFF)) >> 16
    case 3 => ((x & 0xFFFFFF) + (y & 0xFFFFFF)) >> 24
    case 4 => ((x & 0xFFFFFFFF) + (y & 0xFFFFFFFF)) >> 32
    case 5 => ((x & 0xFFFFFFFFFF) + (y & 0xFFFFFFFFFF)) >> 40
    case 6 => ((x & 0xFFFFFFFFFFFF) + (y & 0xFFFFFFFFFFFF)) >> 48
    case 7 => ((x & 0xFFFFFFFFFFFFFF) + (y & 0xFFFFFFFFFFFFFF)) >> 56
    case _ => (((x >> 56) & 0xFF) + ((y >> 56) & 0xFF) + (((x & 0xFFFFFFFFFFFFFF) + (y & 0xFFFFFFFFFFFFFF)) >> 56)) >> 8
  }

  // The eight bytes of the adder, each by its own bits alone.

  lemma Ripple0(x: Word, y: Word)
    ensures Leaves(x & 0xFF, y & 0xFF, 0, (x + y) & 0xFF)
    ensures CarriesOn(x & 0xFF, y & 0xFF, 0, ((x & 0xFF) + (y & 0xFF)) >> 8)
  {
  }

  lemma Ripple1(x: Word, y: Word)
    ensures Leaves((x >> 8) & 0xFF, (y >> 8) & 0xFF, ((x & 0xFF) + (y & 0xFF)) >> 8, ((x + y) >> 8) & 0xFF)
    ensures CarriesOn((x >> 8) & 0xFF, (y >> 8) & 0xFF, ((x & 0xFF) + (y & 0xFF)) >> 8, ((x & 0xFFFF) + (y & 0xFFFF)) >> 16)
  {
  }

  lemma Ripple2(x: Word, y: Word)
    ensures Leaves((x >> 16) & 0xFF, (y >> 16) & 0xFF, ((x & 0xFFFF) + (y & 0xFFFF)) >> 16, ((x + y) >> 16) & 0xFF)
    ensures CarriesOn((x >> 16) & 0xFF, (y >> 16) & 0xFF, ((x & 0xFFFF) + (y & 0xFFFF)) >> 16, ((x & 0xFFFFFF) + (y & 0xFFFFFF)) >> 24)
  {
  }

  lemma Ripple3(x: Word, y: Word)
    ensures Leaves((x >> 24) & 0xFF, (y >> 24) & 0xFF, ((x & 0xFFFFFF) + (y & 0xFFFFFF)) >> 24, ((x + y) >> 24) & 0xFF)
    ensures CarriesOn((x >> 24) & 0xFF, (y >> 24) & 0xFF, ((x & 0xFFFFFF) + (y & 0xFFFFFF)) >> 24, ((x & 0xFFFFFFFF) + (y & 0xFFFFFFFF)) >> 32)
  {
  }

  lemma Ripple4(x: Word, y: Word)
    ensures Leaves((x >> 32) & 0xFF, (y >> 32) & 0xFF, ((x & 0xFFFFFFFF) + (y & 0xFFFFFFFF)) >> 32, ((x + y) >> 32) & 0xFF)
    ensures CarriesOn((x >> 32) & 0xFF, (y >> 32) & 0xFF, ((x & 0xFFFFFFFF) + (y & 0xFFFFFFFF)) >> 32, ((x & 0xFFFFFFFFFF) + (y & 0xFFFFFFFFFF)) >> 40)
  {
  }

  lemma Ripple5(x: Word, y: Word)
    ensures Leaves((x >> 40) & 0xFF, (y >> 40) & 0xFF, ((x & 0xFFFFFFFFFF) + (y & 0xFFFFFFFFFF)) >> 40, ((x + y) >> 40) & 0xFF)
    ensures CarriesOn((x >> 40) & 0xFF, (y >> 40) & 0xFF, ((x & 0xFFFFFFFFFF) + (y & 0xFFFFFFFFFF)) >> 40, ((x & 0xFFFFFFFFFFFF) + (y & 0xFFFFFFFFFFFF)) >> 48)
  {
  }

  lemma Ripple6(x: Word, y: Word)
    ensures Leaves((x >> 48) & 0xFF, (y >> 48) & 0xFF, ((x & 0xFFFFFFFFFFFF) + (y & 0xFFFFFFFFFFFF)) >> 48, ((x + y) >> 48) & 0xFF)
    ensures CarriesOn((x >> 48) & 0xFF, (y >> 48) & 0xFF, ((x & 0xFFFFFFFFFFFF) + (y & 0xFFFFFFFFFFFF)) >> 48, ((x & 0xFFFFFFFFFFFFFF) + (y & 0xFFFFFFFFFFFFFF)) >> 56)
  {
  }

  lemma Ripple7(x: Word, y: Word)
    ensures Leaves((x >> 56) & 0xFF, (y >> 56) & 0xFF, ((x & 0xFFFFFFFFFFFFFF) + (y & 0xFFFFFFFFFFFFFF)) >> 56, ((x + y) >> 56) & 0xFF)
    ensures CarriesOn((x >> 56) & 0xFF, (y >> 56) & 0xFF, ((x & 0xFFFFFFFFFFFFFF) + (y & 0xFFFFFFFFFFFFFF)) >> 56, (((x >> 56) & 0xFF) + ((y >> 56) & 0xFF) + (((x & 0xFFFFFFFFFFFFFF) + (y & 0xFFFFFFFFFFFFFF)) >> 56)) >> 8)
  {
  }

  ghost predicate RippledAt(x: Word, y: Word, k: nat)
    requires k < 8
  {
    hide Leaves, CarriesOn, Field, Carry, Add;
    Leaves(Field(x, k), Field(y, k), Carry(x, y, k), Field(Add(x, y), k))
    && CarriesOn(Field(x, k), Field(y, k), Carry(x, y, k), Carry(x, y, k + 1))
  }

  lemma RippledAt0(x: Word, y: Word)
    ensures RippledAt(x, y, 0)
  {
    hide Leaves, CarriesOn;
    Ripple0(x, y);
  }

  lemma RippledAt1(x: Word, y: Word)
    ensures RippledAt(x, y, 1)
  {
    hide Leaves, CarriesOn;
    Ripple1(x, y);
  }

  lemma RippledAt2(x: Word, y: Word)
    ensures RippledAt(x, y, 2)
  {
    hide Leaves, CarriesOn;
    Ripple2(x, y);
  }

  lemma RippledAt3(x: Word, y: Word)
    ensures RippledAt(x, y, 3)
  {
    hide Leaves, CarriesOn;
    Ripple3(x, y);
  }

  lemma RippledAt4(x: Word, y: Word)
    ensures RippledAt(x, y, 4)
  {
    hide Leaves, CarriesOn;
    Ripple4(x, y);
  }

  lemma RippledAt5(x: Word, y: Word)
    ensures RippledAt(x, y, 5)
  {
    hide Leaves, CarriesOn;
    Ripple5(x, y);
  }

  lemma RippledAt6(x: Word, y: Word)
    ensures RippledAt(x, y, 6)
  {
    hide Leaves, CarriesOn;
    Ripple6(x, y);
  }

  lemma RippledAt7(x: Word, y: Word)
    ensures RippledAt(x, y, 7)
  {
    hide Leaves, CarriesOn;
    Ripple7(x, y);
  }

  lemma Ripple(x: Word, y: Word, k: nat)
    requires k < 8
    ensures RippledAt(x, y, k)
  {
    hide RippledAt;
    match k
    case 0 => RippledAt0(x, y);
    case 1 => RippledAt1(x, y);
    case 2 => RippledAt2(x, y);
    case 3 => RippledAt3(x, y);
    case 4 => RippledAt4(x, y);
    case 5 => RippledAt5(x, y);
    case 6 => RippledAt6(x, y);
    case _ => RippledAt7(x, y);
  }

  lemma FieldIsSmall(w: Word, k: nat)
    requires k < 8
    ensures Field(w, k) <= 0xFF
  {
    match k
    case 0 => Masked(w);
    case 1 => Masked(w >> 8);
    case 2 => Masked(w >> 16);
    case 3 => Masked(w >> 24);
    case 4 => Masked(w >> 32);
    case 5 => Masked(w >> 40);
    case 6 => Masked(w >> 48);
    case _ => Masked(w >> 56);
  }

  lemma Masked(w: Word)
    ensures w & 0xFF <= 0xFF
  {
  }

  lemma FieldIsByte(w: Word, k: nat)
    requires k < 8
    ensures Store64(w)[k] == Field(w, k) as Byte
  {
    var p := Store64(w);
    match k
    case 0 => assert p[0] == (w & 0xFF) as Byte;
    case 1 => assert p[1] == ((w >> 8) & 0xFF) as Byte;
    case 2 => assert p[2] == ((w >> 16) & 0xFF) as Byte;
    case 3 => assert p[3] == ((w >> 24) & 0xFF) as Byte;
    case 4 => assert p[4] == ((w >> 32) & 0xFF) as Byte;
    case 5 => assert p[5] == ((w >> 40) & 0xFF) as Byte;
    case 6 => assert p[6] == ((w >> 48) & 0xFF) as Byte;
    case _ => assert p[7] == ((w >> 56) & 0xFF) as Byte;
  }

  /** A carry as a number. */
  function Num(c: Word): nat { if c == 0 then 0 else 1 }

  lemma RippledBytes(a: Word, b: Word, c: Word, z: Word, d: Word)
    requires a <= 0xFF && b <= 0xFF && c <= 1 && Leaves(a, b, c, z) && CarriesOn(a, b, c, d)
    ensures var p, q, e := a as Byte, b as Byte, c as Byte;
            && d <= 1 && z <= 0xFF && z as Byte == Plus(Plus(p, q), e)
            && (d == 1 <==> Wraps(p, q) || Wraps(Plus(p, q), e))
            && !(Wraps(p, q) && Wraps(Plus(p, q), e))
            && (c == 0 <==> e == 0) && (c == 1 <==> e == 1)
  {
  }

  lemma RippledAdds(a: Word, b: Word, c: Word, z: Word, d: Word)
    requires a <= 0xFF && b <= 0xFF && c <= 1 && Leaves(a, b, c, z) && CarriesOn(a, b, c, d)
    ensures d <= 1
    ensures ByteValue(a as Byte) + ByteValue(b as Byte) + Num(c) == ByteValue(z as Byte) + 256 * Num(d)
  {
    hide Leaves, CarriesOn, Plus, Wraps, ByteValue;
    var p, q, e := a as Byte, b as Byte, c as Byte;
    RippledBytes(a, b, c, z, d);
    ByteSum(p, q);
    ByteSum(Plus(p, q), e);
    ByteEnds();
  }

  /** The bytes of x + y, one by one. */
  lemma ByteAdds(x: Word, y: Word, k: nat)
    requires k < 8 && Carry(x, y, k) <= 1
    ensures Carry(x, y, k + 1) <= 1
    ensures ByteAt(x, k) + ByteAt(y, k) + Num(Carry(x, y, k)) == ByteAt(Add(x, y), k) + 256 * Num(Carry(x, y, k + 1))
  {
    hide Store64, Carry, Field, ByteValue, Leaves, CarriesOn, Add;
    Ripple(x, y, k);
    FieldIsSmall(x, k); FieldIsSmall(y, k);
    FieldIsByte(x, k); FieldIsByte(y, k); FieldIsByte(Add(x, y), k);
    RippledAdds(Field(x, k), Field(y, k), Carry(x, y, k), Field(Add(x, y), k), Carry(x, y, k + 1));
  }

  lemma FromLeFrom(p: seq<Byte>, k: nat)
    requires k < |p|
    ensures FromLe(p[k..]) == ByteValue(p[k]) + 256 * FromLe(p[k + 1..])
  {
    assert p[k..][1..] == p[k + 1..];
  }

  /** Byte k of a word's little-endian bytes, and the value of the bytes from there on. */
  function ByteAt(w: Word, k: nat): nat
    requires k < 8
  {
    ByteValue(Store64(w)[k])
  }

  function From(w: Word, k: nat): nat
    requires k <= 8
  {
    FromLe(Store64(w)[k..])
  }

  lemma FromByte(w: Word, k: nat)
    requires k < 8
    ensures From(w, k) == ByteAt(w, k) + 256 * From(w, k + 1)
  {
    hide Store64, FromLe, ByteValue;
    FromLeFrom(Store64(w), k);
  }

  /** From byte k up the values add to the sum's, with a carry in and a carry out of the top. */
  lemma {:induction false} UpperBytesAdd(x: Word, y: Word, k: nat)
    requires k <= 8 && Carry(x, y, k) <= 1
    ensures From(x, k) + From(y, k) + Num(Carry(x, y, k)) == From(Add(x, y), k) + Pow256(8 - k) * Num(Carry(x, y, 8))
    decreases 8 - k
  {
    hide From, ByteAt, Carry, Num, Add;
    if k == 8 {
      NothingFrom(x); NothingFrom(y); NothingFrom(Add(x, y));
    } else {
      ByteAdds(x, y, k);
      FromByte(x, k); FromByte(y, k); FromByte(Add(x, y), k);
      UpperBytesAdd(x, y, k + 1);
      TimesByte(Pow256(7 - k), Num(Carry(x, y, 8)));
    }
  }

  lemma TimesByte(p: nat, c: nat)
    ensures 256 * p * c == 256 * (p * c)
  {
  }

  lemma NothingFrom(w: Word)
    ensures From(w, 8) == 0
  {
    hide Store64;
  }

  lemma FromStart(w: Word)
    ensures From(w, 0) == Value(w)
  {
    hide Store64;
    assert Store64(w)[0..] == Store64(w);
  }

  /** Addition of words is addition of values modulo 2^64. */
  lemma AddIsAddition(x: Word, y: Word)
    ensures Value(Add(x, y)) == (Value(x) + Value(y)) % TWO64
  {
    hide Value, From, Carry, Add;
    NoCarry(x, y);
    UpperBytesAdd(x, y, 0);
    FromStart(x); FromStart(y); FromStart(Add(x, y));
    PowEight();
    ModTwo64(Value(Add(x, y)), Num(Carry(x, y, 8)));
  }

  lemma NoCarry(x: Word, y: Word)
    ensures Carry(x, y, 0) == 0
  {
  }
}
