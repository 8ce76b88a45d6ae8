/** The parameter block (RFC 7693 section 2.5): its 64 bytes, and the state it starts. */
module Params {
  import opened Words
  import opened Rfc7693

  type U8 = x: int | 0 <= x < 0x100
  type U32 = x: int | 0 <= x < 0x1_0000_0000
  type Tag = b: seq<Byte> | |b| == 16 witness Zeros(16)

  datatype Param = Param(
    digest_length: U8, key_length: U8, fanout: U8, depth: U8,
    leaf_length: U32, node_offset: U32, xof_length: U32,
    node_depth: U8, inner_length: U8, salt: Tag, personal: Tag)

  function Front(p: Param): (b: seq<Byte>)
    ensures |b| == 4
  {
    [p.digest_length as Byte, p.key_length as Byte, p.fanout as Byte, p.depth as Byte]
  }

  function Lengths(p: Param): (b: seq<Byte>)
    ensures |b| == 12
  {
    LeBytes(p.leaf_length, 4) + LeBytes(p.node_offset, 4) + LeBytes(p.xof_length, 4)
  }

  function Back(p: Param): (b: seq<Byte>)
    ensures |b| == 2
  {
    [p.node_depth as Byte, p.inner_length as Byte]
  }

  /** The fields before the reserved bytes. */
  function Head(p: Param): (b: seq<Byte>)
    ensures |b| == 18
  {
    Front(p) + Lengths(p) + Back(p)
  }

  /** The fields in order, as the packed structure of the reference lays them out. */
  function Packed(p: Param): (b: seq<Byte>)
    ensures |b| == 64
  {
    Head(p) + Zeros(14) + p.salt + p.personal
  }

  lemma FromLeBound(b: seq<Byte>)
    requires |b| == 4
    ensures FromLe(b) < 0x1_0000_0000
  {
    LeBytesOfFromLe(b);
    assert Pow256(4) == 0x1_0000_0000;
  }

  function Unpacked(b: seq<Byte>): Param
    requires |b| == 64
  {
    FromLeBound(b[4..8]); FromLeBound(b[8..12]); FromLeBound(b[12..16]);
    Param(b[0] as int, b[1] as int, b[2] as int, b[3] as int,
          FromLe(b[4..8]), FromLe(b[8..12]), FromLe(b[12..16]),
          b[16] as int, b[17] as int, b[32..48], b[48..64])
  }

  lemma PackedParts(p: Param)
    ensures Packed(p)[..18] == Head(p)
    ensures Packed(p)[18..32] == Zeros(14) && Packed(p)[32..48] == p.salt && Packed(p)[48..64] == p.personal
  {
    hide Head, Zeros;
  }

  /** The layout of section 2.5, offset by offset. */
  predicate LaidOut(p: Param, b: seq<Byte>)
    requires |b| == 64
  {
    && b[0] == p.digest_length as Byte && b[1] == p.key_length as Byte && b[2] == p.fanout as Byte && b[3] == p.depth as Byte
    && b[4..8] == LeBytes(p.leaf_length, 4) && b[8..12] == LeBytes(p.node_offset, 4) && b[12..16] == LeBytes(p.xof_length, 4)
    && b[16] == p.node_depth as Byte && b[17] == p.inner_length as Byte
    && b[18..32] == Zeros(14) && b[32..48] == p.salt && b[48..64] == p.personal
  }

  /** The serialization is the one block laid out so. */
  lemma PackedIsLaidOut(p: Param, b: seq<Byte>)
    requires |b| == 64
    ensures b == Packed(p) <==> LaidOut(p, b)
  {
    hide LeBytes, Zeros;
    PackedOffsets(p);
    if LaidOut(p, b) {
      assert b == b[..4] + b[4..8] + b[8..12] + b[12..16] + b[16..18] + b[18..32] + b[32..48] + b[48..64];
      assert b[..4] == Front(p) && b[16..18] == Back(p);
    }
  }

  /** The layout in pieces. */
  lemma LaidOutPieces(p: Param, b: seq<Byte>)
    requires |b| == 64 && b[..4] == Front(p) && b[16..18] == Back(p)
    requires b[4..8] == LeBytes(p.leaf_length, 4) && b[8..12] == LeBytes(p.node_offset, 4) && b[12..16] == LeBytes(p.xof_length, 4)
    requires b[18..32] == Zeros(14) && b[32..48] == p.salt && b[48..64] == p.personal
    ensures LaidOut(p, b)
  {
    hide LeBytes, Zeros;
    var front, back := b[..4], b[16..18];
    assert b[0] == front[0] && b[1] == front[1] && b[2] == front[2] && b[3] == front[3] && b[16] == back[0] && b[17] == back[1];
  }

  lemma HeadPieces(p: Param)
    ensures var h := Head(p);
            && h[..4] == Front(p) && h[16..18] == Back(p)
            && h[4..8] == LeBytes(p.leaf_length, 4) && h[8..12] == LeBytes(p.node_offset, 4) && h[12..16] == LeBytes(p.xof_length, 4)
  {
    hide LeBytes, Front, Back;
  }

  lemma PackedOffsets(p: Param)
    ensures LaidOut(p, Packed(p))
  {
    hide LeBytes, Zeros, Front, Back, Head, Packed, LaidOut;
    var b := Packed(p);
    PackedParts(p); HeadPieces(p);
    assert b[..4] == b[..18][..4] && b[16..18] == b[..18][16..18];
    assert b[4..8] == b[..18][4..8] && b[8..12] == b[..18][8..12] && b[12..16] == b[..18][12..16];
    LaidOutPieces(p, b);
  }

  lemma UnpackedOfPacked(p: Param)
    ensures Unpacked(Packed(p)) == p
    ensures Packed(p)[18..32] == Zeros(14)
  {
    hide LeBytes, FromLe, Packed;
    var b := Packed(p);
    PackedParts(p);
    assert forall i :: 0 <= i < 18 ==> b[i] == Head(p)[i];
    assert Pow256(4) == 0x1_0000_0000;
    ByteOfNat(p.digest_length); ByteOfNat(p.key_length); ByteOfNat(p.fanout); ByteOfNat(p.depth);
    ByteOfNat(p.node_depth); ByteOfNat(p.inner_length);
    FromLeOfLeBytes(p.leaf_length, 4); FromLeOfLeBytes(p.node_offset, 4); FromLeOfLeBytes(p.xof_length, 4);
    assert b[4..8] == LeBytes(p.leaf_length, 4);
    assert b[8..12] == LeBytes(p.node_offset, 4);
    assert b[12..16] == LeBytes(p.xof_length, 4);
  }

  /** A block is some parameter record's serialization exactly when its reserved bytes are zero. */
  lemma PackedOfUnpacked(b: seq<Byte>)
    requires |b| == 64
    ensures Packed(Unpacked(b)) == b <==> b[18..32] == Zeros(14)
  {
    hide Head, Unpacked;
    HeadOfUnpacked(b);
    var p := Unpacked(b);
    var c := Packed(p);
    assert c[18..32] == Zeros(14);
    if b[18..32] == Zeros(14) {
      assert b == b[..18] + b[18..32] + b[32..48] + b[48..64];
    }
  }

  lemma HeadOfUnpacked(b: seq<Byte>)
    requires |b| == 64
    ensures var p := Unpacked(b); Head(p) == b[..18] && p.salt == b[32..48] && p.personal == b[48..64]
  {
    hide LeBytes, FromLe;
    LeBytesOfFromLe(b[4..8]); LeBytesOfFromLe(b[8..12]); LeBytesOfFromLe(b[12..16]);
    assert b[..18] == b[..4] + b[4..8] + b[8..12] + b[12..16] + b[16..18];
  }

  // ----- the starting state -----

  /** The IV masked by the eight words of a block. */
  function Masked(b: seq<Byte>): Hash
    requires |b| == 64
  {
    seq(8, i requires 0 <= i < 8 => Xor(IV[i], Load64(b[8 * i..8 * i + 8])))
  }

  /** The block a starting state was masked with. */
  function Unmasked(h: Hash): (b: seq<Byte>)
    ensures |b| == 64
  {
    HashBytes(seq(8, i requires 0 <= i < 8 => Xor(h[i], IV[i])))
  }

  lemma UnmaskedWord(b: seq<Byte>, i: nat)
    requires |b| == 64 && i < 8
    ensures Store64(Xor(Masked(b)[i], IV[i])) == b[8 * i..8 * i + 8]
  {
    hide Store64, Load64, Xor;
    var w := Load64(b[8 * i..8 * i + 8]);
    XorCancels(IV[i], w); XorCancels(w, IV[i]);
    StoreOfLoad(b[8 * i..8 * i + 8]);
  }

  /** A starting state determines its block: distinct blocks give distinct states. */
  lemma UnmaskedOfMasked(b: seq<Byte>)
    requires |b| == 64
    ensures Unmasked(Masked(b)) == b
  {
    hide Store64, Masked, Xor;
    forall i | 0 <= i < 64
      ensures Unmasked(Masked(b))[i] == b[i]
    {
      UnmaskedWord(b, i / 8);
      assert b[8 * (i / 8)..8 * (i / 8) + 8][i % 8] == b[i];
    }
  }

  /** The starting state word by word, from the fields. */
  lemma StartingWords(p: Param)
    ensures var h := Masked(Packed(p));
            && h[0] == Xor(IV[0], Load64([p.digest_length as Byte, p.key_length as Byte, p.fanout as Byte, p.depth as Byte] + LeBytes(p.leaf_length, 4)))
            && h[1] == Xor(IV[1], Load64(LeBytes(p.node_offset, 4) + LeBytes(p.xof_length, 4)))
            && h[2] == Xor(IV[2], Load64([p.node_depth as Byte, p.inner_length as Byte] + Zeros(6)))
            && h[3] == IV[3]
            && h[4] == Xor(IV[4], Load64(p.salt[..8])) && h[5] == Xor(IV[5], Load64(p.salt[8..]))
            && h[6] == Xor(IV[6], Load64(p.personal[..8])) && h[7] == Xor(IV[7], Load64(p.personal[8..]))
  {
    hide LeBytes, Load64, Xor, Packed;
    WordsOfBlock(p);
    ZeroWord(); XorZero(IV[3]);
  }

  lemma WordsOfBlock(p: Param)
    ensures var b := Packed(p);
            && b[0..8] == Front(p) + LeBytes(p.leaf_length, 4)
            && b[8..16] == LeBytes(p.node_offset, 4) + LeBytes(p.xof_length, 4)
            && b[16..24] == Back(p) + Zeros(6) && b[24..32] == Zeros(8)
            && b[32..40] == p.salt[..8] && b[40..48] == p.salt[8..] && b[48..56] == p.personal[..8] && b[56..64] == p.personal[8..]
  {
    hide LeBytes, Packed, Head, Front, Back, Zeros;
    var b, h := Packed(p), Head(p);
    PackedParts(p); HeadPieces(p);
    BlockWords(b, h, b[18..32]);
    ZerosJoin([], 6, 8);
    assert [] + Zeros(6) + Zeros(8) == Zeros(6) + Zeros(8) && [] + Zeros(14) == Zeros(14);
    assert b[32..40] == b[32..48][..8] && b[40..48] == b[32..48][8..] && b[48..56] == b[48..64][..8] && b[56..64] == b[48..64][8..];
  }

  /** How a block's first four words lie over its head and its reserved bytes. */
  lemma BlockWords(b: seq<Byte>, h: seq<Byte>, z: seq<Byte>)
    requires |b| == 64 && b[..18] == h && b[18..32] == z
    ensures b[0..8] == h[..4] + h[4..8] && b[8..16] == h[8..12] + h[12..16]
    ensures b[16..24] == h[16..18] + z[..6] && b[24..32] == z[6..]
  {
  }

  /** The fields are recovered from the starting state, so distinct records start distinct states. */
  lemma ParamRecovered(p: Param)
    ensures Unpacked(Unmasked(Masked(Packed(p)))) == p
  {
    hide Packed, Unpacked, Masked, Unmasked;
    UnmaskedOfMasked(Packed(p));
    UnpackedOfPacked(p);
  }

  /** `ub_param_init`: sequential mode; an out-of-range length is left zero for the check in init. */
  function ParamInit(digest_length: nat): Param {
    var p := Param(0, 0, 0, 0, 0, 0, 0, 0, 0, Zeros(16), Zeros(16));
    if digest_length == 0 || digest_length > 64 then p
    else p.(digest_length := digest_length, fanout := 1, depth := 1)
  }

  lemma ZerosJoin(head: seq<Byte>, a: nat, b: nat)
    ensures head + Zeros(a) + Zeros(b) == head + Zeros(a + b)
  {
  }

  lemma SequentialBlock(nn: nat, kk: nat)
    requires 1 <= nn <= 64 && kk <= 64
    ensures Packed(ParamInit(nn).(key_length := kk)) == [nn as Byte, kk as Byte, 1, 1] + Zeros(60)
  {
    hide Front, Lengths, Back, Zeros;
    var p := ParamInit(nn).(key_length := kk);
    SequentialFields(nn, kk);
    ZerosJoin(Front(p), 12, 2); ZerosJoin(Front(p), 14, 14);
    ZerosJoin(Front(p), 28, 16); ZerosJoin(Front(p), 44, 16);
  }

  lemma SequentialFields(nn: nat, kk: nat)
    requires 1 <= nn <= 64 && kk <= 64
    ensures var p := ParamInit(nn).(key_length := kk);
            Front(p) == [nn as Byte, kk as Byte, 1, 1] && Lengths(p) == Zeros(12) && Back(p) == Zeros(2)
  {
    hide LeBytes, Zeros;
    var p := ParamInit(nn).(key_length := kk);
    ZeroBytes(4);
    ZerosJoin([], 4, 4); ZerosJoin([], 8, 4);
    assert [] + Zeros(4) == Zeros(4) && [] + Zeros(8) == Zeros(8) && [] + Zeros(12) == Zeros(12);
    assert Back(p) == [0, 0] == Zeros(2);
  }

  lemma {:induction false} ZeroBytes(w: nat)
    ensures LeBytes(0, w) == Zeros(w)
  {
    if w == 0 {
    } else {
      ZeroBytes(w - 1);
    }
  }

  lemma SmallBytes(n: nat, w: nat)
    requires n < 256 && w > 0
    ensures LeBytes(n, w) == [n as Byte] + Zeros(w - 1)
  {
    ZeroBytes(w - 1);
  }

  lemma LowByteFirst(n: nat, w: nat)
    ensures LeBytes(n, w + 1) == [(n % 256) as Byte] + LeBytes(n / 256, w)
  {
  }

  lemma FourBytes(v: U32)
    ensures LeBytes(v, 4) == [(v % 256) as Byte, (v / 0x100 % 256) as Byte, (v / 0x1_0000 % 256) as Byte, (v / 0x100_0000 % 256) as Byte]
  {
    hide LeBytes;
    LowByteFirst(v, 3); LowByteFirst(v / 0x100, 2); LowByteFirst(v / 0x1_0000, 1); LowByteFirst(v / 0x100_0000, 0);
    assert v / 0x100 / 0x100 == v / 0x1_0000 && v / 0x1_0000 / 0x100 == v / 0x100_0000;
  }

  lemma FirstWord(x: Byte, y: Byte)
    ensures Load64([x, y, 1, 1] + Zeros(4))
         == Xor(Xor(0x0101_0000, Load64([y] + Zeros(7)) << 8), Load64([x] + Zeros(7)))
  {
  }

  lemma ZeroWord()
    ensures Load64(Zeros(8)) == 0
  {
  }

  lemma XorZero(x: Word)
    ensures Xor(x, 0) == x
  {
  }

  lemma SequentialWord0(nn: nat, kk: nat)
    requires 1 <= nn <= 64 && kk <= 64
    ensures Load64([nn as Byte, kk as Byte, 1, 1] + Zeros(4)) == Xor(Xor(0x0101_0000, OfValue(kk) << 8), OfValue(nn))
  {
    hide LeBytes, Load64, Xor;
    SmallBytes(nn, 8); SmallBytes(kk, 8);
    FirstWord(nn as Byte, kk as Byte);
  }

  lemma LaterWords(b: seq<Byte>, i: nat)
    requires |b| == 64 && b[4..] == Zeros(60) && 1 <= i < 8
    ensures Masked(b)[i] == IV[i]
  {
    hide Load64, Xor;
    ZeroWord();
    assert b[8 * i..8 * i + 8] == Zeros(8);
    XorZero(IV[i]);
  }

  /** Sequential mode starts from the initial state of section 3.3. */
  lemma SequentialStart(nn: nat, kk: nat)
    requires 1 <= nn <= 64 && kk <= 64
    ensures Masked(Packed(ParamInit(nn).(key_length := kk))) == InitialHash(nn, kk)
  {
    hide Packed, Load64, Xor, OfValue;
    var b := [nn as Byte, kk as Byte, 1, 1] + Zeros(60);
    SequentialBlock(nn, kk);
    SequentialWord0(nn, kk);
    assert b[0..8] == [nn as Byte, kk as Byte, 1, 1] + Zeros(4);
    forall i | 1 <= i < 8
      ensures Masked(b)[i] == IV[i]
    {
      LaterWords(b, i);
    }
  }
}
