/** The portable scalar kernel (src/compress.c): ninety-six literal mixing steps. */
module Scalar {
  import opened Words
  import opened Rfc7693
  import opened State
  import opened Spec

  method GK(v: array<Word>, m: Work, x: nat, y: nat, a: nat, b: nat, c: nat, d: nat)
    requires v.Length == 16 && x < 16 && y < 16
    requires a < 4 <= b < 8 <= c < 12 <= d < 16
    modifies v
    ensures v[..] == Mix(old(v[..]), a, b, c, d, m[x], m[y])
  {
    hide Rotr32, Rotr24, Rotr16, Rotr63, Add, Xor;
    var va, vb, vc, vd := v[a], v[b], v[c], v[d];
    va := Add(Add(va, vb), m[x]);
    vd := Rotr32(Xor(vd, va));
    vc := Add(vc, vd);
    vb := Rotr24(Xor(vb, vc));
    va := Add(Add(va, vb), m[y]);
    vd := Rotr16(Xor(vd, va));
    vc := Add(vc, vd);
    vb := Rotr63(Xor(vb, vc));
    v[a], v[b], v[c], v[d] := va, vb, vc, vd;
  }

  method Round0(v: array<Word>, m: Work)
    requires v.Length == 16
    modifies v
    ensures v[..] == Round(old(v[..]), m, SIGMA0)
  {
    hide Mix;
    GK(v, m, 0, 1, 0, 4, 8, 12);
    GK(v, m, 2, 3, 1, 5, 9, 13);
    GK(v, m, 4, 5, 2, 6, 10, 14);
    GK(v, m, 6, 7, 3, 7, 11, 15);
    GK(v, m, 8, 9, 0, 5, 10, 15);
    GK(v, m, 10, 11, 1, 6, 11, 12);
    GK(v, m, 12, 13, 2, 7, 8, 13);
    GK(v, m, 14, 15, 3, 4, 9, 14);
  }

  method Round1(v: array<Word>, m: Work)
    requires v.Length == 16
    modifies v
    ensures v[..] == Round(old(v[..]), m, SIGMA1)
  {
    hide Mix;
    GK(v, m, 14, 10, 0, 4, 8, 12);
    GK(v, m, 4, 8, 1, 5, 9, 13);
    GK(v, m, 9, 15, 2, 6, 10, 14);
    GK(v, m, 13, 6, 3, 7, 11, 15);
    GK(v, m, 1, 12, 0, 5, 10, 15);
    GK(v, m, 0, 2, 1, 6, 11, 12);
    GK(v, m, 11, 7, 2, 7, 8, 13);
    GK(v, m, 5, 3, 3, 4, 9, 14);
  }

  method Round2(v: array<Word>, m: Work)
    requires v.Length == 16
    modifies v
    ensures v[..] == Round(old(v[..]), m, SIGMA2)
  {
    hide Mix;
    GK(v, m, 11, 8, 0, 4, 8, 12);
    GK(v, m, 12, 0, 1, 5, 9, 13);
    GK(v, m, 5, 2, 2, 6, 10, 14);
    GK(v, m, 15, 13, 3, 7, 11, 15);
    GK(v, m, 10, 14, 0, 5, 10, 15);
    GK(v, m, 3, 6, 1, 6, 11, 12);
    GK(v, m, 7, 1, 2, 7, 8, 13);
    GK(v, m, 9, 4, 3, 4, 9, 14);
  }

  method Round3(v: array<Word>, m: Work)
    requires v.Length == 16
    modifies v
    ensures v[..] == Round(old(v[..]), m, SIGMA3)
  {
    hide Mix;
    GK(v, m, 7, 9, 0, 4, 8, 12);
    GK(v, m, 3, 1, 1, 5, 9, 13);
    GK(v, m, 13, 12, 2, 6, 10, 14);
    GK(v, m, 11, 14, 3, 7, 11, 15);
    GK(v, m, 2, 6, 0, 5, 10, 15);
    GK(v, m, 5, 10, 1, 6, 11, 12);
    GK(v, m, 4, 0, 2, 7, 8, 13);
    GK(v, m, 15, 8, 3, 4, 9, 14);
  }

  method Round4(v: array<Word>, m: Work)
    requires v.Length == 16
    modifies v
    ensures v[..] == Round(old(v[..]), m, SIGMA4)
  {
    hide Mix;
    GK(v, m, 9, 0, 0, 4, 8, 12);
    GK(v, m, 5, 7, 1, 5, 9, 13);
    GK(v, m, 2, 4, 2, 6, 10, 14);
    GK(v, m, 10, 15, 3, 7, 11, 15);
    GK(v, m, 14, 1, 0, 5, 10, 15);
    GK(v, m, 11, 12, 1, 6, 11, 12);
    GK(v, m, 6, 8, 2, 7, 8, 13);
    GK(v, m, 3, 13, 3, 4, 9, 14);
  }

  method Round5(v: array<Word>, m: Work)
    requires v.Length == 16
    modifies v
    ensures v[..] == Round(old(v[..]), m, SIGMA5)
  {
    hide Mix;
    GK(v, m, 2, 12, 0, 4, 8, 12);
    GK(v, m, 6, 10, 1, 5, 9, 13);
    GK(v, m, 0, 11, 2, 6, 10, 14);
    GK(v, m, 8, 3, 3, 7, 11, 15);
    GK(v, m, 4, 13, 0, 5, 10, 15);
    GK(v, m, 7, 5, 1, 6, 11, 12);
    GK(v, m, 15, 14, 2, 7, 8, 13);
    GK(v, m, 1, 9, 3, 4, 9, 14);
  }

  method Round6(v: array<Word>, m: Work)
    requires v.Length == 16
    modifies v
    ensures v[..] == Round(old(v[..]), m, SIGMA6)
  {
    hide Mix;
    GK(v, m, 12, 5, 0, 4, 8, 12);
    GK(v, m, 1, 15, 1, 5, 9, 13);
    GK(v, m, 14, 13, 2, 6, 10, 14);
    GK(v, m, 4, 10, 3, 7, 11, 15);
    GK(v, m, 0, 7, 0, 5, 10, 15);
    GK(v, m, 6, 3, 1, 6, 11, 12);
    GK(v, m, 9, 2, 2, 7, 8, 13);
    GK(v, m, 8, 11, 3, 4, 9, 14);
  }

  method Round7(v: array<Word>, m: Work)
    requires v.Length == 16
    modifies v
    ensures v[..] == Round(old(v[..]), m, SIGMA7)
  {
    hide Mix;
    GK(v, m, 13, 11, 0, 4, 8, 12);
    GK(v, m, 7, 14, 1, 5, 9, 13);
    GK(v, m, 12, 1, 2, 6, 10, 14);
    GK(v, m, 3, 9, 3, 7, 11, 15);
    GK(v, m, 5, 0, 0, 5, 10, 15);
    GK(v, m, 15, 4, 1, 6, 11, 12);
    GK(v, m, 8, 6, 2, 7, 8, 13);
    GK(v, m, 2, 10, 3, 4, 9, 14);
  }

  method Round8(v: array<Word>, m: Work)
    requires v.Length == 16
    modifies v
    ensures v[..] == Round(old(v[..]), m, SIGMA8)
  {
    hide Mix;
    GK(v, m, 6, 15, 0, 4, 8, 12);
    GK(v, m, 14, 9, 1, 5, 9, 13);
    GK(v, m, 11, 3, 2, 6, 10, 14);
    GK(v, m, 0, 8, 3, 7, 11, 15);
    GK(v, m, 12, 2, 0, 5, 10, 15);
    GK(v, m, 13, 7, 1, 6, 11, 12);
    GK(v, m, 1, 4, 2, 7, 8, 13);
    GK(v, m, 10, 5, 3, 4, 9, 14);
  }

  method Round9(v: array<Word>, m: Work)
    requires v.Length == 16
    modifies v
    ensures v[..] == Round(old(v[..]), m, SIGMA9)
  {
    hide Mix;
    GK(v, m, 10, 2, 0, 4, 8, 12);
    GK(v, m, 8, 4, 1, 5, 9, 13);
    GK(v, m, 7, 6, 2, 6, 10, 14);
    GK(v, m, 1, 5, 3, 7, 11, 15);
    GK(v, m, 15, 11, 0, 5, 10, 15);
    GK(v, m, 9, 14, 1, 6, 11, 12);
    GK(v, m, 3, 12, 2, 7, 8, 13);
    GK(v, m, 13, 0, 3, 4, 9, 14);
  }

  method Round10(v: array<Word>, m: Work)
    requires v.Length == 16
    modifies v
    ensures v[..] == Round(old(v[..]), m, SIGMA0)
  {
    hide Mix;
    GK(v, m, 0, 1, 0, 4, 8, 12);
    GK(v, m, 2, 3, 1, 5, 9, 13);
    GK(v, m, 4, 5, 2, 6, 10, 14);
    GK(v, m, 6, 7, 3, 7, 11, 15);
    GK(v, m, 8, 9, 0, 5, 10, 15);
    GK(v, m, 10, 11, 1, 6, 11, 12);
    GK(v, m, 12, 13, 2, 7, 8, 13);
    GK(v, m, 14, 15, 3, 4, 9, 14);
  }

  method Round11(v: array<Word>, m: Work)
    requires v.Length == 16
    modifies v
    ensures v[..] == Round(old(v[..]), m, SIGMA1)
  {
    hide Mix;
    GK(v, m, 14, 10, 0, 4, 8, 12);
    GK(v, m, 4, 8, 1, 5, 9, 13);
    GK(v, m, 9, 15, 2, 6, 10, 14);
    GK(v, m, 13, 6, 3, 7, 11, 15);
    GK(v, m, 1, 12, 0, 5, 10, 15);
    GK(v, m, 0, 2, 1, 6, 11, 12);
    GK(v, m, 11, 7, 2, 7, 8, 13);
    GK(v, m, 5, 3, 3, 4, 9, 14);
  }

  method TwelveRounds(v: array<Word>, m: Work)
    requires v.Length == 16
    modifies v
    ensures v[..] == Rounds(old(v[..]), m, 12)
  {
    hide Round;
    ghost var w := v[..];
    Round0(v, m);
    assert v[..] == Rounds(w, m, 1);
    Round1(v, m);
    assert v[..] == Rounds(w, m, 2);
    Round2(v, m);
    assert v[..] == Rounds(w, m, 3);
    Round3(v, m);
    assert v[..] == Rounds(w, m, 4);
    Round4(v, m);
    assert v[..] == Rounds(w, m, 5);
    Round5(v, m);
    assert v[..] == Rounds(w, m, 6);
    Round6(v, m);
    assert v[..] == Rounds(w, m, 7);
    Round7(v, m);
    assert v[..] == Rounds(w, m, 8);
    Round8(v, m);
    assert v[..] == Rounds(w, m, 9);
    Round9(v, m);
    assert v[..] == Rounds(w, m, 10);
    Round10(v, m);
    assert v[..] == Rounds(w, m, 11);
    Round11(v, m);
    assert v[..] == Rounds(w, m, 12);
  }

  /** One block; the counter and the finalization mask are the caller's. */
  method CompressBlock(s: UbState, block: array<Byte>, at: nat, last: Word)
    requires s.Shaped() && at + 128 <= block.Length
    modifies s.h, s`work
    ensures s.h[..] == Compress(old(s.h[..]), old(block[at..at + 128]), s.t0, s.t1, last)
    ensures s.work == old(s.work) + 1
  {
    hide Message, Start, Rounds, FeedForward;
    var m := LoadMessage(block, at);
    var v := LoadVector(s, last);
    TwelveRounds(v, m);
    FoldBack(s, v);
    s.work := s.work + 1;
  }

  method LoadVector(s: UbState, last: Word) returns (v: array<Word>)
    requires s.Shaped()
    ensures fresh(v) && v[..] == Start(s.h[..], s.t0, s.t1, last)
  {
    hide Xor, OfValue;
    v := new Word[16];
    for i := 0 to 8
      invariant forall j :: 0 <= j < i ==> v[j] == s.h[j]
    {
      v[i] := s.h[i];
    }
    assert v[..8] == s.h[..];
    FillUpper(v, Xor(IV[4], OfValue(s.t0)), Xor(IV[5], OfValue(s.t1)), Xor(IV[6], last), IV[7]);
  }

  /** The upper half of the working vector: four IV words, then the masked ones. */
  method FillUpper(v: array<Word>, v12: Word, v13: Word, v14: Word, v15: Word)
    requires v.Length == 16
    modifies v
    ensures v[..] == old(v[..8]) + [IV[0], IV[1], IV[2], IV[3], v12, v13, v14, v15]
  {
    v[8], v[9], v[10], v[11] := IV[0], IV[1], IV[2], IV[3];
    assert v[..8] == old(v[..8]) && v[8..12] == IV[..4];
    v[12], v[13], v[14], v[15] := v12, v13, v14, v15;
    assert v[..8] == old(v[..8]) && v[8..12] == IV[..4];
  }

  method FoldBack(s: UbState, v: array<Word>)
    requires s.Shaped() && v.Length == 16 && v != s.h
    modifies s.h
    ensures s.h[..] == FeedForward(old(s.h[..]), v[..])
  {
    hide Xor;
    ghost var h0 := s.h[..];
    for i := 0 to 8
      invariant forall j :: i <= j < 8 ==> s.h[j] == h0[j]
      invariant forall j :: 0 <= j < i ==> s.h[j] == Xor(Xor(h0[j], v[j]), v[j + 8])
    {
      XorAssoc(s.h[i], v[i], v[i + 8]);
      s.h[i] := Xor(s.h[i], Xor(v[i], v[i + 8]));
    }
  }

  method LoadMessage(block: array<Byte>, at: nat) returns (m: Work)
    requires at + 128 <= block.Length
    ensures m == Message(block[at..at + 128])
  {
    hide Load64;
    var words := new Word[16];
    for i := 0 to 16
      invariant forall j :: 0 <= j < i ==> words[j] == Load64(block[at + 8 * j..at + 8 * j + 8])
    {
      words[i] := Load64(block[at + 8 * i..at + 8 * i + 8]);
    }
    m := words[..];
    ghost var b := block[at..at + 128];
    assert forall j :: 0 <= j < 16 ==> b[8 * j..8 * j + 8] == block[at + 8 * j..at + 8 * j + 8];
  }

  /** `nblocks` consecutive blocks, the counter advanced before each. */
  method UbCompress(s: UbState, blocks: array<Byte>, at: nat, nblocks: nat)
    requires s.Shaped() && at + 128 * nblocks <= blocks.Length
    modifies s.h, s`t0, s`t1, s`work
    ensures s.View() == CompressBlocks(Compress, old(s.View()), old(blocks[at..at + 128 * nblocks]), nblocks)
    ensures s.work == old(s.work) + nblocks
  {
    hide Compress, CompressBlocks, CountedBlock;
    ghost var s0 := s.View();
    ghost var data := blocks[at..at + 128 * nblocks];
    NoBlocks(Compress, s0, data);
    for n := 0 to nblocks
      invariant blocks[at..at + 128 * nblocks] == data
      invariant s.View() == CompressBlocks(Compress, s0, data, n)
      invariant s.work == old(s.work) + n
    {
      BlockOfSlice(blocks[..], at, 128 * nblocks, n);
      assert blocks[..][at..at + 128 * nblocks] == data && blocks[..][at + 128 * n..at + 128 * n + 128] == blocks[at + 128 * n..at + 128 * n + 128];
      OneMoreBlock(Compress, s0, data, n);
      CountAndCompress(s, blocks, at + 128 * n);
    }
  }

  /** One turn of the kernel loop: the counter, then the block. */
  method CountAndCompress(s: UbState, block: array<Byte>, at: nat)
    requires s.Shaped() && at + 128 <= block.Length
    modifies s.h, s`t0, s`t1, s`work
    ensures s.View() == CountedBlock(Compress, old(s.View()), old(block[at..at + 128]))
    ensures s.work == old(s.work) + 1
  {
    hide Compress;
    s.t0 := (s.t0 + 128) % TWO64;
    s.t1 := (s.t1 + if s.t0 < 128 then 1 else 0) % TWO64;
    CompressBlock(s, block, at, 0);
  }

  /** Finalization: the counter already covers this block. */
  method UbCompressFinal(s: UbState, block: array<Byte>, at: nat)
    requires s.Shaped() && at + 128 <= block.Length
    modifies s.h, s`work
    ensures s.h[..] == Compress(old(s.h[..]), old(block[at..at + 128]), s.t0, s.t1, ALL_ONES)
    ensures s.work == old(s.work) + 1
  {
    CompressBlock(s, block, at, ALL_ONES);
  }
}
