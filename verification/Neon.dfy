/** The two-lane AArch64 kernel (backends/compress_neon.c), equal to the scalar one. */
module Neon {
  import opened Words
  import opened Rfc7693
  import opened Quads
  import opened State
  import opened Spec
  import Scalar
  import opened Tables

  /** A 128-bit register as two 64-bit lanes. */
  datatype Lanes = Lanes(lo: Word, hi: Word)

  // ----- instructions -----

  function Vadd(x: Lanes, y: Lanes): Lanes { Lanes(Add(x.lo, y.lo), Add(x.hi, y.hi)) }
  function Veor(x: Lanes, y: Lanes): Lanes { Lanes(Xor(x.lo, y.lo), Xor(x.hi, y.hi)) }

  /** `vextq_u64(x, y, 1)`: the high lane of x, then the low lane of y. */
  function Vext(x: Lanes, y: Lanes): Lanes { Lanes(x.hi, y.lo) }

  /** `vrev64q_u32`: the two 32-bit halves of each lane exchanged. */
  function Rev32(w: Word): Word { ((w & 0xFFFF_FFFF) << 32) | ((w >> 32) & 0xFFFF_FFFF) }

  /** The register reinterpreted as sixteen bytes, and back. */
  function ToBytes(v: Lanes): seq<Byte> { Store64(v.lo) + Store64(v.hi) }

  function FromBytes(b: seq<Byte>): Lanes
    requires |b| == 16
  {
    Lanes(Load64(b[0..8]), Load64(b[8..16]))
  }

  /** `vqtbl1q_u8`: byte i of the result is the byte the table names; out-of-range names give 0. */
  function Tbl(b: seq<Byte>, idx: seq<nat>): (r: seq<Byte>)
    requires |b| == 16 && |idx| == 16
    ensures |r| == 16
  {
    seq(16, i requires 0 <= i < 16 => if idx[i] < 16 then b[idx[i]] else 0)
  }

  const IDX24: seq<nat> := [3, 4, 5, 6, 7, 0, 1, 2, 11, 12, 13, 14, 15, 8, 9, 10]
  const IDX16: seq<nat> := [2, 3, 4, 5, 6, 7, 0, 1, 10, 11, 12, 13, 14, 15, 8, 9]

  /** `vsriq_n_u64(x, y, 63)`: y shifted right into the lowest bit, the rest kept from x. */
  function Sri63(x: Word, y: Word): Word { (x & 0xFFFF_FFFF_FFFF_FFFE) | (y >> 63) }

  function Rot32(v: Lanes): Lanes { Lanes(Rev32(v.lo), Rev32(v.hi)) }
  function Rot24(v: Lanes): Lanes { FromBytes(Tbl(ToBytes(v), IDX24)) }
  function Rot16(v: Lanes): Lanes { FromBytes(Tbl(ToBytes(v), IDX16)) }
  function Rot63(v: Lanes): Lanes { Lanes(Sri63(Shl1(v.lo), v.lo), Sri63(Shl1(v.hi), v.hi)) }

  // ----- the rotations are rotations of each lane -----

  lemma Rot32Lanes(v: Lanes)
    ensures Rot32(v) == Lanes(Rotr32(v.lo), Rotr32(v.hi))
  {
  }

  function Shl1(w: Word): Word { w << 1 }

  lemma Sri63Turns(w: Word)
    ensures Sri63(Shl1(w), w) == Rotr63(w)
  {
  }

  lemma Rot63Lanes(v: Lanes)
    ensures Rot63(v) == Lanes(Rotr63(v.lo), Rotr63(v.hi))
  {
    hide Sri63, Rotr63, Shl1;
    Sri63Turns(v.lo); Sri63Turns(v.hi);
  }

  lemma BytesTurned24(w: Word)
    ensures var b := Store64(w); Load64([b[3], b[4], b[5], b[6], b[7], b[0], b[1], b[2]]) == Rotr24(w)
  {
  }

  lemma BytesTurned16(w: Word)
    ensures var b := Store64(w); Load64([b[2], b[3], b[4], b[5], b[6], b[7], b[0], b[1]]) == Rotr16(w)
  {
  }

  lemma Rot24Lanes(v: Lanes)
    ensures Rot24(v) == Lanes(Rotr24(v.lo), Rotr24(v.hi))
  {
    hide Store64, Load64, Rotr24, Tbl, ToBytes;
    BytesTurned24(v.lo); BytesTurned24(v.hi);
    Picked24(v);
  }

  lemma Picked24(v: Lanes)
    ensures var l, h, t := Store64(v.lo), Store64(v.hi), Tbl(ToBytes(v), IDX24);
            && t[0..8] == [l[3], l[4], l[5], l[6], l[7], l[0], l[1], l[2]]
            && t[8..16] == [h[3], h[4], h[5], h[6], h[7], h[0], h[1], h[2]]
  {
    hide Store64;
    var l, h, t := Store64(v.lo), Store64(v.hi), Tbl(ToBytes(v), IDX24);
    assert t[0..8] == [l[3], l[4], l[5], l[6], l[7], l[0], l[1], l[2]];
    assert t[8..16] == [h[3], h[4], h[5], h[6], h[7], h[0], h[1], h[2]];
  }

  lemma Rot16Lanes(v: Lanes)
    ensures Rot16(v) == Lanes(Rotr16(v.lo), Rotr16(v.hi))
  {
    hide Store64, Load64, Rotr16, Tbl, ToBytes;
    BytesTurned16(v.lo); BytesTurned16(v.hi);
    Picked16(v);
  }

  lemma Picked16(v: Lanes)
    ensures var l, h, t := Store64(v.lo), Store64(v.hi), Tbl(ToBytes(v), IDX16);
            && t[0..8] == [l[2], l[3], l[4], l[5], l[6], l[7], l[0], l[1]]
            && t[8..16] == [h[2], h[3], h[4], h[5], h[6], h[7], h[0], h[1]]
  {
    hide Store64;
    var l, h, t := Store64(v.lo), Store64(v.hi), Tbl(ToBytes(v), IDX16);
    assert t[0..8] == [l[2], l[3], l[4], l[5], l[6], l[7], l[0], l[1]];
    assert t[8..16] == [h[2], h[3], h[4], h[5], h[6], h[7], h[0], h[1]];
  }

  // ----- the mixing steps -----

  function Low(a: Lanes, b: Lanes, c: Lanes, d: Lanes): Quad { Quad(a.lo, b.lo, c.lo, d.lo) }
  function High(a: Lanes, b: Lanes, c: Lanes, d: Lanes): Quad { Quad(a.hi, b.hi, c.hi, d.hi) }

  method LaneG1(a0: Lanes, b0: Lanes, c0: Lanes, d0: Lanes, m: Lanes)
    returns (a: Lanes, b: Lanes, c: Lanes, d: Lanes)
    ensures Low(a, b, c, d) == G1(Low(a0, b0, c0, d0), m.lo)
    ensures High(a, b, c, d) == G1(High(a0, b0, c0, d0), m.hi)
  {
    hide Add, Xor, Rot32, Rot24, Rotr32, Rotr24;
    a := Vadd(Vadd(a0, b0), m);
    Rot32Lanes(Veor(d0, a));
    d := Rot32(Veor(d0, a));
    c := Vadd(c0, d);
    Rot24Lanes(Veor(b0, c));
    b := Rot24(Veor(b0, c));
  }

  method LaneG2(a0: Lanes, b0: Lanes, c0: Lanes, d0: Lanes, m: Lanes)
    returns (a: Lanes, b: Lanes, c: Lanes, d: Lanes)
    ensures Low(a, b, c, d) == G2(Low(a0, b0, c0, d0), m.lo)
    ensures High(a, b, c, d) == G2(High(a0, b0, c0, d0), m.hi)
  {
    hide Add, Xor, Rot16, Rot63, Rotr16, Rotr63;
    a := Vadd(Vadd(a0, b0), m);
    Rot16Lanes(Veor(d0, a));
    d := Rot16(Veor(d0, a));
    c := Vadd(c0, d);
    Rot63Lanes(Veor(b0, c));
    b := Rot63(Veor(b0, c));
  }

  // ----- rows -----

  /** The working vector as four rows of two registers. */
  datatype Rows = Rows(a0: Lanes, a1: Lanes, b0: Lanes, b1: Lanes, c0: Lanes, c1: Lanes, d0: Lanes, d1: Lanes)
  {
    function Flat(): Work {
      [a0.lo, a0.hi, a1.lo, a1.hi, b0.lo, b0.hi, b1.lo, b1.hi,
       c0.lo, c0.hi, c1.lo, c1.hi, d0.lo, d0.hi, d1.lo, d1.hi]
    }
  }

  /** `DIAG`: afterwards each pair of lanes down the rows holds a diagonal. */
  method Diag(r: Rows) returns (q: Rows)
    ensures var v := r.Flat();
            && Low(q.a0, q.b0, q.c0, q.d0) == Pick(v, 0, 5, 10, 15) && High(q.a0, q.b0, q.c0, q.d0) == Pick(v, 1, 6, 11, 12)
            && Low(q.a1, q.b1, q.c1, q.d1) == Pick(v, 2, 7, 8, 13) && High(q.a1, q.b1, q.c1, q.d1) == Pick(v, 3, 4, 9, 14)
  {
    var b0, b1, c0, c1, d0, d1 := r.b0, r.b1, r.c0, r.c1, r.d0, r.d1;
    var t := Vext(b0, b1);
    b1 := Vext(b1, b0);
    b0 := t;
    t := c0;
    c0 := c1;
    c1 := t;
    t := Vext(d1, d0);
    d1 := Vext(d0, d1);
    d0 := t;
    q := Rows(r.a0, r.a1, b0, b1, c0, c1, d0, d1);
  }

  /** `UNDIAG`: the diagonals go back where `DIAG` took them from. */
  method Undiag(r: Rows) returns (q: Rows)
    ensures var v := q.Flat();
            && Low(r.a0, r.b0, r.c0, r.d0) == Pick(v, 0, 5, 10, 15) && High(r.a0, r.b0, r.c0, r.d0) == Pick(v, 1, 6, 11, 12)
            && Low(r.a1, r.b1, r.c1, r.d1) == Pick(v, 2, 7, 8, 13) && High(r.a1, r.b1, r.c1, r.d1) == Pick(v, 3, 4, 9, 14)
  {
    var b0, b1, c0, c1, d0, d1 := r.b0, r.b1, r.c0, r.c1, r.d0, r.d1;
    var t := Vext(b1, b0);
    b1 := Vext(b0, b1);
    b0 := t;
    t := c0;
    c0 := c1;
    c1 := t;
    t := Vext(d0, d1);
    d1 := Vext(d1, d0);
    d0 := t;
    q := Rows(r.a0, r.a1, b0, b1, c0, c1, d0, d1);
  }

  /** Four mixing steps at a time on each half of the rows. */
  method HalfRound(r: Rows, m0: Lanes, m1: Lanes, m2: Lanes, m3: Lanes) returns (q: Rows)
    ensures Low(q.a0, q.b0, q.c0, q.d0) == G(Low(r.a0, r.b0, r.c0, r.d0), m0.lo, m2.lo)
    ensures High(q.a0, q.b0, q.c0, q.d0) == G(High(r.a0, r.b0, r.c0, r.d0), m0.hi, m2.hi)
    ensures Low(q.a1, q.b1, q.c1, q.d1) == G(Low(r.a1, r.b1, r.c1, r.d1), m1.lo, m3.lo)
    ensures High(q.a1, q.b1, q.c1, q.d1) == G(High(r.a1, r.b1, r.c1, r.d1), m1.hi, m3.hi)
  {
    hide G1, G2;
    var a0, a1, b0, b1, c0, c1, d0, d1 := r.a0, r.a1, r.b0, r.b1, r.c0, r.c1, r.d0, r.d1;
    a0, b0, c0, d0 := LaneG1(a0, b0, c0, d0, m0);
    a1, b1, c1, d1 := LaneG1(a1, b1, c1, d1, m1);
    a0, b0, c0, d0 := LaneG2(a0, b0, c0, d0, m2);
    a1, b1, c1, d1 := LaneG2(a1, b1, c1, d1, m3);
    q := Rows(a0, a1, b0, b1, c0, c1, d0, d1);
  }

  /** `MP(x, y)`: two message words loaded as one register. */
  function Gather(m: Work, x: nat, y: nat): Lanes
    requires x < 16 && y < 16
  {
    Lanes(m[x], m[y])
  }

  lemma ColumnLanes(r: Rows)
    ensures var v := r.Flat();
            && Low(r.a0, r.b0, r.c0, r.d0) == Pick(v, 0, 4, 8, 12) && High(r.a0, r.b0, r.c0, r.d0) == Pick(v, 1, 5, 9, 13)
            && Low(r.a1, r.b1, r.c1, r.d1) == Pick(v, 2, 6, 10, 14) && High(r.a1, r.b1, r.c1, r.d1) == Pick(v, 3, 7, 11, 15)
  {
  }

  method ColumnStep(r: Rows, m: Work, g: Schedule) returns (q: Rows)
    ensures q.Flat() == Columns(r.Flat(), m, g)
  {
    hide G, Columns, Rows.Flat;
    q := HalfRound(r, Gather(m, g[0], g[2]), Gather(m, g[4], g[6]), Gather(m, g[1], g[3]), Gather(m, g[5], g[7]));
    ColumnLanes(r); ColumnLanes(q);
    ColumnsByQuads(r.Flat(), q.Flat(), m, g);
  }

  method DiagonalStep(r: Rows, m: Work, g: Schedule) returns (q: Rows)
    ensures q.Flat() == Diagonals(r.Flat(), m, g)
  {
    hide G, Diagonals, Rows.Flat;
    q := Diag(r);
    q := HalfRound(q, Gather(m, g[8], g[10]), Gather(m, g[12], g[14]), Gather(m, g[9], g[11]), Gather(m, g[13], g[15]));
    q := Undiag(q);
    DiagonalsByQuads(r.Flat(), q.Flat(), m, g);
  }

  /** The state in the upper registers, the IV in the lower, the last two already masked. */
  function RowsOf(h: Hash, d0: Lanes, d1: Lanes): Rows {
    Rows(Lanes(h[0], h[1]), Lanes(h[2], h[3]), Lanes(h[4], h[5]), Lanes(h[6], h[7]),
         Lanes(IV[0], IV[1]), Lanes(IV[2], IV[3]), d0, d1)
  }

  lemma RowsOfFlat(h: Hash, d0: Lanes, d1: Lanes)
    ensures RowsOf(h, d0, d1).Flat() == h + [IV[0], IV[1], IV[2], IV[3], d0.lo, d0.hi, d1.lo, d1.hi]
  {
    assert h == [h[0], h[1], h[2], h[3], h[4], h[5], h[6], h[7]];
  }

  method LoadRows(s: UbState, last: Word) returns (r: Rows)
    requires s.Shaped()
    ensures r.Flat() == Start(s.h[..], s.t0, s.t1, last)
  {
    hide Xor, OfValue, Rows.Flat;
    var d0 := Lanes(Xor(IV[4], OfValue(s.t0)), Xor(IV[5], OfValue(s.t1)));
    var d1 := Lanes(Xor(IV[6], last), IV[7]);
    RowsOfFlat(s.h[..], d0, d1);
    r := Rows(Lanes(s.h[0], s.h[1]), Lanes(s.h[2], s.h[3]), Lanes(s.h[4], s.h[5]), Lanes(s.h[6], s.h[7]),
              Lanes(IV[0], IV[1]), Lanes(IV[2], IV[3]), d0, d1);
  }

  lemma FoldedAt(h: Hash, v: Work, i: nat)
    requires i < 8
    ensures FeedForward(h, v)[i] == Xor(h[i], Xor(v[i], v[i + 8]))
  {
    hide Xor;
    XorAssoc(h[i], v[i], v[i + 8]);
  }

  ghost predicate FoldedUpto(s: UbState, h: Hash, v: Work, n: nat)
    requires s.Shaped() && n <= 8
    reads s.h
  {
    && (forall k :: 0 <= k < n ==> s.h[k] == FeedForward(h, v)[k])
    && (forall k :: n <= k < 8 ==> s.h[k] == h[k])
  }

  /** `vst1q_u64` of two registers folded into the pair of words already at `i`. */
  method FoldPair(s: UbState, i: nat, x: Lanes, y: Lanes, ghost h: Hash, ghost v: Work)
    requires s.Shaped() && i < 7 && FoldedUpto(s, h, v, i)
    requires x == Gather(v, i, i + 1) && y == Gather(v, i + 8, i + 9)
    modifies s.h
    ensures FoldedUpto(s, h, v, i + 2)
  {
    hide Xor, FeedForward;
    FoldedAt(h, v, i); FoldedAt(h, v, i + 1);
    var n := Veor(Lanes(s.h[i], s.h[i + 1]), Veor(x, y));
    s.h[i], s.h[i + 1] := n.lo, n.hi;
  }

  /** The registers folded into words i and i + 1 hold words i, i + 1 and i + 8, i + 9 of the vector. */
  lemma FoldedRegisters(r: Rows)
    ensures var v := r.Flat();
            && r.a0 == Gather(v, 0, 1) && r.c0 == Gather(v, 8, 9) && r.a1 == Gather(v, 2, 3) && r.c1 == Gather(v, 10, 11)
            && r.b0 == Gather(v, 4, 5) && r.d0 == Gather(v, 12, 13) && r.b1 == Gather(v, 6, 7) && r.d1 == Gather(v, 14, 15)
  {
  }

  method StoreRows(s: UbState, r: Rows)
    requires s.Shaped()
    modifies s.h
    ensures s.h[..] == FeedForward(old(s.h[..]), r.Flat())
  {
    hide Xor, FeedForward, Rows.Flat, Gather;
    FoldedRegisters(r);
    ghost var h, v := s.h[..], r.Flat();
    FoldPair(s, 0, r.a0, r.c0, h, v);
    FoldPair(s, 2, r.a1, r.c1, h, v);
    FoldPair(s, 4, r.b0, r.d0, h, v);
    FoldPair(s, 6, r.b1, r.d1, h, v);
  }

  /** One block on the two lanes: the compression the scalar kernel computes. */
  method NeonBlock(s: UbState, block: array<Byte>, at: nat, last: Word)
    requires s.Shaped() && at + 128 <= block.Length
    modifies s.h, s`work
    ensures s.h[..] == Compress(old(s.h[..]), old(block[at..at + 128]), s.t0, s.t1, last)
    ensures s.work == old(s.work) + 1
  {
    hide Message, Start, FeedForward, Columns, Diagonals, Rows.Flat;
    var m := Scalar.LoadMessage(block, at);
    var q := LoadRows(s, last);
    ghost var v := q.Flat();
    for r := 0 to 12
      invariant q.Flat() == Rounds(v, m, r)
      invariant s.h[..] == old(s.h[..]) && s.work == old(s.work)
    {
      SigmaRows(r);
      var g: Schedule := UB_SIGMA[r];
      q := ColumnStep(q, m, g);
      q := DiagonalStep(q, m, g);
    }
    StoreRows(s, q);
    s.work := s.work + 1;
  }

  method UbCompress(s: UbState, blocks: array<Byte>, at: nat, nblocks: nat)
    requires s.Shaped() && at + 128 * nblocks <= blocks.Length
    modifies s.h, s`t0, s`t1, s`work
    ensures s.View() == CompressBlocks(Compress, old(s.View()), old(blocks[at..at + 128 * nblocks]), nblocks)
    ensures s.work == old(s.work) + nblocks
  {
    hide Compress, CompressBlocks, CountedBlock;
    ghost var s0 := s.View();
    ghost var data := blocks[at..at + 128 * nblocks];
    NoBlocks(Compress, s0, data);
    for k := 0 to nblocks
      invariant blocks[at..at + 128 * nblocks] == data
      invariant s.View() == CompressBlocks(Compress, s0, data, k)
      invariant s.work == old(s.work) + k
    {
      BlockOfSlice(blocks[..], at, 128 * nblocks, k);
      assert blocks[..][at..at + 128 * nblocks] == data && blocks[..][at + 128 * k..at + 128 * k + 128] == blocks[at + 128 * k..at + 128 * k + 128];
      OneMoreBlock(Compress, s0, data, k);
      CountAndCompress(s, blocks, at + 128 * k);
    }
  }

  /** One turn of the kernel loop: the counter, then the block. */
  method CountAndCompress(s: UbState, block: array<Byte>, at: nat)
    requires s.Shaped() && at + 128 <= block.Length
    modifies s.h, s`t0, s`t1, s`work
    ensures s.View() == CountedBlock(Compress, old(s.View()), old(block[at..at + 128]))
    ensures s.work == old(s.work) + 1
  {
    hide Compress;
    s.t0 := (s.t0 + 128) % TWO64;
    s.t1 := (s.t1 + if s.t0 < 128 then 1 else 0) % TWO64;
    NeonBlock(s, block, at, 0);
  }

  method UbCompressFinal(s: UbState, block: array<Byte>, at: nat)
    requires s.Shaped() && at + 128 <= block.Length
    modifies s.h, s`work
    ensures s.h[..] == Compress(old(s.h[..]), old(block[at..at + 128]), s.t0, s.t1, ALL_ONES)
    ensures s.work == old(s.work) + 1
  {
    NeonBlock(s, block, at, ALL_ONES);
  }
}
