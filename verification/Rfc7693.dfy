/** BLAKE2b as RFC 7693 defines it: sections 2.5 to 2.7 and 3.1 to 3.3. */
module Rfc7693 {
  import opened Words

  type Hash = h: seq<Word> | |h| == 8 witness [0, 0, 0, 0, 0, 0, 0, 0]
  type Work = v: seq<Word> | |v| == 16 witness [0, 0, 0, 0, 0, 0, 0, 0, 0, 0, 0, 0, 0, 0, 0, 0]
  type Block = b: seq<Byte> | |b| == 128 witness Zeros(128)
  type Schedule = s: seq<nat> | |s| == 16 && forall i :: 0 <= i < 16 ==> s[i] < 16
    witness [0, 1, 2, 3, 4, 5, 6, 7, 8, 9, 10, 11, 12, 13, 14, 15]

  /** Section 2.6. */
  const IV: Hash := [
    0x6a09e667f3bcc908, 0xbb67ae8584caa73b, 0x3c6ef372fe94f82b, 0xa54ff53a5f1d36f1,
    0x510e527fade682d1, 0x9b05688c2b3e6c1f, 0x1f83d9abfb41bd6b, 0x5be0cd19137e2179]

  // Section 2.7: the ten message schedules.
  const SIGMA0: Schedule := [0, 1, 2, 3, 4, 5, 6, 7, 8, 9, 10, 11, 12, 13, 14, 15]
  const SIGMA1: Schedule := [14, 10, 4, 8, 9, 15, 13, 6, 1, 12, 0, 2, 11, 7, 5, 3]
  const SIGMA2: Schedule := [11, 8, 12, 0, 5, 2, 15, 13, 10, 14, 3, 6, 7, 1, 9, 4]
  const SIGMA3: Schedule := [7, 9, 3, 1, 13, 12, 11, 14, 2, 6, 5, 10, 4, 0, 15, 8]
  const SIGMA4: Schedule := [9, 0, 5, 7, 2, 4, 10, 15, 14, 1, 11, 12, 6, 8, 3, 13]
  const SIGMA5: Schedule := [2, 12, 6, 10, 0, 11, 8, 3, 4, 13, 7, 5, 15, 14, 1, 9]
  const SIGMA6: Schedule := [12, 5, 1, 15, 14, 13, 4, 10, 0, 7, 6, 3, 9, 2, 8, 11]
  const SIGMA7: Schedule := [13, 11, 7, 14, 12, 1, 3, 9, 5, 0, 15, 4, 8, 6, 2, 10]
  const SIGMA8: Schedule := [6, 15, 14, 9, 11, 3, 0, 8, 12, 2, 13, 7, 1, 4, 10, 5]
  const SIGMA9: Schedule := [10, 2, 8, 4, 7, 6, 1, 5, 15, 11, 9, 14, 3, 12, 13, 0]

  /** Round i uses row i mod 10. */
  function Sigma(r: nat): Schedule {
    match r % 10
    case 0 => SIGMA0
    case 1 => SIGMA1
    case 2 => SIGMA2
    case 3 => SIGMA3
    case 4 => SIGMA4
    case 5 => SIGMA5
    case 6 => SIGMA6
    case 7 => SIGMA7
    case 8 => SIGMA8
    case _ => SIGMA9
  }

  datatype Quad = Quad(a: Word, b: Word, c: Word, d: Word)

  /** Section 3.1, the first four assignments of G. */
  function G1(q: Quad, x: Word): Quad {
    var a := Add(Add(q.a, q.b), x);
    var d := Rotr32(Xor(q.d, a));
    var c := Add(q.c, d);
    Quad(a, Rotr24(Xor(q.b, c)), c, d)
  }

  /** Section 3.1, the last four assignments of G. */
  function G2(q: Quad, y: Word): Quad {
    var a := Add(Add(q.a, q.b), y);
    var d := Rotr16(Xor(q.d, a));
    var c := Add(q.c, d);
    Quad(a, Rotr63(Xor(q.b, c)), c, d)
  }

  function G(q: Quad, x: Word, y: Word): Quad {
    G2(G1(q, x), y)
  }

  /** G applied to the working vector at one index of each row. */
  function Mix(v: Work, a: nat, b: nat, c: nat, d: nat, x: Word, y: Word): Work
    requires a < 4 <= b < 8 <= c < 12 <= d < 16
  {
    hide G;
    var q := G(Quad(v[a], v[b], v[c], v[d]), x, y);
    v[a := q.a][b := q.b][c := q.c][d := q.d]
  }

  function Columns(v: Work, m: Work, s: Schedule): Work {
    hide Mix;
    var v0 := Mix(v, 0, 4, 8, 12, m[s[0]], m[s[1]]);
    var v1 := Mix(v0, 1, 5, 9, 13, m[s[2]], m[s[3]]);
    var v2 := Mix(v1, 2, 6, 10, 14, m[s[4]], m[s[5]]);
    Mix(v2, 3, 7, 11, 15, m[s[6]], m[s[7]])
  }

  function Diagonals(v: Work, m: Work, s: Schedule): Work {
    hide Mix;
    var v0 := Mix(v, 0, 5, 10, 15, m[s[8]], m[s[9]]);
    var v1 := Mix(v0, 1, 6, 11, 12, m[s[10]], m[s[11]]);
    var v2 := Mix(v1, 2, 7, 8, 13, m[s[12]], m[s[13]]);
    Mix(v2, 3, 4, 9, 14, m[s[14]], m[s[15]])
  }

  function Round(v: Work, m: Work, s: Schedule): Work {
    Diagonals(Columns(v, m, s), m, s)
  }

  /** The first `r` rounds of section 3.2. */
  function Rounds(v: Work, m: Work, r: nat): Work {
    if r == 0 then v else Round(Rounds(v, m, r - 1), m, Sigma(r - 1))
  }

  function Message(block: Block): Work {
    seq(16, i requires 0 <= i < 16 => Load64(block[8 * i..8 * i + 8]))
  }

  function Start(h: Hash, lo: U64, hi: U64, last: Word): Work {
    h + [IV[0], IV[1], IV[2], IV[3],
         Xor(IV[4], OfValue(lo)), Xor(IV[5], OfValue(hi)), Xor(IV[6], last), IV[7]]
  }

  function FeedForward(h: Hash, v: Work): Hash {
    seq(8, i requires 0 <= i < 8 => Xor(Xor(h[i], v[i]), v[i + 8]))
  }

  /** Section 3.2 on the two counter words and the finalization mask. */
  function Compress(h: Hash, block: Block, lo: U64, hi: U64, last: Word): Hash {
    FeedForward(h, Rounds(Start(h, lo, hi, last), Message(block), 12))
  }

  /** A block function: state, block, low and high counter words, finalization mask. */
  type BlockFn = (Hash, Block, U64, U64, Word) -> Hash

  /** The call F(h, block, t, final) of section 3.2; `t` is the offset counter. */
  function F(f: BlockFn, h: Hash, block: Block, t: nat, final: bool): Hash {
    f(h, block, Lo(t), Hi(t), if final then ALL_ONES else 0)
  }

  function BlockAt(data: seq<Byte>, k: nat): Block
    requires 128 * k + 128 <= |data|
  {
    data[128 * k..128 * k + 128]
  }

  lemma BlockOfSlice(s: seq<Byte>, at: nat, n: nat, k: nat)
    requires at + n <= |s| && 128 * k + 128 <= n
    ensures BlockAt(s[at..at + n], k) == s[at + 128 * k..at + 128 * k + 128]
  {
    SliceOfSlice(s, at, n, 128 * k, 128 * k + 128);
  }

  lemma SliceOfSlice(s: seq<Byte>, at: nat, n: nat, i: nat, j: nat)
    requires at + n <= |s| && i <= j <= n
    ensures s[at..at + n][i..j] == s[at + i..at + j]
  {
    var b, c := s[at..at + n][i..j], s[at + i..at + j];
    forall k | 0 <= k < j - i
      ensures b[k] == c[k]
    {
      assert b[k] == s[at..at + n][i + k] == s[at + i + k];
    }
  }

  /** The state after `k` non-final blocks of `data`, the counter starting at `t`. */
  function Chain(f: BlockFn, h: Hash, t: nat, data: seq<Byte>, k: nat): Hash
    requires 128 * k <= |data|
  {
    if k == 0 then h
    else F(f, Chain(f, h, t, data, k - 1), BlockAt(data, k - 1), t + 128 * k, false)
  }

  /** The little-endian bytes of the eight words. */
  function HashBytes(h: Hash): (b: seq<Byte>)
    ensures |b| == 64
  {
    seq(64, i requires 0 <= i < 64 => Store64(h[i / 8])[i % 8])
  }

  /** The number of blocks `n` bytes of data occupy; no data still takes one. */
  function BlockCount(n: nat): (dd: nat)
    ensures dd >= 1 && n <= 128 * dd
    ensures n > 0 ==> 128 * (dd - 1) < n
  {
    if n == 0 then 1 else (n + 127) / 128
  }

  /** Section 3.3 from an initial state: every block but the last, then the zero-padded last. */
  function DigestFrom(f: BlockFn, h0: Hash, data: seq<Byte>, nn: nat): (d: seq<Byte>)
    requires nn <= 64
    ensures |d| == nn
  {
    var dd := BlockCount(|data|);
    var padded := data + Zeros(128 * dd - |data|);
    HashBytes(F(f, Chain(f, h0, 0, padded, dd - 1), BlockAt(padded, dd - 1), |data|, true))[..nn]
  }

  // ----- small cases, written out -----

  /** Up to one block of data: that block, zero-padded, as the last. */
  lemma OneBlock(f: BlockFn, h0: Hash, data: seq<Byte>)
    requires |data| <= 128
    ensures DigestFrom(f, h0, data, 64) == HashBytes(f(h0, data + Zeros(128 - |data|), |data|, 0, ALL_ONES))
  {
    var padded := data + Zeros(128 - |data|);
    assert BlockAt(padded, 0) == padded;
  }

  /** A whole block and up to one more: the counter after the first is 128, and the length after the last. */
  lemma TwoBlocks(f: BlockFn, h0: Hash, first: Block, data: seq<Byte>)
    requires 0 < |data| <= 128
    ensures DigestFrom(f, h0, first + data, 64)
         == HashBytes(f(f(h0, first, 128, 0, 0), data + Zeros(128 - |data|), 128 + |data|, 0, ALL_ONES))
  {
    var padded := first + data + Zeros(128 - |data|);
    assert BlockAt(padded, 0) == first;
    assert BlockAt(padded, 1) == data + Zeros(128 - |data|);
    assert Chain(f, h0, 0, padded, 0) == h0;
  }

  function KeyBlock(key: seq<Byte>): Block
    requires |key| <= 64
  {
    key + Zeros(128 - |key|)
  }

  /** The data section 3.3 hashes: the padded key, if there is one, before the message. */
  function KeyedData(key: seq<Byte>, msg: seq<Byte>): seq<Byte>
    requires |key| <= 64
  {
    if key == [] then msg else KeyBlock(key) + msg
  }

  /** Section 3.3: the first state word absorbs 0x0101kknn. */
  function InitialHash(nn: nat, kk: nat): Hash
    requires nn <= 64 && kk <= 64
  {
    IV[0 := Xor(IV[0], Xor(Xor(0x0101_0000, OfValue(kk) << 8), OfValue(nn)))]
  }

  /** Section 3.3: the unkeyed or keyed `nn`-byte BLAKE2b digest of `msg`. */
  function Blake2b(nn: nat, key: seq<Byte>, msg: seq<Byte>): (d: seq<Byte>)
    requires 1 <= nn <= 64 && |key| <= 64
    ensures |d| == nn
  {
    DigestFrom(Compress, InitialHash(nn, |key|), KeyedData(key, msg), nn)
  }
}
