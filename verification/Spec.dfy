/** What each call of the streaming interface does to a state, as functions on values.
    `f` is the block function of whichever kernel is linked. */
module Spec {
  import Arithmetic
  import opened Words
  import opened Rfc7693
  import opened State

  // ----- kernels -----

  /** What a kernel does with `k` whole blocks of `data`. */
  function CompressBlocks(f: BlockFn, s: Snapshot, data: seq<Byte>, k: nat): Snapshot
    requires 128 * k <= |data|
  {
    s.(h := Chain(f, s.h, s.Count(), data, k)).WithCount(s.Count() + 128 * k)
  }

  /** One block as a kernel counts it: add 128 with carry, then compress. */
  function CountedBlock(f: BlockFn, s: Snapshot, block: Block): Snapshot {
    var c := Counted(s, 128);
    c.(h := f(c.h, block, c.t0, c.t1, 0))
  }

  /** Counter addition with carry (`inc` in src/core.c, and the kernels). */
  lemma CounterAdvances(t: nat, n: nat)
    requires n < TWO64
    ensures Lo(t + n) == (Lo(t) + n) % TWO64
    ensures Hi(t + n) == (Hi(t) + if Lo(t + n) < n then 1 else 0) % TWO64
  {
    Arithmetic.Carry(t, n);
    Arithmetic.AddMod(t / TWO64, if Lo(t + n) < n then 1 else 0);
  }

  function Counted(s: Snapshot, n: U64): Snapshot {
    var t0: U64 := (s.t0 + n) % TWO64;
    s.(t0 := t0, t1 := (s.t1 + if t0 < n then 1 else 0) % TWO64)
  }

  /** Adding with carry is adding to the 128-bit count. */
  lemma CountedIs(s: Snapshot, n: U64)
    ensures Counted(s, n) == s.WithCount(s.Count() + n)
  {
    hide Lo, Hi;
    CounterAdvances(s.Count(), n);
    CountWords(s);
  }

  lemma CountWords(s: Snapshot)
    ensures Lo(s.Count()) == s.t0 && Hi(s.Count()) == s.t1
  {
    Arithmetic.TwoWords(s.t0, s.t1);
  }

  lemma NoBlocks(f: BlockFn, s: Snapshot, data: seq<Byte>)
    ensures CompressBlocks(f, s, data, 0) == s
  {
  }

  lemma OneMoreBlock(f: BlockFn, s: Snapshot, data: seq<Byte>, k: nat)
    requires 128 * k + 128 <= |data|
    ensures CompressBlocks(f, s, data, k + 1) == CountedBlock(f, CompressBlocks(f, s, data, k), BlockAt(data, k))
  {
    CounterAdvances(s.Count() + 128 * k, 128);
  }

  lemma CountCongruent(t: nat, u: nat, n: nat)
    requires t % TWO128 == u % TWO128
    ensures Lo(t + n) == Lo(u + n) && Hi(t + n) == Hi(u + n)
  {
    var q := t / TWO128 - u / TWO128;
    Arithmetic.ModTwo64(u + n, 0x1_0000_0000_0000_0000 * q);
    Arithmetic.ModTwo64((u + n) / TWO64, q);
    assert t + n == u + n + 0x1_0000_0000_0000_0000 * (0x1_0000_0000_0000_0000 * q);
  }

  lemma ModAdds(a: int, b: int)
    ensures (a % TWO128 + b) % TWO128 == (a + b) % TWO128
  {
    var q := a / TWO128;
    assert a % TWO128 + b == a + b - 0x1_0000_0000_0000_0000_0000_0000_0000_0000 * q;
  }

  lemma SameBlock(x: seq<Byte>, y: seq<Byte>, n: nat, k: nat)
    requires 128 * k + 128 <= n <= |x| && n <= |y| && x[..n] == y[..n]
    ensures BlockAt(x, k) == BlockAt(y, k)
  {
    assert BlockAt(x, k) == x[..n][128 * k..128 * k + 128];
    assert BlockAt(y, k) == y[..n][128 * k..128 * k + 128];
  }

  /** A chain looks at its counter only modulo 2^128, and only at its own blocks. */
  lemma {:induction false} ChainCongruent(f: BlockFn, h: Hash, t: nat, u: nat, x: seq<Byte>, y: seq<Byte>, n: nat, k: nat)
    requires t % TWO128 == u % TWO128
    requires 128 * k <= n <= |x| && n <= |y| && x[..n] == y[..n]
    ensures Chain(f, h, t, x, k) == Chain(f, h, u, y, k)
    decreases k
  {
    hide Lo, Hi, BlockAt;
    if k == 0 {
    } else {
      ChainCongruent(f, h, t, u, x, y, n, k - 1);
      SameBlock(x, y, n, k - 1);
      CountCongruent(t, u, 128 * k);
    }
  }

  lemma {:induction false} ChainSplits(f: BlockFn, h: Hash, t: nat, data: seq<Byte>, a: nat, b: nat)
    requires 128 * (a + b) <= |data|
    ensures Chain(f, h, t, data, a + b) == Chain(f, Chain(f, h, t, data, a), t + 128 * a, data[128 * a..], b)
    decreases b
  {
    hide Lo, Hi;
    if b == 0 {
    } else {
      ChainSplits(f, h, t, data, a, b - 1);
      assert BlockAt(data, a + b - 1) == BlockAt(data[128 * a..], b - 1);
    }
  }

  lemma CountOfWithCount(s: Snapshot, t: nat)
    ensures s.WithCount(t).Count() == t % TWO128
  {
  }

  lemma CountOfBlocks(f: BlockFn, s: Snapshot, data: seq<Byte>, k: nat)
    requires 128 * k <= |data|
    ensures var r := CompressBlocks(f, s, data, k);
            r.Count() == (s.Count() + 128 * k) % TWO128 && r == s.(h := r.h, t0 := r.t0, t1 := r.t1)
  {
    CountOfWithCount(s.(h := Chain(f, s.h, s.Count(), data, k)), s.Count() + 128 * k);
  }

  /** Compressing a + b blocks in one kernel call is compressing a, then b. */
  lemma BatchingKeepsMeaning(f: BlockFn, s: Snapshot, data: seq<Byte>, a: nat, b: nat)
    requires 128 * (a + b) <= |data|
    ensures CompressBlocks(f, s, data, a + b) == CompressBlocks(f, CompressBlocks(f, s, data, a), data[128 * a..], b)
  {
    hide Lo, Hi, Chain;
    var mid := CompressBlocks(f, s, data, a);
    var t := s.Count() + 128 * a;
    var rest := data[128 * a..];
    CountOfWithCount(s, t);
    ChainSplits(f, s.h, s.Count(), data, a, b);
    ChainCongruent(f, mid.h, t, mid.Count(), rest, rest, |rest|, b);
    CountCongruent(t, mid.Count(), 128 * b);
  }

  // ----- update -----

  /** The whole blocks that `n` buffered or incoming bytes release: the last block always waits. */
  function Released(n: nat): (nb: nat)
    ensures n == 0 ==> nb == 0
    ensures n > 0 ==> 128 * nb < n <= 128 * nb + 128
  {
    if n == 0 then 0 else (n - 1) / 128
  }

  /** The state after absorbing `data`. Bytes past `buflen` keep what was copied there last. */
  function Absorb(f: BlockFn, s: Snapshot, data: seq<Byte>): (r: Snapshot)
    requires s.Valid()
    ensures r.Valid() && r.outlen == s.outlen && r.fin == s.fin && r.wipe == s.wipe
  {
    var stream := s.Pending() + data;
    var nb := Released(|stream|);
    var tail := stream[128 * nb..];
    var under := if nb == 0 then s.buf else stream[..128];
    CompressBlocks(f, s, stream, nb).(buf := tail + under[|tail|..], buflen := |tail|)
  }

  /** The pending block with bytes copied over it from `at`. */
  function Overwrite(buf: Block, at: nat, data: seq<Byte>): Block
    requires at + |data| <= 128
  {
    buf[..at] + data + buf[at + |data|..]
  }

  /** Data that fits the pending block is only copied. */
  lemma AbsorbShort(f: BlockFn, s: Snapshot, data: seq<Byte>)
    requires s.Valid() && s.buflen + |data| <= 128
    ensures Absorb(f, s, data) == s.(buf := Overwrite(s.buf, s.buflen, data), buflen := s.buflen + |data|)
  {
    NoBlocks(f, s, s.Pending() + data);
  }

  lemma BlocksOfPrefix(f: BlockFn, s: Snapshot, data: seq<Byte>, k: nat)
    requires 128 * k <= |data|
    ensures CompressBlocks(f, s, data[..128 * k], k) == CompressBlocks(f, s, data, k)
  {
    hide Chain;
    var p := data[..128 * k];
    assert p[..128 * k] == data[..128 * k];
    ChainCongruent(f, s.h, s.Count(), s.Count(), p, data, 128 * k, k);
  }

  lemma BlocksIgnorePending(f: BlockFn, s: Snapshot, buf: Block, buflen: nat, data: seq<Byte>, k: nat)
    requires 128 * k <= |data|
    ensures CompressBlocks(f, s.(buf := buf, buflen := buflen), data, k)
         == CompressBlocks(f, s, data, k).(buf := buf, buflen := buflen)
  {
  }

  /** The bytes of longer data that are compressed at once: they fill the pending block, then whole blocks. */
  function Flushes(s: Snapshot, n: nat): nat
    requires s.Valid() && s.buflen + n > 128
  {
    128 - s.buflen + 128 * Released(n - (128 - s.buflen))
  }

  function Filled(s: Snapshot, data: seq<Byte>): Snapshot
    requires s.Valid() && s.buflen + |data| > 128
  {
    s.(buf := Overwrite(s.buf, s.buflen, data[..128 - s.buflen]), buflen := 0)
  }

  /** The pending block filled and compressed, then the whole blocks after it in one kernel call. */
  function Flushed(f: BlockFn, s: Snapshot, data: seq<Byte>): Snapshot
    requires s.Valid() && s.buflen + |data| > 128
  {
    var first := Filled(s, data);
    var rest := data[128 - s.buflen..];
    CompressBlocks(f, CompressBlocks(f, first, first.buf, 1), rest[..128 * Released(|rest|)], Released(|rest|))
  }

  /** Absorbing longer data is flushing what it completes and keeping the rest pending. */
  lemma AbsorbLong(f: BlockFn, s: Snapshot, data: seq<Byte>)
    requires s.Valid() && s.buflen + |data| > 128
    ensures var r := Flushed(f, s, data);
            var tail := data[Flushes(s, |data|)..];
            r.buflen == 0 && |tail| <= 128 && Absorb(f, s, data) == r.(buf := Overwrite(r.buf, 0, tail), buflen := |tail|)
    ensures AbsorbWork(s, |data|) == 1 + Released(|data| - (128 - s.buflen))
  {
    hide CompressBlocks, Overwrite;
    var fill := 128 - s.buflen;
    var rest := data[fill..];
    var nb := Released(|rest|);
    var stream := s.Pending() + data;
    var block := Overwrite(s.buf, s.buflen, data[..fill]);
    FillSplits(s, data);
    BatchingKeepsMeaning(f, s, stream, 1, nb);
    BlocksOfPrefix(f, s, stream, 1);
    var one := CompressBlocks(f, s, block, 1);
    BlocksIgnorePending(f, s, block, 0, block, 1);
    BlocksOfPrefix(f, one, rest, nb);
    BlocksIgnorePending(f, one, block, 0, rest[..128 * nb], nb);
    OverwriteFront(block, stream[128 * (1 + nb)..]);
  }

  lemma OverwriteFront(b: Block, tail: seq<Byte>)
    requires |tail| <= 128
    ensures Overwrite(b, 0, tail) == tail + b[|tail|..]
  {
  }

  lemma FillSplits(s: Snapshot, data: seq<Byte>)
    requires s.Valid() && s.buflen + |data| > 128
    ensures var fill := 128 - s.buflen;
            var stream := s.Pending() + data;
            && Overwrite(s.buf, s.buflen, data[..fill]) == stream[..128]
            && stream[128..] == data[fill..]
            && Released(|stream|) == 1 + Released(|data| - fill)
            && data[Flushes(s, |data|)..] == data[fill..][128 * Released(|data| - fill)..] == stream[128 * Released(|stream|)..]
  {
  }

  lemma AbsorbNothing(f: BlockFn, s: Snapshot)
    requires s.Valid()
    ensures Absorb(f, s, []) == s
  {
    NoBlocks(f, s, s.Pending());
  }

  /** Whether a state will be wiped has no part in absorbing. */
  lemma AbsorbIgnoresWipe(f: BlockFn, s: Snapshot, data: seq<Byte>, wipe: bool)
    requires s.Valid()
    ensures Absorb(f, s.(wipe := wipe), data) == Absorb(f, s, data).(wipe := wipe)
  {
  }

  /** How many blocks absorbing `n` more bytes compresses. */
  function AbsorbWork(s: Snapshot, n: nat): nat {
    Released(s.buflen + n)
  }

  lemma NothingReleased(s: Snapshot, n: nat)
    requires s.buflen + n <= 128
    ensures AbsorbWork(s, n) == 0
  {
  }

  // ----- final -----

  function LastBlock(s: Snapshot): Block
    requires s.Valid()
  {
    s.Pending() + Zeros(128 - s.buflen)
  }

  /** The chaining value after the last block. */
  function FinalHash(f: BlockFn, s: Snapshot): Hash
    requires s.Valid()
  {
    F(f, s.h, LastBlock(s), s.Count() + s.buflen, true)
  }

  /** The state after finalization, wiped of its chaining value and block if asked. */
  function Finalized(f: BlockFn, s: Snapshot): (r: Snapshot)
    requires s.Valid()
    ensures r.Valid()
  {
    var t := s.WithCount(s.Count() + s.buflen).(fin := true);
    if s.wipe then t.(h := seq(8, _ => 0), buf := Zeros(128))
    else t.(h := FinalHash(f, s), buf := LastBlock(s))
  }

  function DigestOf(f: BlockFn, s: Snapshot): (d: seq<Byte>)
    requires s.Valid()
    ensures |d| == s.outlen
  {
    HashBytes(FinalHash(f, s))[..s.outlen]
  }

  lemma DigestIgnoresWipe(f: BlockFn, s: Snapshot, wipe: bool)
    requires s.Valid()
    ensures DigestOf(f, s.(wipe := wipe)) == DigestOf(f, s)
  {
  }

  /** Wiping clears the chaining value and the block and nothing else of a finalized state. */
  lemma WipingClearsSecrets(f: BlockFn, s: Snapshot)
    requires s.Valid()
    ensures var w, k := Finalized(f, s.(wipe := true)), Finalized(f, s.(wipe := false));
            && w == k.(h := w.h, buf := w.buf, wipe := true)
            && (forall i :: 0 <= i < 8 ==> w.h[i] == 0) && w.buf == Zeros(128)
            && w.fin && w.buflen == s.buflen && w.outlen == s.outlen && w.Count() == (s.Count() + s.buflen) % TWO128
            && DigestOf(f, s.(wipe := true)) == DigestOf(f, s.(wipe := false))
  {
    hide Lo, Hi;
    CountOfWithCount(s.(wipe := true, fin := true), s.Count() + s.buflen);
    CountOfWithCount(s, s.Count() + s.buflen);
  }
}
