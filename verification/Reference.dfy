/** The reference implementation (compat/ref/ref_blake2b.c), block at a time, step for step with the library. */
module Reference {
  import opened Words
  import opened Rfc7693
  import opened State
  import opened Spec
  import opened Params
  import opened Streaming
  import Calls
  import Core
  import Digests
  import Scalar
  import opened Tables

  /** The state; `last_node` is false throughout, so f1 stays zero. */
  class RefState {
    const h: array<Word>
    var t0: U64
    var t1: U64
    var f0: Word
    var f1: Word
    const buf: array<Byte>
    var buflen: nat
    var outlen: nat

    ghost predicate Shaped() {
      h.Length == 8 && buf.Length == 128
    }

    /** The fields it shares with the library's state; nothing is ever wiped. */
    ghost function View(): Snapshot
      requires Shaped()
      reads this, h, buf
    {
      Snapshot(h[..], t0, t1, buf[..], buflen, outlen, f0 != 0, false)
    }

    ghost predicate Valid()
      reads this, h, buf
    {
      Shaped() && View().Valid() && f1 == 0 && (f0 == 0 || f0 == ALL_ONES)
    }

    constructor ()
      ensures Shaped() && fresh(h) && fresh(buf)
    {
      h := new Word[8];
      buf := new Byte[128];
      t0, t1, f0, f1, buflen, outlen := 0, 0, 0, 0, 0, 0;
    }
  }

  // ----- compression through the SIGMA table -----

  method TableG(r: nat, i: nat, v: array<Word>, m: Work, a: nat, b: nat, c: nat, d: nat)
    requires r < 12 && i < 8 && v.Length == 16
    requires a < 4 <= b < 8 <= c < 12 <= d < 16
    modifies v
    ensures v[..] == Mix(old(v[..]), a, b, c, d, m[Sigma(r)[2 * i]], m[Sigma(r)[2 * i + 1]])
  {
    hide Mix, Sigma;
    SigmaRows(r);
    Scalar.GK(v, m, UB_SIGMA[r][2 * i + 0], UB_SIGMA[r][2 * i + 1], a, b, c, d);
  }

  method TableRound(r: nat, v: array<Word>, m: Work)
    requires r < 12 && v.Length == 16
    modifies v
    ensures v[..] == Round(old(v[..]), m, Sigma(r))
  {
    hide Mix, Sigma;
    TableG(r, 0, v, m, 0, 4, 8, 12);
    TableG(r, 1, v, m, 1, 5, 9, 13);
    TableG(r, 2, v, m, 2, 6, 10, 14);
    TableG(r, 3, v, m, 3, 7, 11, 15);
    TableG(r, 4, v, m, 0, 5, 10, 15);
    TableG(r, 5, v, m, 1, 6, 11, 12);
    TableG(r, 6, v, m, 2, 7, 8, 13);
    TableG(r, 7, v, m, 3, 4, 9, 14);
  }

  method LoadVector(s: RefState) returns (v: array<Word>)
    requires s.Shaped()
    ensures fresh(v) && v[..] == Start(s.h[..], s.t0, s.t1, s.f0)[15 := Xor(IV[7], s.f1)]
  {
    hide Xor, OfValue;
    v := new Word[16];
    for i := 0 to 8
      invariant forall j :: 0 <= j < i ==> v[j] == s.h[j]
    {
      v[i] := s.h[i];
    }
    assert v[..8] == s.h[..];
    Scalar.FillUpper(v, Xor(IV[4], OfValue(s.t0)), Xor(IV[5], OfValue(s.t1)), Xor(IV[6], s.f0), Xor(IV[7], s.f1));
  }

  method FoldBack(s: RefState, v: array<Word>)
    requires s.Shaped() && v.Length == 16 && v != s.h
    modifies s.h
    ensures s.h[..] == FeedForward(old(s.h[..]), v[..])
  {
    hide Xor;
    ghost var h0 := s.h[..];
    for i := 0 to 8
      invariant forall j :: i <= j < 8 ==> s.h[j] == h0[j]
      invariant forall j :: 0 <= j < i ==> s.h[j] == Xor(Xor(h0[j], v[j]), v[j + 8])
    {
      s.h[i] := Xor(Xor(s.h[i], v[i]), v[i + 8]);
    }
  }

  /** The reference's compression of a block: both flag words come from the state, whatever block it is. */
  function Flagged(f0: Word, f1: Word): BlockFn {
    (h: Hash, block: Block, lo: U64, hi: U64, last: Word) =>
      FeedForward(h, Rounds(Start(h, lo, hi, f0)[15 := Xor(IV[7], f1)], Message(block), 12))
  }

  /** With the second flag word zero it is the compression of section 3.2 under the first as mask. */
  lemma FlaggedIs(f0: Word, h: Hash, block: Block, lo: U64, hi: U64, last: Word)
    ensures Flagged(f0, 0)(h, block, lo, hi, last) == Compress(h, block, lo, hi, f0)
  {
    hide FeedForward, Rounds, Message, Xor, OfValue;
    XorZero(IV[7]);
    var w := Start(h, lo, hi, f0);
    assert w[15 := IV[7]] == w;
  }

  lemma {:induction false} ChainUnflagged(h: Hash, t: nat, data: seq<Byte>, k: nat)
    requires 128 * k <= |data|
    ensures Chain(Flagged(0, 0), h, t, data, k) == Chain(Compress, h, t, data, k)
  {
    hide Flagged, Compress, Lo, Hi;
    if k == 0 {
    } else {
      ChainUnflagged(h, t, data, k - 1);
      FlaggedIs(0, Chain(Compress, h, t, data, k - 1), BlockAt(data, k - 1), Lo(t + 128 * k), Hi(t + 128 * k), 0);
    }
  }

  /** While neither flag is set, absorbing is the library's. */
  lemma AbsorbUnflagged(s: Snapshot, data: seq<Byte>)
    requires s.Valid()
    ensures Absorb(Flagged(0, 0), s, data) == Absorb(Compress, s, data)
  {
    hide Flagged, Compress, Chain;
    var stream := s.Pending() + data;
    ChainUnflagged(s.h, s.Count(), stream, Released(|stream|));
  }

  method CompressBlock(s: RefState, block: array<Byte>, at: nat)
    requires s.Shaped() && at + 128 <= block.Length
    modifies s.h
    ensures s.h[..] == Flagged(s.f0, s.f1)(old(s.h[..]), old(block[at..at + 128]), s.t0, s.t1, 0)
    ensures s.f1 == 0 ==> s.h[..] == Compress(old(s.h[..]), old(block[at..at + 128]), s.t0, s.t1, s.f0)
  {
    hide Message, FeedForward, Round, Xor, Sigma, Compress;
    ghost var h := s.h[..];
    FlaggedIs(s.f0, h, block[at..at + 128], s.t0, s.t1, 0);
    var m := Scalar.LoadMessage(block, at);
    var v := LoadVector(s);
    ghost var w := v[..];
    for r := 0 to 12
      invariant v[..] == Rounds(w, m, r)
      invariant s.h[..] == h
    {
      TableRound(r, v, m);
    }
    FoldBack(s, v);
  }

  method IncrementCounter(s: RefState, inc: U64)
    requires s.Shaped()
    modifies s`t0, s`t1
    ensures s.View() == Counted(old(s.View()), inc)
  {
    s.t0 := (s.t0 + inc) % TWO64;
    s.t1 := (s.t1 + if s.t0 < inc then 1 else 0) % TWO64;
  }

  /** Count a block and compress it, as the update loop does. */
  method CountAndCompress(s: RefState, block: array<Byte>, at: nat, ghost s0: Snapshot, ghost data: seq<Byte>, ghost k: nat)
    requires s.Shaped() && at + 128 <= block.Length
    requires 128 * k + 128 <= |data| && s.View() == CompressBlocks(Flagged(s.f0, s.f1), s0, data, k)
    requires block[at..at + 128] == BlockAt(data, k)
    modifies s.h, s`t0, s`t1
    ensures s.View() == CompressBlocks(Flagged(s.f0, s.f1), s0, data, k + 1)
  {
    hide Flagged, Compress, CompressBlocks, Counted;
    OneMoreBlock(Flagged(s.f0, s.f1), s0, data, k);
    IncrementCounter(s, 128);
    CompressBlock(s, block, at);
  }

  // ----- streaming -----

  method Append(s: RefState, input: array<Byte>, at: nat, n: nat)
    requires s.Shaped() && s.buflen + n <= 128 && at + n <= input.Length && input != s.buf
    modifies s`buflen, s.buf
    ensures s.View() == var v := old(s.View());
              v.(buf := Overwrite(v.buf, v.buflen, input[at..at + n]), buflen := v.buflen + n)
  {
    Core.Memcpy(s.buf, s.buflen, input, at, n);
    assert s.buf[..] == Overwrite(old(s.buf[..]), s.buflen, input[at..at + n]);
    s.buflen := s.buflen + n;
  }

  /** One block per turn, where the library makes one kernel call; the state ends the same, stale bytes
      included. A finalized state is not refused: its flags go on into every block. */
  method Update(s: RefState, input: array?<Byte>, at: nat, inlen: nat)
    requires s.Shaped() && s.View().Valid() && input != s.buf
    requires if input == null then inlen == 0 else at + inlen <= input.Length
    modifies s`t0, s`t1, s`buflen, s.h, s.buf
    ensures s.View() == Absorb(Flagged(s.f0, s.f1), old(s.View()), old(if input == null then [] else input[at..at + inlen]))
    ensures s.f0 == 0 && s.f1 == 0 ==>
              s.View() == Absorb(Compress, old(s.View()), old(if input == null then [] else input[at..at + inlen]))
  {
    hide Absorb, Flagged, Compress;
    AbsorbUnflagged(s.View(), if input == null then [] else input[at..at + inlen]);
    if inlen > 0 {
      TakeIn(s, input, at, inlen);
    } else {
      AbsorbNothing(Flagged(s.f0, s.f1), s.View());
      assert input != null ==> input[at..at] == [];
    }
  }

  method TakeIn(s: RefState, input: array<Byte>, at: nat, inlen: nat)
    requires s.Shaped() && s.View().Valid() && at + inlen <= input.Length && input != s.buf && inlen > 0
    modifies s`t0, s`t1, s`buflen, s.h, s.buf
    ensures s.View() == Absorb(Flagged(s.f0, s.f1), old(s.View()), input[at..at + inlen])
  {
    hide Absorb, Overwrite, Flagged;
    if inlen > 128 - s.buflen {
      TakeLong(s, input, at, inlen);
    } else {
      AbsorbShort(Flagged(s.f0, s.f1), s.View(), input[at..at + inlen]);
      Append(s, input, at, inlen);
    }
  }

  method TakeLong(s: RefState, input: array<Byte>, at: nat, inlen: nat)
    requires s.Shaped() && s.View().Valid() && at + inlen <= input.Length && input != s.buf && s.buflen + inlen > 128
    modifies s`t0, s`t1, s`buflen, s.h, s.buf
    ensures s.View() == Absorb(Flagged(s.f0, s.f1), old(s.View()), input[at..at + inlen])
  {
    hide Absorb, Overwrite, Flagged, Flushed, Flushes;
    ghost var data := input[at..at + inlen];
    AbsorbLong(Flagged(s.f0, s.f1), s.View(), data);
    var n := Flush(s, input, at, inlen);
    assert input[at + n..at + n + (inlen - n)] == data[n..];
    Append(s, input, at + n, inlen - n);
  }

  method Flush(s: RefState, input: array<Byte>, at: nat, inlen: nat) returns (n: nat)
    requires s.Shaped() && s.View().Valid() && at + inlen <= input.Length && input != s.buf && s.buflen + inlen > 128
    modifies s`t0, s`t1, s`buflen, s.h, s.buf
    ensures n == Flushes(old(s.View()), inlen) <= inlen
    ensures s.View() == Flushed(Flagged(s.f0, s.f1), old(s.View()), input[at..at + inlen])
  {
    hide CompressBlocks, Overwrite, Flagged;
    ghost var data := input[at..at + inlen];
    var fill := 128 - s.buflen;
    assert input[at..at + fill] == data[..fill];
    Append(s, input, at, fill);
    s.buflen := 0;
    CompressBuffer(s);
    ghost var one := s.View();
    ghost var rest := data[fill..];
    assert input[at + fill..at + fill + (inlen - fill)] == rest;
    n := DrainBlocks(s, input, at + fill, inlen - fill);
    BlocksOfPrefix(Flagged(s.f0, s.f1), one, rest, n);
    n := fill + 128 * n;
  }

  /** The filled buffer, counted and compressed. */
  method CompressBuffer(s: RefState)
    requires s.Shaped()
    modifies s.h, s`t0, s`t1
    ensures s.View() == CompressBlocks(Flagged(s.f0, s.f1), old(s.View()), old(s.buf[..]), 1)
  {
    hide CompressBlocks, Flagged;
    ghost var data := s.buf[..];
    NoBlocks(Flagged(s.f0, s.f1), s.View(), data);
    assert s.buf[0..128] == BlockAt(data, 0);
    CountAndCompress(s, s.buf, 0, s.View(), data, 0);
  }

  /** The while loop: every block that is not the last. */
  method DrainBlocks(s: RefState, input: array<Byte>, at: nat, inlen: nat) returns (n: nat)
    requires s.Shaped() && at + inlen <= input.Length && inlen > 0
    modifies s.h, s`t0, s`t1
    ensures n == Released(inlen)
    ensures s.View() == CompressBlocks(Flagged(s.f0, s.f1), old(s.View()), old(input[at..at + inlen]), n)
  {
    hide CompressBlocks, Flagged;
    ghost var s0 := s.View();
    ghost var data := input[at..at + inlen];
    var p, left := at, inlen;
    n := 0;
    NoBlocks(Flagged(s.f0, s.f1), s0, data);
    while left > 128
      invariant p == at + 128 * n && left == inlen - 128 * n && left > 0
      invariant s.View() == CompressBlocks(Flagged(s.f0, s.f1), s0, data, n)
      invariant input[at..at + inlen] == data
    {
      BlockOfSlice(input[..], at, inlen, n);
      assert input[..][at..at + inlen] == data && input[..][p..p + 128] == input[p..p + 128];
      CountAndCompress(s, input, p, s0, data, n);
      p, left, n := p + 128, left - 128, n + 1;
    }
  }

  method Final(s: RefState, out: array?<Byte>, at: nat, outlen: nat) returns (ok: bool)
    requires s.Valid() && out != s.buf
    requires out != null ==> at + outlen <= out.Length
    modifies s, s.h, s.buf, if out == null then {} else {out}
    ensures s.Valid()
    ensures var e := Calls.Final(Compress, old(s.View()), if out == null then None else Some(outlen));
            && s.View() == e.s && ok == (e.rc == OK)
            && (out != null ==> Wrote(e.out, at, old(out[..]), out[..]))
  {
    hide Finalized, DigestOf, Compress;
    if out == null || outlen < s.outlen {
      return false;
    }
    if s.f0 != 0 {
      return false;
    }
    FinishInPlace(s, out, at);
    return true;
  }

  method FinishInPlace(s: RefState, out: array<Byte>, at: nat)
    requires s.Valid() && s.f0 == 0 && at + s.outlen <= out.Length && out != s.buf
    modifies s, s.h, s.buf, out
    ensures s.Valid() && s.View() == Finalized(Compress, old(s.View()))
    ensures Wrote(DigestOf(Compress, old(s.View())), at, old(out[..]), out[..])
  {
    hide Compress, FinalHash, LastBlock, HashBytes;
    CompressLast(s);
    var buffer := new Byte[64];
    StoreHash(s, buffer);
    Core.Memcpy(out, at, buffer, 0, s.outlen);
    Core.Memset0(buffer, 0, 64);
  }

  method CompressLast(s: RefState)
    requires s.Valid() && s.f0 == 0
    modifies s, s.h, s.buf
    ensures s.f0 == ALL_ONES && s.f1 == 0
    ensures var v := old(s.View());
            s.View() == v.WithCount(v.Count() + v.buflen).(fin := true, h := FinalHash(Compress, v), buf := LastBlock(v))
  {
    hide Compress, Counted, Lo, Hi;
    ghost var s0 := s.View();
    CountedIs(s0, s0.buflen);
    IncrementCounter(s, s.buflen);
    s.f0 := ALL_ONES;
    Core.Memset0(s.buf, s.buflen, 128 - s.buflen);
    assert s.buf[..] == LastBlock(s0) == s.buf[0..128];
    CompressBlock(s, s.buf, 0);
  }

  method StoreHash(s: RefState, d: array<Byte>)
    requires s.Shaped() && d.Length == 64 && d != s.buf
    modifies d
    ensures d[..] == HashBytes(s.h[..])
  {
    hide Store64;
    for i := 0 to 8
      invariant forall j :: 0 <= j < 8 * i ==> d[j] == Store64(s.h[j / 8])[j % 8]
    {
      var w := Store64(s.h[i]);
      forall k | 0 <= k < 8 {
        d[8 * i + k] := w[k];
      }
    }
  }

  // ----- in step with the library -----

  /** A library state and a reference state with storage of their own and the same contents. */
  ghost predicate InStep(s: UbState, r: RefState)
    reads s, s.h, s.buf, r, r.h, r.buf
  {
    && s.Valid() && r.Valid() && s.h != r.h && s.buf != r.buf
    && r.View() == s.View().(wipe := false)
  }

  ghost function Contents(chunks: seq<array<Byte>>): seq<seq<Byte>>
    reads chunks
  {
    seq(|chunks|, i requires 0 <= i < |chunks| reads chunks => chunks[i][..])
  }

  /** The same bytes into both, each by its own code. */
  method UpdateOnce(s: UbState, r: RefState, c: array<Byte>)
    requires InStep(s, r) && !s.fin && s.buf != c && r.buf != c
    modifies s, s.h, s.buf, r, r.h, r.buf
    ensures InStep(s, r) && !s.fin && s.View() == Absorb(Compress, old(s.View()), old(c[..]))
  {
    hide Absorb, Compress;
    assert c[0..c.Length] == c[..];
    AbsorbIgnoresWipe(Compress, s.View(), c[..], false);
    var _ := Core.Update(s, c, 0, c.Length);
    Update(r, c, 0, c.Length);
  }

  ghost predicate Apart(s: UbState, r: RefState, chunks: seq<array<Byte>>) {
    forall i :: 0 <= i < |chunks| ==> chunks[i] != s.buf && chunks[i] != r.buf
  }

  method UpdateBoth(s: UbState, r: RefState, chunks: seq<array<Byte>>)
    requires InStep(s, r) && !s.fin && Apart(s, r, chunks)
    modifies s, s.h, s.buf, r, r.h, r.buf
    ensures InStep(s, r) && !s.fin && s.View() == AbsorbAll(Compress, old(s.View()), old(Contents(chunks)))
  {
    hide Absorb, Compress;
    ghost var s0, data := s.View(), Contents(chunks);
    for i := 0 to |chunks|
      invariant InStep(s, r) && !s.fin && Contents(chunks) == data
      invariant AbsorbAll(Compress, s.View(), data[i..]) == AbsorbAll(Compress, s0, data)
    {
      assert chunks[i][..] == data[i] && data[i..][1..] == data[i + 1..];
      UpdateOnce(s, r, chunks[i]);
      assert Contents(chunks) == data;
    }
  }

  /** The digest a live state is about to emit once it has absorbed `data`. */
  ghost function Expected(s: Snapshot, data: seq<seq<Byte>>): (d: seq<Byte>)
    requires s.Valid()
    ensures |d| == s.outlen
  {
    hide AbsorbAll, DigestOf, Compress;
    DigestOf(Compress, AbsorbAll(Compress, s, data))
  }

  /** Both finals: the same code and the same bytes, and states that differ at most by the wiping. */
  method FinalBoth(s: UbState, r: RefState, outcap: nat, sout: array<Byte>, rout: array<Byte>) returns (rc: Status, ok: bool)
    requires InStep(s, r) && !s.fin
    requires outcap <= sout.Length && outcap <= rout.Length && sout != rout
    requires sout != s.buf && sout != r.buf && rout != s.buf && rout != r.buf
    modifies s, s.h, s.buf, r, r.h, r.buf, sout, rout
    ensures ok == (rc == OK) == (old(s.outlen) <= outcap)
    ensures s.wipe == old(s.wipe) && (!s.wipe || !ok ==> InStep(s, r))
    ensures var d := if ok then DigestOf(Compress, old(s.View())) else [];
            Wrote(d, 0, old(sout[..]), sout[..]) && Wrote(d, 0, old(rout[..]), rout[..])
  {
    hide DigestOf, Finalized, Compress;
    DigestIgnoresWipe(Compress, s.View(), false);
    FinalizedKeeps(s.View());
    rc := Core.Final(s, sout, 0, outcap);
    ok := Final(r, rout, 0, outcap);
  }

  lemma FinalizedKeeps(s: Snapshot)
    requires s.Valid()
    ensures Finalized(Compress, s).wipe == s.wipe && Finalized(Compress, s).outlen == s.outlen
  {
    hide Compress;
  }

  /** Over any updates and a final the two implementations stay equal, stale bytes included, return
      the same code and emit the same digest. */
  method Lockstep(s: UbState, r: RefState, chunks: seq<array<Byte>>, outcap: nat, sout: array<Byte>, rout: array<Byte>)
    returns (rc: Status, ok: bool)
    requires InStep(s, r) && !s.fin && Apart(s, r, chunks)
    requires outcap <= sout.Length && outcap <= rout.Length && sout != rout
    requires sout != s.buf && sout != r.buf && rout != s.buf && rout != r.buf
    modifies s, s.h, s.buf, r, r.h, r.buf, sout, rout
    ensures ok == (rc == OK) == (old(s.outlen) <= outcap)
    ensures s.wipe == old(s.wipe) && (!s.wipe || !ok ==> InStep(s, r))
    ensures var d := if ok then Expected(old(s.View()), old(Contents(chunks))) else [];
            Wrote(d, 0, old(sout[..]), sout[..]) && Wrote(d, 0, old(rout[..]), rout[..])
  {
    hide AbsorbAll, DigestOf, Compress, Contents;
    UpdateBoth(s, r, chunks);
    rc, ok := FinalBoth(s, r, outcap, sout, rout);
  }

  // ----- init -----

  /** `p` is the packed structure's own memory; nothing about it is checked. */
  method InitParam(s: RefState, p: array<Byte>)
    requires s.Shaped() && p.Length == 64 && p != s.buf
    modifies s, s.h, s.buf
    ensures s.f0 == 0 && s.f1 == 0
    ensures s.View() == Snapshot(Masked(p[..]), 0, 0, Zeros(128), 0, p[0] as int, false, false)
  {
    hide Masked;
    Core.Memset0(s.buf, 0, 128);
    assert s.buf[..] == Zeros(128);
    s.t0, s.t1, s.f0, s.f1, s.buflen := 0, 0, 0, 0, 0;
    MaskIv(s, p);
    s.outlen := p[0] as int;
  }

  method MaskIv(s: RefState, p: array<Byte>)
    requires s.Shaped() && p.Length == 64
    modifies s.h
    ensures s.h[..] == Masked(p[..])
  {
    hide Load64, Xor;
    ghost var b := p[..];
    for i := 0 to 8
      invariant forall j :: 0 <= j < i ==> s.h[j] == Xor(IV[j], Load64(b[8 * j..8 * j + 8]))
    {
      assert p[8 * i..8 * i + 8] == b[8 * i..8 * i + 8];
      s.h[i] := IV[i];
      s.h[i] := Xor(s.h[i], Load64(p[8 * i..8 * i + 8]));
    }
  }

  method Store32(memory: array<Byte>, at: nat, v: U32)
    requires at + 4 <= memory.Length
    modifies memory
    ensures memory[..] == Stored(old(memory[..]), at, LeBytes(v, 4))
  {
    hide LeBytes;
    FourBytes(v);
    memory[at] := (v % 256) as Byte;
    memory[at + 1] := (v / 0x100 % 256) as Byte;
    memory[at + 2] := (v / 0x1_0000 % 256) as Byte;
    memory[at + 3] := (v / 0x100_0000 % 256) as Byte;
  }

  method StoreBytes(memory: array<Byte>, at: nat, b: seq<Byte>)
    requires at + |b| <= memory.Length
    modifies memory
    ensures memory[..] == old(memory[..at]) + b + old(memory[at + |b|..])
  {
    forall i | 0 <= i < |b| {
      memory[at + i] := b[i];
    }
  }

  /** `m` with four bytes stored at `at`. */
  function Stored(m: seq<Byte>, at: nat, w: seq<Byte>): (r: seq<Byte>)
    requires at + 4 <= |m| && |w| == 4
    ensures |r| == |m|
  {
    m[..at] + w + m[at + 4..]
  }

  lemma ThreeStored(m: seq<Byte>, x: seq<Byte>, y: seq<Byte>, z: seq<Byte>)
    requires |m| == 64 && |x| == |y| == |z| == 4
    ensures var r := Stored(Stored(Stored(m, 4, x), 8, y), 12, z);
            r[..4] == m[..4] && r[4..8] == x && r[8..12] == y && r[12..16] == z && r[16..18] == m[16..18]
  {
    hide Stored;
    var a := Stored(m, 4, x);
    var b := Stored(a, 8, y);
    var c := Stored(b, 12, z);
    StoredLeaves(m, 4, x, 0, 4); StoredLeaves(a, 8, y, 0, 4); StoredLeaves(b, 12, z, 0, 4);
    StoredLeaves(a, 8, y, 4, 8); StoredLeaves(b, 12, z, 4, 8); StoredLeaves(b, 12, z, 8, 12);
    StoredLeaves(m, 4, x, 16, 18); StoredLeaves(a, 8, y, 16, 18); StoredLeaves(b, 12, z, 16, 18);
    assert c[..4] == c[0..4] && m[..4] == m[0..4];
  }

  lemma StoredLeaves(m: seq<Byte>, at: nat, w: seq<Byte>, i: nat, j: nat)
    requires at + 4 <= |m| && |w| == 4 && i <= j <= |m| && (j <= at || at + 4 <= i)
    ensures Stored(m, at, w)[at..at + 4] == w && Stored(m, at, w)[i..j] == m[i..j]
  {
  }

  /** The members of the packed structure up to `inner_length`. */
  method PackMembers(memory: array<Byte>, p: Param)
    requires memory.Length == 64
    modifies memory
    ensures var m := memory[..];
            && m[..4] == Front(p) && m[16..18] == Back(p)
            && m[4..8] == LeBytes(p.leaf_length, 4) && m[8..12] == LeBytes(p.node_offset, 4) && m[12..16] == LeBytes(p.xof_length, 4)
  {
    hide LeBytes, Stored, Front, Back;
    PackBytes(memory, p);
    ghost var m := memory[..];
    assert m[..4] == memory[..4] && m[16..18] == memory[16..18];
    Store32(memory, 4, p.leaf_length);
    Store32(memory, 8, p.node_offset);
    Store32(memory, 12, p.xof_length);
    ThreeStored(m, LeBytes(p.leaf_length, 4), LeBytes(p.node_offset, 4), LeBytes(p.xof_length, 4));
  }

  method PackBytes(memory: array<Byte>, p: Param)
    requires memory.Length == 64
    modifies memory
    ensures memory[..4] == Front(p) && memory[16..18] == Back(p)
  {
    memory[0], memory[1], memory[2], memory[3] :=
      p.digest_length as Byte, p.key_length as Byte, p.fanout as Byte, p.depth as Byte;
    memory[16], memory[17] := p.node_depth as Byte, p.inner_length as Byte;
  }

  /** The members from `reserved` on. */
  method PackTail(memory: array<Byte>, p: Param)
    requires memory.Length == 64
    modifies memory
    ensures memory[..18] == old(memory[..18])
    ensures memory[18..] == Zeros(14) + p.salt + p.personal
  {
    hide Zeros;
    Core.Memset0(memory, 18, 14);
    StoreBytes(memory, 32, p.salt);
    StoreBytes(memory, 48, p.personal);
  }

  method PackStruct(p: Param) returns (memory: array<Byte>)
    ensures fresh(memory) && memory.Length == 64 && LaidOut(p, memory[..])
  {
    hide LeBytes, Zeros, LaidOut;
    memory := new Byte[64];
    PackMembers(memory, p);
    ghost var front := memory[..18];
    PackTail(memory, p);
    assert memory[..] == front + memory[18..];
    LaidOutParts(p, front);
  }

  lemma LaidOutParts(p: Param, front: seq<Byte>)
    requires |front| == 18
    requires front[..4] == Front(p) && front[16..18] == Back(p)
    requires front[4..8] == LeBytes(p.leaf_length, 4) && front[8..12] == LeBytes(p.node_offset, 4) && front[12..16] == LeBytes(p.xof_length, 4)
    ensures LaidOut(p, front + (Zeros(14) + p.salt + p.personal))
  {
    hide LeBytes, Zeros;
    var m := front + (Zeros(14) + p.salt + p.personal);
    LaidOutPieces(p, m);
  }

  /** From the library's own parameter record, laid out packed, the two starting states are equal. */
  method InitFrom(s: RefState, p: Param)
    requires s.Shaped()
    modifies s, s.h, s.buf
    ensures s.f0 == 0 && s.f1 == 0 && s.View() == Calls.InitState(p)
  {
    hide Masked;
    var memory := PackStruct(p);
    PackedIsLaidOut(p, memory[..]);
    InitParam(s, memory);
    ByteOfNat(p.digest_length);
  }

  method Init(s: RefState, outlen: nat) returns (ok: bool)
    requires s.Shaped()
    modifies s, s.h, s.buf
    ensures ok == (1 <= outlen <= 64)
    ensures ok ==> s.Valid() && s.f0 == 0 && s.View() == Calls.InitState(ParamInit(outlen))
    ensures !ok ==> s.View() == old(s.View())
  {
    hide Packed, Masked;
    if outlen == 0 || outlen > 64 {
      return false;
    }
    InitFrom(s, Param(outlen, 0, 1, 1, 0, 0, 0, 0, 0, Zeros(16), Zeros(16)));
    return true;
  }

  method InitKey(s: RefState, outlen: nat, key: array?<Byte>, at: nat, keylen: nat) returns (ok: bool)
    requires s.Shaped() && key != s.buf
    requires key != null ==> at + keylen <= key.Length
    modifies s, s.h, s.buf
    ensures ok == (1 <= outlen <= 64 && key != null && 1 <= keylen <= 64)
    ensures ok ==> s.Valid() && s.f0 == 0
    ensures ok ==> s.View().(wipe := true) == Calls.InitKey(Compress, old(s.View()), outlen, Bytes(old(key[at..at + keylen]))).0
    ensures !ok ==> s.View() == old(s.View())
  {
    hide Packed, Masked, Absorb, Compress, Flagged;
    if outlen == 0 || outlen > 64 {
      return false;
    }
    if key == null || keylen == 0 || keylen > 64 {
      return false;
    }
    ghost var k := key[at..at + keylen];
    InitFrom(s, Param(outlen, keylen, 1, 1, 0, 0, 0, 0, 0, Zeros(16), Zeros(16)));
    AbsorbIgnoresWipe(Compress, s.View(), KeyBlock(k), true);
    AbsorbKey(s, key, at, keylen);
    return true;
  }

  /** The key as one zero-padded block. */
  method AbsorbKey(s: RefState, key: array<Byte>, at: nat, keylen: nat)
    requires s.Valid() && s.f0 == 0 && keylen <= 64 && at + keylen <= key.Length
    modifies s`t0, s`t1, s`buflen, s.h, s.buf
    ensures s.View() == Absorb(Compress, old(s.View()), KeyBlock(old(key[at..at + keylen])))
  {
    hide Absorb, Compress, Flagged;
    var block := new Byte[128](_ => 0);
    Core.Memcpy(block, 0, key, at, keylen);
    assert block[..] == KeyBlock(key[at..at + keylen]) && block[0..128] == block[..];
    Update(s, block, 0, 128);
    Core.Memset0(block, 0, 128);
  }

  /** `ref_blake2b`: refuses what it cannot hash exactly as asked, and otherwise emits the RFC 7693 digest. */
  method Hash(out: array?<Byte>, at: nat, outlen: nat,
              input: array?<Byte>, iat: nat, inlen: nat,
              key: array?<Byte>, kat: nat, keylen: nat) returns (ok: bool)
    requires out != null ==> at + outlen <= out.Length
    requires input != null ==> iat + inlen <= input.Length
    requires key != null ==> kat + keylen <= key.Length
    modifies if out == null then {} else {out}
    ensures ok == (out != null && (input != null || inlen == 0) && (key != null || keylen == 0) && 1 <= outlen <= 64 && keylen <= 64)
    ensures ok ==> Wrote(Blake2b(outlen, old(if keylen == 0 then [] else key[kat..kat + keylen]), old(if input == null then [] else input[iat..iat + inlen])), at, old(out[..]), out[..])
    ensures !ok && out != null ==> out[..] == old(out[..])
  {
    hide Blake2b;
    if input == null && inlen > 0 {
      return false;
    }
    if out == null {
      return false;
    }
    if key == null && keylen > 0 {
      return false;
    }
    if outlen == 0 || outlen > 64 {
      return false;
    }
    if keylen > 64 {
      return false;
    }
    HashChecked(out, at, outlen, input, iat, inlen, key, kat, keylen);
    return true;
  }

  method HashChecked(out: array<Byte>, at: nat, outlen: nat,
                     input: array?<Byte>, iat: nat, inlen: nat,
                     key: array?<Byte>, kat: nat, keylen: nat)
    requires at + outlen <= out.Length && 1 <= outlen <= 64 && keylen <= 64
    requires if input == null then inlen == 0 else iat + inlen <= input.Length
    requires if key == null then keylen == 0 else kat + keylen <= key.Length
    modifies out
    ensures Wrote(Blake2b(outlen, old(if keylen == 0 then [] else key[kat..kat + keylen]), old(if input == null then [] else input[iat..iat + inlen])), at, old(out[..]), out[..])
  {
    hide Absorb, DigestOf, Compress, Blake2b, InitialHash, Represents, Finalized;
    ghost var k := if keylen == 0 then [] else key[kat..kat + keylen];
    ghost var msg := if input == null then [] else input[iat..iat + inlen];
    var s := new RefState();
    InitMaybeKeyed(s, outlen, key, kat, keylen);
    Digests.KeyedDigest(s.View(), outlen, k, msg);
    Update(s, input, iat, inlen);
    var _ := Final(s, out, at, outlen);
  }

  method InitMaybeKeyed(s: RefState, outlen: nat, key: array?<Byte>, at: nat, keylen: nat)
    requires s.Shaped() && 1 <= outlen <= 64 && keylen <= 64 && key != s.buf
    requires if key == null then keylen == 0 else at + keylen <= key.Length
    modifies s, s.h, s.buf
    ensures s.Valid() && s.f0 == 0 && s.outlen == outlen
    ensures Represents(Compress, s.View(), InitialHash(outlen, keylen),
                       KeyedData(old(if keylen == 0 then [] else key[at..at + keylen]), []))
  {
    hide Absorb, Compress, Chain, InitialHash, Calls.InitKey, Calls.InitState, ParamInit;
    ghost var k := if keylen == 0 then [] else key[at..at + keylen];
    ghost var v := s.View();
    Digests.InitKeyRepresents(Compress, v, outlen, k);
    if keylen > 0 {
      var _ := InitKey(s, outlen, key, at, keylen);
    } else {
      Calls.InitForgets(Compress, v, v, outlen, Bytes([]));
      var _ := Init(s, outlen);
      InitIs(v, outlen);
    }
  }

  lemma InitIs(s: Snapshot, outlen: nat)
    requires 1 <= outlen <= 64
    ensures Calls.Init(s, outlen) == (Calls.InitState(ParamInit(outlen)), OK)
  {
  }
}
