/** Streaming computes the section 3.3 digest of everything absorbed, however it was cut up. */
module Streaming {
  import opened Words
  import opened Rfc7693
  import opened State
  import opened Spec

  /** `s` is a live state that started from `h0` and has absorbed exactly `msg`. */
  ghost predicate Represents(f: BlockFn, s: Snapshot, h0: Hash, msg: seq<Byte>) {
    var nb := Released(|msg|);
    && s.Valid() && !s.fin
    && s.h == Chain(f, h0, 0, msg, nb)
    && s.Count() == 128 * nb % TWO128
    && s.Pending() == msg[128 * nb..]
  }

  lemma ReleasedAdds(n: nat, d: nat)
    ensures Released(n + d) == Released(n) + Released(n - 128 * Released(n) + d)
  {
  }

  /** Absorbing `data` appends it to what the state represents. */
  lemma AbsorbRepresents(f: BlockFn, s: Snapshot, h0: Hash, msg: seq<Byte>, data: seq<Byte>)
    requires Represents(f, s, h0, msg)
    ensures Represents(f, Absorb(f, s, data), h0, msg + data)
  {
    hide Lo, Hi, Chain, CompressBlocks;
    var nb := Released(|msg|);
    var whole := msg + data;
    var stream := s.Pending() + data;
    var nb' := Released(|stream|);
    var r := Absorb(f, s, data);
    ReleasedAdds(|msg|, |data|);
    assert stream == whole[128 * nb..];
    assert r.Pending() == whole[128 * (nb + nb')..];
    CountOfBlocks(f, s, stream, nb');
    ModAdds(128 * nb, 128 * nb');
    BlocksOfWhole(f, s, h0, msg, whole, nb, nb');
  }

  lemma BlocksOfWhole(f: BlockFn, s: Snapshot, h0: Hash, msg: seq<Byte>, whole: seq<Byte>, a: nat, b: nat)
    requires 128 * a <= |msg| && 128 * (a + b) <= |whole| && msg <= whole
    requires s.h == Chain(f, h0, 0, msg, a) && s.Count() == 128 * a % TWO128
    ensures CompressBlocks(f, s, whole[128 * a..], b).h == Chain(f, h0, 0, whole, a + b)
  {
    hide Lo, Hi, Chain;
    var rest := whole[128 * a..];
    assert whole[..|msg|] == msg[..|msg|];
    ChainCongruent(f, h0, 0, 0, whole, msg, |msg|, a);
    ChainSplits(f, h0, 0, whole, a, b);
    ChainCongruent(f, s.h, s.Count(), 128 * a, rest, rest, |rest|, b);
  }

  /** Finalizing emits the digest of what the state represents. */
  lemma FinalMatches(f: BlockFn, s: Snapshot, h0: Hash, msg: seq<Byte>)
    requires Represents(f, s, h0, msg)
    ensures DigestOf(f, s) == DigestFrom(f, h0, msg, s.outlen)
  {
    hide Lo, Hi, Chain, HashBytes;
    var nb := Released(|msg|);
    var dd := BlockCount(|msg|);
    assert dd == nb + 1;
    var padded := msg + Zeros(128 * dd - |msg|);
    assert padded[..|msg|] == msg[..|msg|];
    ChainCongruent(f, h0, 0, 0, padded, msg, |msg|, nb);
    assert BlockAt(padded, nb) == msg[128 * nb..] + Zeros(128 * dd - |msg|);
    CountCongruent(s.Count(), 128 * nb, s.buflen);
  }

  // ----- any number of updates -----

  function Flatten(chunks: seq<seq<Byte>>): seq<Byte> {
    if chunks == [] then [] else chunks[0] + Flatten(chunks[1..])
  }

  function AbsorbAll(f: BlockFn, s: Snapshot, chunks: seq<seq<Byte>>): (r: Snapshot)
    requires s.Valid()
    ensures r.Valid() && r.outlen == s.outlen && r.wipe == s.wipe
    decreases |chunks|
  {
    if chunks == [] then s else AbsorbAll(f, Absorb(f, s, chunks[0]), chunks[1..])
  }

  /** The wipe setting has no part in absorbing or in the digest. */
  lemma {:induction false} AbsorbAllIgnoresWipe(f: BlockFn, s: Snapshot, wipe: bool, chunks: seq<seq<Byte>>)
    requires s.Valid()
    ensures AbsorbAll(f, s.(wipe := wipe), chunks) == AbsorbAll(f, s, chunks).(wipe := wipe)
    ensures DigestOf(f, AbsorbAll(f, s.(wipe := wipe), chunks)) == DigestOf(f, AbsorbAll(f, s, chunks))
    decreases |chunks|
  {
    hide Absorb, DigestOf;
    if chunks == [] {
      DigestIgnoresWipe(f, s, wipe);
    } else {
      AbsorbIgnoresWipe(f, s, chunks[0], wipe);
      AbsorbAllIgnoresWipe(f, Absorb(f, s, chunks[0]), wipe, chunks[1..]);
    }
  }

  lemma OneChunk(f: BlockFn, s: Snapshot, data: seq<Byte>)
    requires s.Valid()
    ensures AbsorbAll(f, s, [data]) == Absorb(f, s, data) && Flatten([data]) == data
  {
    hide Absorb;
    var r := Absorb(f, s, data);
    assert [data][1..] == [];
    assert AbsorbAll(f, r, []) == r;
  }

  lemma {:induction false} AbsorbAllRepresents(f: BlockFn, s: Snapshot, h0: Hash, msg: seq<Byte>, chunks: seq<seq<Byte>>)
    requires Represents(f, s, h0, msg)
    ensures Represents(f, AbsorbAll(f, s, chunks), h0, msg + Flatten(chunks))
    decreases |chunks|
  {
    hide Absorb;
    if chunks == [] {
      assert msg + Flatten(chunks) == msg;
    } else {
      AbsorbRepresents(f, s, h0, msg, chunks[0]);
      AbsorbAllRepresents(f, Absorb(f, s, chunks[0]), h0, msg + chunks[0], chunks[1..]);
      assert msg + chunks[0] + Flatten(chunks[1..]) == msg + Flatten(chunks);
    }
  }

  /** Chunking never matters: any cutting of the message yields its section 3.3 digest. */
  lemma ChunkingNeverMatters(f: BlockFn, s: Snapshot, h0: Hash, msg: seq<Byte>, chunks: seq<seq<Byte>>)
    requires Represents(f, s, h0, msg)
    ensures DigestOf(f, AbsorbAll(f, s, chunks)) == DigestFrom(f, h0, msg + Flatten(chunks), s.outlen)
  {
    hide AbsorbAll, DigestOf, DigestFrom, Chain;
    AbsorbAllRepresents(f, s, h0, msg, chunks);
    FinalMatches(f, AbsorbAll(f, s, chunks), h0, msg + Flatten(chunks));
  }

  /** After n > 0 bytes exactly (n-1)/128 blocks are compressed and (n-1)%128 + 1 bytes wait. */
  lemma Geometry(f: BlockFn, s: Snapshot, h0: Hash, msg: seq<Byte>)
    requires Represents(f, s, h0, msg) && msg != []
    ensures s.buflen == (|msg| - 1) % 128 + 1
    ensures s.Count() == (|msg| - 1) / 128 * 128 % TWO128
    ensures Finalized(f, s).Count() == |msg| % TWO128
  {
    hide Chain, Lo, Hi;
    var nb := Released(|msg|);
    assert s.buflen == |s.Pending()| == |msg| - 128 * nb;
    CountOfWithCount(Finalized(f, s), s.Count() + s.buflen);
    ModAdds(128 * nb, s.buflen);
  }

  /** Two states that represent the same data differ at most in digest length, wipe setting and bytes no call reads. */
  lemma Canonical(f: BlockFn, s: Snapshot, r: Snapshot, h0: Hash, msg: seq<Byte>)
    requires Represents(f, s, h0, msg) && Represents(f, r, h0, msg)
    ensures r == s.(buf := r.buf, outlen := r.outlen, wipe := r.wipe) && s.Pending() == r.Pending()
  {
    hide Chain;
    assert s.buflen == |s.Pending()| == |r.Pending()| == r.buflen;
  }
}
