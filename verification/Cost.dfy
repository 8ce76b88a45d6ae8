/** Compressions are the unit of cost: how many a message, a tail and a batch take. */
module Cost {
  import opened Rfc7693
  import opened Words
  import opened State
  import opened Spec
  import opened Streaming
  import opened Batch

  /** The compressions of a list of updates, one after another. */
  function AbsorbAllWork(f: BlockFn, s: Snapshot, chunks: seq<seq<Byte>>): nat
    requires s.Valid()
    decreases |chunks|
  {
    if chunks == [] then 0
    else AbsorbWork(s, |chunks[0]|) + AbsorbAllWork(f, Absorb(f, s, chunks[0]), chunks[1..])
  }

  /** However it is cut, a stream compresses exactly the blocks its length releases. */
  lemma {:induction false} ChunkingCostsNothing(f: BlockFn, s: Snapshot, h0: Hash, msg: seq<Byte>, chunks: seq<seq<Byte>>)
    requires Represents(f, s, h0, msg)
    ensures Released(|msg|) + AbsorbAllWork(f, s, chunks) == Released(|msg + Flatten(chunks)|)
    decreases |chunks|
  {
    hide Absorb, Chain;
    if chunks == [] {
      assert msg + Flatten(chunks) == msg;
    } else {
      AbsorbRepresents(f, s, h0, msg, chunks[0]);
      ReleasedAdds(|msg|, |chunks[0]|);
      assert s.buflen == |s.Pending()| == |msg| - 128 * Released(|msg|);
      ChunkingCostsNothing(f, Absorb(f, s, chunks[0]), h0, msg + chunks[0], chunks[1..]);
      assert msg + chunks[0] + Flatten(chunks[1..]) == msg + Flatten(chunks);
    }
  }

  /** A whole streamed hash of n bytes: the blocks released, and the last one. */
  function StreamCost(n: nat): nat {
    Released(n) + 1
  }

  /** It is the number of blocks of section 3.3: one for nothing, and otherwise n / 128 rounded up. */
  lemma StreamCostIsBlockCount(n: nat)
    ensures StreamCost(n) == BlockCount(n) == if n == 0 then 1 else (n + 127) / 128
  {
  }

  /** Counting ceil((n + 1) / 128) instead is one too many exactly at the positive multiples of 128. */
  lemma DocumentedCost(n: nat)
    ensures (n + 1 + 127) / 128 == StreamCost(n) + if n > 0 && n % 128 == 0 then 1 else 0
  {
  }

  /** Over an absorbed prefix, m accepted w-byte tails cost m compressions more; m separate streams
      cost (m - 1) * floor((P - 1) / 128) more than that. */
  lemma SharedPrefixSaves(f: BlockFn, s: Snapshot, h0: Hash, prefix: seq<Byte>, w: nat, m: nat)
    requires Represents(f, s, h0, prefix) && prefix != [] && m > 0
    requires PrefixCheck(s, w) == OK
    ensures m * StreamCost(|prefix| + w) == (Released(|prefix|) + m) + (m - 1) * ((|prefix| - 1) / 128)
  {
    hide Chain;
    assert s.buflen == |s.Pending()| == |prefix| - 128 * Released(|prefix|);
    ReleasedAdds(|prefix|, w);
    assert StreamCost(|prefix| + w) == Released(|prefix|) + 1;
    var r := Released(|prefix|);
    assert m * (r + 1) == m * r + m == r + (m - 1) * r + m;
  }
}
