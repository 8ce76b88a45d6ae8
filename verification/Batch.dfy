/** Hashing many tails over one absorbed prefix (src/prefix.c), as functions on values. */
module Batch {
  import opened Words
  import opened Rfc7693
  import opened State
  import opened Spec
  import opened Streaming
  import Calls

  function PrefixCheck(s: Snapshot, tailmax: nat): Status
    requires s.Valid()
  {
    if s.fin then EState
    else if tailmax > 128 then EGeometry
    else if tailmax > 128 - s.buflen then EGeometry
    else OK
  }

  /** The copy `finish` edits: the tail placed straight behind the pending bytes. */
  function WithTail(s: Snapshot, tail: seq<Byte>): (r: Snapshot)
    requires s.Valid() && |tail| <= 128 - s.buflen
    ensures r.Valid()
  {
    s.(buf := Overwrite(s.buf, s.buflen, tail), buflen := s.buflen + |tail|)
  }

  function TailDigest(f: BlockFn, s: Snapshot, tail: seq<Byte>): (d: seq<Byte>)
    requires s.Valid() && |tail| <= 128 - s.buflen
    ensures |d| == s.outlen
  {
    DigestOf(f, WithTail(s, tail))
  }

  /** `finish`: its checks come in another order than those of its callers. */
  function Finish(f: BlockFn, s: Snapshot, tail: seq<Byte>, outcap: nat): (r: (Status, seq<Byte>))
    requires s.Valid()
    ensures |r.1| == if r.0 == OK then s.outlen else 0
    ensures r.0 == OK ==> s.outlen <= outcap
  {
    if outcap < s.outlen then (EOutCap, [])
    else if |tail| > 128 - s.buflen then (EGeometry, [])
    else if s.fin then (EState, [])
    else (OK, TailDigest(f, s, tail))
  }

  function HashTail(f: BlockFn, s: Snapshot, tail: Input, out: Option<nat>): (r: (Status, seq<Byte>))
    requires s.Valid()
    ensures r.0 != OK ==> r.1 == []
    ensures r.0 == OK ==> out.Some? && |r.1| <= out.value
  {
    if out == None || (tail.Null? && tail.len > 0) then (EArg, [])
    else if s.fin then (EState, [])
    else if out.value < s.outlen then (EOutCap, [])
    else if tail.Length() > 128 - s.buflen then (EGeometry, [])
    else (OK, TailDigest(f, s, if tail.Null? then [] else tail.data))
  }

  /** `finish` asks in its own order, and accepts what its callers accept, with the same digest. */
  lemma FinishAccepts(f: BlockFn, s: Snapshot, tail: seq<Byte>, outcap: nat)
    requires s.Valid()
    ensures var (rc, d) := Finish(f, s, tail, outcap);
            && (rc == EOutCap <==> outcap < s.outlen)
            && (rc == EGeometry <==> outcap >= s.outlen && s.buflen + |tail| > 128)
            && (rc == EState <==> outcap >= s.outlen && s.buflen + |tail| <= 128 && s.fin)
            && (rc == OK <==> HashTail(f, s, Bytes(tail), Some(outcap)).0 == OK)
            && d == HashTail(f, s, Bytes(tail), Some(outcap)).1
  {
    hide TailDigest;
  }

  // ----- batches of consecutive counters -----

  function SliceLength(s: Snapshot, off: nat, len: nat): nat
    requires off <= s.outlen
  {
    if len == 0 then s.outlen - off else len
  }

  /** The up-front checks of `ub_hash_n`; the number of digests plays no part. */
  function BatchStatus(s: Snapshot, width: nat, off: nat, len: nat, stride: nat): Status
    requires s.Valid()
  {
    if width != 4 && width != 8 then EArg
    else if off > s.outlen then EArg
    else if SliceLength(s, off, len) > s.outlen - off then EArg
    else if stride < SliceLength(s, off, len) then EOutCap
    else if s.fin then EState
    else if width > 128 - s.buflen then EGeometry
    else OK
  }

  /** One accepted batch call: the shared state, the slice and the layout. */
  datatype Job = Job(s: Snapshot, width: nat, first: U64, off: nat, len: nat, stride: nat)
  {
    predicate Accepted() {
      s.Valid() && BatchStatus(s, width, off, len, stride) == OK
    }

    function Len(): nat
      requires Accepted()
    {
      SliceLength(s, off, len)
    }

    /** The bytes counter i contributes. */
    function Slice(f: BlockFn, i: nat): (b: seq<Byte>)
      requires Accepted()
      ensures |b| == Len()
    {
      TailDigest(f, s, LeBytes((first + i) % TWO64, width))[off..off + Len()]
    }

    /** Where slice i starts in a buffer whose slot 0 is at `base`. */
    function Slot(base: nat, i: nat): nat {
      base + i * stride
    }

    /** The buffer is long enough for n slices from `base`. */
    predicate Fits(base: nat, n: nat, size: nat)
      requires Accepted()
    {
      n > 0 ==> Slot(base, n - 1) + Len() <= size
    }

    predicate Covers(base: nat, i: nat, j: nat)
      requires Accepted()
    {
      Slot(base, i) <= j < Slot(base, i) + Len()
    }

    /** `out` is `out0` with exactly the slices in `done` written into it. */
    ghost predicate Filled(f: BlockFn, base: nat, done: set<nat>, out0: seq<Byte>, out: seq<Byte>)
      requires Accepted()
    {
      && |out| == |out0|
      && (forall i, j :: i in done && 0 <= j < |out| && Covers(base, i, j) ==> out[j] == Slice(f, i)[j - Slot(base, i)])
      && (forall j :: 0 <= j < |out| && (forall i :: i in done ==> !Covers(base, i, j)) ==> out[j] == out0[j])
    }
  }

  // ----- the fast path is the slow path -----

  /** Placing a tail that fits is absorbing it. */
  lemma TailIsAbsorbed(f: BlockFn, s: Snapshot, tail: seq<Byte>)
    requires s.Valid() && |tail| <= 128 - s.buflen
    ensures WithTail(s, tail) == Absorb(f, s, tail) && AbsorbWork(s, |tail|) == 0
  {
    hide Absorb, Overwrite;
    AbsorbShort(f, s, tail);
  }

  /** An accepted tail gives what copy, update and final give, which is the digest of prefix and tail. */
  lemma TailMatchesSlowPath(f: BlockFn, s: Snapshot, h0: Hash, msg: seq<Byte>, tail: seq<Byte>, cap: nat)
    requires Represents(f, s, h0, msg)
    ensures var (rc, d) := HashTail(f, s, Bytes(tail), Some(cap));
            var slow := Calls.Final(f, Calls.Update(f, s, Bytes(tail)).0, Some(cap));
            && (rc == OK ==> slow.rc == OK && d == slow.out == DigestFrom(f, h0, msg + tail, s.outlen))
            && (slow.rc == OK ==> (rc == OK <==> AbsorbWork(s, |tail|) == 0) && (rc != OK ==> rc == EGeometry))
            && (slow.rc != OK ==> rc == slow.rc)
  {
    hide Absorb, DigestOf, DigestFrom, Chain, Finalized, WithTail;
    AbsorbRepresents(f, s, h0, msg, tail);
    FinalMatches(f, Absorb(f, s, tail), h0, msg + tail);
    if |tail| <= 128 - s.buflen {
      TailIsAbsorbed(f, s, tail);
    }
  }

  /** The compressions of copy, update with an n-byte tail, final. */
  function SlowPathWork(s: Snapshot, n: nat): nat {
    AbsorbWork(s, n) + 1
  }

  /** The check accepts a live state exactly when every tail up to `tailmax` costs one compression. */
  lemma CheckIsExact(s: Snapshot, tailmax: nat)
    requires s.Valid() && !s.fin
    ensures PrefixCheck(s, tailmax) == OK <==> forall n :: 0 <= n <= tailmax ==> SlowPathWork(s, n) == 1
    ensures PrefixCheck(s, tailmax) == OK || PrefixCheck(s, tailmax) == EGeometry
  {
    if PrefixCheck(s, tailmax) != OK {
      assert SlowPathWork(s, tailmax) > 1;
    }
  }

  // ----- layout -----

  lemma RowsApart(i: nat, k: nat, stride: nat)
    requires i < k
    ensures i * stride + stride <= k * stride
  {
    assert k * stride == (i + 1) * stride + (k - i - 1) * stride;
  }

  lemma NextSlot(job: Job, base: nat, i: nat)
    ensures job.Slot(base, 0) == base && job.Slot(base, i + 1) == job.Slot(base, i) + job.stride
  {
    assert (i + 1) * job.stride == i * job.stride + job.stride;
  }

  lemma SlotsApart(job: Job, base: nat, i: nat, k: nat)
    requires job.Accepted() && i < k
    ensures job.Slot(base, i) + job.Len() <= job.Slot(base, k)
  {
    RowsApart(i, k, job.stride);
  }

  /** No byte of the output belongs to two slices. */
  lemma NoOverlap(job: Job, base: nat, i: nat, k: nat, j: nat)
    requires job.Accepted() && job.Covers(base, i, j) && job.Covers(base, k, j)
    ensures i == k
  {
    if i < k { SlotsApart(job, base, i, k); }
    if k < i { SlotsApart(job, base, k, i); }
  }

  lemma EarlierFits(job: Job, base: nat, i: nat, n: nat, size: nat)
    requires job.Accepted() && job.Fits(base, n, size) && i < n
    ensures job.Slot(base, i) + job.Len() <= size
  {
    if i < n - 1 { SlotsApart(job, base, i, n - 1); }
  }

  lemma NothingFilled(f: BlockFn, job: Job, base: nat, out0: seq<Byte>)
    requires job.Accepted()
    ensures job.Filled(f, base, {}, out0, out0)
  {
  }

  function Patch(out: seq<Byte>, at: nat, b: seq<Byte>): (r: seq<Byte>)
    requires at + |b| <= |out|
    ensures |r| == |out|
  {
    out[..at] + b + out[at + |b|..]
  }

  /** Writing one more slice into its slot. */
  lemma OneMoreSlice(f: BlockFn, job: Job, base: nat, done: set<nat>, i: nat, out0: seq<Byte>, out: seq<Byte>)
    requires job.Accepted() && job.Filled(f, base, done, out0, out)
    requires job.Slot(base, i) + job.Len() <= |out|
    ensures job.Filled(f, base, done + {i}, out0, Patch(out, job.Slot(base, i), job.Slice(f, i)))
  {
    hide Job.Slice, TailDigest;
    var r := Patch(out, job.Slot(base, i), job.Slice(f, i));
    forall k, j | k in done + {i} && 0 <= j < |r| && job.Covers(base, k, j)
      ensures r[j] == job.Slice(f, k)[j - job.Slot(base, k)]
    {
      if job.Covers(base, i, j) {
        NoOverlap(job, base, i, k, j);
      }
    }
    forall j | 0 <= j < |r| && forall k :: k in done + {i} ==> !job.Covers(base, k, j)
      ensures r[j] == out0[j]
    {
      assert i in done + {i};
      assert !job.Covers(base, i, j);
      assert forall k :: k in done ==> k in done + {i};
    }
  }

  /** The layout leaves no freedom: what was there before and which slices are done fix every byte. */
  lemma FilledUnique(f: BlockFn, job: Job, base: nat, done: set<nat>, out0: seq<Byte>, a: seq<Byte>, b: seq<Byte>)
    requires job.Accepted() && job.Filled(f, base, done, out0, a) && job.Filled(f, base, done, out0, b)
    ensures a == b
  {
    hide Job.Slice;
    forall j | 0 <= j < |a|
      ensures a[j] == b[j]
    {
      if i :| i in done && job.Covers(base, i, j) {
        assert a[j] == job.Slice(f, i)[j - job.Slot(base, i)] == b[j];
      }
    }
  }

  /** What stands in slot i once all n slices are written, byte positions written out. */
  lemma SlotBytes(f: BlockFn, job: Job, h0: Hash, msg: seq<Byte>, base: nat, n: nat, i: nat, out0: seq<Byte>, out: seq<Byte>)
    requires job.Accepted() && Represents(f, job.s, h0, msg) && i < n
    requires job.Fits(base, n, |out|) && job.Filled(f, base, Upto(n), out0, out)
    ensures var l := if job.len == 0 then job.s.outlen - job.off else job.len;
            && base + i * job.stride + l <= |out| && job.off + l <= job.s.outlen
            && out[base + i * job.stride..base + i * job.stride + l]
               == DigestFrom(f, h0, msg + LeBytes((job.first + i) % TWO64, job.width), job.s.outlen)[job.off..job.off + l]
  {
    hide Job.Slice, DigestFrom, Represents, LeBytes;
    EarlierFits(job, base, i, n, |out|);
    SliceMeaning(f, job, h0, msg, i);
    var at, l := job.Slot(base, i), job.Len();
    forall j | at <= j < at + l
      ensures out[j] == job.Slice(f, i)[j - at]
    {
      assert job.Covers(base, i, j) && i in Upto(n);
    }
    assert out[at..at + l] == job.Slice(f, i);
  }

  /** A byte before the first slot, in the gap behind slot k, or past the last row keeps its value. */
  lemma GapBytes(f: BlockFn, job: Job, base: nat, n: nat, k: nat, j: nat, out0: seq<Byte>, out: seq<Byte>)
    requires job.Accepted() && job.Filled(f, base, Upto(n), out0, out) && j < |out|
    requires j < base || base + n * job.stride <= j
             || (base + k * job.stride + (if job.len == 0 then job.s.outlen - job.off else job.len) <= j < base + (k + 1) * job.stride)
    ensures out[j] == out0[j]
  {
    hide Job.Slice, Job.Covers;
    forall i | i in Upto(n)
      ensures !job.Covers(base, i, j)
    {
      NextSlot(job, base, k);
      InNoSlot(job, base, i, n, k, j);
    }
  }

  lemma InNoSlot(job: Job, base: nat, i: nat, n: nat, k: nat, j: nat)
    requires job.Accepted() && i < n
    requires j < base || job.Slot(base, n) <= j || job.Slot(base, k) + job.Len() <= j < job.Slot(base, k + 1)
    ensures !job.Covers(base, i, j)
  {
    hide Job.Slot, BatchStatus;
    SlotsApart(job, base, i, n);
    NextSlot(job, base, 0);
    if 0 < i { SlotsApart(job, base, 0, i); }
    if i < k { SlotsApart(job, base, i, k); }
    if k + 1 < i { SlotsApart(job, base, k + 1, i); }
  }

  function Upto(n: nat): (r: set<nat>)
    ensures forall i :: i in r <==> 0 <= i < n
  {
    if n == 0 then {} else Upto(n - 1) + {n - 1}
  }

  /** Slice i is the chosen part of the digest of the prefix followed by counter first + i. */
  lemma SliceMeaning(f: BlockFn, job: Job, h0: Hash, msg: seq<Byte>, i: nat)
    requires job.Accepted() && Represents(f, job.s, h0, msg)
    ensures var tail := LeBytes((job.first + i) % TWO64, job.width);
            job.Slice(f, i) == DigestFrom(f, h0, msg + tail, job.s.outlen)[job.off..job.off + job.Len()]
  {
    hide Absorb, DigestOf, DigestFrom, Chain, WithTail, LeBytes;
    var tail := LeBytes((job.first + i) % TWO64, job.width);
    TailMeaning(f, job.s, h0, msg, tail);
  }

  lemma TailMeaning(f: BlockFn, s: Snapshot, h0: Hash, msg: seq<Byte>, tail: seq<Byte>)
    requires Represents(f, s, h0, msg) && |tail| <= 128 - s.buflen
    ensures TailDigest(f, s, tail) == DigestFrom(f, h0, msg + tail, s.outlen)
  {
    hide Absorb, DigestOf, DigestFrom, Chain, WithTail;
    TailIsAbsorbed(f, s, tail);
    AbsorbRepresents(f, s, h0, msg, tail);
    FinalMatches(f, Absorb(f, s, tail), h0, msg + tail);
  }
}
