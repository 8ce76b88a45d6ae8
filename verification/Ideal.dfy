/** The library refines an ideal one whose states are just the data absorbed so far. */
module Ideal {
  import opened Words
  import opened Rfc7693
  import opened State
  import opened Spec
  import opened Params
  import opened Streaming
  import opened Batch
  import opened Runs
  import Calls
  import Digests

  /** An ideal state: a starting hash and the bytes since, or a digest already taken. */
  datatype Ideal = Open(h0: Hash, msg: seq<Byte>, outlen: nat) | Closed(outlen: nat)

  type IdealStore = map<nat, Ideal>

  // ----- the ideal calls -----

  function Start(p: Param): Ideal {
    Open(Masked(Packed(p)), [], p.digest_length)
  }

  function ParamOk(p: Param): bool {
    1 <= p.digest_length <= 64 && p.key_length <= 64
  }

  function Pending(n: nat): nat {
    n - 128 * Released(n)
  }

  /** The digest of everything absorbed and then `tail`. */
  function Digest(f: BlockFn, a: Ideal, tail: seq<Byte>): seq<Byte>
    requires a.Open? && a.outlen <= 64
  {
    DigestFrom(f, a.h0, a.msg + tail, a.outlen)
  }

  function InitKeyed(a: Ideal, outlen: nat, key: Input): (Ideal, Seen) {
    if key.Length() > 0 && (key.Null? || |key.data| > 64) then (a, Seen(EArg, []))
    else if !(1 <= outlen <= 64) then (a, Seen(EArg, []))
    else
      var k := if key.Null? then [] else key.data;
      (Open(InitialHash(outlen, |k|), KeyedData(k, []), outlen), Seen(OK, []))
  }

  function TailStatus(a: Ideal, tail: Input, out: Option<nat>): Status {
    if out == None || (tail.Null? && tail.len > 0) then EArg
    else if a.Closed? then EState
    else if out.value < a.outlen then EOutCap
    else if tail.Length() > 128 - Pending(|a.msg|) then EGeometry
    else OK
  }

  function BatchCode(a: Ideal, width: nat, off: nat, len: nat, stride: nat): Status {
    if width != 4 && width != 8 then EArg
    else if off > a.outlen then EArg
    else
      var l := if len == 0 then a.outlen - off else len;
      if l > a.outlen - off then EArg
      else if stride < l then EOutCap
      else if a.Closed? then EState
      else if width > 128 - Pending(|a.msg|) then EGeometry
      else OK
  }

  /** One ideal call; `src` is the source of a copy. */
  function OnIdeal(f: BlockFn, a: Ideal, src: Ideal, c: Call): (Ideal, Seen)
    requires a.outlen <= 64
  {
    match c
    case InitParam(_, p) =>
      if p.Some? && ParamOk(p.value) then (Start(p.value), Seen(OK, [])) else (a, Seen(EArg, []))
    case InitPersonal(_, outlen, personal) =>
      if 1 <= outlen <= 64 then
        (Start(if personal.Some? then ParamInit(outlen).(personal := personal.value) else ParamInit(outlen)), Seen(OK, []))
      else (a, Seen(EArg, []))
    case InitKey(_, outlen, key) => InitKeyed(a, outlen, key)
    case Update(_, input) =>
      if input.Null? && input.len > 0 then (a, Seen(EArg, []))
      else if a.Closed? then (a, Seen(EState, []))
      else (a.(msg := a.msg + if input.Null? then [] else input.data), Seen(OK, []))
    case Final(_, out) =>
      if out == None then (a, Seen(EArg, [[]]))
      else if out.value < a.outlen then (a, Seen(EOutCap, [[]]))
      else if a.Closed? then (a, Seen(EState, [[]]))
      else (Closed(a.outlen), Seen(OK, [Digest(f, a, [])]))
    case SetWipe(_, _) => (a, Seen(if a.Closed? then EState else OK, []))
    case Copy(_, _) => (src, Seen(OK, []))
    case PrefixCheck(_, tailmax) =>
      (a, Seen(if a.Closed? then EState else if tailmax > 128 - Pending(|a.msg|) then EGeometry else OK, []))
    case HashTail(_, tail, out) =>
      var rc := TailStatus(a, tail, out);
      (a, Seen(rc, [if rc == OK then Digest(f, a, if tail.Null? then [] else tail.data) else []]))
    case HashN(_, width, first, n, off, len, stride) =>
      var rc := BatchCode(a, width, off, len, stride);
      (a, Seen(rc, if rc == OK then IdealSlices(f, a, width, first, n, off, if len == 0 then a.outlen - off else len) else []))
  }

  /** Slice i of each digest of the data followed by counter first + i, little-endian. */
  function IdealSlices(f: BlockFn, a: Ideal, width: nat, first: U64, n: nat, off: nat, l: nat): seq<seq<Byte>>
    requires a.Open? && off + l <= a.outlen <= 64
  {
    seq(n, i requires 0 <= i < n => Digest(f, a, LeBytes((first + i) % TWO64, width))[off..off + l])
  }

  // ----- refinement -----

  /** A concrete state stands for an ideal one. */
  ghost predicate Stands(f: BlockFn, s: Snapshot, a: Ideal) {
    && s.Valid() && s.outlen == a.outlen
    && match a
       case Open(h0, msg, _) => Represents(f, s, h0, msg)
       case Closed(_) => s.fin
  }

  lemma PendingIs(f: BlockFn, s: Snapshot, h0: Hash, msg: seq<Byte>)
    requires Represents(f, s, h0, msg)
    ensures s.buflen == Pending(|msg|)
  {
    hide Chain;
    assert s.buflen == |s.Pending()|;
  }

  lemma UpdateRefines(f: BlockFn, s: Snapshot, a: Ideal, c: Call)
    requires Stands(f, s, a) && c.Update?
    ensures OnState(f, s, s, c).1 == OnIdeal(f, a, a, c).1
    ensures Stands(f, OnState(f, s, s, c).0, OnIdeal(f, a, a, c).0)
  {
    hide Absorb, Chain;
    if a.Open? {
      AbsorbRepresents(f, s, a.h0, a.msg, if c.input.Null? then [] else c.input.data);
    }
  }

  lemma FinalRefines(f: BlockFn, s: Snapshot, a: Ideal, c: Call)
    requires Stands(f, s, a) && c.Final?
    ensures OnState(f, s, s, c).1 == OnIdeal(f, a, a, c).1
    ensures Stands(f, OnState(f, s, s, c).0, OnIdeal(f, a, a, c).0)
  {
    hide Chain, DigestOf, DigestFrom;
    if a.Open? {
      FinalMatches(f, s, a.h0, a.msg);
      assert a.msg + [] == a.msg;
    }
  }

  lemma TailRefines(f: BlockFn, s: Snapshot, a: Ideal, c: Call)
    requires Stands(f, s, a) && c.HashTail?
    ensures OnState(f, s, s, c).1 == OnIdeal(f, a, a, c).1
  {
    hide Chain, Absorb, WithTail, DigestOf, DigestFrom;
    if a.Open? {
      var tail := if c.tail.Null? then [] else c.tail.data;
      PendingIs(f, s, a.h0, a.msg);
      AbsorbRepresents(f, s, a.h0, a.msg, tail);
      FinalMatches(f, Absorb(f, s, tail), a.h0, a.msg + tail);
      if |tail| <= 128 - s.buflen {
        TailIsAbsorbed(f, s, tail);
      }
    }
  }

  lemma BatchCodeRefines(f: BlockFn, s: Snapshot, a: Ideal, width: nat, off: nat, len: nat, stride: nat)
    requires Stands(f, s, a)
    ensures BatchStatus(s, width, off, len, stride) == BatchCode(a, width, off, len, stride)
  {
    hide Chain;
    if a.Open? {
      PendingIs(f, s, a.h0, a.msg);
    }
  }

  lemma SlicesRefine(f: BlockFn, job: Job, a: Ideal, n: nat)
    requires job.Accepted() && Stands(f, job.s, a) && a.Open?
    ensures Slices(f, job, n) == IdealSlices(f, a, job.width, job.first, n, job.off, job.Len())
  {
    hide Chain, TailDigest, DigestFrom, Job.Slice, LeBytes, BatchStatus, Represents;
    OpenIfAccepted(f, job.s, a, job.width, job.off, job.len, job.stride);
    forall i | 0 <= i < n
      ensures job.Slice(f, i) == Digest(f, a, LeBytes((job.first + i) % TWO64, job.width))[job.off..job.off + job.Len()]
    {
      SliceMeaning(f, job, a.h0, a.msg, i);
    }
  }

  lemma BatchRefines(f: BlockFn, s: Snapshot, a: Ideal, c: Call)
    requires Stands(f, s, a) && c.HashN?
    ensures OnState(f, s, s, c).1 == OnIdeal(f, a, a, c).1
  {
    hide Represents, Slices, IdealSlices, BatchStatus, BatchCode;
    var job := Job(s, c.width, c.first, c.off, c.len, c.stride);
    BatchCodeRefines(f, s, a, c.width, c.off, c.len, c.stride);
    if job.Accepted() {
      OpenIfAccepted(f, s, a, c.width, c.off, c.len, c.stride);
      SlicesRefine(f, job, a, c.n);
    }
  }

  lemma OpenIfAccepted(f: BlockFn, s: Snapshot, a: Ideal, width: nat, off: nat, len: nat, stride: nat)
    requires Stands(f, s, a) && BatchStatus(s, width, off, len, stride) == OK
    ensures a.Open? && off + SliceLength(s, off, len) <= a.outlen
  {
  }

  lemma InitKeyRefines(f: BlockFn, s: Snapshot, a: Ideal, c: Call)
    requires Stands(f, s, a) && c.InitKey?
    ensures OnState(f, s, s, c).1 == OnIdeal(f, a, a, c).1
    ensures Stands(f, OnState(f, s, s, c).0, OnIdeal(f, a, a, c).0)
  {
    hide Absorb, Chain, InitialHash, Masked, Packed, Represents;
    if 1 <= c.outlen <= 64 && c.key.Length() <= 64 && (c.key.Bytes? || c.key.len == 0) {
      var k := if c.key.Null? then [] else c.key.data;
      Digests.InitKeyRepresents(f, s, c.outlen, k);
      Calls.InitForgets(f, s, s, c.outlen, c.key);
      Calls.InitForgets(f, s, s, c.outlen, Bytes(k));
    }
  }

  lemma InitRefines(f: BlockFn, s: Snapshot, a: Ideal, c: Call)
    requires Stands(f, s, a) && (c.InitParam? || c.InitPersonal?)
    ensures OnState(f, s, s, c).1 == OnIdeal(f, a, a, c).1
    ensures Stands(f, OnState(f, s, s, c).0, OnIdeal(f, a, a, c).0)
  {
    hide Masked, Packed, Represents;
    var p := if c.InitParam? then c.p
             else Some(if c.personal.Some? then ParamInit(c.outlen).(personal := c.personal.value) else ParamInit(c.outlen));
    if p.Some? && ParamOk(p.value) {
      Digests.InitRepresents(f, p.value);
    }
  }

  lemma PlainRefines(f: BlockFn, s: Snapshot, a: Ideal, c: Call)
    requires Stands(f, s, a) && (c.SetWipe? || c.PrefixCheck?)
    ensures OnState(f, s, s, c).1 == OnIdeal(f, a, a, c).1
    ensures Stands(f, OnState(f, s, s, c).0, OnIdeal(f, a, a, c).0)
  {
    hide Chain;
    if a.Open? {
      PendingIs(f, s, a.h0, a.msg);
    }
  }

  lemma ReadsOnly(f: BlockFn, s: Snapshot, a: Ideal, c: Call)
    requires Stands(f, s, a) && (c.HashTail? || c.HashN?)
    ensures OnState(f, s, s, c).0 == s && OnIdeal(f, a, a, c).0 == a
  {
    hide Represents, DigestFrom, TailDigest, Batched, IdealSlices, TailStatus, BatchCode;
  }

  /** A copy takes over its source; no other call looks at it. */
  lemma SourceOnlyCopied(f: BlockFn, s: Snapshot, a: Ideal, src: Snapshot, srcA: Ideal, c: Call)
    requires Stands(f, s, a) && Stands(f, src, srcA)
    ensures if c.Copy?
            then OnState(f, s, src, c) == (src, Seen(OK, [])) && OnIdeal(f, a, srcA, c) == (srcA, Seen(OK, []))
            else OnState(f, s, src, c) == OnState(f, s, s, c) && OnIdeal(f, a, srcA, c) == OnIdeal(f, a, a, c)
  {
    hide Represents, Start, Absorb, Finalized, DigestOf, DigestFrom, TailDigest, Batched, IdealSlices, Calls.InitKey, InitKeyed, TailStatus, BatchCode;
  }

  /** Every call of the library is seen as the ideal call is, and its state stands for the ideal state after it. */
  lemma CallRefines(f: BlockFn, s: Snapshot, a: Ideal, src: Snapshot, srcA: Ideal, c: Call)
    requires Stands(f, s, a) && Stands(f, src, srcA)
    ensures OnState(f, s, src, c).1 == OnIdeal(f, a, srcA, c).1
    ensures Stands(f, OnState(f, s, src, c).0, OnIdeal(f, a, srcA, c).0)
  {
    hide OnState, OnIdeal, Stands;
    SourceOnlyCopied(f, s, a, src, srcA, c);
    match c
    case InitParam(_, _) => InitRefines(f, s, a, c);
    case InitPersonal(_, _, _) => InitRefines(f, s, a, c);
    case InitKey(_, _, _) => InitKeyRefines(f, s, a, c);
    case Update(_, _) => UpdateRefines(f, s, a, c);
    case Final(_, _) => FinalRefines(f, s, a, c);
    case HashTail(_, _, _) => TailRefines(f, s, a, c); ReadsOnly(f, s, a, c);
    case HashN(_, _, _, _, _, _, _) => BatchRefines(f, s, a, c); ReadsOnly(f, s, a, c);
    case SetWipe(_, _) => PlainRefines(f, s, a, c);
    case PrefixCheck(_, _) => PlainRefines(f, s, a, c);
    case Copy(_, _) =>
  }

  // ----- whole runs -----

  function LookupIdeal(m: IdealStore, i: nat): Ideal {
    if i in m then m[i] else Closed(64)
  }

  ghost predicate AllStand(f: BlockFn, m: Store, a: IdealStore) {
    m.Keys == a.Keys && forall i :: i in m ==> Stands(f, m[i], a[i])
  }

  predicate IdealValid(a: IdealStore) {
    forall i :: i in a ==> a[i].outlen <= 64
  }

  /** The ideal call against the ideal store. */
  function IdealStep(f: BlockFn, a: IdealStore, c: Call): (IdealStore, Seen)
    requires IdealValid(a) && (c.Copy? ==> c.src in a)
  {
    var r := OnIdeal(f, LookupIdeal(a, c.i), if c.Copy? then a[c.src] else LookupIdeal(a, c.i), c);
    (if r.1.rc == OK || c.i in a then a[c.i := r.0] else a, r.1)
  }

  lemma StepRefines(f: BlockFn, m: Store, a: IdealStore, c: Call)
    requires AllValid(m) && Allowed(m, c) && AllStand(f, m, a) && IdealValid(a)
    ensures Runs.Step(f, m, c).1 == IdealStep(f, a, c).1
    ensures AllStand(f, Runs.Step(f, m, c).0, IdealStep(f, a, c).0) && IdealValid(IdealStep(f, a, c).0)
  {
    hide OnState, OnIdeal, Represents;
    var s, b := Lookup(m, c.i), LookupIdeal(a, c.i);
    var src, srcA := if c.Copy? then m[c.src] else s, if c.Copy? then a[c.src] else b;
    assert Stands(f, s, b) && Stands(f, src, srcA);
    CallRefines(f, s, b, src, srcA, c);
  }

  /** What an ideal run shows of each call. */
  ghost function IdealRun(f: BlockFn, a: IdealStore, calls: seq<Call>): seq<Seen>
    decreases |calls|
  {
    if calls == [] || !IdealValid(a) || (calls[0].Copy? && calls[0].src !in a) then []
    else
      var one := IdealStep(f, a, calls[0]);
      [one.1] + IdealRun(f, one.0, calls[1..])
  }

  /** Any program run on the library sees what it would see of the ideal one: every code, every digest. */
  lemma {:induction false} RunRefines(f: BlockFn, m: Store, a: IdealStore, calls: seq<Call>)
    requires AllValid(m) && Legal(f, m, calls) && AllStand(f, m, a) && IdealValid(a)
    ensures Runs.Run(f, m, calls).1 == IdealRun(f, a, calls)
    decreases |calls|
  {
    hide Runs.Step, IdealStep, AllStand;
    if calls == [] {
    } else {
      StepRefines(f, m, a, calls[0]);
      assert calls[0].Copy? ==> calls[0].src in a by {
        KeysAgree(f, m, a);
      }
      RunRefines(f, Runs.Step(f, m, calls[0]).0, IdealStep(f, a, calls[0]).0, calls[1..]);
    }
  }

  lemma KeysAgree(f: BlockFn, m: Store, a: IdealStore)
    requires AllStand(f, m, a)
    ensures m.Keys == a.Keys
  {
  }

  /** From nothing initialised, every legal run shows what the ideal run shows. */
  lemma LibraryIsIdeal(f: BlockFn, calls: seq<Call>)
    requires Legal(f, map[], calls)
    ensures Runs.Run(f, map[], calls).1 == IdealRun(f, map[], calls)
  {
    hide Legal, IdealRun;
    RunRefines(f, map[], map[], calls);
  }
}
