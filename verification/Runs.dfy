/** Whole runs: any sequence of calls on any number of states. */
module Runs {
  import opened Words
  import opened Rfc7693
  import opened State
  import opened Spec
  import opened Params
  import opened Batch
  import Calls

  /** The initialised states a program holds, by name. */
  type Store = map<nat, Snapshot>

  ghost predicate AllValid(m: Store) {
    forall i :: i in m ==> m[i].Valid()
  }

  datatype Call =
    | InitParam(i: nat, p: Option<Param>)
    | InitPersonal(i: nat, outlen: nat, personal: Option<Tag>)
    | InitKey(i: nat, outlen: nat, key: Input)
    | Update(i: nat, input: Input)
    | Final(i: nat, out: Option<nat>)
    | SetWipe(i: nat, on: bool)
    | Copy(i: nat, src: nat)
    | PrefixCheck(i: nat, tailmax: nat)
    | HashTail(i: nat, tail: Input, out: Option<nat>)
    | HashN(i: nat, width: nat, first: U64, n: nat, off: nat, len: nat, stride: nat)

  /** What a caller sees of a call: its code and the byte strings it emitted. */
  datatype Seen = Seen(rc: Status, out: seq<seq<Byte>>)

  function Slices(f: BlockFn, job: Job, n: nat): seq<seq<Byte>>
    requires job.Accepted()
  {
    seq(n, i requires 0 <= i < n => job.Slice(f, i))
  }

  function Coded(r: (Snapshot, Status)): (Snapshot, Seen) {
    (r.0, Seen(r.1, []))
  }

  function Batched(f: BlockFn, job: Job, n: nat): Seen
    requires job.s.Valid()
  {
    var rc := BatchStatus(job.s, job.width, job.off, job.len, job.stride);
    Seen(rc, if rc == OK then Slices(f, job, n) else [])
  }

  /** One call on the state it names; a copy is given its source. */
  function OnState(f: BlockFn, s: Snapshot, src: Snapshot, c: Call): (r: (Snapshot, Seen))
    requires s.Valid() && src.Valid()
    ensures r.0.Valid()
  {
    match c
    case InitParam(_, p) => Coded(Calls.InitParam(s, p))
    case InitPersonal(_, outlen, personal) => Coded(Calls.InitPersonal(s, outlen, personal))
    case InitKey(_, outlen, key) => Coded(Calls.InitKey(f, s, outlen, key))
    case Update(_, input) => Coded(Calls.Update(f, s, input))
    case Final(_, out) => (Calls.Final(f, s, out).s, Seen(Calls.Final(f, s, out).rc, [Calls.Final(f, s, out).out]))
    case SetWipe(_, on) => Coded(Calls.SetWipe(s, on))
    case Copy(_, _) => (src, Seen(OK, []))
    case PrefixCheck(_, tailmax) => (s, Seen(Batch.PrefixCheck(s, tailmax), []))
    case HashTail(_, tail, out) => (s, Seen(Batch.HashTail(f, s, tail, out).0, [Batch.HashTail(f, s, tail, out).1]))
    case HashN(_, width, first, n, off, len, stride) => (s, Batched(f, Job(s, width, first, off, len, stride), n))
  }

  /** A fresh name is storage never initialised; only init and copy may use it first. */
  predicate Allowed(m: Store, c: Call) {
    if c.Copy? then c.src in m
    else c.i in m || c.InitParam? || c.InitPersonal? || c.InitKey?
  }

  function Blank(): (s: Snapshot)
    ensures s.Valid()
  {
    Snapshot([0, 0, 0, 0, 0, 0, 0, 0], 0, 0, Zeros(128), 0, 64, true, false)
  }

  function Lookup(m: Store, i: nat): Snapshot {
    if i in m then m[i] else Blank()
  }

  /** The call against the store. Storage that no successful init or copy has reached stays out of it. */
  function Step(f: BlockFn, m: Store, c: Call): (r: (Store, Seen))
    requires AllValid(m) && Allowed(m, c)
    ensures AllValid(r.0)
  {
    var r := OnState(f, Lookup(m, c.i), if c.Copy? then m[c.src] else Lookup(m, c.i), c);
    (if r.1.rc == OK || c.i in m then m[c.i := r.0] else m, r.1)
  }

  // ----- runs -----

  /** Every call of the list is on a state that exists by then. */
  predicate Legal(f: BlockFn, m: Store, calls: seq<Call>)
    requires AllValid(m)
    decreases |calls|
  {
    calls == [] || (Allowed(m, calls[0]) && Legal(f, Step(f, m, calls[0]).0, calls[1..]))
  }

  /** The store a run ends with, and what was seen of each call. */
  function Run(f: BlockFn, m: Store, calls: seq<Call>): (r: (Store, seq<Seen>))
    requires AllValid(m) && Legal(f, m, calls)
    ensures AllValid(r.0) && |r.1| == |calls|
    decreases |calls|
  {
    if calls == [] then (m, [])
    else
      var one := Step(f, m, calls[0]);
      var rest := Run(f, one.0, calls[1..]);
      (rest.0, [one.1] + rest.1)
  }

  /** A call that returns an error changes no state and emits no byte. */
  lemma ErrorsChangeNothing(f: BlockFn, m: Store, c: Call)
    requires AllValid(m) && Allowed(m, c) && Step(f, m, c).1.rc != OK
    ensures Step(f, m, c).0 == m
    ensures forall b :: b in Step(f, m, c).1.out ==> b == []
  {
    hide Absorb, Finalized, DigestOf, Calls.InitState, ParamInit;
  }

  // ----- finalized states -----

  /** The calls that bring state i back to life: an init whose lengths are in range, or a copy of a live state. */
  predicate Revives(m: Store, c: Call, i: nat) {
    && c.i == i
    && match c
       case InitParam(_, p) => p.Some? && 1 <= p.value.digest_length <= 64 && p.value.key_length <= 64
       case InitPersonal(_, outlen, _) => 1 <= outlen <= 64
       case InitKey(_, outlen, key) => 1 <= outlen <= 64 && (key.Bytes? || key.len == 0) && key.Length() <= 64
       case Copy(_, src) => src in m && !m[src].fin
       case _ => false
  }

  /** A finalized state becomes live exactly by such a call. */
  lemma RevivedExactly(f: BlockFn, m: Store, c: Call, i: nat)
    requires AllValid(m) && Allowed(m, c) && i in m && m[i].fin
    ensures i in Step(f, m, c).0
    ensures !Step(f, m, c).0[i].fin <==> Revives(m, c, i)
  {
    hide Packed, Masked, Finalized, DigestOf;
  }

  predicate NeverRevived(f: BlockFn, m: Store, calls: seq<Call>, i: nat)
    requires AllValid(m) && Legal(f, m, calls)
    decreases |calls|
  {
    calls == []
    || (!Revives(m, calls[0], i) && NeverRevived(f, Step(f, m, calls[0]).0, calls[1..], i))
  }

  predicate Refused(c: Call, seen: Seen, i: nat) {
    c.i == i && !c.Copy? && !c.InitParam? && !c.InitPersonal? && !c.InitKey? ==> seen.rc != OK
  }

  lemma FinalizedRefuses(f: BlockFn, m: Store, c: Call, i: nat)
    requires AllValid(m) && Allowed(m, c) && i in m && m[i].fin
    ensures Refused(c, Step(f, m, c).1, i)
  {
    hide Absorb, Finalized, DigestOf;
  }

  /** Until it is revived, a finalized state (wiped or not) refuses every update, final, wipe setting,
      check, tail and batch: one successful final between revivals. */
  lemma {:induction false} OneFinalPerLife(f: BlockFn, m: Store, calls: seq<Call>, i: nat)
    requires AllValid(m) && Legal(f, m, calls) && i in m && m[i].fin && NeverRevived(f, m, calls, i)
    ensures i in Run(f, m, calls).0 && Run(f, m, calls).0[i].fin
    ensures forall k :: 0 <= k < |calls| ==> Refused(calls[k], Run(f, m, calls).1[k], i)
    decreases |calls|
  {
    hide Step, Revives;
    if calls == [] {
    } else {
      RevivedExactly(f, m, calls[0], i);
      FinalizedRefuses(f, m, calls[0], i);
      var m' := Step(f, m, calls[0]).0;
      OneFinalPerLife(f, m', calls[1..], i);
      forall k | 0 <= k < |calls|
        ensures Refused(calls[k], Run(f, m, calls).1[k], i)
      {
        if k > 0 {
          assert calls[k] == calls[1..][k - 1] && Run(f, m, calls).1[k] == Run(f, m', calls[1..]).1[k - 1];
        }
      }
    }
  }

  /** A run in which every call is legal and succeeds. */
  predicate Succeeds(f: BlockFn, m: Store, calls: seq<Call>)
    requires AllValid(m)
  {
    Legal(f, m, calls) && forall k :: 0 <= k < |calls| ==> Run(f, m, calls).1[k].rc == OK
  }

  lemma NothingSucceeds(f: BlockFn, m: Store)
    requires AllValid(m)
    ensures Succeeds(f, m, [])
  {
  }

  lemma SucceedsFirst(f: BlockFn, m: Store, calls: seq<Call>)
    requires AllValid(m) && calls != [] && Allowed(m, calls[0])
    requires Step(f, m, calls[0]).1.rc == OK && Succeeds(f, Step(f, m, calls[0]).0, calls[1..])
    ensures Succeeds(f, m, calls)
  {
    hide Step;
    var m' := Step(f, m, calls[0]).0;
    forall k | 0 <= k < |calls|
      ensures Run(f, m, calls).1[k].rc == OK
    {
      if k > 0 {
        assert Run(f, m, calls).1[k] == Run(f, m', calls[1..]).1[k - 1];
      }
    }
  }

  /** A copy revives, so one init does not bound the finals: state 0 is initialised once and finalized twice. */
  lemma CopyRevives(f: BlockFn, p: Param)
    requires 1 <= p.digest_length <= 64 && p.key_length <= 64
    ensures Succeeds(f, map[], [InitParam(0, Some(p)), Final(0, Some(64)), InitParam(1, Some(p)), Copy(0, 1), Final(0, Some(64))])
  {
    hide Packed, Masked, Finalized, DigestOf, Succeeds;
    var calls := [InitParam(0, Some(p)), Final(0, Some(64)), InitParam(1, Some(p)), Copy(0, 1), Final(0, Some(64))];
    var m0: Store := map[];
    var m1 := Step(f, m0, calls[0]).0;
    var m2 := Step(f, m1, calls[1]).0;
    var m3 := Step(f, m2, calls[2]).0;
    var m4 := Step(f, m3, calls[3]).0;
    var m5 := Step(f, m4, calls[4]).0;
    NothingSucceeds(f, m5);
    assert calls[4..][1..] == [];
    SucceedsFirst(f, m4, calls[4..]);
    SucceedsFirst(f, m3, calls[3..]);
    SucceedsFirst(f, m2, calls[2..]);
    SucceedsFirst(f, m1, calls[1..]);
    SucceedsFirst(f, m0, calls);
  }

  // ----- bytes no call reads -----

  /** Agreement on everything a call can see: not the stale bytes, not the wipe setting,
      and of a finalized state neither chaining value nor block. */
  predicate Alike(s: Snapshot, r: Snapshot) {
    && s.Valid() && r.Valid()
    && s.fin == r.fin && s.t0 == r.t0 && s.t1 == r.t1 && s.buflen == r.buflen && s.outlen == r.outlen
    && (!s.fin ==> s.h == r.h && s.Pending() == r.Pending())
  }

  ghost predicate AlikeStores(m: Store, n: Store) {
    m.Keys == n.Keys && forall i :: i in m ==> Alike(m[i], n[i])
  }

  /** The same call, except that wipe settings may differ. */
  predicate AlikeCalls(c: Call, d: Call) {
    c == d || (c.SetWipe? && d.SetWipe? && c.i == d.i)
  }

  lemma AlikeAbsorb(f: BlockFn, s: Snapshot, r: Snapshot, data: seq<Byte>)
    requires Alike(s, r) && !s.fin
    ensures Alike(Absorb(f, s, data), Absorb(f, r, data))
    ensures DigestOf(f, s) == DigestOf(f, r)
  {
    hide Chain;
  }

  lemma AlikeTails(f: BlockFn, s: Snapshot, r: Snapshot, tail: seq<Byte>)
    requires Alike(s, r) && !s.fin && |tail| <= 128 - s.buflen
    ensures TailDigest(f, s, tail) == TailDigest(f, r, tail)
  {
    hide Absorb, WithTail, DigestOf;
    TailIsAbsorbed(f, s, tail); TailIsAbsorbed(f, r, tail);
    AlikeAbsorb(f, s, r, tail);
    AlikeAbsorb(f, Absorb(f, s, tail), Absorb(f, r, tail), []);
  }

  lemma AlikeSlice(f: BlockFn, a: Job, b: Job, i: nat)
    requires a.Accepted() && b.Accepted() && Alike(a.s, b.s) && b == a.(s := b.s)
    ensures a.Slice(f, i) == b.Slice(f, i)
  {
    hide TailDigest, LeBytes;
    AlikeTails(f, a.s, b.s, LeBytes((a.first + i) % TWO64, a.width));
  }

  lemma AlikeBatch(f: BlockFn, a: Job, b: Job, n: nat)
    requires Alike(a.s, b.s) && b == a.(s := b.s)
    ensures Batched(f, a, n) == Batched(f, b, n)
  {
    hide Job.Slice;
    if a.Accepted() {
      forall i | 0 <= i < n
        ensures a.Slice(f, i) == b.Slice(f, i)
      {
        AlikeSlice(f, a, b, i);
      }
    }
  }

  lemma AlikeFinal(f: BlockFn, s: Snapshot, r: Snapshot, out: Option<nat>)
    requires Alike(s, r)
    ensures Alike(Calls.Final(f, s, out).s, Calls.Final(f, r, out).s)
    ensures Calls.Final(f, s, out).rc == Calls.Final(f, r, out).rc && Calls.Final(f, s, out).out == Calls.Final(f, r, out).out
  {
    hide Absorb, DigestOf;
    if !s.fin {
      AlikeAbsorb(f, s, r, []);
    }
  }

  lemma AlikeHashTail(f: BlockFn, s: Snapshot, r: Snapshot, tail: Input, out: Option<nat>)
    requires Alike(s, r)
    ensures Batch.HashTail(f, s, tail, out) == Batch.HashTail(f, r, tail, out)
  {
    hide TailDigest;
    if !s.fin && tail.Length() <= 128 - s.buflen {
      AlikeTails(f, s, r, if tail.Null? then [] else tail.data);
    }
  }

  /** States alike are told apart by no call. */
  lemma AlikeOnState(f: BlockFn, s: Snapshot, r: Snapshot, src: Snapshot, src': Snapshot, c: Call, d: Call)
    requires Alike(s, r) && Alike(src, src') && AlikeCalls(c, d)
    ensures OnState(f, s, src, c).1 == OnState(f, r, src', d).1
    ensures Alike(OnState(f, s, src, c).0, OnState(f, r, src', d).0)
  {
    hide Absorb, Finalized, DigestOf, TailDigest, Batched, Calls.InitState, ParamInit;
    match c
    case Update(_, input) =>
      if !s.fin && (input.Bytes? || input.len == 0) {
        AlikeAbsorb(f, s, r, if input.Null? then [] else input.data);
      }
    case Final(_, out) => AlikeFinal(f, s, r, out);
    case HashTail(_, tail, out) => AlikeHashTail(f, s, r, tail, out);
    case HashN(_, width, first, n, off, len, stride) =>
      AlikeBatch(f, Job(s, width, first, off, len, stride), Job(r, width, first, off, len, stride), n);
    case InitKey(_, outlen, key) => Calls.InitForgets(f, s, r, outlen, key);
    case _ =>
  }

  lemma AlikeItself(s: Snapshot)
    requires s.Valid()
    ensures Alike(s, s)
  {
  }

  lemma AlikeStep(f: BlockFn, m: Store, n: Store, c: Call, d: Call)
    requires AllValid(m) && AllValid(n) && AlikeStores(m, n) && AlikeCalls(c, d) && Allowed(m, c)
    ensures Allowed(n, d) && Step(f, m, c).1 == Step(f, n, d).1
    ensures AlikeStores(Step(f, m, c).0, Step(f, n, d).0)
  {
    hide OnState, Alike, Blank;
    AlikeItself(Blank());
    var src, src' := if c.Copy? then m[c.src] else Lookup(m, c.i), if d.Copy? then n[d.src] else Lookup(n, d.i);
    AlikeOnState(f, Lookup(m, c.i), Lookup(n, d.i), src, src', c, d);
  }

  ghost predicate AlikeRuns(cs: seq<Call>, ds: seq<Call>) {
    |cs| == |ds| && forall k :: 0 <= k < |cs| ==> AlikeCalls(cs[k], ds[k])
  }

  /** Stale bytes and wipe settings never show: runs of the same calls, wipe settings apart, from
      stores alike, are seen the same at every call. */
  lemma {:induction false} AlikeRunsSeenSame(f: BlockFn, m: Store, n: Store, cs: seq<Call>, ds: seq<Call>)
    requires AllValid(m) && AllValid(n) && AlikeStores(m, n) && AlikeRuns(cs, ds) && Legal(f, m, cs)
    ensures Legal(f, n, ds) && Run(f, m, cs).1 == Run(f, n, ds).1
    ensures AlikeStores(Run(f, m, cs).0, Run(f, n, ds).0)
    decreases |cs|
  {
    hide Step, AlikeStores;
    if cs == [] {
    } else {
      AlikeStep(f, m, n, cs[0], ds[0]);
      AlikeRunsSeenSame(f, Step(f, m, cs[0]).0, Step(f, n, ds[0]).0, cs[1..], ds[1..]);
    }
  }
}
