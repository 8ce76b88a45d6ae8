/** The threaded batch (backends/hash_n_threads.c): workers, start failures and the joining thread
    as interleaved steps over one shared output buffer. */
module Threads {
  import opened Words
  import opened Rfc7693
  import opened State
  import opened Batch

  /** An accepted call: n slices from `base`, cut over `threads` spans. */
  datatype Plan = Plan(job: Job, base: nat, n: nat, threads: nat)
  {
    predicate Valid() {
      threads >= 1 && job.Accepted()
    }
  }

  // ----- the partition -----

  function Take(p: Plan, i: nat): nat
    requires p.threads >= 1
  {
    p.n / p.threads + if i < p.n % p.threads then 1 else 0
  }

  /** Where span i starts: `at` after the spans before it. */
  function At(p: Plan, i: nat): nat
    requires p.threads >= 1
  {
    if i == 0 then 0 else At(p, i - 1) + Take(p, i - 1)
  }

  /** Where span i starts, in closed form; spans differ in size by at most one, the larger ones first. */
  lemma {:induction false} AtClosed(p: Plan, i: nat)
    requires p.threads >= 1
    ensures At(p, i) == i * (p.n / p.threads) + if i < p.n % p.threads then i else p.n % p.threads
  {
    if i == 0 {
    } else {
      AtClosed(p, i - 1);
      assert i * (p.n / p.threads) == (i - 1) * (p.n / p.threads) + p.n / p.threads;
    }
  }

  /** The spans cover the whole range. */
  lemma AtEnd(p: Plan)
    requires p.threads >= 1
    ensures At(p, p.threads) == p.n
  {
    AtClosed(p, p.threads);
    assert p.n == p.threads * (p.n / p.threads) + p.n % p.threads;
  }

  lemma {:induction false} SpansOrdered(p: Plan, i: nat, k: nat)
    requires p.threads >= 1 && i < k
    ensures At(p, i) + Take(p, i) <= At(p, k)
    decreases k
  {
    hide Take;
    if i == k - 1 {
    } else {
      SpansOrdered(p, i, k - 1);
    }
  }

  lemma SpanInRange(p: Plan, i: nat)
    requires p.threads >= 1 && i < p.threads
    ensures At(p, i) + Take(p, i) <= p.n
  {
    AtEnd(p);
    SpansOrdered(p, i, p.threads);
  }

  predicate InSpan(p: Plan, i: nat, g: nat)
    requires p.threads >= 1
  {
    At(p, i) <= g < At(p, i) + Take(p, i)
  }

  lemma {:induction false} OwnerBefore(p: Plan, m: nat, g: nat) returns (i: nat)
    requires p.threads >= 1 && g < At(p, m)
    ensures i < m && InSpan(p, i, g)
    decreases m
  {
    if g >= At(p, m - 1) {
      i := m - 1;
    } else {
      i := OwnerBefore(p, m - 1, g);
    }
  }

  /** Every index belongs to exactly one span. */
  lemma OneOwner(p: Plan, g: nat)
    requires p.threads >= 1 && g < p.n
    ensures exists i :: 0 <= i < p.threads && InSpan(p, i, g)
    ensures forall i, k :: 0 <= i < p.threads && 0 <= k < p.threads && InSpan(p, i, g) && InSpan(p, k, g) ==> i == k
  {
    AtEnd(p);
    var o := OwnerBefore(p, p.threads, g);
    forall i, k | 0 <= i < p.threads && 0 <= k < p.threads && InSpan(p, i, g) && InSpan(p, k, g)
      ensures i == k
    {
      if i < k { SpansOrdered(p, i, k); }
      if k < i { SpansOrdered(p, k, i); }
    }
  }

  /** The call worker i makes: the counters and the output advanced past the spans before it. */
  function SpanJob(p: Plan, i: nat): Job
    requires p.threads >= 1
  {
    p.job.(first := (p.job.first + At(p, i)) % TWO64)
  }

  function SpanBase(p: Plan, i: nat): nat
    requires p.threads >= 1
  {
    p.base + At(p, i) * p.job.stride
  }

  lemma SpanSlot(p: Plan, i: nat, k: nat)
    requires p.Valid()
    ensures SpanJob(p, i).Accepted() && SpanJob(p, i).Len() == p.job.Len()
    ensures SpanJob(p, i).Slot(SpanBase(p, i), k) == p.job.Slot(p.base, At(p, i) + k)
  {
    hide At;
    var a := At(p, i);
    assert (a + k) * p.job.stride == a * p.job.stride + k * p.job.stride;
  }

  lemma SameCounter(first: nat, a: nat, k: nat)
    ensures ((first + a) % TWO64 + k) % TWO64 == (first + (a + k)) % TWO64
  {
  }

  /** Slice k of span i is slice At(i) + k of the whole batch, in the same place. */
  lemma SpanSlice(f: BlockFn, p: Plan, i: nat, k: nat)
    requires p.Valid()
    ensures SpanJob(p, i).Accepted()
    ensures SpanJob(p, i).Slice(f, k) == p.job.Slice(f, At(p, i) + k)
    ensures SpanJob(p, i).Slot(SpanBase(p, i), k) == p.job.Slot(p.base, At(p, i) + k)
  {
    hide At, TailDigest, Job.Slot, BatchStatus;
    SpanSlot(p, i, k);
    SameCounter(p.job.first, At(p, i), k);
  }

  /** No two spans write the same byte. */
  lemma SpansWriteApart(p: Plan, i: nat, k: nat, i': nat, k': nat, j: nat)
    requires p.Valid() && i < p.threads && i' < p.threads && k < Take(p, i) && k' < Take(p, i')
    requires SpanJob(p, i).Accepted() && SpanJob(p, i').Accepted()
    requires SpanJob(p, i).Covers(SpanBase(p, i), k, j) && SpanJob(p, i').Covers(SpanBase(p, i'), k', j)
    ensures i == i' && k == k'
  {
    hide At, Take, Job.Slot, BatchStatus;
    SpanSlot(p, i, k); SpanSlot(p, i', k');
    NoOverlap(p.job, p.base, At(p, i) + k, At(p, i') + k', j);
    SpanInRange(p, i);
    OneOwner(p, At(p, i) + k);
    assert InSpan(p, i, At(p, i) + k) && InSpan(p, i', At(p, i) + k);
  }

  // ----- the machine -----

  /** A span: not begun, `k` of its digests written, or returned. */
  datatype Worker = Idle | Running(k: nat) | Ended(rc: Status)

  /** Where the calling thread is. */
  datatype Pc = Create(i: nat) | Own | Join(i: nat) | Pick(i: nat) | Collect(i: nat) | Done(rc: Status)

  /** `live` marks spans handed to a thread; `count` how often each digest was computed. */
  datatype Sys = Sys(pc: Pc, workers: seq<Worker>, live: seq<bool>, out: seq<Byte>, count: seq<nat>)

  /** One step: the calling thread's, where `started` decides a pthread_create, or thread i's. */
  datatype Action = Main(started: bool) | Thread(i: nat)

  predicate Shaped(p: Plan, c: Sys) {
    && p.Valid()
    && |c.workers| == p.threads && |c.live| == p.threads && |c.count| == p.n
    && p.job.Fits(p.base, p.n, |c.out|)
    && (forall i :: 0 <= i < p.threads && c.workers[i].Running? ==> c.workers[i].k <= Take(p, i))
    && match c.pc
       case Create(i) => i < p.threads
       case Join(i) => i < p.threads
       case Pick(i) => i < p.threads
       case Collect(i) => i <= p.threads
       case _ => true
  }

  function Begin(p: Plan, out0: seq<Byte>): (c: Sys)
    requires p.Valid()
    ensures p.job.Fits(p.base, p.n, |out0|) ==> Shaped(p, c)
  {
    Sys(Create(0), seq(p.threads, _ => Idle), seq(p.threads, _ => false), out0, seq(p.n, _ => 0))
  }

  /** `run` entering the serial call on span i: its checks come first. */
  function Entered(p: Plan, i: nat): Worker
    requires p.Valid()
  {
    var job := SpanJob(p, i);
    var rc := BatchStatus(job.s, job.width, job.off, job.len, job.stride);
    if rc == OK then Running(0) else Ended(rc)
  }

  /** One digest of span i, or its return. */
  function SpanStep(f: BlockFn, p: Plan, c: Sys, i: nat): (r: Sys)
    requires Shaped(p, c) && i < p.threads && c.workers[i].Running?
    ensures |r.out| == |c.out|
    ensures Shaped(p, r)
  {
    var k := c.workers[i].k;
    if k == Take(p, i) then c.(workers := c.workers[i := Ended(OK)])
    else
      SpanSlice(f, p, i, k); SpanInRange(p, i); EarlierFits(p.job, p.base, At(p, i) + k, p.n, |c.out|);
      var g := At(p, i) + k;
      c.(workers := c.workers[i := Running(k + 1)],
         out := Patch(c.out, SpanJob(p, i).Slot(SpanBase(p, i), k), SpanJob(p, i).Slice(f, k)),
         count := c.count[g := c.count[g] + 1])
  }

  predicate Enabled(p: Plan, c: Sys, a: Action)
    requires Shaped(p, c)
  {
    match a
    case Thread(i) => i < p.threads && c.live[i] && c.workers[i].Running?
    case Main(_) =>
      match c.pc
      case Done(_) => false
      case Join(i) => i == p.threads - 1 || !c.live[i] || c.workers[i].Ended?
      case _ => true
  }

  /** The calling thread inside `run` on span i, going on to `next` once it has returned. */
  function RunInline(f: BlockFn, p: Plan, c: Sys, i: nat, next: Pc): Sys
    requires Shaped(p, c) && i < p.threads
  {
    match c.workers[i]
    case Idle => c.(workers := c.workers[i := Entered(p, i)])
    case Running(_) => SpanStep(f, p, c, i)
    case Ended(_) => c.(pc := next)
  }

  /** The return code `w->rc`: UB_OK until the span returns something else. */
  function ReturnCode(w: Worker): Status {
    if w.Ended? then w.rc else OK
  }

  function Step(f: BlockFn, p: Plan, c: Sys, a: Action): Sys
    requires Shaped(p, c) && Enabled(p, c, a)
  {
    var last := p.threads - 1;
    match a
    case Thread(i) => SpanStep(f, p, c, i)
    case Main(started) =>
      match c.pc
      case Create(i) =>
        if i == last then c.(pc := Own)
        else if Take(p, i) == 0 || !started then c.(pc := Create(i + 1))
        else c.(pc := Create(i + 1), live := c.live[i := true], workers := c.workers[i := Entered(p, i)])
      case Own => RunInline(f, p, c, last, Join(0))
      case Join(i) => c.(pc := if i == last then Pick(0) else Join(i + 1))
      case Pick(i) =>
        if i == last then c.(pc := Collect(0))
        else if c.live[i] || Take(p, i) == 0 then c.(pc := Pick(i + 1))
        else RunInline(f, p, c, i, Pick(i + 1))
      case Collect(i) =>
        if i == p.threads then c.(pc := Done(OK))
        else if ReturnCode(c.workers[i]) != OK then c.(pc := Done(ReturnCode(c.workers[i])))
        else c.(pc := Collect(i + 1))
      case Done(_) => c
  }

  // ----- what every step keeps -----

  function Progress(p: Plan, c: Sys, i: nat): nat
    requires Shaped(p, c) && i < p.threads
  {
    match c.workers[i]
    case Idle => 0
    case Running(k) => k
    case Ended(_) => Take(p, i)
  }

  predicate Settled(p: Plan, c: Sys, i: nat)
    requires Shaped(p, c) && i < p.threads
  {
    c.workers[i].Ended? || Take(p, i) == 0
  }

  ghost predicate PcHolds(p: Plan, c: Sys)
    requires Shaped(p, c)
  {
    var last := p.threads - 1;
    match c.pc
    case Create(i) => forall k :: i <= k < p.threads ==> c.workers[k] == Idle && !c.live[k]
    case Own => true
    case Join(i) => c.workers[last].Ended? && forall k :: 0 <= k < i ==> (c.live[k] ==> c.workers[k].Ended?)
    case Pick(i) => c.workers[last].Ended?
                    && (forall k :: 0 <= k < p.threads ==> (c.live[k] ==> c.workers[k].Ended?))
                    && (forall k :: 0 <= k < i ==> Settled(p, c, k))
    case Done(rc) => rc == OK && forall k :: 0 <= k < p.threads ==> Settled(p, c, k)
    case Collect(_) => forall k :: 0 <= k < p.threads ==> Settled(p, c, k)
  }

  /** A span not handed to a thread moves only under the calling thread's hands. */
  predicate WorkerHolds(p: Plan, c: Sys, i: nat)
    requires Shaped(p, c) && i < p.threads
  {
    && (c.workers[i].Ended? ==> c.workers[i].rc == OK)
    && (c.live[i] ==> i < p.threads - 1 && c.workers[i] != Idle)
    && (c.workers[i].Running? && !c.live[i] ==> (c.pc == Own && i == p.threads - 1) || (c.pc == Pick(i) && Take(p, i) != 0))
  }

  /** Digest k of span i was computed once if the span has passed it, and not at all otherwise. */
  predicate CountHolds(p: Plan, c: Sys, i: nat, k: nat)
    requires Shaped(p, c) && i < p.threads && k < Take(p, i)
  {
    At(p, i) + k < p.n && c.count[At(p, i) + k] == if k < Progress(p, c, i) then 1 else 0
  }

  function Computed(c: Sys): set<nat> {
    set g | 0 <= g < |c.count| && c.count[g] > 0
  }

  ghost predicate Inv(f: BlockFn, p: Plan, out0: seq<Byte>, c: Sys) {
    && Shaped(p, c)
    && (forall i :: 0 <= i < p.threads ==> WorkerHolds(p, c, i))
    && PcHolds(p, c)
    && (forall i, k :: 0 <= i < p.threads && 0 <= k < Take(p, i) ==> CountHolds(p, c, i, k))
    && p.job.Filled(f, p.base, Computed(c), out0, c.out)
  }

  lemma BeginHolds(f: BlockFn, p: Plan, out0: seq<Byte>)
    requires p.Valid() && p.job.Fits(p.base, p.n, |out0|)
    ensures Inv(f, p, out0, Begin(p, out0))
  {
    var c := Begin(p, out0);
    assert Computed(c) == {};
    NothingFilled(f, p.job, p.base, out0);
    forall i, k | 0 <= i < p.threads && 0 <= k < Take(p, i)
      ensures CountHolds(p, c, i, k)
    {
      SpanInRange(p, i);
    }
  }

  lemma CountAfter(f: BlockFn, p: Plan, c: Sys, i: nat, i': nat, k': nat)
    requires Shaped(p, c) && i < p.threads && c.workers[i].Running?
    requires i' < p.threads && k' < Take(p, i') && CountHolds(p, c, i', k')
    ensures CountHolds(p, SpanStep(f, p, c, i), i', k')
  {
    hide At, Take, Job.Slice, Job.Slot, Patch, BatchStatus;
    var k := c.workers[i].k;
    if k < Take(p, i) {
      SpanInRange(p, i);
      OneOwner(p, At(p, i) + k);
      assert InSpan(p, i, At(p, i) + k);
      assert At(p, i') + k' == At(p, i) + k ==> InSpan(p, i', At(p, i) + k);
    }
  }

  /** A digest step writes exactly its own slice. */
  lemma FilledAfter(f: BlockFn, p: Plan, out0: seq<Byte>, c: Sys, i: nat)
    requires Shaped(p, c) && i < p.threads && c.workers[i].Running?
    requires p.job.Filled(f, p.base, Computed(c), out0, c.out)
    ensures p.job.Filled(f, p.base, Computed(SpanStep(f, p, c, i)), out0, SpanStep(f, p, c, i).out)
  {
    hide At, Take, Job.Slice, Job.Slot, Job.Filled, BatchStatus;
    var k := c.workers[i].k;
    var d := SpanStep(f, p, c, i);
    if k == Take(p, i) {
      assert Computed(d) == Computed(c);
    } else {
      SpanSlice(f, p, i, k); SpanInRange(p, i);
      EarlierFits(p.job, p.base, At(p, i) + k, p.n, |c.out|);
      OneMoreSlice(f, p.job, p.base, Computed(c), At(p, i) + k, out0, c.out);
      assert Computed(d) == Computed(c) + {At(p, i) + k};
    }
  }

  /** Any enabled digest step, by a thread or inline, keeps the invariant. */
  lemma SpanStepHolds(f: BlockFn, p: Plan, out0: seq<Byte>, c: Sys, i: nat)
    requires Inv(f, p, out0, c) && i < p.threads && c.workers[i].Running?
    ensures Inv(f, p, out0, SpanStep(f, p, c, i))
  {
    hide At, Take, Job.Slice, Job.Slot, Job.Filled, BatchStatus, CountHolds, Patch;
    var d := SpanStep(f, p, c, i);
    FilledAfter(f, p, out0, c, i);
    forall i', k' | 0 <= i' < p.threads && 0 <= k' < Take(p, i')
      ensures CountHolds(p, d, i', k')
    {
      CountAfter(f, p, c, i, i', k');
    }
    assert WorkerHolds(p, c, i);
    forall k | 0 <= k < p.threads
      ensures WorkerHolds(p, d, k)
    {
      assert WorkerHolds(p, c, k);
    }
    forall k | 0 <= k < p.threads && Settled(p, c, k)
      ensures Settled(p, d, k)
    {
    }
    assert forall k :: 0 <= k < p.threads && c.workers[k].Ended? ==> d.workers[k].Ended?;
    assert c.workers[i] != Idle;
    assert PcHolds(p, d);
  }

  /** A step that moves no digest: workers keep their progress, the output its bytes. */
  lemma QuietStepHolds(f: BlockFn, p: Plan, out0: seq<Byte>, c: Sys, d: Sys)
    requires Inv(f, p, out0, c) && Shaped(p, d) && d.out == c.out && d.count == c.count
    requires forall i :: 0 <= i < p.threads ==> Progress(p, d, i) == Progress(p, c, i) && WorkerHolds(p, d, i)
    requires PcHolds(p, d)
    ensures Inv(f, p, out0, d)
  {
    hide At, Take, Job.Filled, BatchStatus, PcHolds;
    assert Computed(d) == Computed(c);
    forall i, k | 0 <= i < p.threads && 0 <= k < Take(p, i)
      ensures CountHolds(p, d, i, k)
    {
      assert CountHolds(p, c, i, k);
    }
  }

  lemma EnteredRuns(p: Plan, i: nat)
    requires p.Valid()
    ensures Entered(p, i) == Running(0)
  {
  }

  /** The worker the calling thread drives next, if it is inside `run`. */
  function Inline(p: Plan, c: Sys): Option<nat>
    requires Shaped(p, c)
  {
    match c.pc
    case Own => Some(p.threads - 1)
    case Pick(i) => if i < p.threads - 1 && !c.live[i] && Take(p, i) != 0 then Some(i) else None
    case _ => None
  }

  lemma InlineStepHolds(f: BlockFn, p: Plan, out0: seq<Byte>, c: Sys, started: bool)
    requires Inv(f, p, out0, c) && Inline(p, c).Some?
    ensures Inv(f, p, out0, Step(f, p, c, Main(started)))
  {
    hide At, Take, Job.Filled, CountHolds, SpanStep, Entered;
    var i := Inline(p, c).value;
    EnteredRuns(p, i);
    assert WorkerHolds(p, c, i);
    if c.workers[i].Running? {
      SpanStepHolds(f, p, out0, c, i);
    } else {
      var d := Step(f, p, c, Main(started));
      forall k | 0 <= k < p.threads
        ensures Progress(p, d, k) == Progress(p, c, k) && WorkerHolds(p, d, k)
      {
        assert WorkerHolds(p, c, k);
      }
      forall k | 0 <= k < p.threads && Settled(p, c, k)
        ensures Settled(p, d, k)
      {
      }
      QuietStepHolds(f, p, out0, c, d);
    }
  }

  lemma OutlineStepHolds(f: BlockFn, p: Plan, out0: seq<Byte>, c: Sys, started: bool)
    requires Inv(f, p, out0, c) && Inline(p, c).None? && Enabled(p, c, Main(started))
    ensures Inv(f, p, out0, Step(f, p, c, Main(started)))
  {
    hide At, Take, Job.Filled, CountHolds, SpanStep, Entered;
    var d := Step(f, p, c, Main(started));
    if c.pc.Create? {
      EnteredRuns(p, c.pc.i);
    }
    if c.pc.Collect? && c.pc.i < p.threads {
      assert WorkerHolds(p, c, c.pc.i);
    }
    forall k | 0 <= k < p.threads
      ensures Progress(p, d, k) == Progress(p, c, k) && WorkerHolds(p, d, k)
    {
      assert WorkerHolds(p, c, k);
    }
    forall k | 0 <= k < p.threads && Settled(p, c, k)
      ensures Settled(p, d, k)
    {
    }
    QuietStepHolds(f, p, out0, c, d);
  }

  /** Every step of every thread keeps the invariant. */
  lemma StepHolds(f: BlockFn, p: Plan, out0: seq<Byte>, c: Sys, a: Action)
    requires Inv(f, p, out0, c) && Enabled(p, c, a)
    ensures Inv(f, p, out0, Step(f, p, c, a))
  {
    hide At, Take, CountHolds, PcHolds, WorkerHolds, Job.Filled, SpanStep, RunInline;
    if a.Thread? {
      SpanStepHolds(f, p, out0, c, a.i);
    } else if Inline(p, c).Some? {
      InlineStepHolds(f, p, out0, c, a.started);
    } else {
      OutlineStepHolds(f, p, out0, c, a.started);
    }
  }

  // ----- whole runs -----

  /** The states that a run of the machine passes through, each step enabled. */
  ghost predicate Reaches(f: BlockFn, p: Plan, c: Sys, run: seq<Action>, d: Sys)
    requires Shaped(p, c)
    decreases |run|
  {
    if run == [] then c == d
    else Enabled(p, c, run[0]) && Shaped(p, Step(f, p, c, run[0])) && Reaches(f, p, Step(f, p, c, run[0]), run[1..], d)
  }

  lemma {:induction false} RunHolds(f: BlockFn, p: Plan, out0: seq<Byte>, c: Sys, run: seq<Action>, d: Sys)
    requires Inv(f, p, out0, c) && Reaches(f, p, c, run, d)
    ensures Inv(f, p, out0, d)
    decreases |run|
  {
    hide Step, Enabled, At, Take, CountHolds, PcHolds, WorkerHolds, Job.Filled;
    if run == [] {
    } else {
      StepHolds(f, p, out0, c, run[0]);
      RunHolds(f, p, out0, Step(f, p, c, run[0]), run[1..], d);
    }
  }

  /** However threads start, fail and interleave: a run that returns has computed every digest
      exactly once, left the buffer the serial call leaves, and returns its code. */
  lemma ReturnsSerialResult(f: BlockFn, p: Plan, out0: seq<Byte>, run: seq<Action>, d: Sys)
    requires p.Valid() && p.job.Fits(p.base, p.n, |out0|)
    requires Reaches(f, p, Begin(p, out0), run, d) && d.pc.Done?
    ensures d.pc.rc == BatchStatus(p.job.s, p.job.width, p.job.off, p.job.len, p.job.stride)
    ensures |d.count| == p.n && forall g :: 0 <= g < p.n ==> d.count[g] == 1
    ensures p.job.Filled(f, p.base, Upto(p.n), out0, d.out)
  {
    hide At, Take, Step, Job.Filled;
    BeginHolds(f, p, out0);
    RunHolds(f, p, out0, Begin(p, out0), run, d);
    forall g | 0 <= g < p.n
      ensures d.count[g] == 1
    {
      OneOwner(p, g);
      var i :| 0 <= i < p.threads && InSpan(p, i, g);
      assert Settled(p, d, i) && CountHolds(p, d, i, g - At(p, i));
    }
    assert Computed(d) == Upto(p.n);
  }

  // ----- progress -----

  /** Steps worker i still has before it returns. */
  function Left(p: Plan, w: Worker, i: nat): nat
    requires p.threads >= 1
    requires w.Running? ==> w.k <= Take(p, i)
  {
    match w
    case Idle => Take(p, i) + 2
    case Running(k) => Take(p, i) - k + 1
    case Ended(_) => 0
  }

  function LeftBelow(p: Plan, c: Sys, m: nat): nat
    requires Shaped(p, c) && m <= p.threads
  {
    if m == 0 then 0 else LeftBelow(p, c, m - 1) + Left(p, c.workers[m - 1], m - 1)
  }

  function PcLeft(p: Plan, pc: Pc): int {
    match pc
    case Create(i) => 4 * p.threads + 8 - i
    case Own => 3 * p.threads + 7
    case Join(i) => 3 * p.threads + 6 - i
    case Pick(i) => 2 * p.threads + 4 - i
    case Collect(i) => p.threads + 1 - i
    case Done(_) => 0
  }

  function Measure(p: Plan, c: Sys): int
    requires Shaped(p, c)
  {
    PcLeft(p, c.pc) + LeftBelow(p, c, p.threads)
  }

  lemma {:induction false} LeftAfter(p: Plan, c: Sys, d: Sys, i: nat, m: nat)
    requires Shaped(p, c) && Shaped(p, d) && i < p.threads && m <= p.threads
    requires d.workers == c.workers[i := d.workers[i]]
    ensures LeftBelow(p, d, m) - LeftBelow(p, c, m)
         == if i < m then Left(p, d.workers[i], i) - Left(p, c.workers[i], i) else 0
    decreases m
  {
    hide Take;
    if m == 0 {
    } else {
      LeftAfter(p, c, d, i, m - 1);
    }
  }

  lemma MeasureAfter(p: Plan, c: Sys, d: Sys, i: nat)
    requires Shaped(p, c) && Shaped(p, d) && i < p.threads && d.workers == c.workers[i := d.workers[i]]
    ensures Measure(p, d) - Measure(p, c)
         == PcLeft(p, d.pc) - PcLeft(p, c.pc) + Left(p, d.workers[i], i) - Left(p, c.workers[i], i)
    ensures Measure(p, d) >= 0
  {
    hide Take, PcLeft, Left;
    LeftAfter(p, c, d, i, p.threads);
    assert PcLeft(p, d.pc) >= 0 by {
      PcLeftBound(p, d);
    }
  }

  lemma PcLeftBound(p: Plan, c: Sys)
    requires Shaped(p, c)
    ensures PcLeft(p, c.pc) >= 0
  {
  }

  lemma InlineStepDescends(f: BlockFn, p: Plan, c: Sys, started: bool)
    requires Shaped(p, c) && Inline(p, c).Some?
    ensures Shaped(p, Step(f, p, c, Main(started))) && 0 <= Measure(p, Step(f, p, c, Main(started))) < Measure(p, c)
  {
    hide At, Take, Job.Slice, Job.Slot, Patch, Entered, Measure;
    var i := Inline(p, c).value;
    EnteredRuns(p, i);
    MeasureAfter(p, c, Step(f, p, c, Main(started)), i);
  }

  lemma OutlineStepDescends(f: BlockFn, p: Plan, out0: seq<Byte>, c: Sys, started: bool)
    requires Inv(f, p, out0, c) && Inline(p, c).None? && Enabled(p, c, Main(started))
    ensures Shaped(p, Step(f, p, c, Main(started))) && 0 <= Measure(p, Step(f, p, c, Main(started))) < Measure(p, c)
  {
    hide At, Take, CountHolds, WorkerHolds, Job.Filled, SpanStep, Entered, Measure;
    var i := if c.pc.Create? then c.pc.i else 0;
    EnteredRuns(p, i);
    MeasureAfter(p, c, Step(f, p, c, Main(started)), i);
  }

  /** Every step brings the end nearer, so no run is longer than the measure of its start. */
  lemma StepDescends(f: BlockFn, p: Plan, out0: seq<Byte>, c: Sys, a: Action)
    requires Inv(f, p, out0, c) && Enabled(p, c, a)
    ensures Shaped(p, Step(f, p, c, a)) && 0 <= Measure(p, Step(f, p, c, a)) < Measure(p, c)
  {
    hide At, Take, CountHolds, PcHolds, WorkerHolds, Job.Filled, Job.Slice, Job.Slot, Patch, Measure, RunInline;
    if a.Thread? {
      MeasureAfter(p, c, Step(f, p, c, a), a.i);
    } else if Inline(p, c).Some? {
      InlineStepDescends(f, p, c, a.started);
    } else {
      OutlineStepDescends(f, p, out0, c, a.started);
    }
  }

  /** Short of returning, some thread can always move: nothing deadlocks. */
  lemma SomethingEnabled(f: BlockFn, p: Plan, out0: seq<Byte>, c: Sys)
    requires Inv(f, p, out0, c) && !c.pc.Done?
    ensures exists a :: Enabled(p, c, a)
  {
    hide At, Take, CountHolds, PcHolds, Job.Filled;
    if c.pc.Join? && !Enabled(p, c, Main(true)) {
      assert WorkerHolds(p, c, c.pc.i);
      assert Enabled(p, c, Thread(c.pc.i));
    } else {
      assert Enabled(p, c, Main(true));
    }
  }

  lemma {:induction false} RunsEnd(f: BlockFn, p: Plan, out0: seq<Byte>, c: Sys, run: seq<Action>, d: Sys)
    requires Inv(f, p, out0, c) && Reaches(f, p, c, run, d)
    ensures |run| <= Measure(p, c)
    decreases |run|
  {
    hide Step, Enabled, At, Take, CountHolds, PcHolds, WorkerHolds, Job.Filled, Measure;
    if run == [] {
      MeasureBound(p, c);
    } else {
      StepDescends(f, p, out0, c, run[0]);
      StepHolds(f, p, out0, c, run[0]);
      RunsEnd(f, p, out0, Step(f, p, c, run[0]), run[1..], d);
    }
  }

  lemma MeasureBound(p: Plan, c: Sys)
    requires Shaped(p, c)
    ensures Measure(p, c) >= 0
  {
  }

  /** From wherever the machine has got to, it can go on to return. */
  lemma {:induction false} Returns(f: BlockFn, p: Plan, out0: seq<Byte>, c: Sys) returns (run: seq<Action>, d: Sys)
    requires Inv(f, p, out0, c)
    ensures Reaches(f, p, c, run, d) && d.pc.Done?
    decreases Measure(p, c)
  {
    hide Step, Enabled, At, Take, CountHolds, PcHolds, WorkerHolds, Job.Filled, Measure;
    if c.pc.Done? {
      return [], c;
    }
    SomethingEnabled(f, p, out0, c);
    var a :| Enabled(p, c, a);
    MeasureBound(p, c);
    StepHolds(f, p, out0, c, a);
    StepDescends(f, p, out0, c, a);
    var rest;
    rest, d := Returns(f, p, out0, Step(f, p, c, a));
    run := [a] + rest;
    assert run[1..] == rest;
  }

  // ----- the whole call -----

  /** What the serial call leaves: its code, and every slice written or nothing. */
  ghost predicate SerialOutcome(f: BlockFn, job: Job, base: nat, n: nat, out0: seq<Byte>, rc: Status, out: seq<Byte>)
    requires job.s.Valid()
  {
    && rc == BatchStatus(job.s, job.width, job.off, job.len, job.stride)
    && if rc == OK then job.Filled(f, base, Upto(n), out0, out) else out == out0
  }

  /** What the threaded call can leave: small batches run serially, bad calls fail before any
      thread starts, and otherwise some run of the machine returned. */
  ghost predicate ThreadedOutcome(f: BlockFn, p: Plan, threadMin: nat, out0: seq<Byte>, rc: Status, out: seq<Byte>)
    requires p.job.s.Valid() && p.threads >= 1
    requires p.job.Accepted() ==> p.job.Fits(p.base, p.n, |out0|)
  {
    if p.n < threadMin then SerialOutcome(f, p.job, p.base, p.n, out0, rc, out)
    else if !p.job.Accepted() then SerialOutcome(f, p.job, p.base, 0, out0, rc, out)
    else exists run, d :: ReturnedBy(f, p, out0, run, d) && d.pc == Done(rc) && d.out == out
  }

  ghost predicate ReturnedBy(f: BlockFn, p: Plan, out0: seq<Byte>, run: seq<Action>, d: Sys)
    requires p.Valid() && p.job.Fits(p.base, p.n, |out0|)
  {
    Reaches(f, p, Begin(p, out0), run, d)
  }

  /** The threaded call always has an outcome. */
  lemma ThreadedReturns(f: BlockFn, p: Plan, threadMin: nat, out0: seq<Byte>) returns (rc: Status, out: seq<Byte>)
    requires p.job.s.Valid() && p.threads >= 1
    requires p.job.Accepted() ==> p.job.Fits(p.base, p.n, |out0|)
    ensures ThreadedOutcome(f, p, threadMin, out0, rc, out)
  {
    hide At, Take, Step, Reaches, Begin, Job.Filled, BatchStatus, Inv;
    rc, out := BatchStatus(p.job.s, p.job.width, p.job.off, p.job.len, p.job.stride), out0;
    if p.job.Accepted() {
      BeginHolds(f, p, out0);
      var run, d := Returns(f, p, out0, Begin(p, out0));
      ReturnsSerialResult(f, p, out0, run, d);
      assert ReturnedBy(f, p, out0, run, d);
      out := d.out;
    }
  }

  /** For every thread count, threshold, failure pattern and interleaving: output and return code
      are those of the serial call. */
  lemma ThreadedIsSerial(f: BlockFn, p: Plan, threadMin: nat, out0: seq<Byte>, rc: Status, out: seq<Byte>, rc': Status, out': seq<Byte>)
    requires p.job.s.Valid() && p.threads >= 1
    requires p.job.Accepted() ==> p.job.Fits(p.base, p.n, |out0|)
    requires ThreadedOutcome(f, p, threadMin, out0, rc, out)
    requires SerialOutcome(f, p.job, p.base, p.n, out0, rc', out')
    ensures rc == rc' && out == out'
  {
    hide At, Take, Step, Reaches, Begin, Job.Filled, BatchStatus;
    if p.job.Accepted() {
      if p.n >= threadMin {
        var run, d :| ReturnedBy(f, p, out0, run, d) && d.pc == Done(rc) && d.out == out;
        ReturnsSerialResult(f, p, out0, run, d);
      }
      FilledUnique(f, p.job, p.base, Upto(p.n), out0, out, out');
    }
  }

  /** The entries of `w[]`, assigned before any thread is created. */
  datatype Span = Span(first: U64, n: nat, base: nat, rc: Status)

  method AssignSpans(p: Plan) returns (w: array<Span>, live: array<bool>)
    requires p.threads >= 1
    ensures fresh(w) && fresh(live) && w.Length == p.threads == live.Length
    ensures forall i :: 0 <= i < p.threads ==>
              w[i] == Span(SpanJob(p, i).first, Take(p, i), SpanBase(p, i), OK) && !live[i]
  {
    hide At, Take;
    w := new Span[p.threads](_ => Span(0, 0, 0, OK));
    live := new bool[p.threads](_ => true);
    var per, extra, at := p.n / p.threads, p.n % p.threads, 0;
    AtStart(p);
    for i := 0 to p.threads
      invariant at == At(p, i)
      invariant forall k :: 0 <= k < i ==> w[k] == Span(SpanJob(p, k).first, Take(p, k), SpanBase(p, k), OK) && !live[k]
    {
      var take := per + if i < extra then 1 else 0;
      AtNext(p, i);
      w[i] := Span((p.job.first + at) % TWO64, take, p.base + at * p.job.stride, OK);
      at := at + take;
      live[i] := false;
    }
  }

  lemma AtStart(p: Plan)
    requires p.threads >= 1
    ensures At(p, 0) == 0
  {
  }

  lemma AtNext(p: Plan, i: nat)
    requires p.threads >= 1
    ensures At(p, i + 1) == At(p, i) + Take(p, i) && Take(p, i) == p.n / p.threads + if i < p.n % p.threads then 1 else 0
  {
  }
}
