/** The streaming state of src/internal.h, as an object and as a value. */
module State {
  import opened Words
  import opened Rfc7693

  datatype Option<+T> = None | Some(value: T)

  /** A pointer and a length: NULL with whatever length came with it, or that many bytes. */
  datatype Input = Null(len: nat) | Bytes(data: seq<Byte>)
  {
    function Length(): nat {
      if Null? then len else |data|
    }

    /** NULL may stand only for no bytes. */
    predicate Readable() {
      Null? ==> len == 0
    }

    function Content(): seq<Byte> {
      if Null? then [] else data
    }
  }

  /** The bytes an array pointer, an offset and a length denote. */
  ghost function InputOf(p: array?<Byte>, at: nat, len: nat): Input
    requires p != null ==> at + len <= p.Length
    reads p
  {
    if p == null then Null(len) else Bytes(p[at..at + len])
  }

  /** `after` is `before` with `b` written at `at` and nothing else changed. */
  predicate Wrote(b: seq<Byte>, at: nat, before: seq<Byte>, after: seq<Byte>) {
    at + |b| <= |before| && after == before[..at] + b + before[at + |b|..]
  }

  /** Every byte of the window is written, and no other. */
  lemma WroteMeans(b: seq<Byte>, at: nat, before: seq<Byte>, after: seq<Byte>)
    requires at + |b| <= |before|
    ensures Wrote(b, at, before, after) <==>
            |after| == |before| && after[at..at + |b|] == b
            && forall j :: 0 <= j < |before| && !(at <= j < at + |b|) ==> after[j] == before[j]
  {
    if |after| == |before| && after[at..at + |b|] == b
       && forall j :: 0 <= j < |before| && !(at <= j < at + |b|) ==> after[j] == before[j] {
      assert after == after[..at] + after[at..at + |b|] + after[at + |b|..];
    }
  }

  datatype Status = OK | EArg | EOutCap | EGeometry | EState

  /** The contents of one `struct ub_state`. */
  datatype Snapshot = Snapshot(
    h: Hash, t0: U64, t1: U64, buf: Block, buflen: nat, outlen: nat, fin: bool, wipe: bool)
  {
    predicate Valid() {
      buflen <= 128 && 1 <= outlen <= 64
    }

    /** The 128-bit counter the two words hold. */
    function Count(): (t: nat)
    {
      t0 + TWO64 * t1
    }

    /** The bytes awaiting compression. */
    function Pending(): seq<Byte>
      requires Valid()
    {
      buf[..buflen]
    }

    function WithCount(t: nat): Snapshot {
      this.(t0 := Lo(t), t1 := Hi(t))
    }
  }

  class UbState {
    const h: array<Word>
    var t0: U64
    var t1: U64
    const buf: array<Byte>
    var buflen: nat
    var outlen: nat
    var fin: bool
    var wipe: bool
    /** How many blocks this object has compressed. */
    ghost var work: nat

    ghost predicate Shaped() {
      h.Length == 8 && buf.Length == 128
    }

    ghost function View(): Snapshot
      requires Shaped()
      reads this, h, buf
    {
      Snapshot(h[..], t0, t1, buf[..], buflen, outlen, fin, wipe)
    }

    ghost predicate Valid()
      reads this, h, buf
    {
      Shaped() && View().Valid()
    }

    /** Storage for a state, not yet initialised. */
    constructor ()
      ensures Shaped() && fresh(h) && fresh(buf) && work == 0
    {
      h := new Word[8];
      buf := new Byte[128];
      t0, t1, buflen, outlen, fin, wipe, work := 0, 0, 0, 0, false, false, 0;
    }
  }
}
