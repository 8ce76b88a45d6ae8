/** The repeated-prefix calls (src/prefix.c); the shared state is only read. */
module Prefix {
  import opened Words
  import opened Rfc7693
  import opened State
  import opened Spec
  import opened Batch
  import Core

  method PrefixCheck(s: UbState?, tailmax: nat) returns (rc: Status)
    requires s != null ==> s.Valid()
    ensures rc == if s == null then EArg else Batch.PrefixCheck(s.View(), tailmax)
  {
    if s == null {
      return EArg;
    }
    if s.fin {
      return EState;
    }
    if tailmax > 128 {
      return EGeometry;
    }
    if tailmax > 128 - s.buflen {
      return EGeometry;
    }
    return OK;
  }

  /** Copies the state, appends the tail to the pending block, finalizes the copy: one compression. */
  method Finish(s: UbState, tail: array?<Byte>, tat: nat, taillen: nat, out: array<Byte>, at: nat, outcap: nat)
    returns (rc: Status, ghost work: nat)
    requires s.Valid() && at + outcap <= out.Length && out != s.buf
    requires tail != null ==> tat + taillen <= tail.Length
    requires tail == null ==> taillen == 0
    modifies out
    ensures var r := Batch.Finish(Compress, s.View(), old(if tail == null then [] else tail[tat..tat + taillen]), outcap);
            rc == r.0 && Wrote(r.1, at, old(out[..]), out[..])
    ensures work == if rc == OK then 1 else 0
  {
    hide DigestOf, Finalized, Overwrite, Compress;
    if outcap < s.outlen {
      return EOutCap, 0;
    }
    if taillen > 128 - s.buflen {
      return EGeometry, 0;
    }
    if s.fin {
      return EState, 0;
    }
    var t := new UbState();
    var _ := Core.Copy(t, s);
    if tail != null {
      Core.Append(t, tail, tat, taillen);
    } else {
      assert t.View() == WithTail(s.View(), []) by {
        AbsorbShort(Compress, t.View(), []);
        AbsorbNothing(Compress, t.View());
      }
    }
    rc := Core.Final(t, out, at, outcap);
    work := t.work;
  }

  method HashTail(s: UbState?, tail: array?<Byte>, tat: nat, taillen: nat, out: array?<Byte>, at: nat, outcap: nat)
    returns (rc: Status, ghost work: nat)
    requires s != null ==> s.Valid()
    requires tail != null ==> tat + taillen <= tail.Length
    requires out != null ==> at + outcap <= out.Length
    requires s != null ==> out != s.buf
    modifies if out == null then {} else {out}
    ensures s == null || out == null ==> rc == EArg && (out != null ==> out[..] == old(out[..]))
    ensures s != null && out != null ==>
              var r := Batch.HashTail(Compress, s.View(), old(InputOf(tail, tat, taillen)), Some(outcap));
              rc == r.0 && Wrote(r.1, at, old(out[..]), out[..])
    ensures work == if rc == OK then 1 else 0
  {
    hide TailDigest;
    work := 0;
    if s == null || out == null {
      return EArg, 0;
    }
    if taillen > 0 && tail == null {
      return EArg, 0;
    }
    if s.fin {
      return EState, 0;
    }
    if outcap < s.outlen {
      return EOutCap, 0;
    }
    if taillen > 128 - s.buflen {
      return EGeometry, 0;
    }
    rc, work := Finish(s, tail, tat, taillen, out, at, outcap);
  }

  /** The counter, least significant byte first. */
  method EncTail(v: U64, w: nat, b: array<Byte>)
    requires w <= b.Length
    modifies b
    ensures b[..w] == LeBytes(v, w)
  {
    for i := 0 to w
      invariant b[..i] == LeBytes(v, w)[..i]
    {
      LeByteAt(v, w, i);
      b[i] := (v / Pow256(i) % 256) as Byte;
    }
  }

  method HashN(s: UbState?, tailwidth: nat, first: U64, n: nat, off: nat, len: nat,
               out: array?<Byte>, at: nat, stride: nat) returns (rc: Status, ghost work: nat)
    requires s != null ==> s.Valid()
    requires s != null ==> out != s.buf
    requires s != null && out != null ==>
               var job := Job(s.View(), tailwidth, first, off, len, stride);
               job.Accepted() ==> job.Fits(at, n, out.Length)
    modifies if out == null then {} else {out}
    ensures s == null || out == null ==> rc == EArg
    ensures s != null && out != null ==> rc == BatchStatus(s.View(), tailwidth, off, len, stride)
    ensures out != null && rc != OK ==> out[..] == old(out[..])
    ensures s != null && out != null && rc == OK ==>
              Job(s.View(), tailwidth, first, off, len, stride).Filled(Compress, at, Upto(n), old(out[..]), out[..])
    ensures work == if rc == OK then n else 0
  {
    work := 0;
    if s == null || out == null {
      return EArg, 0;
    }
    if tailwidth != 4 && tailwidth != 8 {
      return EArg, 0;
    }
    if off > s.outlen {
      return EArg, 0;
    }
    var l := len;
    if l == 0 {
      l := s.outlen - off;
    }
    if l > s.outlen - off {
      return EArg, 0;
    }
    if stride < l {
      return EOutCap, 0;
    }
    if s.fin {
      return EState, 0;
    }
    if tailwidth > 128 - s.buflen {
      return EGeometry, 0;
    }
    work := WriteSlices(s, Job(s.View(), tailwidth, first, off, len, stride), tailwidth, first, n, off, l, out, at, stride);
    return OK, work;
  }

  /** The batch loop: a walking output position, one counter and one compression a slice. */
  method WriteSlices(s: UbState, ghost job: Job, tailwidth: nat, first: U64, n: nat, off: nat, l: nat,
                     out: array<Byte>, at: nat, stride: nat) returns (ghost work: nat)
    requires s.Valid() && job.Accepted() && out != s.buf
    requires job.s == s.View() && job.width == tailwidth && job.first == first
    requires job.off == off && job.Len() == l && job.stride == stride
    requires job.Fits(at, n, out.Length)
    modifies out
    ensures job.Filled(Compress, at, Upto(n), old(out[..]), out[..])
    ensures work == n
  {
    hide Job.Filled, Job.Slice, Job.Slot, Job.Fits, BatchStatus, Compress;
    ghost var out0 := out[..];
    var o := at;
    var b, d := new Byte[8], new Byte[64];
    NothingFilled(Compress, job, at, out0);
    NextSlot(job, at, 0);
    work := 0;
    for i := 0 to n
      invariant o == job.Slot(at, i) && s.View() == job.s
      invariant job.Filled(Compress, at, Upto(i), out0, out[..])
      invariant work == i
    {
      EarlierFits(job, at, i, n, out.Length);
      OneMoreSlice(Compress, job, at, Upto(i), i, out0, out[..]);
      NextSlot(job, at, i);
      ghost var one := WriteSlice(s, job, i, b, d, tailwidth, first, off, l, out, o);
      work := work + one;
      o := o + stride;
    }
  }

  method WriteSlice(s: UbState, ghost job: Job, i: nat, b: array<Byte>, d: array<Byte>,
                    tailwidth: nat, first: U64, off: nat, l: nat, out: array<Byte>, o: nat) returns (ghost work: nat)
    requires s.Valid() && job.Accepted() && job.s == s.View() && job.width == tailwidth && job.first == first
    requires job.off == off && job.Len() == l && o + l <= out.Length
    requires b.Length == 8 && d.Length == 64 && b != s.buf && d != s.buf && b != d && d != out && b != out
    modifies b, d, out
    ensures out[..] == Patch(old(out[..]), o, job.Slice(Compress, i))
    ensures work == 1
  {
    hide Job.Slice;
    work := OneDigest(s, job, i, b, d, tailwidth, first);
    Core.Memcpy(out, o, d, off, l);
  }

  lemma WroteFront(b: seq<Byte>, before: seq<Byte>, after: seq<Byte>)
    requires Wrote(b, 0, before, after)
    ensures after[..|b|] == b
  {
  }

  /** Digest i of the batch, into `d`. The up-front checks leave `Finish` nothing to refuse. */
  method OneDigest(s: UbState, ghost job: Job, i: nat, b: array<Byte>, d: array<Byte>,
                   tailwidth: nat, first: U64) returns (ghost work: nat)
    requires s.Valid() && job.Accepted() && job.s == s.View() && job.width == tailwidth && job.first == first
    requires b.Length == 8 && d.Length == 64 && b != s.buf && d != s.buf && b != d
    modifies b, d
    ensures d[job.off..job.off + job.Len()] == job.Slice(Compress, i)
    ensures work == 1
  {
    hide TailDigest, LeBytes, Compress, Wrote;
    EncTail((first + i) % TWO64, tailwidth, b);
    ghost var tail := LeBytes((first + i) % TWO64, tailwidth);
    assert b[0..tailwidth] == tail;
    var rc;
    rc, work := Finish(s, b, 0, tailwidth, d, 0, 64);
    assert rc == OK;
    WroteFront(TailDigest(Compress, job.s, tail), old(d[..]), d[..]);
    assert d[..s.outlen] == TailDigest(Compress, job.s, tail);
    assert d[job.off..job.off + job.Len()] == d[..s.outlen][job.off..job.off + job.Len()];
  }
}
