/** The streaming interface (src/core.c), updating a state object in place. */
module Core {
  import opened Words
  import opened Rfc7693
  import opened State
  import opened Spec
  import opened Params
  import Calls
  import Scalar

  method Memcpy(dst: array<Byte>, to: nat, src: array<Byte>, from: nat, n: nat)
    requires to + n <= dst.Length && from + n <= src.Length && dst != src
    modifies dst
    ensures dst[..] == old(dst[..to]) + src[from..from + n] + old(dst[to + n..])
  {
    forall i | 0 <= i < n {
      dst[to + i] := src[from + i];
    }
  }

  method Memset0(dst: array<Byte>, to: nat, n: nat)
    requires to + n <= dst.Length
    modifies dst
    ensures dst[..] == old(dst[..to]) + Zeros(n) + old(dst[to + n..])
  {
    forall i | 0 <= i < n {
      dst[to + i] := 0;
    }
  }

  /** Writes `src` at the start of the zeros that follow what has been written. */
  method PutBytes(b: array<Byte>, at: nat, src: seq<Byte>, ghost pre: seq<Byte>)
    requires |pre| == at && at + |src| <= b.Length && b[..] == pre + Zeros(b.Length - at)
    modifies b
    ensures b[..] == pre + src + Zeros(b.Length - at - |src|)
  {
    forall i | 0 <= i < |src| {
      b[at + i] := src[i];
    }
  }

  method PutU32(b: array<Byte>, at: nat, v: U32, ghost pre: seq<Byte>)
    requires |pre| == at && at + 4 <= b.Length && b[..] == pre + Zeros(b.Length - at)
    modifies b
    ensures b[..] == pre + LeBytes(v, 4) + Zeros(b.Length - at - 4)
  {
    hide LeBytes;
    FourBytes(v);
    b[at], b[at + 1], b[at + 2], b[at + 3] :=
      (v % 256) as Byte, (v / 0x100 % 256) as Byte, (v / 0x1_0000 % 256) as Byte, (v / 0x100_0000 % 256) as Byte;
  }

  /** The sixty-four bytes of a parameter block, written field by field at their offsets. */
  method Serialize(p: Param) returns (blk: array<Byte>)
    ensures fresh(blk) && blk[..] == Packed(p)
  {
    hide Head, Zeros;
    blk := SerializeHead(p);
    ghost var pre := Head(p) + Zeros(14);
    ZerosJoin(Head(p), 14, 32);
    PutBytes(blk, 32, p.salt, pre);
    PutBytes(blk, 48, p.personal, pre + p.salt);
    assert Zeros(0) == [];
  }

  method SerializeHead(p: Param) returns (blk: array<Byte>)
    ensures fresh(blk) && blk.Length == 64 && blk[..] == Head(p) + Zeros(46)
  {
    hide Lengths, Zeros;
    blk := new Byte[64](_ => 0);
    PutFront(blk, p);
    PutLengths(blk, p, Front(p));
    PutBack(blk, p);
  }

  /** The four single-byte fields at offsets 0 to 3. */
  method PutFront(b: array<Byte>, p: Param)
    requires b.Length == 64 && forall i :: 0 <= i < 64 ==> b[i] == 0
    modifies b
    ensures b[..] == Front(p) + Zeros(60)
  {
    b[0] := p.digest_length as Byte;
    b[1] := p.key_length as Byte;
    b[2] := p.fanout as Byte;
    b[3] := p.depth as Byte;
  }

  /** The two at offsets 16 and 17. */
  method PutBack(b: array<Byte>, p: Param)
    requires b.Length == 64 && b[..] == Front(p) + Lengths(p) + Zeros(48)
    modifies b
    ensures b[..] == Head(p) + Zeros(46)
  {
    hide Front, Lengths;
    b[16] := p.node_depth as Byte;
    b[17] := p.inner_length as Byte;
  }

  /** The three 32-bit fields, at offsets 4, 8 and 12. */
  method PutLengths(b: array<Byte>, p: Param, ghost pre: seq<Byte>)
    requires |pre| == 4 && b.Length == 64 && b[..] == pre + Zeros(60)
    modifies b
    ensures b[..] == pre + Lengths(p) + Zeros(48)
  {
    hide LeBytes, Zeros;
    PutU32(b, 4, p.leaf_length, pre);
    PutU32(b, 8, p.node_offset, pre + LeBytes(p.leaf_length, 4));
    PutU32(b, 12, p.xof_length, pre + LeBytes(p.leaf_length, 4) + LeBytes(p.node_offset, 4));
  }

  method MaskIv(s: UbState, blk: array<Byte>)
    requires s.Shaped() && blk.Length == 64
    modifies s.h
    ensures s.h[..] == Masked(blk[..])
  {
    hide Load64, Xor;
    ghost var b := blk[..];
    for i := 0 to 8
      invariant forall j :: 0 <= j < i ==> s.h[j] == Xor(IV[j], Load64(b[8 * j..8 * j + 8]))
    {
      assert blk[8 * i..8 * i + 8] == b[8 * i..8 * i + 8];
      s.h[i] := Xor(IV[i], Load64(blk[8 * i..8 * i + 8]));
    }
  }

  method InitParam(s: UbState?, p: Option<Param>) returns (rc: Status)
    requires s != null ==> s.Shaped()
    modifies if s == null then {} else {s, s.h, s.buf}
    ensures s == null ==> rc == EArg
    ensures s != null ==> (s.View(), rc) == Calls.InitParam(old(s.View()), p) && s.work == old(s.work)
  {
    if s == null || p == None {
      return EArg;
    }
    var q := p.value;
    if q.digest_length == 0 || q.digest_length > 64 {
      return EArg;
    }
    if q.key_length > 64 {
      return EArg;
    }
    StartFrom(s, q);
    return OK;
  }

  method StartFrom(s: UbState, p: Param)
    requires s.Shaped()
    modifies s, s.h, s.buf
    ensures s.View() == Calls.InitState(p) && s.work == old(s.work)
  {
    hide Packed, Masked;
    var blk := Serialize(p);
    Memset0(s.buf, 0, 128);
    assert s.buf[..] == Zeros(128);
    MaskIv(s, blk);
    s.t0, s.t1, s.buflen, s.fin, s.wipe := 0, 0, 0, false, false;
    s.outlen := p.digest_length;
  }

  method Init(s: UbState?, outlen: nat) returns (rc: Status)
    requires s != null ==> s.Shaped()
    modifies if s == null then {} else {s, s.h, s.buf}
    ensures s == null ==> rc == EArg
    ensures s != null ==> (s.View(), rc) == Calls.Init(old(s.View()), outlen) && s.work == old(s.work)
  {
    rc := InitParam(s, Some(ParamInit(outlen)));
  }

  method InitPersonal(s: UbState?, outlen: nat, personal: Option<Tag>) returns (rc: Status)
    requires s != null ==> s.Shaped()
    modifies if s == null then {} else {s, s.h, s.buf}
    ensures s == null ==> rc == EArg
    ensures s != null ==> (s.View(), rc) == Calls.InitPersonal(old(s.View()), outlen, personal) && s.work == old(s.work)
  {
    var p := ParamInit(outlen);
    if personal.Some? {
      p := p.(personal := personal.value);
    }
    rc := InitParam(s, Some(p));
  }

  /** Copies `n` bytes in behind the pending ones. */
  method Append(s: UbState, input: array<Byte>, at: nat, n: nat)
    requires s.Shaped() && s.buflen + n <= 128 && at + n <= input.Length && input != s.buf
    modifies s`buflen, s.buf
    ensures s.View() == var v := old(s.View());
              v.(buf := Overwrite(v.buf, v.buflen, input[at..at + n]), buflen := v.buflen + n)
  {
    Memcpy(s.buf, s.buflen, input, at, n);
    assert s.buf[..] == Overwrite(old(s.buf[..]), s.buflen, input[at..at + n]);
    s.buflen := s.buflen + n;
  }

  method Update(s: UbState?, input: array?<Byte>, at: nat, inlen: nat) returns (rc: Status)
    requires s != null ==> s.Valid()
    requires input != null ==> at + inlen <= input.Length
    requires s != null ==> input != s.buf
    modifies if s == null then {} else {s, s.h, s.buf}
    ensures s == null ==> rc == EArg
    ensures s != null ==> (s.View(), rc) == Calls.Update(Compress, old(s.View()), old(InputOf(input, at, inlen)))
    ensures s != null ==> s.work == old(s.work) + if rc == OK then AbsorbWork(old(s.View()), inlen) else 0
  {
    hide Absorb;
    if s == null || (inlen > 0 && input == null) {
      return EArg;
    }
    if s.fin {
      return EState;
    }
    if inlen == 0 {
      AbsorbNothing(Compress, s.View());
      assert input != null ==> input[at..at] == [];
      return OK;
    }
    TakeIn(s, input, at, inlen);
    return OK;
  }

  /** Eager absorption: the last block, full or not, always stays pending. */
  method TakeIn(s: UbState, input: array<Byte>, at: nat, inlen: nat)
    requires s.Valid() && at + inlen <= input.Length && input != s.buf && inlen > 0
    modifies s, s.h, s.buf
    ensures s.View() == Absorb(Compress, old(s.View()), input[at..at + inlen])
    ensures s.work == old(s.work) + AbsorbWork(old(s.View()), inlen)
  {
    hide Absorb, Overwrite, Compress, Flushed, Flushes, AbsorbWork;
    ghost var s0 := s.View();
    ghost var data := input[at..at + inlen];
    var p, left := at, inlen;
    if left > 128 - s.buflen {
      AbsorbLong(Compress, s0, data);
      var n := Flush(s, input, p, left);
      p, left := p + n, left - n;
      assert input[p..p + left] == data[n..];
    } else {
      AbsorbShort(Compress, s0, data);
      NothingReleased(s0, inlen);
    }
    Append(s, input, p, left);
  }

  /** Completes and compresses the pending block, then hands every whole block but the last to the kernel in one call. */
  method Flush(s: UbState, input: array<Byte>, at: nat, inlen: nat) returns (n: nat)
    requires s.Valid() && at + inlen <= input.Length && input != s.buf && s.buflen + inlen > 128
    modifies s, s.h, s.buf
    ensures n == Flushes(old(s.View()), inlen) <= inlen
    ensures s.View() == Flushed(Compress, old(s.View()), input[at..at + inlen])
    ensures s.work == old(s.work) + 1 + Released(inlen - (128 - old(s.buflen)))
  {
    hide CompressBlocks, Overwrite, Compress;
    ghost var s0 := s.View();
    ghost var data := input[at..at + inlen];
    var fill := 128 - s.buflen;
    FillBuffer(s, input, at, fill, data);
    Scalar.UbCompress(s, s.buf, 0, 1);
    assert input[at + fill..at + fill + (inlen - fill)] == data[fill..];
    n := CompressWhole(s, input, at + fill, inlen - fill);
    n := fill + n;
  }

  /** Every whole block but the last, in one kernel call; nothing if that leaves none. */
  method CompressWhole(s: UbState, input: array<Byte>, at: nat, left: nat) returns (n: nat)
    requires s.Valid() && at + left <= input.Length && left > 0
    modifies s.h, s`t0, s`t1, s`work
    ensures n == 128 * Released(left)
    ensures var rest := old(input[at..at + left]);
            s.View() == CompressBlocks(Compress, old(s.View()), rest[..128 * Released(left)], Released(left))
    ensures s.work == old(s.work) + Released(left)
  {
    hide CompressBlocks, Compress;
    n := 0;
    if left > 128 {
      var nb := (left - 1) / 128;
      assert input[at..at + 128 * nb] == input[at..at + left][..128 * nb];
      Scalar.UbCompress(s, input, at, nb);
      n := nb * 128;
    } else {
      NoBlocks(Compress, s.View(), input[at..at + left][..0]);
    }
  }

  method FillBuffer(s: UbState, input: array<Byte>, at: nat, fill: nat, ghost data: seq<Byte>)
    requires s.Valid() && at + fill <= input.Length && input != s.buf && fill == 128 - s.buflen
    requires s.buflen + |data| > 128 && input[at..at + fill] == data[..fill]
    modifies s`buflen, s.buf
    ensures s.View() == Filled(old(s.View()), data) && s.buf[0..128] == s.View().buf
  {
    hide Overwrite;
    Append(s, input, at, fill);
    s.buflen := 0;
    assert s.buf[0..128] == s.buf[..];
  }

  method InitKey(s: UbState?, outlen: nat, key: array?<Byte>, at: nat, keylen: nat) returns (rc: Status)
    requires s != null ==> s.Shaped()
    requires key != null ==> at + keylen <= key.Length
    requires s != null ==> key != s.buf
    modifies if s == null then {} else {s, s.h, s.buf}
    ensures s == null ==> rc == EArg
    ensures s != null ==> (s.View(), rc) == Calls.InitKey(Compress, old(s.View()), outlen, old(InputOf(key, at, keylen)))
    ensures s != null ==> s.work == old(s.work)
  {
    hide Absorb, Packed, Masked;
    if keylen == 0 {
      rc := Init(s, outlen);
      return;
    }
    if key == null {
      return EArg;
    }
    if keylen > 64 {
      return EArg;
    }
    ghost var k := key[at..at + keylen];
    rc := InitParam(s, Some(ParamInit(outlen).(key_length := keylen)));
    if rc != OK {
      return;
    }
    s.wipe := true;
    var blk := new Byte[128](_ => 0);
    Memcpy(blk, 0, key, at, keylen);
    assert blk[..] == KeyBlock(k) && blk[0..128] == blk[..];
    rc := Update(s, blk, 0, 128);
    Memset0(blk, 0, 128);
  }

  method Final(s: UbState?, out: array?<Byte>, at: nat, outcap: nat) returns (rc: Status)
    requires s != null ==> s.Valid()
    requires out != null ==> at + outcap <= out.Length
    requires s != null ==> out != s.buf
    modifies if s == null then {} else {s, s.h, s.buf}, if out == null then {} else {out}
    ensures s == null ==> rc == EArg
    ensures s != null ==>
              var e := Calls.Final(Compress, old(s.View()), if out == null then None else Some(outcap));
              && s.View() == e.s && rc == e.rc
              && (out != null ==> Wrote(e.out, at, old(out[..]), out[..]))
    ensures s != null ==> s.work == old(s.work) + if rc == OK then 1 else 0
    ensures s == null && out != null ==> out[..] == old(out[..])
  {
    hide Finalized, DigestOf;
    if s == null || out == null {
      return EArg;
    }
    if outcap < s.outlen {
      return EOutCap;
    }
    if s.fin {
      return EState;
    }
    FinishInPlace(s, out, at);
    return OK;
  }

  method FinishInPlace(s: UbState, out: array<Byte>, at: nat)
    requires s.Valid() && !s.fin && at + s.outlen <= out.Length && out != s.buf
    modifies s, s.h, s.buf, out
    ensures s.View() == Finalized(Compress, old(s.View()))
    ensures Wrote(DigestOf(Compress, old(s.View())), at, old(out[..]), out[..])
    ensures s.work == old(s.work) + 1
  {
    hide Compress, FinalHash, LastBlock, HashBytes;
    CompressLast(s);
    var d := new Byte[64];
    StoreHash(s, d);
    Memcpy(out, at, d, 0, s.outlen);
    if s.wipe {
      WipeSecrets(s, d);
    }
  }

  /** Adds to the two-word counter with carry. */
  method Inc(s: UbState, n: U64)
    requires s.Shaped()
    modifies s`t0, s`t1
    ensures s.View() == Counted(old(s.View()), n)
  {
    s.t0 := (s.t0 + n) % TWO64;
    s.t1 := (s.t1 + if s.t0 < n then 1 else 0) % TWO64;
  }

  /** Counts and pads the pending bytes, and compresses them as the last block. */
  method CompressLast(s: UbState)
    requires s.Valid() && !s.fin
    modifies s, s.h, s.buf
    ensures var v := old(s.View());
            s.View() == v.WithCount(v.Count() + v.buflen).(fin := true, h := FinalHash(Compress, v), buf := LastBlock(v))
    ensures s.work == old(s.work) + 1
  {
    hide Compress, Counted, Lo, Hi;
    ghost var s0 := s.View();
    CountedIs(s0, s0.buflen);
    Inc(s, s.buflen);
    s.fin := true;
    Memset0(s.buf, s.buflen, 128 - s.buflen);
    assert s.buf[..] == LastBlock(s0) == s.buf[0..128];
    Scalar.UbCompressFinal(s, s.buf, 0);
  }

  method StoreHash(s: UbState, d: array<Byte>)
    requires s.Shaped() && d.Length == 64 && d != s.buf
    modifies d
    ensures d[..] == HashBytes(s.h[..])
  {
    hide Store64;
    for i := 0 to 8
      invariant forall j :: 0 <= j < 8 * i ==> d[j] == Store64(s.h[j / 8])[j % 8]
    {
      var w := Store64(s.h[i]);
      forall k | 0 <= k < 8 {
        d[8 * i + k] := w[k];
      }
    }
  }

  method WipeSecrets(s: UbState, d: array<Byte>)
    requires s.Shaped() && d.Length == 64 && d != s.buf
    modifies d, s.h, s.buf
    ensures s.h[..] == seq(8, _ => 0) && s.buf[..] == Zeros(128)
  {
    Memset0(d, 0, 64);
    forall i | 0 <= i < 8 {
      s.h[i] := 0;
    }
    Memset0(s.buf, 0, 128);
    assert s.buf[..] == Zeros(128);
  }

  method SetWipe(s: UbState?, on: bool) returns (rc: Status)
    requires s != null ==> s.Valid()
    modifies if s == null then {} else {s}
    ensures s == null ==> rc == EArg
    ensures s != null ==> (s.View(), rc) == Calls.SetWipe(old(s.View()), on) && s.work == old(s.work)
  {
    if s == null {
      return EArg;
    }
    if s.fin {
      return EState;
    }
    s.wipe := on;
    return OK;
  }

  /** Two state objects are the same one or share no storage. */
  ghost predicate Separate(a: UbState, b: UbState) {
    a == b || (a.h != b.h && a.buf != b.buf)
  }

  method Copy(dst: UbState?, src: UbState?) returns (rc: Status)
    requires dst != null ==> dst.Shaped()
    requires src != null ==> src.Shaped()
    requires dst != null && src != null ==> Separate(dst, src)
    modifies if dst == null then {} else {dst, dst.h, dst.buf}
    ensures dst == null || src == null ==> rc == EArg && (dst != null ==> dst.View() == old(dst.View()))
    ensures dst != null && src != null ==> rc == OK && dst.View() == old(src.View())
    ensures dst != null ==> dst.work == old(dst.work)
  {
    if dst == null || src == null {
      return EArg;
    }
    forall i | 0 <= i < 8 {
      dst.h[i] := src.h[i];
    }
    forall i | 0 <= i < 128 {
      dst.buf[i] := src.buf[i];
    }
    dst.t0, dst.t1, dst.buflen, dst.outlen := src.t0, src.t1, src.buflen, src.outlen;
    dst.fin, dst.wipe := src.fin, src.wipe;
    return OK;
  }

  method Hash(out: array?<Byte>, at: nat, outcap: nat,
              input: array?<Byte>, iat: nat, inlen: nat,
              key: array?<Byte>, kat: nat, keylen: nat) returns (rc: Status)
    requires out != null ==> at + outcap <= out.Length
    requires input != null ==> iat + inlen <= input.Length
    requires key != null ==> kat + keylen <= key.Length
    modifies if out == null then {} else {out}
    ensures var r := Calls.Hash(Compress, if out == null then None else Some(outcap),
                                old(InputOf(input, iat, inlen)), old(InputOf(key, kat, keylen)));
            && rc == r.0
            && (out != null ==> Wrote(r.1, at, old(out[..]), out[..]))
  {
    hide Calls.OneShot;
    if out == null {
      return EArg;
    }
    if inlen > 0 && input == null {
      return EArg;
    }
    if outcap == 0 {
      return EArg;
    }
    if keylen > 0 {
      if key == null {
        return EArg;
      }
      if keylen > 64 {
        return EArg;
      }
    }
    rc := OneShot(out, at, outcap, input, iat, inlen, key, kat, keylen);
  }

  method OneShot(out: array<Byte>, at: nat, outcap: nat,
                 input: array?<Byte>, iat: nat, inlen: nat,
                 key: array?<Byte>, kat: nat, keylen: nat) returns (rc: Status)
    requires at + outcap <= out.Length
    requires input != null ==> iat + inlen <= input.Length
    requires key != null ==> kat + keylen <= key.Length
    modifies out
    ensures var r := Calls.OneShot(Compress, outcap, old(InputOf(input, iat, inlen)), old(InputOf(key, kat, keylen)));
            rc == r.0 && Wrote(r.1, at, old(out[..]), out[..])
  {
    hide Calls.InitKey, Calls.Init, Calls.InitParam, Calls.InitState, Calls.Update, Calls.Final, Compress, Absorb, Finalized, DigestOf, ParamInit;
    ghost var k := InputOf(key, kat, keylen);
    var s := new UbState();
    ghost var s0 := s.View();
    var dl := if outcap > 64 then 64 else outcap;
    rc := InitMaybeKeyed(s, dl, key, kat, keylen);
    Calls.InitForgets(Compress, s0, Calls.InitState(ParamInit(1)), dl, k);
    if rc != OK {
      return;
    }
    rc := Update(s, input, iat, inlen);
    if rc != OK {
      return;
    }
    rc := Final(s, out, at, outcap);
  }

  method InitMaybeKeyed(s: UbState?, outlen: nat, key: array?<Byte>, at: nat, keylen: nat) returns (rc: Status)
    requires s != null ==> s.Shaped() && key != s.buf
    requires key != null ==> at + keylen <= key.Length
    modifies if s == null then {} else {s, s.h, s.buf}
    ensures s == null ==> rc == EArg
    ensures s != null ==> (s.View(), rc) == Calls.InitKey(Compress, old(s.View()), outlen, old(InputOf(key, at, keylen)))
  {
    hide Calls.InitKey, Calls.Init, Compress;
    if s != null {
      Calls.InitForgets(Compress, s.View(), s.View(), outlen, InputOf(key, at, keylen));
    }
    if keylen > 0 {
      rc := InitKey(s, outlen, key, at, keylen);
    } else {
      rc := Init(s, outlen);
    }
  }
}
