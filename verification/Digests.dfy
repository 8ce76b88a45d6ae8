/** The calls compute RFC 7693 digests: streamed or one-shot, keyed or not. */
module Digests {
  import opened Words
  import opened Rfc7693
  import opened State
  import opened Spec
  import opened Params
  import opened Streaming
  import Calls

  lemma InitRepresents(f: BlockFn, p: Param)
    requires 1 <= p.digest_length <= 64
    ensures Represents(f, Calls.InitState(p), Masked(Packed(p)), [])
    ensures Calls.InitState(p).outlen == p.digest_length && !Calls.InitState(p).wipe
  {
    hide Masked, Packed;
  }

  /** `ub_init_param` starts the record's state, or refuses it for its lengths; `ub_init_personal` starts that
      of the sequential record with the tag in its personalization. Neither switches wiping on. */
  lemma InitsStart(f: BlockFn, s: Snapshot, p: Param, outlen: nat, personal: Option<Tag>)
    ensures var (r, rc) := Calls.InitParam(s, Some(p));
            if 1 <= p.digest_length <= 64 && p.key_length <= 64
            then rc == OK && r.outlen == p.digest_length && !r.wipe && Represents(f, r, Masked(Packed(p)), [])
            else rc == EArg && r == s
    ensures var (r, rc) := Calls.InitPersonal(s, outlen, personal);
            if 1 <= outlen <= 64
            then rc == OK && r.outlen == outlen && !r.wipe
                 && Represents(f, r, Masked(Packed(Param(outlen, 0, 1, 1, 0, 0, 0, 0, 0, Zeros(16), if personal.Some? then personal.value else Zeros(16)))), [])
            else rc == EArg && r == s
  {
    hide Masked, Packed, Represents;
    if 1 <= p.digest_length <= 64 {
      InitRepresents(f, p);
    }
    if 1 <= outlen <= 64 {
      InitRepresents(f, Param(outlen, 0, 1, 1, 0, 0, 0, 0, 0, Zeros(16), if personal.Some? then personal.value else Zeros(16)));
    }
  }

  /** Initialising with a key is absorbing its padded block into the section 3.3 initial state. */
  lemma InitKeyRepresents(f: BlockFn, s: Snapshot, nn: nat, key: seq<Byte>)
    requires 1 <= nn <= 64 && |key| <= 64
    ensures var (r, rc) := Calls.InitKey(f, s, nn, Bytes(key));
            && rc == OK && r.outlen == nn && r.wipe == (key != [])
            && Represents(f, r, InitialHash(nn, |key|), KeyedData(key, []))
  {
    hide Masked, Packed, Absorb, InitialHash;
    var p := ParamInit(nn).(key_length := |key|);
    var h0 := InitialHash(nn, |key|);
    SequentialStart(nn, |key|);
    if key == [] {
      assert p == ParamInit(nn);
      InitRepresents(f, p);
    } else {
      var r := Calls.InitState(p).(wipe := true);
      assert Represents(f, r, h0, []) by {
        InitRepresents(f, p);
      }
      AbsorbRepresents(f, r, h0, [], KeyBlock(key));
      assert [] + KeyBlock(key) == KeyedData(key, []);
    }
  }

  /** Init, any number of updates of any sizes, final: the digest of the concatenation. */
  lemma StreamedDigest(s: Snapshot, nn: nat, key: seq<Byte>, chunks: seq<seq<Byte>>, cap: nat)
    requires 1 <= nn <= 64 && |key| <= 64
    ensures var r := Calls.InitKey(Compress, s, nn, Bytes(key)).0;
            var e := Calls.Final(Compress, AbsorbAll(Compress, r, chunks), Some(cap));
            if cap < nn then e.rc == EOutCap && e.out == []
            else e.rc == OK && e.out == Blake2b(nn, key, Flatten(chunks))
  {
    hide Compress, InitialHash, DigestOf, DigestFrom, Calls.InitKey, AbsorbAll, Finalized, Chain;
    var r := Calls.InitKey(Compress, s, nn, Bytes(key)).0;
    var h0 := InitialHash(nn, |key|);
    InitKeyRepresents(Compress, s, nn, key);
    AbsorbAllRepresents(Compress, r, h0, KeyedData(key, []), chunks);
    assert KeyedData(key, []) + Flatten(chunks) == KeyedData(key, Flatten(chunks));
    FinalMatches(Compress, AbsorbAll(Compress, r, chunks), h0, KeyedData(key, Flatten(chunks)));
  }

  /** A message absorbed behind its key finalizes to the RFC 7693 digest. */
  lemma KeyedDigest(s: Snapshot, nn: nat, key: seq<Byte>, msg: seq<Byte>)
    requires 1 <= nn <= 64 && |key| <= 64 && s.outlen == nn
    requires Represents(Compress, s, InitialHash(nn, |key|), KeyedData(key, []))
    ensures var t := Absorb(Compress, s, msg);
            !t.fin && DigestOf(Compress, t) == Blake2b(nn, key, msg)
  {
    hide Compress, InitialHash, DigestOf, DigestFrom, Chain;
    var h0 := InitialHash(nn, |key|);
    AbsorbRepresents(Compress, s, h0, KeyedData(key, []), msg);
    assert KeyedData(key, []) + msg == KeyedData(key, msg);
    FinalMatches(Compress, Absorb(Compress, s, msg), h0, KeyedData(key, msg));
  }

  lemma OneShotIsBlake2b(cap: nat, key: seq<Byte>, msg: seq<Byte>)
    requires cap > 0 && |key| <= 64
    ensures Calls.OneShot(Compress, cap, Bytes(msg), Bytes(key)) == (OK, Blake2b(if cap > 64 then 64 else cap, key, msg))
  {
    hide Compress, Blake2b, Absorb, AbsorbAll, Flatten, Finalized, DigestOf, Calls.InitKey, Calls.Final, Calls.InitState, Represents;
    var nn := if cap > 64 then 64 else cap;
    var s := Calls.InitState(ParamInit(1));
    var r := Calls.InitKey(Compress, s, nn, Bytes(key)).0;
    InitKeyRepresents(Compress, s, nn, key);
    assert !r.fin by {
      LiveAndValid(Compress, r, InitialHash(nn, |key|), KeyedData(key, []));
    }
    StreamedDigest(s, nn, key, [msg], cap);
    OneChunk(Compress, r, msg);
  }

  lemma LiveAndValid(f: BlockFn, s: Snapshot, h0: Hash, msg: seq<Byte>)
    requires Represents(f, s, h0, msg)
    ensures s.Valid() && !s.fin
  {
  }

  /** NULL is read as no bytes wherever it is accepted. */
  lemma NullIsEmpty(cap: nat, key: Input, msg: Input)
    requires cap > 0 && key.Readable() && msg.Readable()
    ensures Calls.OneShot(Compress, cap, msg, key) == Calls.OneShot(Compress, cap, Bytes(msg.Content()), Bytes(key.Content()))
  {
    hide Compress, Absorb, Finalized, DigestOf, Calls.InitKey, Calls.Init, Calls.Final, Calls.InitState, ParamInit;
    var s := Calls.InitState(ParamInit(1));
    var nn := if cap > 64 then 64 else cap;
    Calls.InitForgets(Compress, s, s, nn, key);
    Calls.InitForgets(Compress, s, s, nn, Bytes(key.Content()));
  }

  /** `ub_hash` for every argument: BLAKE2b at the largest length that fits, or refused for a NULL output, no
      capacity, a NULL that should hold bytes, or a key above 64 bytes. */
  lemma HashIsBlake2b(out: Option<nat>, key: Input, msg: Input)
    ensures Calls.Hash(Compress, out, msg, key)
         == if out == None || out.value == 0 || !msg.Readable() || !key.Readable() || |key.Content()| > 64 then (EArg, [])
            else (OK, Blake2b(if out.value > 64 then 64 else out.value, key.Content(), msg.Content()))
  {
    hide Compress, Blake2b, Calls.OneShot;
    if out.Some? && out.value > 0 && msg.Readable() && key.Readable() && |key.Content()| <= 64 {
      NullIsEmpty(out.value, key, msg);
      OneShotIsBlake2b(out.value, key.Content(), msg.Content());
    }
  }

  /** What `ub_set_wipe` last asked of a live state is what its final does, whatever is absorbed between:
      the chaining value and the block are cleared, or stay; the digest is the same. */
  lemma WipesAsAsked(f: BlockFn, s: Snapshot, on: bool, chunks: seq<seq<Byte>>, cap: nat)
    requires s.Valid() && !s.fin && s.outlen <= cap
    ensures var (r, rc) := Calls.SetWipe(s, on);
            var e := Calls.Final(f, AbsorbAll(f, r, chunks), Some(cap));
            var t := AbsorbAll(f, s, chunks);
            && rc == OK == e.rc && e.s.fin && e.out == DigestOf(f, t)
            && if on then (forall i :: 0 <= i < 8 ==> e.s.h[i] == 0) && e.s.buf == Zeros(128)
               else e.s.h == FinalHash(f, t) && e.s.buf == LastBlock(t)
  {
    hide AbsorbAll, DigestOf, FinalHash, Lo, Hi;
    AbsorbAllIgnoresWipe(f, s, on, chunks);
    FinalHashIgnoresWipe(f, AbsorbAll(f, s, chunks), on);
    StaysLive(f, s, chunks);
  }

  lemma FinalHashIgnoresWipe(f: BlockFn, s: Snapshot, wipe: bool)
    requires s.Valid()
    ensures FinalHash(f, s.(wipe := wipe)) == FinalHash(f, s)
  {
  }

  lemma {:induction false} StaysLive(f: BlockFn, s: Snapshot, chunks: seq<seq<Byte>>)
    requires s.Valid()
    ensures AbsorbAll(f, s, chunks).fin == s.fin
    decreases |chunks|
  {
    hide Absorb;
    if chunks == [] {
    } else {
      StaysLive(f, Absorb(f, s, chunks[0]), chunks[1..]);
    }
  }
}
