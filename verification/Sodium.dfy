/** The libsodium adapter's staged initialisation (compat/ub_sodium.h). */
module Sodium {
  import opened Words
  import opened Rfc7693
  import opened State
  import opened Spec
  import opened Params
  import opened Streaming
  import Calls
  import Core
  import Digests

  function Tagged(p: Param, salt: Option<Tag>, personal: Option<Tag>): Param {
    var q := if salt.Some? then p.(salt := salt.value) else p;
    if personal.Some? then q.(personal := personal.value) else q
  }

  /** The key comes first here. Once a tag is given a NULL key is not checked, and must not be reached. */
  function InitSaltPersonal(f: BlockFn, s: Snapshot, key: Input, outlen: nat, salt: Option<Tag>, personal: Option<Tag>)
    : (r: (Snapshot, Status))
    requires key.Bytes? || key.len == 0 || key.len > 64 || (salt.None? && personal.None?) || outlen == 0 || outlen > 64
  {
    if salt.None? && personal.None? then Calls.InitKey(f, s, outlen, key)
    else if key.Length() > 64 then (s, EArg)
    else
      var p := Tagged(ParamInit(outlen), salt, personal);
      if key.Length() > 0 then
        var (r, rc) := Calls.InitParam(s, Some(p.(key_length := key.Length())));
        if rc != OK then (r, rc) else Calls.Update(f, r, Bytes(KeyBlock(key.data)))
      else Calls.InitParam(s, Some(p))
  }

  /** All-zero tags change nothing but the wipe default: the codes agree, and the states absorb and emit the same. */
  lemma ZeroTagsAreInitKey(f: BlockFn, s: Snapshot, key: seq<Byte>, outlen: nat)
    ensures var a := InitSaltPersonal(f, s, Bytes(key), outlen, Some(Zeros(16)), Some(Zeros(16)));
            var b := Calls.InitKey(f, s, outlen, Bytes(key));
            && a.1 == b.1
            && (a.1 != OK ==> a.0 == s == b.0)
            && (a.1 == OK ==> b.0 == a.0.(wipe := key != []) && !a.0.wipe && DigestOf(f, a.0) == DigestOf(f, b.0))
  {
    hide Packed, Masked, Absorb, DigestOf;
    var p := ParamInit(outlen);
    assert Tagged(p, Some(Zeros(16)), Some(Zeros(16))) == p;
    if 1 <= outlen <= 64 && |key| <= 64 {
      InitKeySame(f, s, key, outlen);
    }
  }

  lemma InitKeySame(f: BlockFn, s: Snapshot, key: seq<Byte>, outlen: nat)
    requires 1 <= outlen <= 64 && |key| <= 64
    ensures var a := InitSaltPersonal(f, s, Bytes(key), outlen, Some(Zeros(16)), Some(Zeros(16)));
            var b := Calls.InitKey(f, s, outlen, Bytes(key));
            a.1 == b.1 == OK && b.0 == a.0.(wipe := key != []) && !a.0.wipe && DigestOf(f, a.0) == DigestOf(f, b.0)
  {
    hide Packed, Masked, Absorb, DigestOf;
    var p := ParamInit(outlen);
    assert Tagged(p, Some(Zeros(16)), Some(Zeros(16))) == p;
    if key != [] {
      var r := Calls.InitState(p.(key_length := |key|));
      AbsorbIgnoresWipe(f, r, KeyBlock(key), true);
      DigestIgnoresWipe(f, Absorb(f, r, KeyBlock(key)), true);
    }
  }

  /** With any tags and any key, the staged state represents the padded key over the starting state of
      the record that has each tag in its own field; with no key that record is read back from the state. */
  lemma StagedRepresents(f: BlockFn, s: Snapshot, key: Input, outlen: nat, salt: Option<Tag>, personal: Option<Tag>)
    requires 1 <= outlen <= 64 && key.Readable() && |key.Content()| <= 64
    ensures var (r, rc) := InitSaltPersonal(f, s, key, outlen, salt, personal);
            var k := key.Content();
            var p := Param(outlen, |k|, 1, 1, 0, 0, 0, 0, 0,
                           if salt.Some? then salt.value else Zeros(16), if personal.Some? then personal.value else Zeros(16));
            && rc == OK && r.outlen == outlen
            && Represents(f, r, Masked(Packed(p)), KeyedData(k, []))
            && r.wipe == (k != [] && salt.None? && personal.None?)
            && (k == [] ==> Unpacked(Unmasked(r.h)) == p)
  {
    hide Packed, Masked, Represents, Unpacked, Unmasked, Calls.InitKey, Absorb;
    var k := key.Content();
    var p := Param(outlen, |k|, 1, 1, 0, 0, 0, 0, 0,
                   if salt.Some? then salt.value else Zeros(16), if personal.Some? then personal.value else Zeros(16));
    ParamRepresents(f, p, k);
    ParamRecovered(p);
    if salt.None? && personal.None? {
      Untagged(f, s, key, outlen);
    }
  }

  lemma Untagged(f: BlockFn, s: Snapshot, key: Input, outlen: nat)
    requires 1 <= outlen <= 64 && key.Readable() && |key.Content()| <= 64
    ensures var (r, rc) := Calls.InitKey(f, s, outlen, key);
            var k := key.Content();
            var p := Param(outlen, |k|, 1, 1, 0, 0, 0, 0, 0, Zeros(16), Zeros(16));
            && rc == OK && r.outlen == outlen && r.wipe == (k != [])
            && Represents(f, r, Masked(Packed(p)), KeyedData(k, []))
            && (k == [] ==> r.h == Masked(Packed(p)))
  {
    hide Packed, Masked, Represents, InitialHash, KeyedData, Calls.InitKey, Calls.InitState;
    var k := key.Content();
    Calls.InitForgets(f, s, s, outlen, key);
    Calls.InitForgets(f, s, s, outlen, Bytes(k));
    Digests.InitKeyRepresents(f, s, outlen, k);
    SequentialStart(outlen, |k|);
    UnkeyedHash(s, outlen);
  }

  lemma UnkeyedHash(s: Snapshot, outlen: nat)
    requires 1 <= outlen <= 64
    ensures Calls.Init(s, outlen).0.h == Masked(Packed(Param(outlen, 0, 1, 1, 0, 0, 0, 0, 0, Zeros(16), Zeros(16))))
  {
    hide Packed, Masked;
  }

  /** It is refused, and the state left alone, exactly for a length or a key out of range. */
  lemma StagedRefuses(f: BlockFn, s: Snapshot, key: Input, outlen: nat, salt: Option<Tag>, personal: Option<Tag>)
    requires key.Readable() || key.len > 64 || (salt.None? && personal.None?) || outlen == 0 || outlen > 64
    ensures var (r, rc) := InitSaltPersonal(f, s, key, outlen, salt, personal);
            if 1 <= outlen <= 64 && key.Readable() && |key.Content()| <= 64 then rc == OK else rc == EArg && r == s
  {
    hide Packed, Masked, Absorb;
  }

  lemma ParamRepresents(f: BlockFn, p: Param, key: seq<Byte>)
    requires 1 <= p.digest_length <= 64 && |key| <= 64
    ensures Represents(f, if key == [] then Calls.InitState(p) else Absorb(f, Calls.InitState(p), KeyBlock(key)),
                       Masked(Packed(p)), KeyedData(key, []))
  {
    hide Packed, Masked, Absorb, Represents;
    Digests.InitRepresents(f, p);
    if key != [] {
      AbsorbRepresents(f, Calls.InitState(p), Masked(Packed(p)), [], KeyBlock(key));
      assert [] + KeyBlock(key) == KeyedData(key, []);
    }
  }

  method InitSaltPersonalInPlace(s: UbState?, key: array?<Byte>, at: nat, keylen: nat, outlen: nat,
                                 salt: Option<Tag>, personal: Option<Tag>) returns (rc: Status)
    requires s != null ==> s.Shaped() && key != s.buf
    requires key != null ==> at + keylen <= key.Length
    requires s == null || key != null || keylen == 0 || keylen > 64 || (salt.None? && personal.None?) || outlen == 0 || outlen > 64
    modifies if s == null then {} else {s, s.h, s.buf}
    ensures s == null ==> rc == EArg
    ensures s != null ==>
              (s.View(), rc) == InitSaltPersonal(Compress, old(s.View()), old(InputOf(key, at, keylen)), outlen, salt, personal)
  {
    hide Packed, Masked, Absorb, Calls.InitKey;
    if salt.None? && personal.None? {
      rc := Core.InitMaybeKeyed(s, outlen, key, at, keylen);
      return;
    }
    if keylen > 64 {
      return EArg;
    }
    var p := ParamInit(outlen);
    if salt.Some? {
      p := p.(salt := salt.value);
    }
    if personal.Some? {
      p := p.(personal := personal.value);
    }
    if keylen > 0 {
      p := p.(key_length := keylen);
      rc := Core.InitParam(s, Some(p));
      if rc != OK {
        return;
      }
      var blk := new Byte[128](_ => 0);
      Core.Memcpy(blk, 0, key, at, keylen);
      assert blk[..] == KeyBlock(old(key[at..at + keylen])) && blk[0..128] == blk[..];
      rc := Core.Update(s, blk, 0, 128);
      return;
    }
    rc := Core.InitParam(s, Some(p));
  }
}
