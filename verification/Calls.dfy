/** Each call of the interface on an initialised state: new state, return code, bytes emitted. */
module Calls {
  import opened Words
  import opened Rfc7693
  import opened State
  import opened Spec
  import opened Params

  function InitState(p: Param): Snapshot {
    Snapshot(Masked(Packed(p)), 0, 0, Zeros(128), 0, p.digest_length, false, false)
  }

  function InitParam(s: Snapshot, p: Option<Param>): (r: (Snapshot, Status))
    ensures r.1 != OK ==> r.0 == s
    ensures r.1 == OK ==> r.0.Valid() && !r.0.fin
  {
    if p == None then (s, EArg)
    else if p.value.digest_length == 0 || p.value.digest_length > 64 || p.value.key_length > 64 then (s, EArg)
    else (InitState(p.value), OK)
  }

  function Init(s: Snapshot, outlen: nat): (Snapshot, Status) {
    InitParam(s, Some(ParamInit(outlen)))
  }

  function InitPersonal(s: Snapshot, outlen: nat, personal: Option<Tag>): (Snapshot, Status) {
    var p := ParamInit(outlen);
    InitParam(s, Some(if personal.Some? then p.(personal := personal.value) else p))
  }

  function Update(f: BlockFn, s: Snapshot, input: Input): (r: (Snapshot, Status))
    requires s.Valid()
    ensures r.0.Valid()
    ensures r.1 != OK ==> r.0 == s
  {
    if input.Null? && input.len > 0 then (s, EArg)
    else if s.fin then (s, EState)
    else (Absorb(f, s, if input.Null? then [] else input.data), OK)
  }

  function InitKey(f: BlockFn, s: Snapshot, outlen: nat, key: Input): (r: (Snapshot, Status))
    ensures r.1 != OK ==> r.0 == s
    ensures r.1 == OK ==> r.0.Valid()
  {
    if key.Length() == 0 then Init(s, outlen)
    else if key.Null? || |key.data| > 64 then (s, EArg)
    else
      var (r, rc) := InitParam(s, Some(ParamInit(outlen).(key_length := |key.data|)));
      if rc != OK then (r, rc) else Update(f, r.(wipe := true), Bytes(KeyBlock(key.data)))
  }

  /** A successful init keeps nothing of the state it was given. */
  lemma InitForgets(f: BlockFn, s: Snapshot, r: Snapshot, outlen: nat, key: Input)
    ensures InitKey(f, s, outlen, key).1 == InitKey(f, r, outlen, key).1
    ensures InitKey(f, s, outlen, key).1 == OK ==> InitKey(f, s, outlen, key) == InitKey(f, r, outlen, key)
    ensures key.Length() == 0 ==> InitKey(f, s, outlen, key) == Init(s, outlen)
  {
    hide Absorb, InitState, ParamInit;
  }

  datatype Emitted = Emitted(s: Snapshot, rc: Status, out: seq<Byte>)

  /** `out` is the capacity behind the output pointer, or None for NULL. */
  function Final(f: BlockFn, s: Snapshot, out: Option<nat>): (e: Emitted)
    requires s.Valid()
    ensures e.s.Valid()
    ensures e.rc != OK ==> e.s == s && e.out == []
    ensures e.rc == OK ==> out.Some? && |e.out| == s.outlen <= out.value
  {
    if out == None then Emitted(s, EArg, [])
    else if out.value < s.outlen then Emitted(s, EOutCap, [])
    else if s.fin then Emitted(s, EState, [])
    else Emitted(Finalized(f, s), OK, DigestOf(f, s))
  }

  function SetWipe(s: Snapshot, on: bool): (Snapshot, Status) {
    if s.fin then (s, EState) else (s.(wipe := on), OK)
  }

  /** `ub_hash` once its arguments are checked; a capacity above 64 asks for the longest digest. */
  function OneShot(f: BlockFn, outcap: nat, input: Input, key: Input): (r: (Status, seq<Byte>))
    ensures r.0 != OK ==> r.1 == []
    ensures r.0 == OK ==> |r.1| <= outcap
  {
    hide Absorb, Finalized, DigestOf, InitState, ParamInit;
    var dl := if outcap > 64 then 64 else outcap;
    var (s, rc) := InitKey(f, InitState(ParamInit(1)), dl, key);
    if rc != OK then (rc, [])
    else
      var (t, rc') := Update(f, s, input);
      if rc' != OK then (rc', [])
      else
        var e := Final(f, t, Some(outcap));
        (e.rc, e.out)
  }

  function Hash(f: BlockFn, out: Option<nat>, input: Input, key: Input): (r: (Status, seq<Byte>))
    ensures r.0 != OK ==> r.1 == []
    ensures r.0 == OK ==> out.Some? && |r.1| <= out.value
  {
    hide OneShot;
    if out == None || (input.Null? && input.len > 0) || out.value == 0 then (EArg, [])
    else if key.Length() > 0 && (key.Null? || |key.data| > 64) then (EArg, [])
    else OneShot(f, out.value, input, key)
  }
}
