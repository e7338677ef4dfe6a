/**
 The generated readers, writers and sizes of six representative inter-module messages, tied to
 the format: a writer fills exactly the announced size with the message's encoding, a reader
 returns what the format's parse returns.

 Go strings are byte strings, nil pointers and nil slices are `None`.
 */
module ServerMessages {
  import opened Basics
  import opened Bytes
  import opened WireFormat
  import opened FieldIO
  import opened FieldMaps

  // ---------------------------------------------------------------------------------------
  // ModuleInfo
  // ---------------------------------------------------------------------------------------

  datatype ModuleInfo = ModuleInfo(moduleID: seq<Byte>, moduleAddr: seq<Byte>, moduleNumber: U32, version: U64)

  const INFO_SCHEMA: seq<Kind> := [KStr, KStr, KNum(4), KNum(8)]

  function InfoFields(m: ModuleInfo): (fs: seq<Value>)
    ensures |fs| == 4
  {
    [Str(m.moduleID), Str(m.moduleAddr), Value.Num(m.moduleNumber, 4), Value.Num(m.version, 8)]
  }

  function InfoObj(m: Option<ModuleInfo>): Obj {
    if m.None? then Nil else Obj(InfoFields(m.value), [])
  }

  function GetSizeModuleInfo(m: Option<ModuleInfo>): (n: nat)
    ensures n == |EncodeObj(InfoObj(m))|
  {
    if m.None? then 4 else
    InfoBytes(m.value);
    4 + 4 + |m.value.moduleID| + 4 + |m.value.moduleAddr| + 4 + 8
  }

  lemma InfoBytes(m: ModuleInfo)
    ensures |EncodeObj(InfoObj(Some(m)))| == 24 + |m.moduleID| + |m.moduleAddr|
  {
    var fs := InfoFields(m);
    hide EncodeFields, EncodeObj, NumBytes;
    SizeOfObj(fs);
    assert SizeFrom(fs, 4) == 0;
    assert SizeFrom(fs, 3) == 8;
    assert SizeFrom(fs, 2) == 12;
    assert SizeFrom(fs, 1) == 16 + |m.moduleAddr|;
  }

  method WriteModuleInfo(data: array<Byte>, off: nat, obj: Option<ModuleInfo>) returns (n: nat)
    requires off + GetSizeModuleInfo(obj) <= data.Length
    modifies data
    ensures n == GetSizeModuleInfo(obj)
    ensures Written(data[..], old(data[..]), off, EncodeObj(InfoObj(obj)))
  {
    hide Filled, Written, EncodeFields, EncodeObj;
    ghost var was := data[..];
    if obj.None? {
      n := WriteNil(data, off);
      return;
    }
    var m := obj.value;
    var size := GetSizeModuleInfo(obj) - 4;
    NewFrame(data, off, size);
    var at := AddString(data, off + 4, m.moduleID, was, off, size, []);
    at := AddString(data, at, m.moduleAddr, was, off, size, [] + [Str(m.moduleID)]);
    ghost var fs := InfoFields(m);
    assert fs[..2] == [] + [Str(m.moduleID)] + [Str(m.moduleAddr)];
    at := AddNum(data, at, m.moduleNumber, 4, was, off, size, fs[..2]);
    at := AddNum(data, at, m.version, 8, was, off, size, fs[..2] + [fs[2]]);
    assert fs == fs[..2] + [fs[2]] + [fs[3]];
    FilledObj(data[..], was, off, size, fs);
    n := at - off;
  }

  method ReadModuleInfo(indata: seq<Byte>, ghost slack: nat) returns (n: nat, obj: Option<ModuleInfo>)
    ensures ParseObj(INFO_SCHEMA, indata, slack) == Some((n, InfoObj(obj)))
  {
    hide ParseObj, ParseFrom;
    ParseFrame(INFO_SCHEMA, indata, slack);
    match OpenFrame(indata)
    case NoObj(end) => return end, None;
    case Short(end) =>
      assert ZerosFrom(INFO_SCHEMA, 0) == InfoFields(ModuleInfo([], [], 0, 0));
      return end, Some(ModuleInfo([], [], 0, 0));
    case Whole(end, data) =>
      var m := ReadInfoFields(data, slack + |indata| - end);
      return end, Some(m);
  }

  method ReadInfoFields(data: seq<Byte>, ghost slack: nat) returns (m: ModuleInfo)
    ensures ParseFrom(INFO_SCHEMA, 0, data, 0, slack) == Some(InfoFields(m))
  {
    hide ParseFrom, Resume;
    Widths();
    ghost var schema := INFO_SCHEMA;
    ResumeStart(schema, data, slack);
    m := ModuleInfo([], [], 0, 0);
    ghost var done: seq<Value> := [];
    assert done + ZerosFrom(schema, 0) == InfoFields(m);
    var ok, id, at := TakeString(data, 0, done, schema, slack);
    if !ok { return; }
    m, done := m.(moduleID := id), done + [Str(id)];
    assert done + ZerosFrom(schema, 1) == InfoFields(m);
    var addr;
    ok, addr, at := TakeString(data, at, done, schema, slack);
    if !ok { return; }
    m, done := m.(moduleAddr := addr), done + [Str(addr)];
    assert done + ZerosFrom(schema, 2) == InfoFields(m);
    var v;
    ok, v, at := TakeNum(data, at, 4, done, schema, slack);
    if !ok { return; }
    m, done := m.(moduleNumber := v), done + [Value.Num(v, 4)];
    assert done + ZerosFrom(schema, 3) == InfoFields(m);
    ok, v, at := TakeNum(data, at, 8, done, schema, slack);
    if !ok { return; }
    m, done := m.(version := v), done + [Value.Num(v, 8)];
    assert done == InfoFields(m);
    ResumeEnd(done, schema, data, at, slack);
  }

  lemma InfoTyped(m: Option<ModuleInfo>)
    ensures TypedObj(InfoObj(m), INFO_SCHEMA) && Current(InfoObj(m), INFO_SCHEMA)
  {
    Widths();
    if m.Some? {
      TypedByField(InfoFields(m.value), INFO_SCHEMA, 0);
      CurrentByField(InfoFields(m.value), INFO_SCHEMA, 0);
    }
  }

  lemma InfoObjInjective(a: Option<ModuleInfo>, b: Option<ModuleInfo>)
    requires InfoObj(a) == InfoObj(b)
    ensures a == b
  {
    if a.Some? && b.Some? {
      var (fs, gs) := (InfoFields(a.value), InfoFields(b.value));
      assert fs[0] == gs[0] && fs[1] == gs[1] && fs[2] == gs[2] && fs[3] == gs[3];
    }
  }

  /** A written info is read to its exact end, and it, and only it, is what the reader returns. */
  lemma ModuleInfoRoundTrip(m: Option<ModuleInfo>, rest: seq<Byte>, slack: nat)
    requires GetSizeModuleInfo(m) - 4 < LIMIT
    ensures ParseObj(INFO_SCHEMA, EncodeObj(InfoObj(m)) + rest, slack) == Some((GetSizeModuleInfo(m), InfoObj(m)))
    ensures forall r :: InfoObj(r) == InfoObj(m) <==> r == m
  {
    forall r | InfoObj(r) == InfoObj(m) ensures r == m {
      InfoObjInjective(r, m);
    }
    InfoTyped(m);
    RoundTrip(InfoObj(m), INFO_SCHEMA, rest, slack);
  }

  /** What is on the wire: id, address, number and version behind the length of them all. */
  lemma InfoLayout(m: ModuleInfo)
    ensures var body := StrBytes(m.moduleID) + StrBytes(m.moduleAddr) + NumBytes(m.moduleNumber,
              4) + NumBytes(m.version, 8);
            EncodeObj(InfoObj(Some(m))) == NumBytes(|body|, 4) + body
  {
    hide NumBytes, StrBytes, EncodeFields, EncodeObj;
    var fs := InfoFields(m);
    assert fs[0..] == fs && fs[4..] == [];
    assert EncodeFields([]) == [] by { NoFields(); }
    FieldsFrom(fs, 0);
    FieldsFrom(fs, 1);
    FieldsFrom(fs, 2);
    FieldsFrom(fs, 3);
    assert EncodeFields(fs) ==
      StrBytes(m.moduleID) + (StrBytes(m.moduleAddr) + (NumBytes(m.moduleNumber, 4) + (NumBytes(m.version, 8)))) + [];
    assert Body(Obj(fs, [])) == EncodeFields(fs) + [] ==
        StrBytes(m.moduleID) + StrBytes(m.moduleAddr) + NumBytes(m.moduleNumber, 4) + NumBytes(m.version, 8);
    Framed(Obj(fs, []));
  }

  method AddInfo(data: array<Byte>, at: nat, m: Option<ModuleInfo>,
                 ghost was: seq<Byte>, ghost start: nat, ghost size: nat, ghost fs: seq<Value>) returns (next: nat)
    requires Filled(data[..], was, start, size, fs) && at == start + 4 + |EncodeFields(fs)|
    requires at + GetSizeModuleInfo(m) <= data.Length
    modifies data
    ensures Filled(data[..], was, start, size, fs + [One(InfoObj(m))])
    ensures next == at + GetSizeModuleInfo(m) == start + 4 + |EncodeFields(fs + [One(InfoObj(m))])|
  {
    hide Filled, Written, EncodeFields, EncodeObj;
    ghost var mid := data[..];
    var n := WriteModuleInfo(data, at, m);
    FilledMore(data[..], mid, was, start, size, fs, One(InfoObj(m)));
    next := at + n;
  }

  method TakeInfo(data: seq<Byte>, at: nat, ghost done: seq<Value>, ghost schema: seq<Kind>, ghost slack: nat)
    returns (ok: bool, m: Option<ModuleInfo>, next: nat)
    requires |done| < |schema| && schema[|done|] == KOne(INFO_SCHEMA)
    ensures ok ==> Resume(done, schema, data, at, slack) == Resume(done + [One(InfoObj(m))], schema, data, next, slack)
    ensures !ok ==> m == None && Resume(done, schema, data, at, slack) == Some(done + ZerosFrom(schema, |done|))
  {
    if at + GetSizeModuleInfo(None) > |data| {
      return false, None, at;
    }
    hide ParseFrom, Resume, ParseObj;
    var n;
    n, m := ReadModuleInfo(data[at..], slack);
    ok, next := true, at + n;
    ResumeGo(done, schema, data, at, slack, One(InfoObj(m)), next);
  }

  // ---------------------------------------------------------------------------------------
  // SLoginRetCommand
  // ---------------------------------------------------------------------------------------

  datatype LoginRet = LoginRet(loginFailed: U32, destination: Option<ModuleInfo>)

  const LOGIN_RET_SCHEMA: seq<Kind> := [KNum(4), KOne(INFO_SCHEMA)]

  function LoginRetFields(m: LoginRet): (fs: seq<Value>)
    ensures |fs| == 2
  {
    [Value.Num(m.loginFailed, 4), One(InfoObj(m.destination))]
  }

  /** What a message is on the wire; None is a nil message. */
  function LoginRetObj(m: Option<LoginRet>): Obj {
    if m.None? then Nil else Obj(LoginRetFields(m.value), [])
  }

  function GetSizeLoginRet(m: Option<LoginRet>): (n: nat)
    ensures n == |EncodeObj(LoginRetObj(m))|
  {
    if m.None? then 4 else
    var fs := LoginRetFields(m.value);
    SizeOfObj(fs);
    assert SizeFrom(fs, 1) == GetSizeModuleInfo(m.value.destination);
    4 + 4 + GetSizeModuleInfo(m.value.destination)
  }

  method WriteLoginRet(data: array<Byte>, off: nat, obj: Option<LoginRet>) returns (n: nat)
    requires off + GetSizeLoginRet(obj) <= data.Length
    modifies data
    ensures n == GetSizeLoginRet(obj)
    ensures Written(data[..], old(data[..]), off, EncodeObj(LoginRetObj(obj)))
  {
    hide Filled, Written, EncodeFields, EncodeObj;
    if obj.None? {
      n := WriteNil(data, off);
      return;
    }
    var m := obj.value;
    ghost var was, fs := data[..], LoginRetFields(m);
    var size := GetSizeLoginRet(obj) - 4;
    NewFrame(data, off, size);
    var at := AddNum(data, off + 4, m.loginFailed, 4, was, off, size, []);
    at := AddInfo(data, at, m.destination, was, off, size, [] + [fs[0]]);
    assert [] + [fs[0]] + [fs[1]] == fs;
    FilledObj(data[..], was, off, size, fs);
    n := at - off;
  }

  method ReadLoginRetFields(data: seq<Byte>, ghost slack: nat) returns (m: LoginRet)
    ensures ParseFrom(LOGIN_RET_SCHEMA, 0, data, 0, slack) == Some(LoginRetFields(m))
  {
    hide ParseFrom, Resume;
    Widths();
    ghost var schema := LOGIN_RET_SCHEMA;
    ResumeStart(schema, data, slack);
    m := LoginRet(0, None);
    ghost var done: seq<Value> := [];
    assert done + ZerosFrom(schema, 0) == LoginRetFields(m);
    var ok, v, at := TakeNum(data, 0, 4, done, schema, slack);
    if !ok { return; }
    m, done := m.(loginFailed := v), done + [Value.Num(v, 4)];
    assert done + ZerosFrom(schema, 1) == LoginRetFields(m);
    var info;
    ok, info, at := TakeInfo(data, at, done, schema, slack);
    if !ok { return; }
    m, done := m.(destination := info), done + [One(InfoObj(info))];
    assert done == LoginRetFields(m);
    ResumeEnd(done, schema, data, at, slack);
  }

  method ReadLoginRet(indata: seq<Byte>, ghost slack: nat) returns (n: nat, obj: Option<LoginRet>)
    ensures ParseObj(LOGIN_RET_SCHEMA, indata, slack) == Some((n, LoginRetObj(obj)))
  {
    hide ParseObj, ParseFrom;
    ParseFrame(LOGIN_RET_SCHEMA, indata, slack);
    match OpenFrame(indata)
    case NoObj(end) => return end, None;
    case Short(end) =>
      assert ZerosFrom(LOGIN_RET_SCHEMA, 0) == LoginRetFields(LoginRet(0, None));
      return end, Some(LoginRet(0, None));
    case Whole(end, data) =>
      var m := ReadLoginRetFields(data, slack + |indata| - end);
      return end, Some(m);
  }

  lemma LoginRetObjInjective(a: Option<LoginRet>, b: Option<LoginRet>)
    requires LoginRetObj(a) == LoginRetObj(b)
    ensures a == b
  {
    if a.Some? && b.Some? {
      var (fs, gs) := (LoginRetFields(a.value), LoginRetFields(b.value));
      assert fs[0] == gs[0] && fs[1] == gs[1];
      InfoObjInjective(a.value.destination, b.value.destination);
    }
  }

  /** A written answer, nil or not, its destination nil or not: it, and only it, is what the reader returns. */
  lemma LoginRetRoundTrip(m: Option<LoginRet>, rest: seq<Byte>, slack: nat)
    requires GetSizeLoginRet(m) - 4 < LIMIT
    ensures ParseObj(LOGIN_RET_SCHEMA, EncodeObj(LoginRetObj(m)) + rest, slack) ==
              Some((GetSizeLoginRet(m), LoginRetObj(m)))
    ensures forall r :: LoginRetObj(r) == LoginRetObj(m) <==> r == m
  {
    forall r | LoginRetObj(r) == LoginRetObj(m) ensures r == m {
      LoginRetObjInjective(r, m);
    }
    if m.None? {
      RoundTrip(Nil, LOGIN_RET_SCHEMA, rest, slack);
    } else {
      Widths();
      InfoTyped(m.value.destination);
      FieldsRoundTrip(LoginRetFields(m.value), LOGIN_RET_SCHEMA, rest, slack);
    }
  }

  /** On the wire: the code and the destination behind their length. */
  lemma LoginRetLayout(m: LoginRet)
    ensures var body := NumBytes(m.loginFailed, 4) + EncodeObj(InfoObj(m.destination));
            EncodeObj(LoginRetObj(Some(m))) == NumBytes(|body|, 4) + body
  {
    hide NumBytes, StrBytes, EncodeFields, EncodeObj;
    var fs := LoginRetFields(m);
    assert fs[0..] == fs && fs[2..] == [];
    assert EncodeFields([]) == [] by { NoFields(); }
    FieldsFrom(fs, 0);
    FieldsFrom(fs, 1);
    assert EncodeFields(fs) ==
      NumBytes(m.loginFailed, 4) + (EncodeObj(InfoObj(m.destination))) + [];
    assert Body(Obj(fs, [])) == EncodeFields(fs) + [] == NumBytes(m.loginFailed, 4) + EncodeObj(InfoObj(m.destination));
    Framed(Obj(fs, []));
  }

  /** What this version sees of an answer whose frame is cut behind `k` of its fields. */
  function SeenLoginRet(m: LoginRet, k: nat): LoginRet {
    LoginRet(m.loginFailed, if k < 2 then None else m.destination)
  }

  /** An answer from another version, cut at a field or with extra bytes: the fields that are there are read. */
  lemma MixedVersionLoginRet(m: LoginRet, k: nat, extra: seq<Byte>, rest: seq<Byte>, slack: nat)
    requires 0 < k <= 2 && (k < 2 ==> extra == [])
    requires |EncodeObj(Obj(LoginRetFields(m)[..k], extra))| - 4 < LIMIT
    ensures var o := Obj(LoginRetFields(m)[..k], extra);
            ParseObj(LOGIN_RET_SCHEMA, EncodeObj(o) + rest, slack) ==
              Some((|EncodeObj(o)|, LoginRetObj(Some(SeenLoginRet(m, k)))))
    ensures forall r :: LoginRetObj(r) == LoginRetObj(Some(SeenLoginRet(m, k))) <==> r == Some(SeenLoginRet(m, k))
  {
    hide ParseObj, EncodeObj;
    forall r | LoginRetObj(r) == LoginRetObj(Some(SeenLoginRet(m, k))) ensures r == Some(SeenLoginRet(m, k)) {
      LoginRetObjInjective(r, Some(SeenLoginRet(m, k)));
    }
    Widths();
    InfoTyped(m.destination);
    VersionReads(LoginRetFields(m), k, extra, LOGIN_RET_SCHEMA, rest, slack);
    assert LoginRetFields(m)[..k] + ZerosFrom(LOGIN_RET_SCHEMA, k) == LoginRetFields(SeenLoginRet(m, k));
  }

  // ---------------------------------------------------------------------------------------
  // SNotifyAllInfo
  // ---------------------------------------------------------------------------------------

  type Infos = seq<Option<ModuleInfo>>

  const NOTIFY_SCHEMA: seq<Kind> := [KMany(INFO_SCHEMA)]

  function InfoObjs(ms: Infos): (os: seq<Obj>)
    ensures |os| == |ms|
  {
    if ms == [] then [] else [InfoObj(ms[0])] + InfoObjs(ms[1..])
  }

  function InfosValue(ms: Option<Infos>): Value {
    if ms.None? then NoList else Many(InfoObjs(ms.value))
  }

  /** What a message is on the wire; the inner None is a nil list, the outer one a nil message. */
  function NotifyObj(m: Option<Option<Infos>>): Obj {
    if m.None? then Nil else Obj([InfosValue(m.value)], [])
  }

  lemma {:induction false} InfoObjsInjective(a: Infos, b: Infos)
    requires InfoObjs(a) == InfoObjs(b)
    ensures a == b
  {
    if a != [] && b != [] {
      assert InfoObjs(a)[0] == InfoObjs(b)[0] && InfoObjs(a)[1..] == InfoObjs(b)[1..];
      InfoObjInjective(a[0], b[0]);
      InfoObjsInjective(a[1..], b[1..]);
    }
  }

  lemma NotifyObjInjective(a: Option<Option<Infos>>, b: Option<Option<Infos>>)
    requires NotifyObj(a) == NotifyObj(b)
    ensures a == b
  {
    if a.Some? && b.Some? {
      assert [InfosValue(a.value)][0] == [InfosValue(b.value)][0];
      if a.value.Some? && b.value.Some? {
        InfoObjsInjective(a.value.value, b.value.value);
      }
    }
  }

  lemma {:induction false} InfoObjsSnoc(ms: Infos, m: Option<ModuleInfo>)
    ensures InfoObjs(ms + [m]) == InfoObjs(ms) + [InfoObj(m)]
    ensures EncodeObjs(InfoObjs(ms + [m])) == EncodeObjs(InfoObjs(ms)) + EncodeObj(InfoObj(m))
  {
    if ms == [] {
      assert ms + [m] == [m] && InfoObjs([m][1..]) == [];
      assert EncodeObjs([InfoObj(m)]) == EncodeObj(InfoObj(m)) + [];
    } else {
      assert (ms + [m])[1..] == ms[1..] + [m];
      InfoObjsSnoc(ms[1..], m);
      var a, b, c := EncodeObj(InfoObj(ms[0])), EncodeObjs(InfoObjs(ms[1..])), EncodeObj(InfoObj(m));
      assert InfoObjs(ms + [m])[1..] == InfoObjs(ms[1..] + [m]) && InfoObjs(ms)[1..] == InfoObjs(ms[1..]);
      assert a + (b + c) == a + b + c;
    }
  }

  function InfosBytes(ms: Infos): seq<Byte> {
    EncodeObjs(InfoObjs(ms))
  }

  lemma {:induction false} InfosPrefix(ms: Infos, i: nat)
    requires i <= |ms|
    ensures |InfosBytes(ms[..i])| <= |InfosBytes(ms)|
    ensures i < |ms| ==> InfosBytes(ms[..i + 1]) == InfosBytes(ms[..i]) + EncodeObj(InfoObj(ms[i]))
    decreases |ms| - i
  {
    if i < |ms| {
      assert ms[..i + 1] == ms[..i] + [ms[i]];
      InfoObjsSnoc(ms[..i], ms[i]);
      InfosPrefix(ms, i + 1);
    } else {
      assert ms[..i] == ms;
    }
  }

  lemma NotifySize(ms: Option<Infos>)
    ensures |EncodeObj(Obj([InfosValue(ms)], []))| == 8 + if ms.Some? then |InfosBytes(ms.value)| else 0
  {
    SizeOfObj([InfosValue(ms)]);
    assert SizeFrom([InfosValue(ms)], 1) == 0;
  }

  method GetSizeNotifyAllInfo(m: Option<Option<Infos>>) returns (n: nat)
    ensures n == |EncodeObj(NotifyObj(m))|
  {
    if m.None? {
      return 4;
    }
    n := 8;
    var ms := m.value;
    NotifySize(ms);
    if ms.Some? {
      for i := 0 to |ms.value|
        invariant n == 8 + |InfosBytes(ms.value[..i])|
      {
        InfosPrefix(ms.value, i);
        n := n + GetSizeModuleInfo(ms.value[i]);
      }
      assert ms.value[..|ms.value|] == ms.value;
    }
  }

  method WriteNotifyAllInfo(data: array<Byte>, off: nat, m: Option<Option<Infos>>) returns (n: nat)
    requires off + |EncodeObj(NotifyObj(m))| <= data.Length
    modifies data
    ensures n == |EncodeObj(NotifyObj(m))|
    ensures Written(data[..], old(data[..]), off, EncodeObj(NotifyObj(m)))
  {
    hide Filled, Written, EncodeFields, EncodeObj, EncodeObjs;
    ghost var was := data[..];
    var total := GetSizeNotifyAllInfo(m);
    if m.None? {
      n := WriteNil(data, off);
      return;
    }
    var ms := m.value;
    NotifySize(ms);
    NewFrame(data, off, total - 4);
    ghost var mid := data[..];
    n := 8;
    if ms.None? {
      PutNum(data, off + 4, NIL_LEN, 4);
      PutIsWritten(data[..], mid, off + 4, NIL_LEN);
    } else {
      var len := WriteInfoList(data, off + 4, ms.value);
      n := 4 + len;
    }
    FilledMore(data[..], mid, was, off, total - 4, [], InfosValue(ms));
    assert [] + [InfosValue(ms)] == [InfosValue(ms)];
    FilledObj(data[..], was, off, total - 4, [InfosValue(ms)]);
  }

  method WriteInfoList(data: array<Byte>, off: nat, ms: Infos) returns (n: nat)
    requires off + 4 + |InfosBytes(ms)| <= data.Length
    modifies data
    ensures n == 4 + |InfosBytes(ms)|
    ensures Written(data[..], old(data[..]), off, EncodeValue(InfosValue(Some(ms))))
  {
    hide Written, EncodeObj, EncodeObjs;
    ghost var was := data[..];
    ghost var head := NumBytes(|ms|, 4);
    PutNum(data, off, |ms|, 4);
    PutIsWritten(data[..], was, off, |ms|);
    n := 4;
    NoObjs(head);
    for i := 0 to |ms|
      invariant n == 4 + |InfosBytes(ms[..i])|
      invariant Written(data[..], was, off, head + InfosBytes(ms[..i]))
    {
      InfosPrefix(ms, i);
      InfosPrefix(ms, i + 1);
      ghost var mid := data[..];
      var len := WriteModuleInfo(data, off + n, ms[i]);
      WrittenMore(data[..], mid, was, off, head + InfosBytes(ms[..i]), EncodeObj(InfoObj(ms[i])));
      assert head + InfosBytes(ms[..i]) + EncodeObj(InfoObj(ms[i])) == head + InfosBytes(ms[..i + 1]);
      n := n + len;
    }
    assert ms[..|ms|] == ms;
  }

  lemma NoObjs(head: seq<Byte>)
    ensures InfosBytes([]) == [] && head + InfosBytes([]) == head
  {
  }

  function InfosBefore(ms: Infos, tail: Option<(seq<Obj>, nat)>): Option<(seq<Obj>, nat)> {
    if tail.None? then None else Some((InfoObjs(ms) + tail.value.0, tail.value.1))
  }

  lemma ListStart(count: nat, data: seq<Byte>, at: nat, slack: nat)
    requires at <= |data|
    ensures InfosBefore([], ParseObjs(count, INFO_SCHEMA, data, at, slack)) ==
              ParseObjs(count, INFO_SCHEMA, data, at, slack)
    ensures ParseObjs(0, INFO_SCHEMA, data, at, slack) == Some(([], at))
  {
    var r := ParseObjs(count, INFO_SCHEMA, data, at, slack);
    if r.Some? {
      assert [] + r.value.0 == r.value.0;
    }
  }

  lemma ListMore(ms: Infos, m: Option<ModuleInfo>, left: nat, data: seq<Byte>, at: nat, n: nat, slack: nat)
    requires at <= |data| && n <= |data| - at
    requires ParseObj(INFO_SCHEMA, data[at..], slack) == Some((n, InfoObj(m)))
    ensures InfosBefore(ms, ParseObjs(left + 1, INFO_SCHEMA, data, at, slack))
         == InfosBefore(ms + [m], ParseObjs(left, INFO_SCHEMA, data, at + n, slack))
  {
    hide ParseObj, InfoObj, InfoObjs;
    InfoObjsSnoc(ms, m);
    var tail := ParseObjs(left, INFO_SCHEMA, data, at + n, slack);
    if tail.Some? {
      assert InfoObjs(ms) + ([InfoObj(m)] + tail.value.0) == InfoObjs(ms) + [InfoObj(m)] + tail.value.0;
    }
  }

  /**
   The elements read by the loop of a list field; it never panics on module infos. A list of the
   announced length is made before the first one is read, however few bytes there are.
   */
  method ReadInfoList(count: nat, data: seq<Byte>, at: nat, ghost slack: nat) returns (ms: Infos, next: nat)
    requires at <= |data|
    ensures |ms| == count && ParseObjs(count, INFO_SCHEMA, data, at, slack) == Some((InfoObjs(ms), next))
  {
    hide ParseObj, ParseObjs;
    var list := new Option<ModuleInfo>[count](_ => None);
    next := at;
    ListStart(count, data, at, slack);
    for i := 0 to count
      invariant at <= next <= |data|
      invariant ParseObjs(count, INFO_SCHEMA, data, at, slack)
             == InfosBefore(list[..i], ParseObjs(count - i, INFO_SCHEMA, data, next, slack))
    {
      var n, m := ReadModuleInfo(data[next..], slack);
      ListMore(list[..i], m, count - i - 1, data, next, n, slack);
      list[i] := m;
      assert list[..i + 1] == list[..i] + [m];
      next := next + n;
    }
    ListStart(0, data, next, slack);
    ms := list[..];
    assert list[..count] == ms && InfoObjs(ms) + [] == InfoObjs(ms);
  }

  /** The length that the list of a message announces; None for a nil list or none at all. */
  function Announced(data: seq<Byte>): Option<nat> {
    if |data| < 4 || LenAt(data, 0) == NIL_LEN then None else Some(LenAt(data, 0))
  }

  method ReadNotifyFields(data: seq<Byte>, ghost slack: nat) returns (ms: Option<Infos>)
    ensures ParseFrom(NOTIFY_SCHEMA, 0, data, 0, slack) == Some([InfosValue(ms)])
    ensures if ms.Some? then Announced(data) == Some(|ms.value|) else Announced(data) == None
  {
    hide ParseFrom, Resume, ParseObjs;
    ghost var schema := NOTIFY_SCHEMA;
    ResumeStart(schema, data, slack);
    ms := None;
    if 4 > |data| {
      NoRoom([], schema, data, 0, slack);
      assert [] + ZerosFrom(schema, 0) == [InfosValue(ms)];
      return;
    }
    var count := LenAt(data, 0);
    var next := 4;
    if count != NIL_LEN {
      var infos;
      infos, next := ReadInfoList(count, data, 4, slack);
      ms := Some(infos);
    }
    ResumeGo([], schema, data, 0, slack, InfosValue(ms), next);
    assert [] + [InfosValue(ms)] == [InfosValue(ms)];
    ResumeEnd([InfosValue(ms)], schema, data, next, slack);
  }

  method ReadNotifyAllInfo(indata: seq<Byte>, ghost slack: nat) returns (n: nat, obj: Option<Option<Infos>>)
    ensures ParseObj(NOTIFY_SCHEMA, indata, slack) == Some((n, NotifyObj(obj)))
    ensures OpenFrame(indata).Whole? ==>
              && obj.Some?
              && Announced(OpenFrame(indata).data) == if obj.value.Some? then Some(|obj.value.value|) else None
  {
    hide ParseObj, ParseFrom;
    ParseFrame(NOTIFY_SCHEMA, indata, slack);
    match OpenFrame(indata)
    case NoObj(end) => return end, None;
    case Short(end) =>
      assert ZerosFrom(NOTIFY_SCHEMA, 0) == [InfosValue(None)];
      return end, Some(None);
    case Whole(end, data) =>
      var ms := ReadNotifyFields(data, slack + |indata| - end);
      return end, Some(ms);
  }

  lemma {:induction false} InfoObjsTyped(ms: Infos)
    ensures TypedObjs(InfoObjs(ms), INFO_SCHEMA) && CurrentObjs(InfoObjs(ms), INFO_SCHEMA)
  {
    if ms != [] {
      InfoTyped(ms[0]);
      InfoObjsTyped(ms[1..]);
    }
  }

  /** A written list message, nil or not, and only it, is what the reader returns. */
  lemma NotifyAllInfoRoundTrip(m: Option<Option<Infos>>, rest: seq<Byte>, slack: nat)
    requires |EncodeObj(NotifyObj(m))| - 4 < LIMIT
    ensures ParseObj(NOTIFY_SCHEMA, EncodeObj(NotifyObj(m)) + rest, slack) ==
              Some((|EncodeObj(NotifyObj(m))|, NotifyObj(m)))
    ensures forall r :: NotifyObj(r) == NotifyObj(m) <==> r == m
  {
    forall r | NotifyObj(r) == NotifyObj(m) ensures r == m {
      NotifyObjInjective(r, m);
    }
    if m.None? {
      RoundTrip(Nil, NOTIFY_SCHEMA, rest, slack);
    } else {
      if m.value.Some? {
        InfoObjsTyped(m.value.value);
      }
      FieldsRoundTrip([InfosValue(m.value)], NOTIFY_SCHEMA, rest, slack);
    }
  }

  /** A module info as some other version writes it: its first `fields` fields, or all of them and extra bytes. */
  datatype OtherInfo = OtherInfo(info: Option<ModuleInfo>, fields: nat, extra: seq<Byte>)

  ghost predicate ValidOther(x: OtherInfo) {
    x.info.Some? ==> 0 < x.fields <= 4 && (x.fields < 4 ==> x.extra == [])
  }

  function OtherObj(x: OtherInfo): Obj {
    if x.info.None? || x.fields > 4 then Nil else Obj(InfoFields(x.info.value)[..x.fields], x.extra)
  }

  /** What this version sees of it: the fields behind the cut are zero. */
  function SeenInfo(x: OtherInfo): Option<ModuleInfo> {
    if x.info.None? then None else
    var m := x.info.value;
    Some(ModuleInfo(m.moduleID,
                    if x.fields < 2 then [] else m.moduleAddr,
                    if x.fields < 3 then 0 else m.moduleNumber,
                    if x.fields < 4 then 0 else m.version))
  }

  function OtherObjs(xs: seq<OtherInfo>): seq<Obj> {
    if xs == [] then [] else [OtherObj(xs[0])] + OtherObjs(xs[1..])
  }

  function SeenInfos(xs: seq<OtherInfo>): Infos {
    if xs == [] then [] else [SeenInfo(xs[0])] + SeenInfos(xs[1..])
  }

  lemma OtherAdapts(x: OtherInfo)
    requires ValidOther(x)
    ensures TypedObj(OtherObj(x), INFO_SCHEMA) && Adapt(OtherObj(x), INFO_SCHEMA) == InfoObj(SeenInfo(x))
  {
    if x.info.Some? {
      InfoTyped(x.info);
      var fs := InfoFields(x.info.value);
      PrefixTyped(fs, INFO_SCHEMA, 0, x.fields);
      CurrentFieldsStay(fs[..x.fields], INFO_SCHEMA, 0);
      FieldsHaveBytes(fs[..x.fields], INFO_SCHEMA);
      assert fs[..x.fields] + ZerosFrom(INFO_SCHEMA, x.fields) == InfoFields(SeenInfo(x).value);
    }
  }

  lemma {:induction false} OthersAdapt(xs: seq<OtherInfo>)
    requires forall i :: 0 <= i < |xs| ==> ValidOther(xs[i])
    ensures TypedObjs(OtherObjs(xs), INFO_SCHEMA)
    ensures AdaptObjs(OtherObjs(xs), INFO_SCHEMA) == InfoObjs(SeenInfos(xs))
  {
    if xs != [] {
      OtherAdapts(xs[0]);
      OthersAdapt(xs[1..]);
    }
  }

  /**
   Version tolerance inside a list: each nested frame may come from a different version, with
   extra bytes or cut at a field boundary, and the list message itself may carry extra bytes; the
   reader sees every element and the end of the message at the right place.
   */
  lemma MixedVersionsInList(xs: seq<OtherInfo>, extra: seq<Byte>, rest: seq<Byte>, slack: nat)
    requires forall i :: 0 <= i < |xs| ==> ValidOther(xs[i])
    requires |EncodeObj(Obj([Many(OtherObjs(xs))], extra))| - 4 < LIMIT
    ensures ParseObj(NOTIFY_SCHEMA, EncodeObj(Obj([Many(OtherObjs(xs))], extra)) + rest, slack)
         == Some((|EncodeObj(Obj([Many(OtherObjs(xs))], extra))|, NotifyObj(Some(Some(SeenInfos(xs))))))
    ensures forall r :: NotifyObj(r) == NotifyObj(Some(Some(SeenInfos(xs)))) <==> r == Some(Some(SeenInfos(xs)))
  {
    hide ParseObj, EncodeObj;
    forall r | NotifyObj(r) == NotifyObj(Some(Some(SeenInfos(xs)))) ensures r == Some(Some(SeenInfos(xs))) {
      NotifyObjInjective(r, Some(Some(SeenInfos(xs))));
    }
    OthersAdapt(xs);
    var fs := [Many(OtherObjs(xs))];
    var o := Obj(fs, extra);
    TypedByField(fs, NOTIFY_SCHEMA, 0);
    ObjReads(o, NOTIFY_SCHEMA, EncodeObj(o) + rest, slack);
    FieldsHaveBytes(fs, NOTIFY_SCHEMA);
    assert AdaptFields(fs[1..], NOTIFY_SCHEMA, 1) == [];
    assert AdaptFields(fs, NOTIFY_SCHEMA, 0) == [InfosValue(Some(SeenInfos(xs)))];
  }
}
