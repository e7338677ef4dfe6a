/** The messages that carry a session map: SUpdateSession and SForwardFromGate. */
module SessionMessages {
  import opened Basics
  import opened Bytes
  import opened WireFormat
  import opened FieldIO
  import opened FieldMaps

  ghost function MapSize(m: Option<StringMap>): nat {
    4 + if m.Some? then MapBytes(m.value) else 0
  }

  method AddMap(data: array<Byte>, at: nat, m: Option<StringMap>,
                ghost was: seq<Byte>, ghost start: nat, ghost size: nat, ghost fs: seq<Value>)
    returns (next: nat, ghost es: Option<seq<Entry>>)
    requires Filled(data[..], was, start, size, fs) && at == start + 4 + |EncodeFields(fs)|
    requires at + MapSize(m) <= data.Length
    modifies data
    ensures Lists(es, m) && Filled(data[..], was, start, size, fs + [Pairs(es)])
    ensures next == at + MapSize(m) == start + 4 + |EncodeFields(fs + [Pairs(es)])|
  {
    hide Filled, Written, EncodeFields, EncodeValue;
    ghost var mid := data[..];
    var n;
    n, es := WriteMap(data, at, m);
    PairsSize(es, m);
    FilledMore(data[..], mid, was, start, size, fs, Pairs(es));
    next := at + n;
  }

  // ---------------------------------------------------------------------------------------
  // SUpdateSession
  // ---------------------------------------------------------------------------------------

  datatype UpdateSession = UpdateSession(fromModuleID: seq<Byte>, toModuleID: seq<Byte>, clientConnID: seq<Byte>,
                                         sessionUUID: seq<Byte>, session: Option<StringMap>)

  const UPDATE_SCHEMA: seq<Kind> := [KStr, KStr, KStr, KStr, KPairs]

  /** The fields of the message, its map enumerated by `es`. */
  function UpdateFields(m: UpdateSession, es: Option<seq<Entry>>): (fs: seq<Value>)
    ensures |fs| == 5
  {
    [Str(m.fromModuleID), Str(m.toModuleID), Str(m.clientConnID), Str(m.sessionUUID), Pairs(es)]
  }

  ghost function UpdateSize(m: UpdateSession): nat {
    20 + |m.fromModuleID| + |m.toModuleID| + |m.clientConnID| + |m.sessionUUID| + MapSize(m.session)
  }

  /** In whatever order the map is enumerated, the message takes the computed size. */
  lemma UpdateBytes(m: UpdateSession, es: Option<seq<Entry>>)
    requires Lists(es, m.session)
    ensures |EncodeObj(Obj(UpdateFields(m, es), []))| == UpdateSize(m)
  {
    hide EncodeObj;
    var fs := UpdateFields(m, es);
    SizeOfObj(fs);
    PairsSize(es, m.session);
    assert SizeFrom(fs, 4) == MapSize(m.session);
    assert SizeFrom(fs, 3) == 4 + |m.sessionUUID| + SizeFrom(fs, 4);
    assert SizeFrom(fs, 2) == 4 + |m.clientConnID| + SizeFrom(fs, 3);
  }

  /** What a message is on the wire; None is a nil message. */
  function UpdateObj(m: Option<UpdateSession>, es: Option<seq<Entry>>): Obj {
    if m.None? then Nil else Obj(UpdateFields(m.value, es), [])
  }

  /** The entries enumerate the map of the message, if there is one. */
  ghost predicate UpdateSessionLists(es: Option<seq<Entry>>, m: Option<UpdateSession>) {
    m.Some? ==> Lists(es, m.value.session)
  }

  ghost function UpdateSessionTotal(m: Option<UpdateSession>): nat {
    if m.None? then 4 else UpdateSize(m.value)
  }

  method GetSizeUpdateSession(obj: Option<UpdateSession>) returns (n: nat)
    ensures n == UpdateSessionTotal(obj)
  {
    if obj.None? {
      return 4;
    }
    var m := obj.value;
    var pairs := GetSizeMap(m.session);
    n := 4 + 4 + |m.fromModuleID| + 4 + |m.toModuleID| + 4 + |m.clientConnID| + 4 + |m.sessionUUID| + pairs;
  }

  method WriteUpdateSession(data: array<Byte>, off: nat, obj: Option<UpdateSession>)
    returns (n: nat, ghost es: Option<seq<Entry>>)
    requires off + UpdateSessionTotal(obj) <= data.Length
    modifies data
    ensures UpdateSessionLists(es, obj) && n == UpdateSessionTotal(obj)
    ensures Written(data[..], old(data[..]), off, EncodeObj(UpdateObj(obj, es)))
  {
    hide Filled, Written, EncodeFields, EncodeObj, EncodeValue, Lists, MapBytes;
    ghost var was := data[..];
    var total := GetSizeUpdateSession(obj);
    if obj.None? {
      n := WriteNil(data, off);
      es := None;
      return;
    }
    var m := obj.value;
    var size := total - 4;
    NewFrame(data, off, size);
    ghost var fs: seq<Value> := [];
    var at := AddString(data, off + 4, m.fromModuleID, was, off, size, fs);
    fs := fs + [Str(m.fromModuleID)];
    at := AddString(data, at, m.toModuleID, was, off, size, fs);
    fs := fs + [Str(m.toModuleID)];
    at := AddString(data, at, m.clientConnID, was, off, size, fs);
    fs := fs + [Str(m.clientConnID)];
    at := AddString(data, at, m.sessionUUID, was, off, size, fs);
    fs := fs + [Str(m.sessionUUID)];
    at, es := AddMap(data, at, m.session, was, off, size, fs);
    assert fs + [Pairs(es)] == UpdateFields(m, es);
    UpdateBytes(m, es);
    FilledObj(data[..], was, off, size, UpdateFields(m, es));
    n := at - off;
  }

  method ReadUpdateFields(data: seq<Byte>, slack: nat)
    returns (ok: bool, m: UpdateSession, ghost es: Option<seq<Entry>>)
    ensures ParseFrom(UPDATE_SCHEMA, 0, data, 0, slack) == if ok then Some(UpdateFields(m, es)) else None
    ensures Represents(es, m.session)
  {
    hide ParseFrom, Resume, Represents;
    ghost var schema := UPDATE_SCHEMA;
    ResumeStart(schema, data, slack);
    ok, m, es := true, UpdateSession([], [], [], [], None), None;
    assert Represents(es, m.session) by { NilRepresented(); }
    ghost var done: seq<Value> := [];
    assert done + ZerosFrom(schema, 0) == UpdateFields(m, es);
    var more, s, at := TakeString(data, 0, done, schema, slack);
    if !more { return; }
    m, done := m.(fromModuleID := s), done + [Str(s)];
    assert done + ZerosFrom(schema, 1) == UpdateFields(m, es);
    more, s, at := TakeString(data, at, done, schema, slack);
    if !more { return; }
    m, done := m.(toModuleID := s), done + [Str(s)];
    assert done + ZerosFrom(schema, 2) == UpdateFields(m, es);
    more, s, at := TakeString(data, at, done, schema, slack);
    if !more { return; }
    m, done := m.(clientConnID := s), done + [Str(s)];
    assert done + ZerosFrom(schema, 3) == UpdateFields(m, es);
    more, s, at := TakeString(data, at, done, schema, slack);
    if !more { return; }
    m, done := m.(sessionUUID := s), done + [Str(s)];
    assert done + ZerosFrom(schema, 4) == UpdateFields(m, es);
    var how, session;
    how, session, at, es := TakeMap(data, at, slack, done, schema);
    m := m.(session := session);
    assert done + [Pairs(es)] + ZerosFrom(schema, 5) == done + [Pairs(es)] == UpdateFields(m, es);
    ok := how != Panicked;
    ResumeEnd(done + [Pairs(es)], schema, data, at, slack);
  }

  /** `obj` is what the parsed object `o` stands for, its map built from the entries in their order. */
  ghost predicate IsUpdateSession(o: Obj, obj: Option<UpdateSession>) {
    if obj.None? then o == Nil
    else exists es :: Represents(es, obj.value.session) && o == Obj(UpdateFields(obj.value, es), [])
  }

  method ReadUpdateSession(indata: seq<Byte>, slack: nat) returns (ok: bool, n: nat, obj: Option<UpdateSession>)
    ensures var r := ParseObj(UPDATE_SCHEMA, indata, slack);
            if ok then r.Some? && r.value.0 == n && IsUpdateSession(r.value.1, obj) else r.None?
  {
    hide ParseObj, ParseFrom, Represents;
    NilRepresented();
    ParseFrame(UPDATE_SCHEMA, indata, slack);
    match OpenFrame(indata)
    case NoObj(end) => return true, end, None;
    case Short(end) =>
      var zero := UpdateSession([], [], [], [], None);
      assert ZerosFrom(UPDATE_SCHEMA, 0) == UpdateFields(zero, None);
      return true, end, Some(zero);
    case Whole(end, data) =>
      var m;
      ghost var es;
      ok, m, es := ReadUpdateFields(data, slack + |indata| - end);
      n, obj := end, Some(m);
  }

  lemma NilRepresented()
    ensures Represents(None, None)
  {
  }

  /** For the fields of a message the reader can return that message only. */
  lemma UpdateSessionIsUnique(m: UpdateSession, es: Option<seq<Entry>>, r: Option<UpdateSession>)
    requires Lists(es, m.session)
    ensures IsUpdateSession(UpdateObj(Some(m), es), r) <==> r == Some(m)
  {
    var fs := UpdateFields(m, es);
    if IsUpdateSession(Obj(fs, []), r) {
      var rs :| Represents(rs, r.value.session) && Obj(fs, []) == Obj(UpdateFields(r.value, rs), []);
      var gs := UpdateFields(r.value, rs);
      assert gs[0] == fs[0] && gs[1] == fs[1] && gs[2] == fs[2] && gs[3] == fs[3] && gs[4] == fs[4];
    }
    assert Represents(es, m.session);
  }

  /**
   A written message, nil or not, in any enumeration order of its map and followed by anything, is read
   to its exact end without a panic, and what the reader returns is the message.
   */
  lemma UpdateSessionRoundTrip(m: Option<UpdateSession>, es: Option<seq<Entry>>, rest: seq<Byte>, slack: nat)
    requires UpdateSessionLists(es, m) && UpdateSessionTotal(m) - 4 < LIMIT
    ensures ParseObj(UPDATE_SCHEMA, EncodeObj(UpdateObj(m, es)) + rest, slack) ==
              Some((UpdateSessionTotal(m), UpdateObj(m, es)))
    ensures forall r :: IsUpdateSession(UpdateObj(m, es), r) <==> r == m
  {
    if m.None? {
      RoundTrip(Nil, UPDATE_SCHEMA, rest, slack);
    } else {
      UpdateBytes(m.value, es);
      FieldsRoundTrip(UpdateFields(m.value, es), UPDATE_SCHEMA, rest, slack);
      forall r ensures IsUpdateSession(UpdateObj(m, es), r) <==> r == m {
        UpdateSessionIsUnique(m.value, es, r);
      }
    }
  }

  /** On the wire: the modules, the connection, the uuid and the session behind the length of them all. */
  lemma UpdateLayout(m: UpdateSession, es: Option<seq<Entry>>)
    ensures var body := StrBytes(m.fromModuleID) + StrBytes(m.toModuleID) + StrBytes(m.clientConnID) +
                        StrBytes(m.sessionUUID) + EncodeValue(Pairs(es));
            EncodeObj(UpdateObj(Some(m), es)) == NumBytes(|body|, 4) + body
  {
    hide NumBytes, StrBytes, EncodeFields, EncodeObj;
    var fs := UpdateFields(m, es);
    assert fs[0..] == fs && fs[5..] == [];
    assert EncodeFields([]) == [] by { NoFields(); }
    FieldsFrom(fs, 0);
    FieldsFrom(fs, 1);
    FieldsFrom(fs, 2);
    FieldsFrom(fs, 3);
    FieldsFrom(fs, 4);
    assert EncodeFields(fs) ==
      StrBytes(m.fromModuleID) + (StrBytes(m.toModuleID) + (StrBytes(m.clientConnID) +
      (StrBytes(m.sessionUUID) + (EncodeValue(Pairs(es)))))) + [];
    assert Body(Obj(fs, [])) == EncodeFields(fs) + [] ==
        StrBytes(m.fromModuleID) + StrBytes(m.toModuleID) + StrBytes(m.clientConnID) +
        StrBytes(m.sessionUUID) + EncodeValue(Pairs(es));
    Framed(Obj(fs, []));
  }

  /** What this version sees of a message whose frame is cut behind `k` of its fields. */
  function SeenUpdate(m: UpdateSession, k: nat): UpdateSession {
    UpdateSession(m.fromModuleID,
                  if k < 2 then [] else m.toModuleID,
                  if k < 3 then [] else m.clientConnID,
                  if k < 4 then [] else m.sessionUUID,
                  if k < 5 then None else m.session)
  }

  /** An update from another version, cut at a field or with extra bytes: the fields that are there are read. */
  lemma MixedVersionUpdate(m: UpdateSession, es: Option<seq<Entry>>, k: nat, extra: seq<Byte>, rest: seq<Byte>,
      slack: nat)
    requires Lists(es, m.session) && 0 < k <= 5 && (k < 5 ==> extra == [])
    requires |EncodeObj(Obj(UpdateFields(m, es)[..k], extra))| - 4 < LIMIT
    ensures var (o, seen) := (Obj(UpdateFields(m, es)[..k], extra),
              UpdateObj(Some(SeenUpdate(m, k)), if k < 5 then None else es));
            && ParseObj(UPDATE_SCHEMA, EncodeObj(o) + rest, slack) == Some((|EncodeObj(o)|, seen))
            && forall r :: IsUpdateSession(seen, r) <==> r == Some(SeenUpdate(m, k))
  {
    hide ParseObj, EncodeObj, Lists;
    Widths();
    var es' := if k < 5 then None else es;
    assert Lists(es', SeenUpdate(m, k).session) by { NilListed(); }
    VersionReads(UpdateFields(m, es), k, extra, UPDATE_SCHEMA, rest, slack);
    assert UpdateFields(m, es)[..k] + ZerosFrom(UPDATE_SCHEMA, k) == UpdateFields(SeenUpdate(m, k), es');
    forall r ensures IsUpdateSession(UpdateObj(Some(SeenUpdate(m, k)), es'), r) <==> r == Some(SeenUpdate(m, k)) {
      UpdateSessionIsUnique(SeenUpdate(m, k), es', r);
    }
  }

  lemma NilListed()
    ensures Lists(None, None)
  {
  }

  /** Four empty strings, and a map that announces one entry and ends there. */
  const CUT_MAP: seq<Byte> := seq(16, _ => 0) + [1, 0, 0, 0]

  lemma EmptyAt(off: nat, slack: nat)
    requires off + 4 <= 16
    ensures StringAt(CUT_MAP, off, slack) == Some([])
  {
    assert CUT_MAP[off..off + 4] == [0, 0, 0, 0] && Bytes.Num([0, 0, 0, 0]) == 0;
  }

  lemma OneEntry()
    ensures LenAt(CUT_MAP, 16) == 1
  {
    assert CUT_MAP[16..16 + 4] == [1, 0, 0, 0] && Bytes.Num([1, 0, 0, 0]) == 1;
  }

  /**
   A frame whose map is cut off behind its count makes the reader panic exactly if fewer than four bytes
   follow it.
   */
  lemma CutMapPanics(slack: nat)
    ensures ParseObj(UPDATE_SCHEMA, [20, 0, 0, 0] + CUT_MAP, slack) == None <==> slack < 4
  {
    hide ParseFrom, StringAt;
    var frame := [20, 0, 0, 0] + CUT_MAP;
    assert frame[0..4] == [20, 0, 0, 0] && Bytes.Num([20, 0, 0, 0]) == 20;
    assert frame[4..4 + 20] == CUT_MAP;
    EmptyAt(0, slack);
    EmptyAt(4, slack);
    EmptyAt(8, slack);
    EmptyAt(12, slack);
    OneEntry();
    CutFields(slack);
  }

  lemma CutFields(slack: nat)
    requires forall i :: i in {0, 4, 8, 12} ==> StringAt(CUT_MAP, i, slack) == Some([])
    requires LenAt(CUT_MAP, 16) == 1
    ensures ParseFrom(UPDATE_SCHEMA, 0, CUT_MAP, 0, slack) == None <==> slack < 4
  {
    assert ParseFrom(UPDATE_SCHEMA, 4, CUT_MAP, 16, slack) == None <==> slack < 4;
    assert ParseFrom(UPDATE_SCHEMA, 3, CUT_MAP, 12, slack) == None <==> slack < 4;
    assert ParseFrom(UPDATE_SCHEMA, 2, CUT_MAP, 8, slack) == None <==> slack < 4;
    assert ParseFrom(UPDATE_SCHEMA, 1, CUT_MAP, 4, slack) == None <==> slack < 4;
  }

  // ---------------------------------------------------------------------------------------
  // SForwardFromGate
  // ---------------------------------------------------------------------------------------

  datatype FromGate = FromGate(fromModuleID: seq<Byte>, toModuleID: seq<Byte>, clientConnID: seq<Byte>,
                               session: Option<StringMap>, msgID: U16, data: Option<seq<Byte>>)

  const FROM_GATE_SCHEMA: seq<Kind> := [KStr, KStr, KStr, KPairs, KNum(2), KBlob]

  function FromGateFields(m: FromGate, es: Option<seq<Entry>>): (fs: seq<Value>)
    ensures |fs| == 6
  {
    [Str(m.fromModuleID), Str(m.toModuleID), Str(m.clientConnID), Pairs(es), Value.Num(m.msgID, 2), Blob(m.data)]
  }

  ghost function FromGateSize(m: FromGate): nat {
    22 + |m.fromModuleID| + |m.toModuleID| + |m.clientConnID| + MapSize(m.session)
    + if m.data.Some? then |m.data.value| else 0
  }

  lemma FromGateBytes(m: FromGate, es: Option<seq<Entry>>)
    requires Lists(es, m.session)
    ensures |EncodeObj(Obj(FromGateFields(m, es), []))| == FromGateSize(m)
  {
    hide EncodeObj;
    var fs := FromGateFields(m, es);
    SizeOfObj(fs);
    PairsSize(es, m.session);
    assert SizeFrom(fs, 6) == 0;
    assert SizeFrom(fs, 5) == 4 + (if m.data.Some? then |m.data.value| else 0);
    assert SizeFrom(fs, 4) == 2 + SizeFrom(fs, 5);
    assert SizeFrom(fs, 3) == MapSize(m.session) + SizeFrom(fs, 4);
    assert SizeFrom(fs, 2) == 4 + |m.clientConnID| + SizeFrom(fs, 3);
  }

  /** What a message is on the wire; None is a nil message. */
  function FromGateObj(m: Option<FromGate>, es: Option<seq<Entry>>): Obj {
    if m.None? then Nil else Obj(FromGateFields(m.value, es), [])
  }

  /** The entries enumerate the map of the message, if there is one. */
  ghost predicate FromGateLists(es: Option<seq<Entry>>, m: Option<FromGate>) {
    m.Some? ==> Lists(es, m.value.session)
  }

  ghost function FromGateTotal(m: Option<FromGate>): nat {
    if m.None? then 4 else FromGateSize(m.value)
  }

  method GetSizeFromGate(obj: Option<FromGate>) returns (n: nat)
    ensures n == FromGateTotal(obj)
  {
    if obj.None? {
      return 4;
    }
    var m := obj.value;
    var pairs := GetSizeMap(m.session);
    n := 4 + 4 + |m.fromModuleID| + 4 + |m.toModuleID| + 4 + |m.clientConnID| + pairs + 2
       + 4 + (if m.data.Some? then |m.data.value| else 0);
  }

  method WriteFromGate(data: array<Byte>, off: nat, obj: Option<FromGate>)
    returns (n: nat, ghost es: Option<seq<Entry>>)
    requires off + FromGateTotal(obj) <= data.Length
    modifies data
    ensures FromGateLists(es, obj) && n == FromGateTotal(obj)
    ensures Written(data[..], old(data[..]), off, EncodeObj(FromGateObj(obj, es)))
  {
    hide Filled, Written, EncodeFields, EncodeObj, Lists, MapBytes;
    ghost var was := data[..];
    var total := GetSizeFromGate(obj);
    if obj.None? {
      n := WriteNil(data, off);
      es := None;
      return;
    }
    var m := obj.value;
    var size := total - 4;
    NewFrame(data, off, size);
    ghost var fs: seq<Value> := [];
    var at := AddString(data, off + 4, m.fromModuleID, was, off, size, fs);
    fs := fs + [Str(m.fromModuleID)];
    at := AddString(data, at, m.toModuleID, was, off, size, fs);
    fs := fs + [Str(m.toModuleID)];
    at := AddString(data, at, m.clientConnID, was, off, size, fs);
    fs := fs + [Str(m.clientConnID)];
    at, es := AddMap(data, at, m.session, was, off, size, fs);
    fs := fs + [Pairs(es)];
    at := AddNum(data, at, m.msgID, 2, was, off, size, fs);
    fs := fs + [Value.Num(m.msgID, 2)];
    at := AddBlob(data, at, m.data, was, off, size, fs);
    assert fs + [Blob(m.data)] == FromGateFields(m, es);
    FromGateBytes(m, es);
    FilledObj(data[..], was, off, size, FromGateFields(m, es));
    n := at - off;
  }

  method ReadFromGateFields(data: seq<Byte>, slack: nat) returns (ok: bool, m: FromGate, ghost es: Option<seq<Entry>>)
    ensures ParseFrom(FROM_GATE_SCHEMA, 0, data, 0, slack) == if ok then Some(FromGateFields(m, es)) else None
    ensures Represents(es, m.session)
  {
    hide ParseFrom, Resume, Represents;
    Widths();
    ghost var schema := FROM_GATE_SCHEMA;
    ResumeStart(schema, data, slack);
    ok, m, es := true, FromGate([], [], [], None, 0, None), None;
    assert Represents(es, m.session) by { NilRepresented(); }
    ghost var done: seq<Value> := [];
    assert done + ZerosFrom(schema, 0) == FromGateFields(m, es);
    var more, s, at := TakeString(data, 0, done, schema, slack);
    if !more { return; }
    m, done := m.(fromModuleID := s), done + [Str(s)];
    assert done + ZerosFrom(schema, 1) == FromGateFields(m, es);
    more, s, at := TakeString(data, at, done, schema, slack);
    if !more { return; }
    m, done := m.(toModuleID := s), done + [Str(s)];
    assert done + ZerosFrom(schema, 2) == FromGateFields(m, es);
    more, s, at := TakeString(data, at, done, schema, slack);
    if !more { return; }
    m, done := m.(clientConnID := s), done + [Str(s)];
    assert done + ZerosFrom(schema, 3) == FromGateFields(m, es);
    var how, session;
    how, session, at, es := TakeMap(data, at, slack, done, schema);
    m, done := m.(session := session), done + [Pairs(es)];
    assert done + ZerosFrom(schema, 4) == FromGateFields(m, es);
    if how != Complete {
      ok := how != Panicked;
      return;
    }
    var v;
    more, v, at := TakeNum(data, at, 2, done, schema, slack);
    if !more { return; }
    m, done := m.(msgID := v), done + [Value.Num(v, 2)];
    assert done + ZerosFrom(schema, 5) == FromGateFields(m, es);
    var b;
    more, b, at := TakeBlob(data, at, done, schema, slack);
    if !more { return; }
    m, done := m.(data := b), done + [Blob(b)];
    assert done == FromGateFields(m, es);
    ResumeEnd(done, schema, data, at, slack);
  }

  /** `obj` is what the parsed object `o` stands for, its map built from the entries in their order. */
  ghost predicate IsFromGate(o: Obj, obj: Option<FromGate>) {
    if obj.None? then o == Nil
    else exists es :: Represents(es, obj.value.session) && o == Obj(FromGateFields(obj.value, es), [])
  }

  method ReadFromGate(indata: seq<Byte>, slack: nat) returns (ok: bool, n: nat, obj: Option<FromGate>)
    ensures var r := ParseObj(FROM_GATE_SCHEMA, indata, slack);
            if ok then r.Some? && r.value.0 == n && IsFromGate(r.value.1, obj) else r.None?
  {
    hide ParseObj, ParseFrom, Represents;
    NilRepresented();
    ParseFrame(FROM_GATE_SCHEMA, indata, slack);
    match OpenFrame(indata)
    case NoObj(end) => return true, end, None;
    case Short(end) =>
      var zero := FromGate([], [], [], None, 0, None);
      assert ZerosFrom(FROM_GATE_SCHEMA, 0) == FromGateFields(zero, None);
      return true, end, Some(zero);
    case Whole(end, data) =>
      var m;
      ghost var es;
      ok, m, es := ReadFromGateFields(data, slack + |indata| - end);
      n, obj := end, Some(m);
  }

  /** For the fields of a message the reader can return that message only. */
  lemma FromGateIsUnique(m: FromGate, es: Option<seq<Entry>>, r: Option<FromGate>)
    requires Lists(es, m.session)
    ensures IsFromGate(FromGateObj(Some(m), es), r) <==> r == Some(m)
  {
    var fs := FromGateFields(m, es);
    if IsFromGate(Obj(fs, []), r) {
      var rs :| Represents(rs, r.value.session) && Obj(fs, []) == Obj(FromGateFields(r.value, rs), []);
      var gs := FromGateFields(r.value, rs);
      assert gs[0] == fs[0] && gs[1] == fs[1] && gs[2] == fs[2] && gs[3] == fs[3] && gs[4] == fs[4] && gs[5] == fs[5];
    }
    assert Represents(es, m.session);
  }

  /** The same for a message whose byte slice may be nil or empty, which stay apart. */
  lemma FromGateRoundTrip(m: Option<FromGate>, es: Option<seq<Entry>>, rest: seq<Byte>, slack: nat)
    requires FromGateLists(es, m) && FromGateTotal(m) - 4 < LIMIT
    ensures ParseObj(FROM_GATE_SCHEMA, EncodeObj(FromGateObj(m, es)) + rest, slack) ==
              Some((FromGateTotal(m), FromGateObj(m, es)))
    ensures forall r :: IsFromGate(FromGateObj(m, es), r) <==> r == m
  {
    if m.None? {
      RoundTrip(Nil, FROM_GATE_SCHEMA, rest, slack);
    } else {
      Widths();
      FromGateBytes(m.value, es);
      FieldsRoundTrip(FromGateFields(m.value, es), FROM_GATE_SCHEMA, rest, slack);
      forall r ensures IsFromGate(FromGateObj(m, es), r) <==> r == m {
        FromGateIsUnique(m.value, es, r);
      }
    }
  }

  /** On the wire: the modules, the connection, the session, the id in two bytes and the data. */
  lemma FromGateLayout(m: FromGate, es: Option<seq<Entry>>)
    ensures var body := StrBytes(m.fromModuleID) + StrBytes(m.toModuleID) + StrBytes(m.clientConnID) +
                        EncodeValue(Pairs(es)) + NumBytes(m.msgID, 2) + EncodeValue(Blob(m.data));
            EncodeObj(FromGateObj(Some(m), es)) == NumBytes(|body|, 4) + body
  {
    hide NumBytes, StrBytes, EncodeFields, EncodeObj;
    var fs := FromGateFields(m, es);
    assert fs[0..] == fs && fs[6..] == [];
    assert EncodeFields([]) == [] by { NoFields(); }
    FieldsFrom(fs, 0);
    FieldsFrom(fs, 1);
    FieldsFrom(fs, 2);
    FieldsFrom(fs, 3);
    FieldsFrom(fs, 4);
    FieldsFrom(fs, 5);
    assert EncodeFields(fs) ==
      StrBytes(m.fromModuleID) + (StrBytes(m.toModuleID) + (StrBytes(m.clientConnID) +
      (EncodeValue(Pairs(es)) + (NumBytes(m.msgID, 2) + (EncodeValue(Blob(m.data))))))) + [];
    assert Body(Obj(fs, [])) == EncodeFields(fs) + [] ==
        StrBytes(m.fromModuleID) + StrBytes(m.toModuleID) + StrBytes(m.clientConnID) + EncodeValue(Pairs(es)) +
        NumBytes(m.msgID, 2) + EncodeValue(Blob(m.data));
    Framed(Obj(fs, []));
  }

  /** What this version sees of a message whose frame is cut behind `k` of its fields. */
  function SeenFromGate(m: FromGate, k: nat): FromGate {
    FromGate(m.fromModuleID,
             if k < 2 then [] else m.toModuleID,
             if k < 3 then [] else m.clientConnID,
             if k < 4 then None else m.session,
             if k < 5 then 0 else m.msgID,
             if k < 6 then None else m.data)
  }

  /** A message from another version, cut at a field or with extra bytes: the fields that are there are read. */
  lemma MixedVersionFromGate(m: FromGate, es: Option<seq<Entry>>, k: nat, extra: seq<Byte>, rest: seq<Byte>, slack: nat)
    requires Lists(es, m.session) && 0 < k <= 6 && (k < 6 ==> extra == [])
    requires |EncodeObj(Obj(FromGateFields(m, es)[..k], extra))| - 4 < LIMIT
    ensures var (o, seen) := (Obj(FromGateFields(m, es)[..k], extra),
              FromGateObj(Some(SeenFromGate(m, k)), if k < 4 then None else es));
            && ParseObj(FROM_GATE_SCHEMA, EncodeObj(o) + rest, slack) == Some((|EncodeObj(o)|, seen))
            && forall r :: IsFromGate(seen, r) <==> r == Some(SeenFromGate(m, k))
  {
    hide ParseObj, EncodeObj, Lists;
    Widths();
    var es' := if k < 4 then None else es;
    assert Lists(es', SeenFromGate(m, k).session) by { NilListed(); }
    VersionReads(FromGateFields(m, es), k, extra, FROM_GATE_SCHEMA, rest, slack);
    assert FromGateFields(m, es)[..k] + ZerosFrom(FROM_GATE_SCHEMA, k) == FromGateFields(SeenFromGate(m, k), es');
    forall r ensures IsFromGate(FromGateObj(Some(SeenFromGate(m, k)), es'), r) <==> r == Some(SeenFromGate(m, k)) {
      FromGateIsUnique(SeenFromGate(m, k), es', r);
    }
  }
}
