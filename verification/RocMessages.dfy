/** The remote-object messages: SROCRequest, and SROCBind, whose list of ids does not survive the wire. */
module RocMessages {
  import opened Basics
  import opened Bytes
  import opened WireFormat
  import opened FieldIO

  // ---------------------------------------------------------------------------------------
  // SROCRequest
  // ---------------------------------------------------------------------------------------

  datatype RocRequest = RocRequest(fromModuleID: seq<Byte>, toModuleID: seq<Byte>, seqNo: I64, callStr: seq<Byte>,
                                   callArg: Option<seq<Byte>>, needReturn: bool)

  const REQUEST_SCHEMA: seq<Kind> := [KStr, KStr, KNum(8), KStr, KBlob, KNum(1)]

  function FromInt64(v: I64): (n: U64)
    ensures ToInt64(n) == v
  {
    if v < 0 then v + 0x1_0000_0000_0000_0000 else v
  }

  /** The fields, with the flag byte as it stands on the wire: any non-zero byte means true. */
  function RequestFields(m: RocRequest, flag: Byte): (fs: seq<Value>)
    ensures |fs| == 6
  {
    [Str(m.fromModuleID), Str(m.toModuleID), Value.Num(FromInt64(m.seqNo), 8), Str(m.callStr), Blob(m.callArg),
     Value.Num(flag, 1)]
  }

  function FlagOf(needReturn: bool): Byte { if needReturn then 1 else 0 }

  /** What a message is on the wire; None is a nil message. */
  function RequestObj(m: Option<RocRequest>): Obj {
    if m.None? then Nil else Obj(RequestFields(m.value, FlagOf(m.value.needReturn)), [])
  }

  function GetSizeRocRequest(obj: Option<RocRequest>): (n: nat)
    ensures n == |EncodeObj(RequestObj(obj))|
  {
    if obj.None? then 4 else
    var m := obj.value;
    RequestBytes(m, FlagOf(m.needReturn));
    4 + 4 + |m.fromModuleID| + 4 + |m.toModuleID| + 8 + 4 + |m.callStr|
    + 4 + (if m.callArg.Some? then |m.callArg.value| else 0) + 1
  }

  lemma RequestBytes(m: RocRequest, flag: Byte)
    ensures |EncodeObj(Obj(RequestFields(m, flag), []))|
         == 29 + |m.fromModuleID| + |m.toModuleID| + |m.callStr| + if m.callArg.Some? then |m.callArg.value| else 0
  {
    hide EncodeObj;
    var fs := RequestFields(m, flag);
    SizeOfObj(fs);
    assert SizeFrom(fs, 6) == 0;
    assert SizeFrom(fs, 5) == 1;
    assert SizeFrom(fs, 4) == 4 + (if m.callArg.Some? then |m.callArg.value| else 0) + SizeFrom(fs, 5);
    assert SizeFrom(fs, 3) == 4 + |m.callStr| + SizeFrom(fs, 4);
    assert SizeFrom(fs, 2) == 8 + SizeFrom(fs, 3);
  }

  method WriteRocRequest(data: array<Byte>, off: nat, obj: Option<RocRequest>) returns (n: nat)
    requires off + GetSizeRocRequest(obj) <= data.Length
    modifies data
    ensures n == GetSizeRocRequest(obj)
    ensures Written(data[..], old(data[..]), off, EncodeObj(RequestObj(obj)))
  {
    hide Filled, Written, EncodeFields, EncodeObj, FromInt64;
    if obj.None? {
      n := WriteNil(data, off);
      return;
    }
    var m := obj.value;
    ghost var was := data[..];
    var size := GetSizeRocRequest(obj) - 4;
    RequestBytes(m, FlagOf(m.needReturn));
    NewFrame(data, off, size);
    ghost var fs: seq<Value> := [];
    var at := AddString(data, off + 4, m.fromModuleID, was, off, size, fs);
    fs := fs + [Str(m.fromModuleID)];
    at := AddString(data, at, m.toModuleID, was, off, size, fs);
    fs := fs + [Str(m.toModuleID)];
    at := AddNum(data, at, FromInt64(m.seqNo), 8, was, off, size, fs);
    fs := fs + [Value.Num(FromInt64(m.seqNo), 8)];
    at := AddString(data, at, m.callStr, was, off, size, fs);
    fs := fs + [Str(m.callStr)];
    at := AddBlob(data, at, m.callArg, was, off, size, fs);
    fs := fs + [Blob(m.callArg)];
    at := AddNum(data, at, FlagOf(m.needReturn), 1, was, off, size, fs);
    assert fs + [Value.Num(FlagOf(m.needReturn), 1)] == RequestFields(m, FlagOf(m.needReturn));
    FilledObj(data[..], was, off, size, RequestFields(m, FlagOf(m.needReturn)));
    n := at - off;
  }

  /** The fields that have not been read are zero. */
  lemma ZeroRequest()
    ensures FromInt64(0) == 0
    ensures var s := REQUEST_SCHEMA;
            && ZerosFrom(s, 5) == [Value.Num(0, 1)] && ZerosFrom(s, 4) == [Blob(None)] + ZerosFrom(s, 5)
            && ZerosFrom(s, 3) == [Str([])] + ZerosFrom(s, 4) && ZerosFrom(s, 2) == [Value.Num(0, 8)] + ZerosFrom(s, 3)
            && ZerosFrom(s, 1) == [Str([])] + ZerosFrom(s, 2) && ZerosFrom(s, 0) == [Str([])] + ZerosFrom(s, 1)
  {
  }

  lemma SignKept(v: U64)
    ensures FromInt64(ToInt64(v)) == v
  {
  }

  method ReadRequestFields(data: seq<Byte>, ghost slack: nat) returns (m: RocRequest, ghost flag: Byte)
    ensures ParseFrom(REQUEST_SCHEMA, 0, data, 0, slack) == Some(RequestFields(m, flag))
    ensures m.needReturn <==> flag != 0
  {
    hide ParseFrom, Resume, FromInt64, ZerosFrom;
    Widths();
    ghost var schema := REQUEST_SCHEMA;
    ZeroRequest();
    ResumeStart(schema, data, slack);
    m, flag := RocRequest([], [], 0, [], None, false), 0;
    ghost var done: seq<Value> := [];
    assert done + ZerosFrom(schema, 0) == RequestFields(m, flag);
    var more, s, at := TakeString(data, 0, done, schema, slack);
    if !more { return; }
    m, done := m.(fromModuleID := s), done + [Str(s)];
    assert done + ZerosFrom(schema, 1) == RequestFields(m, flag);
    more, s, at := TakeString(data, at, done, schema, slack);
    if !more { return; }
    m, done := m.(toModuleID := s), done + [Str(s)];
    assert done + ZerosFrom(schema, 2) == RequestFields(m, flag);
    var v;
    more, v, at := TakeNum(data, at, 8, done, schema, slack);
    if !more { return; }
    SignKept(v);
    m, done := m.(seqNo := ToInt64(v)), done + [Value.Num(v, 8)];
    assert done + ZerosFrom(schema, 3) == RequestFields(m, flag);
    more, s, at := TakeString(data, at, done, schema, slack);
    if !more { return; }
    m, done := m.(callStr := s), done + [Str(s)];
    assert done + ZerosFrom(schema, 4) == RequestFields(m, flag);
    var b;
    more, b, at := TakeBlob(data, at, done, schema, slack);
    if !more { return; }
    m, done := m.(callArg := b), done + [Blob(b)];
    assert done + ZerosFrom(schema, 5) == RequestFields(m, flag);
    more, v, at := TakeNum(data, at, 1, done, schema, slack);
    if !more { return; }
    m, flag, done := m.(needReturn := v != 0), v, done + [Value.Num(v, 1)];
    assert done == RequestFields(m, flag);
    ResumeEnd(done, schema, data, at, slack);
  }

  /** `obj` is what the parsed object `o` stands for. */
  ghost predicate IsRocRequest(o: Obj, obj: Option<RocRequest>) {
    if obj.None? then o == Nil
    else exists flag: Byte :: (obj.value.needReturn <==> flag != 0) && o == Obj(RequestFields(obj.value, flag), [])
  }

  method ReadRocRequest(indata: seq<Byte>, ghost slack: nat) returns (n: nat, obj: Option<RocRequest>)
    ensures var r := ParseObj(REQUEST_SCHEMA, indata, slack);
            r.Some? && r.value.0 == n && IsRocRequest(r.value.1, obj)
  {
    hide ParseObj, ParseFrom;
    ParseFrame(REQUEST_SCHEMA, indata, slack);
    match OpenFrame(indata)
    case NoObj(end) => return end, None;
    case Short(end) =>
      var zero := RocRequest([], [], 0, [], None, false);
      assert ZerosFrom(REQUEST_SCHEMA, 0) == RequestFields(zero, 0);
      return end, Some(zero);
    case Whole(end, data) =>
      var m;
      ghost var flag;
      m, flag := ReadRequestFields(data, slack + |indata| - end);
      n, obj := end, Some(m);
  }

  /** For the fields of a request the reader can return that request only. */
  lemma RequestIsUnique(m: RocRequest, r: Option<RocRequest>)
    ensures IsRocRequest(RequestObj(Some(m)), r) <==> r == Some(m)
  {
    var fs := RequestFields(m, FlagOf(m.needReturn));
    if IsRocRequest(Obj(fs, []), r) {
      var x := r.value;
      var flag: Byte :| (x.needReturn <==> flag != 0) && Obj(fs, []) == Obj(RequestFields(x, flag), []);
      var gs := RequestFields(x, flag);
      assert gs[0] == fs[0] && gs[1] == fs[1] && gs[2] == fs[2] && gs[3] == fs[3] && gs[4] == fs[4] && gs[5] == fs[5];
      assert x.seqNo == ToInt64(FromInt64(x.seqNo)) == ToInt64(FromInt64(m.seqNo)) == m.seqNo;
    }
  }

  /** A written request, nil or not, is read to its exact end, its flag and its signed number included. */
  lemma RocRequestRoundTrip(m: Option<RocRequest>, rest: seq<Byte>, slack: nat)
    requires GetSizeRocRequest(m) - 4 < LIMIT
    ensures ParseObj(REQUEST_SCHEMA, EncodeObj(RequestObj(m)) + rest, slack) ==
              Some((GetSizeRocRequest(m), RequestObj(m)))
    ensures forall r :: IsRocRequest(RequestObj(m), r) <==> r == m
  {
    if m.None? {
      RoundTrip(Nil, REQUEST_SCHEMA, rest, slack);
    } else {
      Widths();
      FieldsRoundTrip(RequestFields(m.value, FlagOf(m.value.needReturn)), REQUEST_SCHEMA, rest, slack);
      forall r ensures IsRocRequest(RequestObj(m), r) <==> r == m {
        RequestIsUnique(m.value, r);
      }
    }
  }

  /** The number goes out in two's complement, the flag as one byte. */
  lemma SameBytes(m: RocRequest)
    ensures NumBytes(FromInt64(m.seqNo), 8) == NumBytes(m.seqNo, 8)
    ensures NumBytes(FlagOf(m.needReturn), 1) == [if m.needReturn then 1 else 0]
  {
    hide NumBytes, Bytes.Num, Pow256;
    Widths();
    NumRoundTrip(FromInt64(m.seqNo), 8);
    NumRoundTrip(m.seqNo, 8);
    BytesRoundTrip(NumBytes(FromInt64(m.seqNo), 8));
    BytesRoundTrip(NumBytes(m.seqNo, 8));
    OneFlag(FlagOf(m.needReturn));
  }

  lemma OneFlag(b: Byte)
    ensures NumBytes(b, 1) == [b]
  {
    assert NumBytes(b / 256, 0) == [];
  }

  /** On the wire: the modules, the number, the call and its argument, and whether an answer is needed as one byte. */
  lemma RequestLayout(m: RocRequest)
    ensures var body := StrBytes(m.fromModuleID) + StrBytes(m.toModuleID) + NumBytes(m.seqNo,
              8) + StrBytes(m.callStr) + EncodeValue(Blob(m.callArg)) + [if m.needReturn then 1 else 0];
            EncodeObj(RequestObj(Some(m))) == NumBytes(|body|, 4) + body
  {
    hide NumBytes, StrBytes, EncodeFields, EncodeObj;
    var fs := RequestFields(m, FlagOf(m.needReturn));
    SameBytes(m);
    assert fs[0..] == fs && fs[6..] == [];
    assert EncodeFields([]) == [] by { NoFields(); }
    FieldsFrom(fs, 0);
    FieldsFrom(fs, 1);
    FieldsFrom(fs, 2);
    FieldsFrom(fs, 3);
    FieldsFrom(fs, 4);
    FieldsFrom(fs, 5);
    assert EncodeFields(fs) ==
      StrBytes(m.fromModuleID) + (StrBytes(m.toModuleID) + (NumBytes(m.seqNo,
          8) + (StrBytes(m.callStr) + (EncodeValue(Blob(m.callArg)) + ([if m.needReturn then 1 else 0]))))) + [];
    assert Body(Obj(fs, [])) == EncodeFields(fs) + [] ==
        StrBytes(m.fromModuleID) + StrBytes(m.toModuleID) + NumBytes(m.seqNo,
        8) + StrBytes(m.callStr) + EncodeValue(Blob(m.callArg)) + [if m.needReturn then 1 else 0];
    Framed(Obj(fs, []));
  }

  /** What this version sees of a request whose frame is cut behind `k` of its fields. */
  function SeenRequest(m: RocRequest, k: nat): RocRequest {
    RocRequest(m.fromModuleID,
               if k < 2 then [] else m.toModuleID,
               if k < 3 then 0 else m.seqNo,
               if k < 4 then [] else m.callStr,
               if k < 5 then None else m.callArg,
               k >= 6 && m.needReturn)
  }

  /** A request from another version, cut at a field or with extra bytes: the fields that are there are read. */
  lemma MixedVersionRequest(m: RocRequest, k: nat, extra: seq<Byte>, rest: seq<Byte>, slack: nat)
    requires 0 < k <= 6 && (k < 6 ==> extra == [])
    requires |EncodeObj(Obj(RequestFields(m, FlagOf(m.needReturn))[..k], extra))| - 4 < LIMIT
    ensures var o := Obj(RequestFields(m, FlagOf(m.needReturn))[..k], extra);
            ParseObj(REQUEST_SCHEMA, EncodeObj(o) + rest, slack) ==
              Some((|EncodeObj(o)|, RequestObj(Some(SeenRequest(m, k)))))
    ensures forall r :: IsRocRequest(RequestObj(Some(SeenRequest(m, k))), r) <==> r == Some(SeenRequest(m, k))
  {
    hide ParseObj, EncodeObj, ZerosFrom;
    Widths();
    VersionReads(RequestFields(m, FlagOf(m.needReturn)), k, extra, REQUEST_SCHEMA, rest, slack);
    var seen := SeenRequest(m, k);
    ZeroRequest();
    assert RequestFields(m, FlagOf(m.needReturn))[..k] + ZerosFrom(REQUEST_SCHEMA, k) ==
        RequestFields(seen, FlagOf(seen.needReturn));
    forall r ensures IsRocRequest(RequestObj(Some(seen)), r) <==> r == Some(seen) {
      RequestIsUnique(seen, r);
    }
  }

  // ---------------------------------------------------------------------------------------
  // The ids of SROCBind
  // ---------------------------------------------------------------------------------------

  type Ids = seq<seq<Byte>>

  function IdsSize(ids: Ids): (n: nat)
    ensures forall i :: 0 <= i < |ids| ==> 4 + |ids[i]| <= n
  {
    if ids == [] then 0 else
    var n := IdsSize(ids[1..]);
    assert forall i :: 1 <= i < |ids| ==> ids[i] == ids[1..][i - 1];
    4 + |ids[0]| + n
  }

  /** The write loop of the ids: the offset never moves, so every id lands on the one before it. */
  method WriteIds(data: array<Byte>, at: nat, ids: Option<Ids>) returns (next: nat)
    requires at + 4 + (if ids.Some? then IdsSize(ids.value) else 0) <= data.Length
    modifies data
    ensures next == at + 4 && data[..at] == old(data[..at])
    ensures At(data[..], at, NumBytes(if ids.Some? then |ids.value| else NIL_LEN, 4))
    ensures ids.Some? && ids.value != [] ==> At(data[..], at + 4, StrBytes(ids.value[|ids.value| - 1]))
    ensures var room := if ids.Some? then IdsSize(ids.value) else 0;
            data[at + 4 + room..] == old(data[at + 4 + room..])
  {
    hide NumBytes, StrBytes, Written;
    var count := if ids.Some? then |ids.value| else NIL_LEN;
    PutNum(data, at, count, 4);
    next := at + 4;
    ghost var head := NumBytes(count, 4);
    ghost var room := if ids.Some? then IdsSize(ids.value) else 0;
    assert data[at..at + 4] == head;
    if ids.Some? {
      for i := 0 to |ids.value|
        invariant data[..at] == old(data[..at]) && data[at..at + 4] == head
        invariant i > 0 ==> At(data[..], at + 4, StrBytes(ids.value[i - 1]))
        invariant data[at + 4 + room..] == old(data[at + 4 + room..])
      {
        ghost var mid := data[..];
        var len := WriteString(data, at + 4, ids.value[i]);
        IdOverwrites(data[..], mid, at, ids.value[i], room);
      }
    }
  }

  lemma IdOverwrites(now: seq<Byte>, was: seq<Byte>, at: nat, id: seq<Byte>, room: nat)
    requires Written(now, was, at + 4, StrBytes(id)) && 4 + |id| <= room && at + 4 + room <= |was|
    ensures |now| == |was| && now[..at] == was[..at] && now[at..at + 4] == was[at..at + 4]
    ensures At(now, at + 4, StrBytes(id)) && now[at + 4 + room..] == was[at + 4 + room..]
  {
  }

  /** The read loop: every element is the string at one and the same offset. None is a panic. */
  function SameIds(n: nat, data: seq<Byte>, at: nat, slack: nat): (r: Option<Ids>) {
    if n == 0 then Some([]) else
    var head := StringAt(data, at, slack);
    if head.None? then None else
    var tail := SameIds(n - 1, data, at, slack);
    if tail.None? then None else Some([head.value] + tail.value)
  }

  method ReadIds(data: seq<Byte>, at: nat, slack: nat) returns (ok: bool, ids: Option<Ids>)
    requires at + 4 <= |data|
    ensures var n := LenAt(data, at);
            if n == NIL_LEN then ok && ids == None
            else match SameIds(n, data, at + 4, slack) case None => !ok case Some(list) => ok && ids == Some(list)
  {
    hide StringAt;
    var n := LenAt(data, at);
    if n == NIL_LEN {
      return true, None;
    }
    var list: Ids := [];
    ghost var all := SameIds(n, data, at + 4, slack);
    assert all.Some? ==> [] + all.value == all.value;
    for i := 0 to n
      invariant IdsBefore(list, SameIds(n - i, data, at + 4, slack)) == SameIds(n, data, at + 4, slack)
    {
      if at + 8 > |data| + slack {
        assert StringAt(data, at + 4, slack) == None by { TooShort(data, at + 4, slack); }
        return false, None;
      }
      var s := [];
      if at + 8 <= |data| {
        s := ReadString(data, at + 4, slack);
      } else {
        NoLength(data, at + 4, slack);
      }
      ghost var tail := SameIds(n - i - 1, data, at + 4, slack);
      if tail.Some? {
        assert list + ([s] + tail.value) == list + [s] + tail.value;
      }
      list := list + [s];
    }
    assert list + [] == list;
    ok, ids := true, Some(list);
  }

  function IdsBefore(list: Ids, tail: Option<Ids>): Option<Ids> {
    if tail.None? then None else Some(list + tail.value)
  }

  lemma TooShort(data: seq<Byte>, at: nat, slack: nat)
    requires at + 4 > |data| + slack
    ensures StringAt(data, at, slack) == None
  {
  }

  lemma NoLength(data: seq<Byte>, at: nat, slack: nat)
    requires |data| < at + 4 <= |data| + slack
    ensures StringAt(data, at, slack) == Some([])
  {
  }

  function Copies(s: seq<Byte>, n: nat): (r: Ids)
    ensures |r| == n && forall i :: 0 <= i < n ==> r[i] == s
  {
    if n == 0 then [] else [s] + Copies(s, n - 1)
  }

  lemma {:induction false} SameIdsAreOne(n: nat, s: seq<Byte>, data: seq<Byte>, at: nat, slack: nat)
    requires StringAt(data, at, slack) == Some(s)
    ensures SameIds(n, data, at, slack) == Some(Copies(s, n))
  {
    if n > 0 {
      SameIdsAreOne(n - 1, s, data, at, slack);
    }
  }

  /**
   What the ids field is for, that the reader gets the written list, holds if and only if all ids
   of the list are equal: of any other list every element comes back as the last one.
   */
  lemma BindIdsRoundTrip(ids: Ids, data: seq<Byte>, at: nat, slack: nat)
    requires |ids| < NIL_LEN && At(data, at, NumBytes(|ids|, 4))
    requires ids != [] ==> At(data, at + 4, StrBytes(ids[|ids| - 1])) && |ids[|ids| - 1]| < LIMIT
    ensures LenAt(data, at) == |ids|
    ensures SameIds(|ids|, data, at + 4, slack) == Some(ids) <==> forall i, j :: 0 <= i < j < |ids| ==> ids[i] == ids[j]
    ensures ids != [] ==> SameIds(|ids|, data, at + 4, slack) == Some(Copies(ids[|ids| - 1], |ids|))
  {
    LenReads(|ids|, data, at);
    if ids != [] {
      var last := ids[|ids| - 1];
      StringReads(last, data, at + 4, slack);
      SameIdsAreOne(|ids|, last, data, at + 4, slack);
      if forall i, j :: 0 <= i < j < |ids| ==> ids[i] == ids[j] {
        assert Copies(last, |ids|) == ids;
      } else {
        var i, j :| 0 <= i < j < |ids| && ids[i] != ids[j];
        var same: Ids := Copies(last, |ids|);
        assert same[i] == same[j];
      }
    }
  }

  /** Two different ids in one message: the first one is lost. */
  lemma BindIdsCounterexample()
    ensures var body: seq<Byte> := NumBytes(2, 4) + StrBytes([2]);
            SameIds(2, body, 4, 0) == Some([[2], [2]]) && SameIds(2, body, 4, 0) != Some([[1], [2]])
  {
    var body: seq<Byte> := NumBytes(2, 4) + StrBytes([2]);
    assert At(body, 4, StrBytes([2]));
    StringReads([2], body, 4, 0);
    SameIdsAreOne(2, [2], body, 4, 0);
    var two: Ids := Copies([2], 2);
    assert two == [[2], [2]];
    assert two[0] != [1];
  }
}
