/**
 Field-by-field access to a byte slice, as the generated readers and writers do it: a writer
 appends fields behind what it has already written, a reader resumes the parse at an offset.
 */
module FieldIO {
  import opened Basics
  import opened Bytes
  import opened WireFormat

  /** `now` is `was` with `w` stored at `start`. */
  ghost predicate Written(now: seq<Byte>, was: seq<Byte>, start: nat, w: seq<Byte>) {
    start + |w| <= |was| && now == was[..start] + w + was[start + |w|..]
  }

  /** Byte for byte: those of `w` in their place, and around them what was there. */
  lemma WrittenBytes(now: seq<Byte>, was: seq<Byte>, start: nat, w: seq<Byte>)
    ensures Written(now, was, start, w) <==>
              && start + |w| <= |was| && |now| == |was|
              && forall i :: 0 <= i < |now| ==> now[i] == if start <= i < start + |w| then w[i - start] else was[i]
  {
    if start + |w| <= |was| {
      var all := was[..start] + w + was[start + |w|..];
      assert |all| == |was| &&
        forall i :: 0 <= i < |all| ==> all[i] == if start <= i < start + |w| then w[i - start] else was[i];
    }
  }

  lemma WrittenMore(now: seq<Byte>, mid: seq<Byte>, was: seq<Byte>, start: nat, w: seq<Byte>, x: seq<Byte>)
    requires Written(mid, was, start, w) && Written(now, mid, start + |w|, x)
    ensures Written(now, was, start, w + x)
  {
  }

  lemma {:induction false} EncodeSnoc(fs: seq<Value>, v: Value)
    ensures EncodeFields(fs + [v]) == EncodeFields(fs) + EncodeValue(v)
  {
    if fs == [] {
      assert fs + [v] == [v];
      assert EncodeFields([v][1..]) == [];
    } else {
      EncodeSnoc(fs[1..], v);
      assert (fs + [v])[1..] == fs[1..] + [v];
      assert EncodeValue(fs[0]) + (EncodeFields(fs[1..]) + EncodeValue(v))
          == EncodeValue(fs[0]) + EncodeFields(fs[1..]) + EncodeValue(v);
    }
  }

  /** The encoded size of fields i, i+1, ... */
  function SizeFrom(fs: seq<Value>, i: nat): (n: nat)
    requires i <= |fs|
    decreases |fs| - i
  {
    if i == |fs| then 0 else |EncodeValue(fs[i])| + SizeFrom(fs, i + 1)
  }

  lemma {:induction false} SizeOfFields(fs: seq<Value>, i: nat)
    requires i <= |fs|
    ensures |EncodeFields(fs[i..])| == SizeFrom(fs, i)
    decreases |fs| - i
  {
    if i < |fs| {
      assert fs[i..][1..] == fs[i + 1..];
      SizeOfFields(fs, i + 1);
    }
  }

  /** The size of a current object, field by field. */
  lemma SizeOfObj(fs: seq<Value>)
    ensures |EncodeObj(Obj(fs, []))| == 4 + SizeFrom(fs, 0)
    ensures Body(Obj(fs, [])) == EncodeFields(fs)
  {
    SizeOfFields(fs, 0);
    assert fs[0..] == fs;
  }

  lemma FieldWritten(now: seq<Byte>, mid: seq<Byte>, was: seq<Byte>, start: nat, head: seq<Byte>, fs: seq<Value>,
                     v: Value)
    requires Written(mid, was, start, head + EncodeFields(fs))
    requires Written(now, mid, start + |head + EncodeFields(fs)|, EncodeValue(v))
    ensures Written(now, was, start, head + EncodeFields(fs + [v]))
  {
    hide Written, EncodeFields, EncodeValue;
    WrittenMore(now, mid, was, start, head + EncodeFields(fs), EncodeValue(v));
    EncodeSnoc(fs, v);
    assert head + EncodeFields(fs) + EncodeValue(v) == head + (EncodeFields(fs) + EncodeValue(v));
  }

  /** writeBinaryString: the length and the bytes, at `off`. */
  method WriteString(data: array<Byte>, off: nat, s: seq<Byte>) returns (n: nat)
    requires off + 4 + |s| <= data.Length
    modifies data
    ensures n == 4 + |s| && Written(data[..], old(data[..]), off, StrBytes(s))
  {
    ghost var was := data[..];
    PutNum(data, off, |s|, 4);
    ghost var mid := data[..];
    PutBytes(data, off + 4, s);
    WrittenMore(data[..], mid, was, off, NumBytes(|s|, 4), s);
    n := 4 + |s|;
  }

  /** A nil-able byte slice: its length, or the nil marker, and its bytes. */
  method WriteBlob(data: array<Byte>, off: nat, b: Option<seq<Byte>>) returns (n: nat)
    requires off + |EncodeValue(Blob(b))| <= data.Length
    modifies data
    ensures n == |EncodeValue(Blob(b))| && Written(data[..], old(data[..]), off, EncodeValue(Blob(b)))
  {
    if b.None? {
      PutNum(data, off, NIL_LEN, 4);
      n := 4;
    } else {
      n := WriteString(data, off, b.value);
    }
  }

  /** `now` is `was` with, at `start`, a frame header announcing `size` and the fields `fs` written so far. */
  ghost predicate Filled(now: seq<Byte>, was: seq<Byte>, start: nat, size: nat, fs: seq<Value>) {
    Written(now, was, start, NumBytes(size, 4) + EncodeFields(fs))
  }

  lemma FilledMore(now: seq<Byte>, mid: seq<Byte>, was: seq<Byte>, start: nat, size: nat, fs: seq<Value>, v: Value)
    requires Filled(mid, was, start, size, fs)
    requires Written(now, mid, start + 4 + |EncodeFields(fs)|, EncodeValue(v))
    ensures Filled(now, was, start, size, fs + [v])
    ensures |EncodeFields(fs + [v])| == |EncodeFields(fs)| + |EncodeValue(v)|
  {
    hide Written, EncodeFields, EncodeValue;
    EncodeSnoc(fs, v);
    FieldWritten(now, mid, was, start, NumBytes(size, 4), fs, v);
  }

  /** A frame with all its fields is the object's encoding. */
  lemma FilledObj(now: seq<Byte>, was: seq<Byte>, start: nat, size: nat, fs: seq<Value>)
    requires Filled(now, was, start, size, fs) && 4 + size == |EncodeObj(Obj(fs, []))|
    ensures Written(now, was, start, EncodeObj(Obj(fs, [])))
  {
  }

  /** A nil object is the number zero. */
  method WriteNil(data: array<Byte>, start: nat) returns (n: nat)
    requires start + 4 <= data.Length
    modifies data
    ensures n == 4 == |EncodeObj(Nil)| && Written(data[..], old(data[..]), start, EncodeObj(Nil))
  {
    PutNum(data, start, 0, 4);
    n := 4;
  }

  method NewFrame(data: array<Byte>, start: nat, size: nat)
    requires start + 4 <= data.Length
    modifies data
    ensures Filled(data[..], old(data[..]), start, size, []) && EncodeFields([]) == []
  {
    PutNum(data, start, size, 4);
    assert NumBytes(size, 4) + [] == NumBytes(size, 4);
  }

  method AddString(data: array<Byte>, at: nat, s: seq<Byte>,
                   ghost was: seq<Byte>, ghost start: nat, ghost size: nat, ghost fs: seq<Value>) returns (next: nat)
    requires Filled(data[..], was, start, size, fs) && at == start + 4 + |EncodeFields(fs)|
    requires at + 4 + |s| <= data.Length
    modifies data
    ensures Filled(data[..], was, start, size, fs + [Str(s)])
    ensures next == at + 4 + |s| == start + 4 + |EncodeFields(fs + [Str(s)])|
  {
    ghost var mid := data[..];
    var n := WriteString(data, at, s);
    FilledMore(data[..], mid, was, start, size, fs, Str(s));
    next := at + n;
  }

  method AddNum(data: array<Byte>, at: nat, v: nat, width: Pos,
                ghost was: seq<Byte>, ghost start: nat, ghost size: nat, ghost fs: seq<Value>) returns (next: nat)
    requires Filled(data[..], was, start, size, fs) && at == start + 4 + |EncodeFields(fs)|
    requires at + width <= data.Length
    modifies data
    ensures Filled(data[..], was, start, size, fs + [Num(v, width)])
    ensures next == at + width == start + 4 + |EncodeFields(fs + [Num(v, width)])|
  {
    ghost var mid := data[..];
    Bytes.PutNum(data, at, v, width);
    FilledMore(data[..], mid, was, start, size, fs, Num(v, width));
    next := at + width;
  }

  method AddBlob(data: array<Byte>, at: nat, b: Option<seq<Byte>>,
                 ghost was: seq<Byte>, ghost start: nat, ghost size: nat, ghost fs: seq<Value>) returns (next: nat)
    requires Filled(data[..], was, start, size, fs) && at == start + 4 + |EncodeFields(fs)|
    requires at + |EncodeValue(Blob(b))| <= data.Length
    modifies data
    ensures Filled(data[..], was, start, size, fs + [Blob(b)])
    ensures next == at + |EncodeValue(Blob(b))| == start + 4 + |EncodeFields(fs + [Blob(b)])|
  {
    ghost var mid := data[..];
    var n := WriteBlob(data, at, b);
    FilledMore(data[..], mid, was, start, size, fs, Blob(b));
    next := at + n;
  }

  // ---------------------------------------------------------------------------------------
  // Resuming a parse
  // ---------------------------------------------------------------------------------------

  /** The whole parse, given the fields already read and the rest still to be parsed from `off`. */
  function Resume(done: seq<Value>, schema: seq<Kind>, data: seq<Byte>, off: nat, slack: nat): Option<seq<Value>>
    requires |done| <= |schema|
  {
    var rest := ParseFrom(schema, |done|, data, off, slack);
    if rest.None? then None else Some(done + rest.value)
  }

  lemma ResumeStart(schema: seq<Kind>, data: seq<Byte>, slack: nat)
    ensures Resume([], schema, data, 0, slack) == ParseFrom(schema, 0, data, 0, slack)
  {
    var r := ParseFrom(schema, 0, data, 0, slack);
    if r.Some? {
      assert [] + r.value == r.value;
    }
  }

  lemma ResumeGo(done: seq<Value>, schema: seq<Kind>, data: seq<Byte>, off: nat, slack: nat, v: Value, next: nat)
    requires |done| < |schema| && off + MinSize(schema[|done|]) <= |data|
    requires ParseValue(schema[|done|], data, off, slack) == Go(v, next)
    ensures Resume(done, schema, data, off, slack) == Resume(done + [v], schema, data, next, slack)
  {
    hide ParseValue;
    var rest := ParseFrom(schema, |done| + 1, data, next, slack);
    if rest.Some? {
      assert done + ([v] + rest.value) == done + [v] + rest.value;
    }
  }

  lemma ResumeStop(done: seq<Value>, schema: seq<Kind>, data: seq<Byte>, off: nat, slack: nat, v: Value)
    requires |done| < |schema| && off + MinSize(schema[|done|]) <= |data|
    requires ParseValue(schema[|done|], data, off, slack) == Stop(v)
    ensures Resume(done, schema, data, off, slack) == Some(done + [v] + ZerosFrom(schema, |done| + 1))
  {
    hide ParseValue;
    var zeros := ZerosFrom(schema, |done| + 1);
    assert done + ([v] + zeros) == done + [v] + zeros;
  }

  lemma NoRoom(done: seq<Value>, schema: seq<Kind>, data: seq<Byte>, off: nat, slack: nat)
    requires |done| < |schema| && off + MinSize(schema[|done|]) > |data|
    ensures Resume(done, schema, data, off, slack) == Some(done + ZerosFrom(schema, |done|))
  {
  }

  lemma ResumeEnd(done: seq<Value>, schema: seq<Kind>, data: seq<Byte>, off: nat, slack: nat)
    requires |done| == |schema|
    ensures Resume(done, schema, data, off, slack) == Some(done)
  {
    assert done + [] == done;
  }

  /** The header of an object: none, one announcing more than there is, or a whole frame; and how far it reaches. */
  datatype Frame = NoObj(n: nat) | Short(n: nat) | Whole(n: nat, data: seq<Byte>)

  function OpenFrame(indata: seq<Byte>): (f: Frame) {
    if |indata| < 4 then NoObj(0)
    else if LenAt(indata, 0) == 0 then NoObj(4)
    else if 4 + LenAt(indata, 0) > |indata| then Short(4)
    else Whole(4 + LenAt(indata, 0), indata[4..4 + LenAt(indata, 0)])
  }

  lemma ParseFrame(schema: seq<Kind>, indata: seq<Byte>, slack: nat)
    ensures match OpenFrame(indata)
            case NoObj(n) => ParseObj(schema, indata, slack) == Some((n, Nil))
            case Short(n) => ParseObj(schema, indata, slack) == Some((n, Obj(ZerosFrom(schema, 0), [])))
            case Whole(n, data) =>
              && n <= |indata|
              && var r := ParseFrom(schema, 0, data, 0, slack + |indata| - n);
                 ParseObj(schema, indata, slack) == if r.None? then None else Some((n, Obj(r.value, [])))
  {
  }

  method ReadString(data: seq<Byte>, at: nat, ghost slack: nat) returns (s: seq<Byte>)
    requires at + 4 <= |data|
    ensures StringAt(data, at, slack) == Some(s)
  {
    var n := LenAt(data, at);
    if n + 4 > |data| - at {
      s := [];
    } else {
      s := data[at + 4..at + 4 + n];
    }
  }

  method TakeString(data: seq<Byte>, at: nat, ghost done: seq<Value>, ghost schema: seq<Kind>, ghost slack: nat)
    returns (ok: bool, s: seq<Byte>, next: nat)
    requires |done| < |schema| && schema[|done|] == KStr
    ensures ok ==> Resume(done, schema, data, at, slack) == Resume(done + [Str(s)], schema, data, next, slack)
    ensures !ok ==> s == [] && Resume(done, schema, data, at, slack) == Some(done + ZerosFrom(schema, |done|))
  {
    hide StringAt;
    if at + 4 > |data| {
      return false, [], at;
    }
    s := ReadString(data, at, slack);
    next := at + 4 + |s|;
    ok := true;
    ResumeGo(done, schema, data, at, slack, Str(s), next);
  }

  method TakeNum(data: seq<Byte>, at: nat, width: Pos, ghost done: seq<Value>, ghost schema: seq<Kind>,
                 ghost slack: nat)
    returns (ok: bool, v: nat, next: nat)
    requires |done| < |schema| && schema[|done|] == KNum(width)
    ensures v < Pow256(width)
    ensures ok ==> Resume(done, schema, data, at, slack) == Resume(done + [Num(v, width)], schema, data, next, slack)
    ensures !ok ==> v == 0 && Resume(done, schema, data, at, slack) == Some(done + ZerosFrom(schema, |done|))
  {
    if at + width > |data| {
      return false, 0, at;
    }
    v := Bytes.Num(data[at..at + width]);
    next := at + width;
    ok := true;
    ResumeGo(done, schema, data, at, slack, Num(v, width), next);
  }

  method TakeBlob(data: seq<Byte>, at: nat, ghost done: seq<Value>, ghost schema: seq<Kind>, ghost slack: nat)
    returns (ok: bool, b: Option<seq<Byte>>, next: nat)
    requires |done| < |schema| && schema[|done|] == KBlob
    ensures ok ==> Resume(done, schema, data, at, slack) == Resume(done + [Blob(b)], schema, data, next, slack)
    ensures !ok ==> b == None && Resume(done, schema, data, at, slack) == Some(done + ZerosFrom(schema, |done|))
  {
    if at + 4 > |data| {
      return false, None, at;
    }
    var n := LenAt(data, at);
    next := at + 4;
    b := None;
    if n != NIL_LEN {
      if next + n > |data| {
        ok := false;
        ResumeStop(done, schema, data, at, slack, Blob(None));
        assert done + [Blob(None)] + ZerosFrom(schema, |done| + 1) == done + ZerosFrom(schema, |done|);
        return;
      }
      b := Some(data[next..next + n]);
      next := next + n;
    }
    ok := true;
    ResumeGo(done, schema, data, at, slack, Blob(b), next);
  }

  // ---------------------------------------------------------------------------------------
  // Objects given field by field
  // ---------------------------------------------------------------------------------------

  lemma {:induction false} TypedByField(fs: seq<Value>, schema: seq<Kind>, i: nat)
    requires i + |fs| == |schema|
    requires forall j :: 0 <= j < |fs| ==> TypedValue(fs[j], schema[i + j])
    ensures TypedFields(fs, schema, i)
    decreases |fs|
  {
    if fs != [] {
      TypedByField(fs[1..], schema, i + 1);
    }
  }

  lemma {:induction false} CurrentByField(fs: seq<Value>, schema: seq<Kind>, i: nat)
    requires i + |fs| == |schema| && TypedFields(fs, schema, i)
    requires forall j :: 0 <= j < |fs| ==> TypedValue(fs[j], schema[i + j]) && CurrentValue(fs[j], schema[i + j])
    ensures CurrentFields(fs, schema, i)
    decreases |fs|
  {
    if fs != [] {
      CurrentByField(fs[1..], schema, i + 1);
    }
  }

  /** Round trip of a message given field by field. */
  lemma FieldsRoundTrip(fs: seq<Value>, schema: seq<Kind>, rest: seq<Byte>, slack: nat)
    requires schema != [] && |fs| == |schema| && |EncodeObj(Obj(fs, []))| - 4 < LIMIT
    requires forall j :: 0 <= j < |fs| ==> TypedValue(fs[j], schema[j]) && CurrentValue(fs[j], schema[j])
    ensures TypedObj(Obj(fs, []), schema) && Current(Obj(fs, []), schema)
    ensures ParseObj(schema, EncodeObj(Obj(fs, [])) + rest, slack) == Some((|EncodeObj(Obj(fs, []))|, Obj(fs, [])))
  {
    TypedByField(fs, schema, 0);
    CurrentByField(fs, schema, 0);
    RoundTrip(Obj(fs, []), schema, rest, slack);
  }

  lemma FrameLength(fs: seq<Value>, extra: seq<Byte>)
    ensures |EncodeObj(Obj(fs, extra))| == 4 + |EncodeFields(fs)| + |extra|
  {
    hide EncodeFields, NumBytes;
  }

  /** A frame of another version, cut behind `k` of the fields or with extra bytes behind all of them. */
  lemma VersionReads(fs: seq<Value>, k: nat, extra: seq<Byte>, schema: seq<Kind>, rest: seq<Byte>, slack: nat)
    requires |fs| == |schema| && 0 < k <= |fs| && (k < |fs| ==> extra == [])
    requires |EncodeObj(Obj(fs[..k], extra))| - 4 < LIMIT
    requires forall j :: 0 <= j < |fs| ==> TypedValue(fs[j], schema[j]) && CurrentValue(fs[j], schema[j])
    ensures ParseObj(schema, EncodeObj(Obj(fs[..k], extra)) + rest, slack)
         == Some((|EncodeObj(Obj(fs[..k], extra))|, Obj(fs[..k] + ZerosFrom(schema, k), [])))
  {
    hide ParseObj, EncodeObj, EncodeFields, TypedValue, CurrentValue, TypedFields, CurrentFields;
    TypedByField(fs, schema, 0);
    CurrentByField(fs, schema, 0);
    FrameLength(fs[..k], extra);
    if k < |fs| {
      CutAtField(fs, k, schema, rest, slack);
    } else {
      assert fs[..k] == fs && fs + ZerosFrom(schema, k) == fs;
      ExtraBytesIgnored(fs, extra, schema, rest, slack);
    }
  }

  /** The bytes of a message's fields, one after the other. */
  lemma FieldsFrom(fs: seq<Value>, i: nat)
    requires i < |fs|
    ensures EncodeFields(fs[i..]) == EncodeValue(fs[i]) + EncodeFields(fs[i + 1..])
  {
    assert fs[i..][1..] == fs[i + 1..];
  }

  lemma NoFields()
    ensures EncodeFields([]) == []
  {
  }

  lemma Framed(o: Obj)
    requires o.Obj?
    ensures EncodeObj(o) == NumBytes(|Body(o)|, 4) + Body(o)
  {
  }
}
