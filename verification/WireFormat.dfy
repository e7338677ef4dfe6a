/**
 The binary message format that the generator emits code for, once for every message: an
 object is a size-prefixed frame of fields, a field is a string, a fixed-width number, a byte
 slice, a string map, a nested object or a list of nested objects.

 A reader is described by its schema (one kind per field). A frame may come from a different
 version of the same message: it may carry fewer fields than the reader's schema, or its fields
 followed by extra bytes that the reader does not know.
 */
module WireFormat {
  import opened Basics
  import opened Bytes

  datatype Kind =
    | KStr
    | KNum(width: Pos)
    | KBlob
    | KPairs
    | KOne(schema: seq<Kind>)
    | KMany(schema: seq<Kind>)

  datatype Entry = Entry(key: seq<Byte>, val: seq<Byte>)

  /**
   A field's value; `NoList` is a nil slice of objects. A map is given by its entries in the order they are
   enumerated.
   */
  datatype Value =
    | Str(s: seq<Byte>)
    | Num(n: nat, width: Pos)
    | Blob(b: Option<seq<Byte>>)
    | Pairs(p: Option<seq<Entry>>)
    | One(o: Obj)
    | NoList
    | Many(os: seq<Obj>)

  /** A pointer to a message; `extra` stands for what a later version appends to its frame. */
  datatype Obj = Nil | Obj(fields: seq<Value>, extra: seq<Byte>)

  const NIL_LEN: nat := 0xffff_ffff
  const LIMIT: nat := 0x1_0000_0000

  // ---------------------------------------------------------------------------------------
  // Writing
  // ---------------------------------------------------------------------------------------

  function StrBytes(s: seq<Byte>): (r: seq<Byte>) {
    NumBytes(|s|, 4) + s
  }

  function EntryBytes(p: seq<Entry>): (r: seq<Byte>)
    ensures |r| >= 8 * |p|
  {
    if p == [] then [] else StrBytes(p[0].key) + (StrBytes(p[0].val) + EntryBytes(p[1..]))
  }

  function EncodeValue(v: Value): (r: seq<Byte>)
    decreases v, 1
  {
    match v
    case Str(s) => StrBytes(s)
    case Num(n, w) => NumBytes(n, w)
    case Blob(b) => if b.None? then NumBytes(NIL_LEN, 4) else StrBytes(b.value)
    case Pairs(p) => if p.None? then NumBytes(NIL_LEN, 4) else NumBytes(|p.value|, 4) + EntryBytes(p.value)
    case One(o) => EncodeObj(o)
    case NoList => NumBytes(NIL_LEN, 4)
    case Many(os) => NumBytes(|os|, 4) + EncodeObjs(os)
  }

  function EncodeFields(fs: seq<Value>): (r: seq<Byte>)
    decreases fs, 0
  {
    if fs == [] then [] else EncodeValue(fs[0]) + EncodeFields(fs[1..])
  }

  function Body(o: Obj): (r: seq<Byte>)
    requires o.Obj?
    decreases o, 0
  {
    EncodeFields(o.fields) + o.extra
  }

  function EncodeObj(o: Obj): (r: seq<Byte>)
    ensures |r| >= 4
    decreases o, 1
  {
    if o.Nil? then NumBytes(0, 4) else NumBytes(|Body(o)|, 4) + Body(o)
  }

  function EncodeObjs(os: seq<Obj>): (r: seq<Byte>)
    ensures |r| >= 4 * |os|
    decreases os, 0
  {
    if os == [] then [] else EncodeObj(os[0]) + EncodeObjs(os[1..])
  }

  // ---------------------------------------------------------------------------------------
  // Reading
  // ---------------------------------------------------------------------------------------

  function Zero(k: Kind): Value {
    match k
    case KStr => Str([])
    case KNum(w) => Num(0, w)
    case KBlob => Blob(None)
    case KPairs => Pairs(None)
    case KOne(_) => One(Nil)
    case KMany(_) => NoList
  }

  function ZerosFrom(schema: seq<Kind>, i: nat): (r: seq<Value>)
    requires i <= |schema|
    ensures |r| == |schema| - i
    ensures forall j :: 0 <= j < |r| ==> r[j] == Zero(schema[i + j])
    decreases |schema| - i
  {
    if i == |schema| then [] else [Zero(schema[i])] + ZerosFrom(schema, i + 1)
  }

  /** The room a fresh object's field needs before its reader looks at it. */
  function MinSize(k: Kind): Pos {
    if k.KNum? then k.width else 4
  }

  /** One field read: the reader panics, returns early leaving `v` in the field, or goes on at `off`. */
  datatype Step = Panic | Stop(v: Value) | Go(v: Value, off: nat)

  function LenAt(data: seq<Byte>, off: nat): (n: nat)
    requires off + 4 <= |data|
    ensures n < LIMIT
  {
    Widths();
    Bytes.Num(data[off..off + 4])
  }

  /**
   A string at `off`. `slack` counts the bytes of the underlying array behind `data`: the length
   is read through a reslice that may reach into them, and panics beyond them. A string that is
   longer than what is left reads as the empty string.
   */
  function StringAt(data: seq<Byte>, off: nat, slack: nat): (r: Option<seq<Byte>>) {
    if off + 4 > |data| + slack then None
    else if off + 4 > |data| || off + 4 + LenAt(data, off) > |data| then Some([])
    else Some(data[off + 4..off + 4 + LenAt(data, off)])
  }

  /** Entries read so far, whether the loop returned early with them, and the offset behind them. */
  datatype Entries = BadEntries | Entries(es: seq<Entry>, stopped: bool, off: nat)

  function ParseEntries(n: nat, data: seq<Byte>, off: nat, slack: nat, acc: seq<Entry>): Entries
    decreases n
  {
    if n == 0 then Entries(acc, false, off)
    else if off > |data| then Entries(acc, true, off)
    else
      var key := StringAt(data, off, slack);
      if key.None? then BadEntries else
      var mid := off + 4 + |key.value|;
      if mid + 2 > |data| then Entries(acc, true, mid) else
      var val := StringAt(data, mid, slack);
      if val.None? then BadEntries else
      ParseEntries(n - 1, data, mid + 4 + |val.value|, slack, acc + [Entry(key.value, val.value)])
  }

  /** Elements read so far and the offset behind them; None when a reader panicked. */
  function ParseObjs(n: nat, schema: seq<Kind>, data: seq<Byte>, off: nat, slack: nat): (r: Option<(seq<Obj>, nat)>)
    requires off <= |data|
    ensures r.Some? ==> off <= r.value.1 <= |data| && |r.value.0| == n
    decreases schema, 3, n
  {
    if n == 0 then Some(([], off)) else
    var head := ParseObj(schema, data[off..], slack);
    if head.None? then None else
    var tail := ParseObjs(n - 1, schema, data, off + head.value.0, slack);
    if tail.None? then None else Some(([head.value.1] + tail.value.0, tail.value.1))
  }

  function ParseValue(k: Kind, data: seq<Byte>, off: nat, slack: nat): Step
    requires off + MinSize(k) <= |data|
    decreases k, 0, 0
  {
    match k
    case KStr =>
      var s := StringAt(data, off, slack).value;
      Go(Str(s), off + 4 + |s|)
    case KNum(w) => Go(Num(Bytes.Num(data[off..off + w]), w), off + w)
    case KBlob =>
      var n := LenAt(data, off);
      if n == NIL_LEN then Go(Blob(None), off + 4)
      else if off + 4 + n > |data| then Stop(Blob(None))
      else Go(Blob(Some(data[off + 4..off + 4 + n])), off + 4 + n)
    case KPairs =>
      var n := LenAt(data, off);
      if n == NIL_LEN then Go(Pairs(None), off + 4)
      else
        var r := ParseEntries(n, data, off + 4, slack, []);
        if r.BadEntries? then Panic
        else if r.stopped then Stop(Pairs(Some(r.es)))
        else Go(Pairs(Some(r.es)), r.off)
    case KOne(schema) =>
      var r := ParseObj(schema, data[off..], slack);
      if r.None? then Panic else Go(One(r.value.1), off + r.value.0)
    case KMany(schema) =>
      var n := LenAt(data, off);
      if n == NIL_LEN then Go(NoList, off + 4) else
      var r := ParseObjs(n, schema, data, off + 4, slack);
      if r.None? then Panic else Go(Many(r.value.0), r.value.1)
  }

  /** Fields i, i+1, ... of the schema, zero from the first one that finds no room. None is a panic. */
  function ParseFrom(schema: seq<Kind>, i: nat, data: seq<Byte>, off: nat, slack: nat): (r: Option<seq<Value>>)
    requires i <= |schema|
    ensures r.Some? ==> |r.value| == |schema| - i
    decreases schema, 1, |schema| - i
  {
    if i == |schema| then Some([])
    else if off + MinSize(schema[i]) > |data| then Some(ZerosFrom(schema, i))
    else
      match ParseValue(schema[i], data, off, slack)
      case Panic => None
      case Stop(v) => Some([v] + ZerosFrom(schema, i + 1))
      case Go(v, next) =>
        var tail := ParseFrom(schema, i + 1, data, next, slack);
        if tail.None? then None else Some([v] + tail.value)
  }

  /** Reads an object into a fresh value: how far the reader says it got, and the object. */
  function ParseObj(schema: seq<Kind>, indata: seq<Byte>, slack: nat): (r: Option<(nat, Obj)>)
    ensures r.Some? ==> r.value.0 <= |indata|
    decreases schema, 2, 0
  {
    if |indata| < 4 then Some((0, Nil)) else
    var size := LenAt(indata, 0);
    if size == 0 then Some((4, Nil))
    else if 4 + size > |indata| then Some((4, Obj(ZerosFrom(schema, 0), [])))
    else
      var fields := ParseFrom(schema, 0, indata[4..4 + size], 0, slack + |indata| - 4 - size);
      if fields.None? then None else Some((4 + size, Obj(fields.value, [])))
  }

  // ---------------------------------------------------------------------------------------
  // What a reader makes of a frame written by any version
  // ---------------------------------------------------------------------------------------

  ghost predicate TypedValue(v: Value, k: Kind)
    decreases v, 1
  {
    match v
    case Str(_) => k.KStr?
    case Num(n, w) => k == KNum(w) && n < Pow256(w)
    case Blob(_) => k.KBlob?
    case Pairs(_) => k.KPairs?
    case One(o) => k.KOne? && TypedObj(o, k.schema)
    case NoList => k.KMany?
    case Many(os) => k.KMany? && TypedObjs(os, k.schema)
  }

  ghost predicate TypedObjs(os: seq<Obj>, schema: seq<Kind>)
    decreases os, 0
  {
    os == [] || (TypedObj(os[0], schema) && TypedObjs(os[1..], schema))
  }

  ghost predicate TypedFields(fs: seq<Value>, schema: seq<Kind>, i: nat)
    decreases fs, 0
  {
    fs == [] || (i < |schema| && TypedValue(fs[0], schema[i]) && TypedFields(fs[1..], schema, i + 1))
  }

  /** A frame of some version: a typed prefix of the reader's fields, and extra bytes only behind all of them. */
  ghost predicate TypedObj(o: Obj, schema: seq<Kind>)
    decreases o, 2
  {
    o.Obj? ==> TypedFields(o.fields, schema, 0) && (|o.fields| < |schema| ==> o.extra == [])
  }

  function AdaptValue(v: Value, k: Kind): Value
    requires TypedValue(v, k)
    decreases v, 1
  {
    match v
    case One(o) => One(Adapt(o, k.schema))
    case Many(os) => Many(AdaptObjs(os, k.schema))
    case _ => v
  }

  function AdaptObjs(os: seq<Obj>, schema: seq<Kind>): seq<Obj>
    requires TypedObjs(os, schema)
    decreases os, 0
  {
    if os == [] then [] else [Adapt(os[0], schema)] + AdaptObjs(os[1..], schema)
  }

  function AdaptFields(fs: seq<Value>, schema: seq<Kind>, i: nat): seq<Value>
    requires i <= |schema| && TypedFields(fs, schema, i)
    decreases fs, 0
  {
    if fs == [] then ZerosFrom(schema, i) else [AdaptValue(fs[0], schema[i])] + AdaptFields(fs[1..], schema, i + 1)
  }

  /** The reader's view: missing fields zero, extra bytes gone, an object without any bytes nil; at every depth. */
  function Adapt(o: Obj, schema: seq<Kind>): Obj
    requires TypedObj(o, schema)
    decreases o, 2
  {
    if o.Nil? || Body(o) == [] then Nil else Obj(AdaptFields(o.fields, schema, 0), [])
  }

  // ---------------------------------------------------------------------------------------
  // Reading back what was written
  // ---------------------------------------------------------------------------------------

  ghost predicate At(data: seq<Byte>, off: nat, part: seq<Byte>) {
    off + |part| <= |data| && data[off..off + |part|] == part
  }

  lemma AtSplit(data: seq<Byte>, off: nat, a: seq<Byte>, b: seq<Byte>)
    requires At(data, off, a + b)
    ensures At(data, off, a) && At(data, off + |a|, b)
  {
    var ab := data[off..off + |a + b|];
    assert ab[..|a|] == a && ab[|a|..] == b;
  }

  lemma AtRoom(data: seq<Byte>, off: nat, part: seq<Byte>)
    requires At(data, off, part)
    ensures off + |part| <= |data|
  {
  }

  lemma AtDrop(data: seq<Byte>, off: nat, part: seq<Byte>)
    requires At(data, off, part)
    ensures off <= |data| && At(data[off..], 0, part)
  {
  }

  lemma NumReads(n: nat, w: Pos, data: seq<Byte>, off: nat)
    requires n < Pow256(w) && At(data, off, NumBytes(n, w))
    ensures Bytes.Num(data[off..off + w]) == n
  {
    NumRoundTrip(n, w);
  }

  lemma LenReads(n: nat, data: seq<Byte>, off: nat)
    requires n < LIMIT && At(data, off, NumBytes(n, 4))
    ensures LenAt(data, off) == n
  {
    Widths();
    NumRoundTrip(n, 4);
  }

  lemma StringReads(s: seq<Byte>, data: seq<Byte>, off: nat, slack: nat)
    requires |s| < LIMIT && At(data, off, StrBytes(s))
    ensures StringAt(data, off, slack) == Some(s) && off + 4 + |s| <= |data|
  {
    AtSplit(data, off, NumBytes(|s|, 4), s);
    LenReads(|s|, data, off);
  }

  lemma EntryReads(n: nat, e: Entry, data: seq<Byte>, off: nat, slack: nat, acc: seq<Entry>)
    requires |e.key| < LIMIT && |e.val| < LIMIT
    requires At(data, off, StrBytes(e.key)) && At(data, off + 4 + |e.key|, StrBytes(e.val))
    ensures ParseEntries(n + 1, data, off, slack, acc)
         == ParseEntries(n, data, off + 8 + |e.key| + |e.val|, slack, acc + [e])
  {
    hide At, StrBytes, StringAt;
    StringReads(e.key, data, off, slack);
    StringReads(e.val, data, off + 4 + |e.key|, slack);
  }

  lemma NoEntriesRead(data: seq<Byte>, off: nat, slack: nat, acc: seq<Entry>)
    ensures ParseEntries(0, data, off, slack, acc) == Entries(acc, false, off)
  {
  }

  lemma {:induction false} EntriesRead(p: seq<Entry>, data: seq<Byte>, off: nat, slack: nat, acc: seq<Entry>)
    requires |EntryBytes(p)| < LIMIT && At(data, off, EntryBytes(p))
    ensures ParseEntries(|p|, data, off, slack, acc) == Entries(acc + p, false, off + |EntryBytes(p)|)
    decreases p
  {
    hide ParseEntries, At, StrBytes;
    if p == [] {
      assert ParseEntries(0, data, off, slack, acc) == Entries(acc + p, false, off) by {
        assert acc + p == acc;
        NoEntriesRead(data, off, slack, acc);
      }
    } else {
      EntriesSplit(p, data, off);
      var next := off + 8 + |p[0].key| + |p[0].val|;
      assert acc + [p[0]] + p[1..] == acc + p;
      EntryReads(|p| - 1, p[0], data, off, slack, acc);
      EntriesRead(p[1..], data, next, slack, acc + [p[0]]);
    }
  }

  lemma EntryFirst(p: seq<Entry>)
    requires p != []
    ensures EntryBytes(p) == StrBytes(p[0].key) + (StrBytes(p[0].val) + EntryBytes(p[1..]))
    ensures |StrBytes(p[0].key)| == 4 + |p[0].key| && |StrBytes(p[0].val)| == 4 + |p[0].val|
  {
    hide NumBytes;
  }

  lemma EntriesSplit(p: seq<Entry>, data: seq<Byte>, off: nat)
    requires p != [] && At(data, off, EntryBytes(p))
    ensures |EntryBytes(p)| == 8 + |p[0].key| + |p[0].val| + |EntryBytes(p[1..])|
    ensures At(data, off, StrBytes(p[0].key)) && At(data, off + 4 + |p[0].key|, StrBytes(p[0].val))
    ensures At(data, off + 8 + |p[0].key| + |p[0].val|, EntryBytes(p[1..]))
  {
    hide At, EntryBytes, StrBytes;
    var k, v, rest := StrBytes(p[0].key), StrBytes(p[0].val), EntryBytes(p[1..]);
    EntryFirst(p);
    AtSplit(data, off, k, v + rest);
    AtSplit(data, off + |k|, v, rest);
  }

  lemma PairsRead(p: Option<seq<Entry>>, data: seq<Byte>, off: nat, slack: nat)
    requires |EncodeValue(Pairs(p))| < LIMIT && At(data, off, EncodeValue(Pairs(p)))
    ensures ParseValue(KPairs, data, off, slack) == Go(Pairs(p), off + |EncodeValue(Pairs(p))|)
  {
    hide ParseEntries, EntryBytes;
    if p.None? {
      LenReads(NIL_LEN, data, off);
    } else {
      AtSplit(data, off, NumBytes(|p.value|, 4), EntryBytes(p.value));
      LenReads(|p.value|, data, off);
      EntriesRead(p.value, data, off + 4, slack, []);
      assert [] + p.value == p.value;
    }
  }

  lemma BlobReads(b: Option<seq<Byte>>, data: seq<Byte>, off: nat, slack: nat)
    requires |EncodeValue(Blob(b))| < LIMIT && At(data, off, EncodeValue(Blob(b)))
    ensures ParseValue(KBlob, data, off, slack) == Go(Blob(b), off + |EncodeValue(Blob(b))|)
  {
    if b.None? {
      LenReads(NIL_LEN, data, off);
    } else {
      AtSplit(data, off, NumBytes(|b.value|, 4), b.value);
      LenReads(|b.value|, data, off);
    }
  }

  lemma {:induction false} ValueReads(v: Value, k: Kind, data: seq<Byte>, off: nat, slack: nat)
    requires TypedValue(v, k) && |EncodeValue(v)| < LIMIT && At(data, off, EncodeValue(v))
    ensures |EncodeValue(v)| >= MinSize(k)
    ensures ParseValue(k, data, off, slack) == Go(AdaptValue(v, k), off + |EncodeValue(v)|)
    decreases v, 1
  {
    hide StringAt, LenAt, ParseEntries, ParseObj, ParseObjs, EncodeObj, EncodeObjs, EntryBytes, At, NumBytes, Adapt,
         AdaptObjs;
    AtRoom(data, off, EncodeValue(v));
    match v
    case Str(s) =>
      StringReads(s, data, off, slack);
    case Num(n, w) =>
      NumReads(n, w, data, off);
    case Blob(b) =>
      BlobReads(b, data, off, slack);
    case Pairs(p) =>
      PairsRead(p, data, off, slack);
    case One(o) =>
      OneReads(o, k.schema, data, off, slack);
    case NoList =>
      LenReads(NIL_LEN, data, off);
    case Many(os) =>
      ManyReads(os, k.schema, data, off, slack);
  }

  lemma {:induction false} OneReads(o: Obj, schema: seq<Kind>, data: seq<Byte>, off: nat, slack: nat)
    requires TypedObj(o, schema) && |EncodeObj(o)| < LIMIT && At(data, off, EncodeObj(o))
    ensures |EncodeObj(o)| >= 4
    ensures ParseValue(KOne(schema), data, off, slack) == Go(AdaptValue(One(o), KOne(schema)), off + |EncodeObj(o)|)
    decreases o, 3
  {
    hide ParseObj, EncodeObj;
    AtRoom(data, off, EncodeObj(o));
    AtDrop(data, off, EncodeObj(o));
    ObjReads(o, schema, data[off..], slack);
  }

  lemma {:induction false} ManyReads(os: seq<Obj>, schema: seq<Kind>, data: seq<Byte>, off: nat, slack: nat)
    requires TypedObjs(os, schema) && |EncodeValue(Many(os))| < LIMIT && At(data, off, EncodeValue(Many(os)))
    ensures ParseValue(KMany(schema), data, off, slack)
         == Go(Many(AdaptObjs(os, schema)), off + |EncodeValue(Many(os))|)
    decreases os, 1
  {
    hide At, LenAt, ParseObjs;
    AtRoom(data, off, EncodeValue(Many(os)));
    AtSplit(data, off, NumBytes(|os|, 4), EncodeObjs(os));
    LenReads(|os|, data, off);
    ObjsRead(os, schema, data, off + 4, slack);
  }

  lemma {:induction false} ObjsRead(os: seq<Obj>, schema: seq<Kind>, data: seq<Byte>, off: nat, slack: nat)
    requires TypedObjs(os, schema) && |EncodeObjs(os)| < LIMIT && At(data, off, EncodeObjs(os))
    ensures ParseObjs(|os|, schema, data, off, slack) == Some((AdaptObjs(os, schema), off + |EncodeObjs(os)|))
    decreases os, 0
  {
    hide At, LenAt, ParseObj, EncodeObj, Adapt;
    if os != [] {
      AtRoom(data, off, EncodeObjs(os));
      AtSplit(data, off, EncodeObj(os[0]), EncodeObjs(os[1..]));
      AtDrop(data, off, EncodeObj(os[0]));
      ObjReads(os[0], schema, data[off..], slack);
      ObjsRead(os[1..], schema, data, off + |EncodeObj(os[0])|, slack);
    }
  }

  lemma {:induction false} FieldsRead(fs: seq<Value>, schema: seq<Kind>, i: nat, data: seq<Byte>, off: nat, slack: nat)
    requires i <= |schema| && TypedFields(fs, schema, i)
    requires |EncodeFields(fs)| < LIMIT && At(data, off, EncodeFields(fs))
    requires i + |fs| < |schema| ==> off + |EncodeFields(fs)| == |data|
    ensures ParseFrom(schema, i, data, off, slack) == Some(AdaptFields(fs, schema, i))
    decreases fs, 0
  {
    hide EncodeValue, ParseValue, AdaptValue, TypedValue;
    if fs != [] {
      AtSplit(data, off, EncodeValue(fs[0]), EncodeFields(fs[1..]));
      ValueReads(fs[0], schema[i], data, off, slack);
      FieldsRead(fs[1..], schema, i + 1, data, off + |EncodeValue(fs[0])|, slack);
    }
  }

  /**
   The law of the format. A frame written by any version of the message, followed by anything,
   reads as the reader's view of it and is skipped to its exact end: with all of the reader's
   fields and no extra bytes this is the round trip, with extra bytes a newer writer, with fewer
   fields an older one; each nested object may be of a different version again.
   */
  lemma {:induction false} ObjReads(o: Obj, schema: seq<Kind>, data: seq<Byte>, slack: nat)
    requires TypedObj(o, schema) && |EncodeObj(o)| - 4 < LIMIT && At(data, 0, EncodeObj(o))
    ensures ParseObj(schema, data, slack) == Some((|EncodeObj(o)|, Adapt(o, schema)))
    decreases o, 2
  {
    hide LenAt, ParseFrom, AdaptFields, EncodeFields;
    if o.Nil? {
      LenReads(0, data, 0);
    } else {
      var size := |Body(o)|;
      AtSplit(data, 0, NumBytes(size, 4), Body(o));
      LenReads(size, data, 0);
      if size > 0 {
        var inner := data[4..4 + size];
        assert At(inner, 0, EncodeFields(o.fields));
        FieldsRead(o.fields, schema, 0, inner, 0, slack + |data| - 4 - size);
      }
    }
  }

  // ---------------------------------------------------------------------------------------
  // Consequences: same version, newer writer, older writer
  // ---------------------------------------------------------------------------------------

  /** Written by the reader's own version, at every depth below; nested messages have fields. */
  ghost predicate CurrentValue(v: Value, k: Kind)
    requires TypedValue(v, k)
    decreases v, 1
  {
    match v
    case One(o) => k.schema != [] && Current(o, k.schema)
    case Many(os) => k.schema != [] && CurrentObjs(os, k.schema)
    case _ => true
  }

  ghost predicate CurrentObjs(os: seq<Obj>, schema: seq<Kind>)
    requires TypedObjs(os, schema)
    decreases os, 0
  {
    os == [] || (Current(os[0], schema) && CurrentObjs(os[1..], schema))
  }

  ghost predicate CurrentFields(fs: seq<Value>, schema: seq<Kind>, i: nat)
    requires i <= |schema| && TypedFields(fs, schema, i)
    decreases fs, 0
  {
    fs == [] || (CurrentValue(fs[0], schema[i]) && CurrentFields(fs[1..], schema, i + 1))
  }

  ghost predicate Current(o: Obj, schema: seq<Kind>)
    requires TypedObj(o, schema)
    decreases o, 2
  {
    o.Obj? ==> |o.fields| == |schema| && o.extra == [] && CurrentFields(o.fields, schema, 0)
  }

  lemma {:induction false} CurrentFieldsStay(fs: seq<Value>, schema: seq<Kind>, i: nat)
    requires i <= |schema| && TypedFields(fs, schema, i) && CurrentFields(fs, schema, i)
    ensures i + |fs| <= |schema| && AdaptFields(fs, schema, i) == fs + ZerosFrom(schema, i + |fs|)
    decreases fs, 0
  {
    if fs != [] {
      CurrentValueStays(fs[0], schema[i]);
      CurrentFieldsStay(fs[1..], schema, i + 1);
    }
  }

  lemma {:induction false} CurrentValueStays(v: Value, k: Kind)
    requires TypedValue(v, k) && CurrentValue(v, k)
    ensures AdaptValue(v, k) == v
    decreases v, 1
  {
    match v
    case One(o) => CurrentStays(o, k.schema);
    case Many(os) => CurrentObjsStay(os, k.schema);
    case _ =>
  }

  lemma {:induction false} CurrentObjsStay(os: seq<Obj>, schema: seq<Kind>)
    requires schema != [] && TypedObjs(os, schema) && CurrentObjs(os, schema)
    ensures AdaptObjs(os, schema) == os
    decreases os, 0
  {
    if os != [] {
      CurrentStays(os[0], schema);
      CurrentObjsStay(os[1..], schema);
    }
  }

  /** A field takes at least one byte, so only a message without fields has an empty frame. */
  lemma FieldsHaveBytes(fs: seq<Value>, schema: seq<Kind>)
    requires fs != [] && TypedFields(fs, schema, 0)
    ensures |EncodeFields(fs)| > 0
  {
  }

  lemma {:induction false} CurrentStays(o: Obj, schema: seq<Kind>)
    requires schema != [] && TypedObj(o, schema) && Current(o, schema)
    ensures Adapt(o, schema) == o
    decreases o, 2
  {
    if o.Obj? {
      FieldsHaveBytes(o.fields, schema);
      CurrentFieldsStay(o.fields, schema, 0);
      assert AdaptFields(o.fields, schema, 0) == o.fields;
    }
  }

  /**
   Round trip: reading a written object gives it back, whatever follows it, except that a message
   without any fields comes back as nil.
   */
  lemma RoundTrip(o: Obj, schema: seq<Kind>, rest: seq<Byte>, slack: nat)
    requires TypedObj(o, schema) && Current(o, schema) && |EncodeObj(o)| - 4 < LIMIT
    ensures ParseObj(schema, EncodeObj(o) + rest, slack) == Some((|EncodeObj(o)|, o)) <==> (o.Nil? || schema != [])
    ensures schema == [] ==> ParseObj(schema, EncodeObj(o) + rest, slack) == Some((4, Nil))
  {
    ObjReads(o, schema, EncodeObj(o) + rest, slack);
    if schema != [] {
      CurrentStays(o, schema);
    }
  }

  /** Newer writer: extra bytes behind the reader's fields change nothing, and are skipped. */
  lemma ExtraBytesIgnored(fs: seq<Value>, extra: seq<Byte>, schema: seq<Kind>, rest: seq<Byte>, slack: nat)
    requires schema != [] && |fs| == |schema| && TypedFields(fs, schema, 0) && CurrentFields(fs, schema, 0)
    requires |EncodeFields(fs)| + |extra| < LIMIT
    ensures ParseObj(schema, EncodeObj(Obj(fs, extra)) + rest, slack)
         == Some((4 + |EncodeFields(fs)| + |extra|, Obj(fs, [])))
  {
    var o := Obj(fs, extra);
    ObjReads(o, schema, EncodeObj(o) + rest, slack);
    FieldsHaveBytes(fs, schema);
    CurrentFieldsStay(fs, schema, 0);
    assert fs + ZerosFrom(schema, |schema|) == fs;
  }

  lemma {:induction false} PrefixTyped(fs: seq<Value>, schema: seq<Kind>, i: nat, k: nat)
    requires i <= |schema| && TypedFields(fs, schema, i) && CurrentFields(fs, schema, i) && k <= |fs|
    ensures TypedFields(fs[..k], schema, i) && CurrentFields(fs[..k], schema, i)
    decreases k
  {
    if k > 0 {
      PrefixTyped(fs[1..], schema, i + 1, k - 1);
      assert fs[..k][1..] == fs[1..][..k - 1];
    }
  }

  /**
   Older writer: a frame cut behind its first k fields reads as those fields and zero for the rest,
   if and only if k is positive; a frame cut down to nothing reads as nil, not as an object of zeros.
   */
  lemma CutAtField(fs: seq<Value>, k: nat, schema: seq<Kind>, rest: seq<Byte>, slack: nat)
    requires |fs| == |schema| && TypedFields(fs, schema, 0) && CurrentFields(fs, schema, 0) && k <= |fs|
    requires |EncodeFields(fs[..k])| < LIMIT
    ensures var r := ParseObj(schema, EncodeObj(Obj(fs[..k], [])) + rest, slack);
            && (r == Some((4 + |EncodeFields(fs[..k])|, Obj(fs[..k] + ZerosFrom(schema, k), []))) <==> k > 0)
            && (k == 0 ==> r == Some((4, Nil)))
  {
    hide ParseObj;
    PrefixTyped(fs, schema, 0, k);
    var o := Obj(fs[..k], []);
    ObjReads(o, schema, EncodeObj(o) + rest, slack);
    CurrentFieldsStay(fs[..k], schema, 0);
    if k > 0 {
      FieldsHaveBytes(fs[..k], schema);
    }
  }
}
