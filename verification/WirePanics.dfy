/** Where a reader of the message format panics and where it cannot, and what the format is in single bytes. */
module WirePanics {
  import opened Basics
  import opened Bytes
  import opened WireFormat

  predicate MaplessKind(k: Kind) {
    match k
    case KPairs => false
    case KOne(schema) => Mapless(schema)
    case KMany(schema) => Mapless(schema)
    case _ => true
  }

  /** No message of this layout holds a map, at any depth. */
  predicate Mapless(schema: seq<Kind>) {
    forall i :: 0 <= i < |schema| ==> MaplessKind(schema[i])
  }

  lemma LengthIsThere(data: seq<Byte>, off: nat, slack: nat)
    requires off <= |data| && slack >= 4
    ensures StringAt(data, off, slack).Some?
  {
  }

  lemma {:induction false} EntriesNeverPanic(n: nat, data: seq<Byte>, off: nat, slack: nat, acc: seq<Entry>)
    requires slack >= 4
    ensures ParseEntries(n, data, off, slack, acc).Entries?
    decreases n
  {
    hide StringAt;
    if n > 0 && off <= |data| {
      LengthIsThere(data, off, slack);
      var key := StringAt(data, off, slack).value;
      var mid := off + 4 + |key|;
      if mid + 2 <= |data| {
        LengthIsThere(data, mid, slack);
        var val := StringAt(data, mid, slack).value;
        EntriesNeverPanic(n - 1, data, mid + 4 + |val|, slack, acc + [Entry(key, val)]);
      }
    }
  }

  lemma {:induction false} ObjsNeverPanic(n: nat, schema: seq<Kind>, data: seq<Byte>, off: nat, slack: nat)
    requires off <= |data| && (slack >= 4 || Mapless(schema))
    ensures ParseObjs(n, schema, data, off, slack).Some?
    decreases schema, 3, n
  {
    if n > 0 {
      NeverPanics(schema, data[off..], slack);
      ObjsNeverPanic(n - 1, schema, data, off + ParseObj(schema, data[off..], slack).value.0, slack);
    }
  }

  lemma {:induction false} ValueNeverPanics(k: Kind, data: seq<Byte>, off: nat, slack: nat)
    requires off + MinSize(k) <= |data| && (slack >= 4 || MaplessKind(k))
    ensures ParseValue(k, data, off, slack) != Panic
    decreases k, 0, 0
  {
    match k
    case KPairs => EntriesNeverPanic(LenAt(data, off), data, off + 4, slack, []);
    case KOne(schema) => NeverPanics(schema, data[off..], slack);
    case KMany(schema) => ObjsNeverPanic(LenAt(data, off), schema, data, off + 4, slack);
    case _ =>
  }

  lemma {:induction false} FieldsNeverPanic(schema: seq<Kind>, i: nat, data: seq<Byte>, off: nat, slack: nat)
    requires i <= |schema| && (slack >= 4 || Mapless(schema))
    ensures ParseFrom(schema, i, data, off, slack).Some?
    decreases schema, 1, |schema| - i
  {
    if i < |schema| && off + MinSize(schema[i]) <= |data| {
      ValueNeverPanics(schema[i], data, off, slack);
      var r := ParseValue(schema[i], data, off, slack);
      if r.Go? {
        FieldsNeverPanic(schema, i + 1, data, r.off, slack);
      }
    }
  }

  /**
   No bytes make a reader panic that has four more bytes behind them, or whose message holds no map:
   only behind a map's entries is a length read without looking whether there is one.
   */
  lemma {:induction false} NeverPanics(schema: seq<Kind>, indata: seq<Byte>, slack: nat)
    requires slack >= 4 || Mapless(schema)
    ensures ParseObj(schema, indata, slack).Some?
    decreases schema, 2, 0
  {
    if |indata| >= 4 {
      var size := LenAt(indata, 0);
      if 4 + size <= |indata| {
        FieldsNeverPanic(schema, 0, indata[4..4 + size], 0, slack + |indata| - 4 - size);
      }
    }
  }

  // ---------------------------------------------------------------------------------------
  // Input that no writer makes
  // ---------------------------------------------------------------------------------------

  /**
   Too few bytes for a length, or a length of zero, are nil; a frame that announces more than there is
   gives an object of zeros behind its length.
   */
  lemma BadFrames(schema: seq<Kind>, indata: seq<Byte>, slack: nat)
    ensures |indata| < 4 ==> ParseObj(schema, indata, slack) == Some((0, Nil))
    ensures |indata| >= 4 && Bytes.Num(indata[..4]) == 0 ==> ParseObj(schema, indata, slack) == Some((4, Nil))
    ensures |indata| >= 4 && Bytes.Num(indata[..4]) > |indata| - 4 ==>
              ParseObj(schema, indata, slack) == Some((4, Obj(ZerosFrom(schema, 0), [])))
  {
    if |indata| >= 4 {
      assert indata[0..4] == indata[..4];
    }
  }

  /**
   A string longer than what is left is empty, and reading goes on behind its length; a byte slice longer
   than what is left ends the reading.
   */
  lemma BadLengths(data: seq<Byte>, off: nat, slack: nat)
    requires off + 4 <= |data| && off + 4 + Bytes.Num(data[off..off + 4]) > |data|
    ensures ParseValue(KStr, data, off, slack) == Go(Str([]), off + 4)
    ensures Bytes.Num(data[off..off + 4]) != 0xffff_ffff ==> ParseValue(KBlob, data, off, slack) == Stop(Blob(None))
    ensures Bytes.Num(data[off..off + 4]) == 0xffff_ffff ==>
              ParseValue(KBlob, data, off, slack) == Go(Blob(None), off + 4)
  {
  }

  /**
   A map that ends in its entries: behind the data the reading just ends; of a key's length at least the
   place, of a value's length at least two bytes must be there, and what lacks of the length is looked for
   behind the data, where it is either missing or makes the string empty.
   */
  lemma BadEntry(data: seq<Byte>, off: nat, slack: nat)
    ensures off > |data| ==> ParseEntries(1, data, off, slack, []) == Entries([], true, off)
    ensures off <= |data| < off + 4 && |data| + slack < off + 4 ==> ParseEntries(1, data, off, slack, []) == BadEntries
    ensures off + 4 <= |data| && off + 4 + Bytes.Num(data[off..off + 4]) <= |data| ==>
              var mid := off + 4 + Bytes.Num(data[off..off + 4]);
              var (key, r) := (data[off + 4..mid], ParseEntries(1, data, off, slack, []));
              && (|data| < mid + 2 ==> r == Entries([], true, mid))
              && (mid + 2 <= |data| < mid + 4 ==>
                    r == if |data| + slack < mid + 4 then BadEntries else Entries([Entry(key, [])], false, mid + 4))
  {
    assert [] + [Entry([], [])] == [Entry([], [])];
  }

  // ---------------------------------------------------------------------------------------
  // The format in single bytes
  // ---------------------------------------------------------------------------------------

  /** The low byte comes first. */
  lemma FourBytes(a: Byte, b: Byte, c: Byte, d: Byte)
    ensures NumBytes(a + 0x100 * b + 0x1_0000 * c + 0x100_0000 * d, 4) == [a, b, c, d]
  {
    hide NumBytes;
    var n3: nat := d;
    var n2: nat := c + 0x100 * n3;
    var n1: nat := b + 0x100 * n2;
    OneByte(d, 0, 0);
    OneByte(c, n3, 1);
    OneByte(b, n2, 2);
    OneByte(a, n1, 3);
    assert a + 0x100 * n1 == a + 0x100 * b + 0x1_0000 * c + 0x100_0000 * d;
  }

  lemma OneByte(a: Byte, n: nat, width: nat)
    ensures NumBytes(a + 0x100 * n, width + 1) == [a] + NumBytes(n, width) && NumBytes(n, 0) == []
  {
  }

  /** A length in front of a string, and 255 four times for what is nil. */
  lemma ShortString(s: seq<Byte>)
    requires |s| < 256
    ensures StrBytes(s) == [|s|, 0, 0, 0] + s
    ensures EncodeValue(Blob(Some(s))) == StrBytes(s)
    ensures EncodeValue(Blob(None)) == EncodeValue(Pairs(None)) == EncodeValue(NoList) == [255, 255, 255, 255]
  {
    FourBytes(|s|, 0, 0, 0);
    FourBytes(255, 255, 255, 255);
  }

  /** A count in front of the entries of a map, each a key and a value. */
  lemma ShortMap(k: seq<Byte>, v: seq<Byte>)
    requires |k| < 256 && |v| < 256
    ensures EncodeValue(Pairs(Some([Entry(k, v)]))) == [1, 0, 0, 0] + [|k|, 0, 0, 0] + k + [|v|, 0, 0, 0] + v
  {
    hide NumBytes, StrBytes;
    FourBytes(1, 0, 0, 0);
    ShortString(k);
    ShortString(v);
    var p := [Entry(k, v)];
    assert EntryBytes(p[1..]) == [];
    assert EntryBytes(p) == StrBytes(k) + StrBytes(v);
  }

  /** A count in front of the objects of a list, each with its length, which is zero for a nil one. */
  lemma ShortList(s: seq<Byte>)
    requires |s| < 252
    ensures EncodeValue(Many([Nil, Obj([Str(s)], [])])) ==
              [2, 0, 0, 0] + [0, 0, 0, 0] + [|s| + 4, 0, 0, 0] + [|s|, 0, 0, 0] + s
  {
    hide NumBytes, StrBytes;
    FourBytes(2, 0, 0, 0);
    FourBytes(0, 0, 0, 0);
    FourBytes(|s| + 4, 0, 0, 0);
    ShortString(s);
    var o := Obj([Str(s)], []);
    var fs := [Str(s)];
    assert EncodeFields(fs[1..]) == [];
    assert EncodeFields(fs) == StrBytes(s) + [] == StrBytes(s);
    assert Body(o) == StrBytes(s) + [] == StrBytes(s);
    var os := [Nil, o];
    assert os[1..] == [o] && os[1..][1..] == [];
    assert EncodeObj(o) == [|s| + 4, 0, 0, 0] + ([|s|, 0, 0, 0] + s);
    assert EncodeObjs([o]) == EncodeObj(o) + EncodeObjs([o][1..]) == EncodeObj(o);
    assert EncodeObjs(os) == EncodeObj(Nil) + EncodeObjs(os[1..]) == [0, 0, 0, 0] + EncodeObj(o);
    assert EncodeValue(Many(os)) == [2, 0, 0, 0] + EncodeObjs(os);
  }
}
