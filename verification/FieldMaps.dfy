/** String maps on the wire: written in any enumeration order, read by inserting entry after entry. */
module FieldMaps {
  import opened Basics
  import opened Bytes
  import opened WireFormat
  import opened FieldIO

  type StringMap = map<seq<Byte>, seq<Byte>>

  /** The map built by inserting the entries in order; a later entry overrides an earlier one. */
  function MapOf(es: seq<Entry>): (m: StringMap) {
    if es == [] then map[]
    else MapOf(es[..|es| - 1])[es[|es| - 1].key := es[|es| - 1].val]
  }

  /** `es` enumerates the map: inserting its entries builds the map, each key once. */
  ghost predicate Enumerates(es: seq<Entry>, m: StringMap) {
    MapOf(es) == m && |es| == |m|
  }

  ghost predicate Represents(es: Option<seq<Entry>>, m: Option<StringMap>) {
    es.Some? == m.Some? && (es.Some? ==> MapOf(es.value) == m.value)
  }

  /** One map and one enumeration order for it, or a nil map. */
  ghost predicate Lists(es: Option<seq<Entry>>, m: Option<StringMap>) {
    es.Some? == m.Some? && (es.Some? ==> Enumerates(es.value, m.value))
  }

  function EntrySize(key: seq<Byte>, val: seq<Byte>): nat {
    |key| + 4 + |val| + 4
  }

  /** The bytes of all entries, added up in some order. */
  ghost function MapBytes(m: StringMap): nat
    decreases |m|
  {
    if m == map[] then 0 else
    var k :| k in m;
    EntrySize(k, m[k]) + MapBytes(m - {k})
  }

  /** ... and the order does not matter. */
  lemma {:induction false} MapBytesAny(m: StringMap, x: seq<Byte>)
    requires x in m
    ensures MapBytes(m) == EntrySize(x, m[x]) + MapBytes(m - {x})
    decreases |m|
  {
    var k :| k in m && MapBytes(m) == EntrySize(k, m[k]) + MapBytes(m - {k});
    if k != x {
      MapBytesAny(m - {k}, x);
      MapBytesAny(m - {x}, k);
      assert m - {k} - {x} == m - {x} - {k};
    }
  }

  lemma {:induction false} MapOfSize(es: seq<Entry>)
    ensures |MapOf(es)| <= |es|
    decreases |es|
  {
    if es != [] {
      var m := MapOf(es[..|es| - 1]);
      MapOfSize(es[..|es| - 1]);
      MapInsertSize(m, es[|es| - 1].key, es[|es| - 1].val);
    }
  }

  /** A key's value is that of its last entry. */
  lemma {:induction false} LaterEntryWins(es: seq<Entry>, i: nat)
    requires i < |es| && forall j :: i < j < |es| ==> es[j].key != es[i].key
    ensures es[i].key in MapOf(es) && MapOf(es)[es[i].key] == es[i].val
    decreases |es|
  {
    if i < |es| - 1 {
      LaterEntryWins(es[..|es| - 1], i);
    }
  }

  lemma StringLength(s: seq<Byte>)
    ensures |StrBytes(s)| == 4 + |s|
  {
  }

  lemma {:induction false} EntryBytesAppend(es: seq<Entry>, e: Entry)
    ensures EntryBytes(es + [e]) == EntryBytes(es) + (StrBytes(e.key) + StrBytes(e.val))
    decreases |es|
  {
    hide StrBytes;
    if es == [] {
      assert es + [e] == [e] && [e][1..] == [];
      assert StrBytes(e.key) + (StrBytes(e.val) + []) == [] + (StrBytes(e.key) + StrBytes(e.val));
    } else {
      EntryBytesAppend(es[1..], e);
      assert (es + [e])[1..] == es[1..] + [e];
      var k, v := StrBytes(es[0].key), StrBytes(es[0].val);
      var x, y := EntryBytes(es[1..]), StrBytes(e.key) + StrBytes(e.val);
      assert k + (v + (x + y)) == k + (v + x) + y;
    }
  }

  lemma OneMoreEntry(es: seq<Entry>, e: Entry)
    ensures |EntryBytes(es + [e])| == |EntryBytes(es)| + EntrySize(e.key, e.val)
  {
    hide EntryBytes;
    EntryBytesAppend(es, e);
    StringLength(e.key);
    StringLength(e.val);
  }

  /** Without its last entry an enumeration lists the map without that key. */
  lemma EnumerationLast(es: seq<Entry>, m: StringMap)
    requires Enumerates(es, m) && es != []
    ensures var (front, e) := (es[..|es| - 1], es[|es| - 1]);
            e.key in m && m[e.key] == e.val && Enumerates(front, m - {e.key})
  {
    var front, e := es[..|es| - 1], es[|es| - 1];
    MapOfSize(front);
    MapInsertSize(MapOf(front), e.key, e.val);
    assert m - {e.key} == MapOf(front);
  }

  /** All enumerations of a map take the same number of bytes, the one the size computation arrives at. */
  lemma {:induction false} EnumerationSize(es: seq<Entry>, m: StringMap)
    requires Enumerates(es, m)
    ensures |EntryBytes(es)| == MapBytes(m)
    decreases |es|
  {
    if es != [] {
      hide Enumerates, EntryBytes, MapBytes, StrBytes, MapOf;
      var front, e := es[..|es| - 1], es[|es| - 1];
      EnumerationLast(es, m);
      MapBytesAny(m, e.key);
      EnumerationSize(front, m - {e.key});
      OneMoreEntry(front, e);
      assert front + [e] == es;
    }
  }

  lemma PairsSize(es: Option<seq<Entry>>, m: Option<StringMap>)
    requires Lists(es, m)
    ensures |EncodeValue(Pairs(es))| == 4 + if m.Some? then MapBytes(m.value) else 0
  {
    if es.Some? {
      EnumerationSize(es.value, m.value);
    }
  }

  /** The size loop of a map field: adds up its entries in any order. */
  method GetSizeMap(m: Option<StringMap>) returns (n: nat)
    ensures n == 4 + if m.Some? then MapBytes(m.value) else 0
  {
    n := 4;
    if m.Some? {
      var rest := m.value;
      while rest != map[]
        invariant n + MapBytes(rest) == 4 + MapBytes(m.value)
        decreases |rest|
      {
        var k :| k in rest;
        MapBytesAny(rest, k);
        n := n + EntrySize(k, rest[k]);
        rest := rest - {k};
      }
    }
  }

  lemma EntryWritten(now: seq<Byte>, mid: seq<Byte>, mid': seq<Byte>, was: seq<Byte>, start: nat, head: seq<Byte>,
                     es: seq<Entry>, e: Entry)
    requires Written(mid, was, start, head + EntryBytes(es))
    requires Written(mid', mid, start + |head| + |EntryBytes(es)|, StrBytes(e.key))
    requires Written(now, mid', start + |head| + |EntryBytes(es)| + 4 + |e.key|, StrBytes(e.val))
    ensures Written(now, was, start, head + EntryBytes(es + [e]))
  {
    var w := head + EntryBytes(es);
    var k, v := StrBytes(e.key), StrBytes(e.val);
    hide Written, EntryBytes, StrBytes;
    assert |k| == 4 + |e.key| by { StringLength(e.key); }
    WrittenMore(mid', mid, was, start, w, k);
    WrittenMore(now, mid', was, start, w + k, v);
    EntryBytesAppend(es, e);
    assert w + k + v == head + (EntryBytes(es) + (k + v));
  }

  method WriteEntry(data: array<Byte>, at: nat, e: Entry,
                    ghost was: seq<Byte>, ghost start: nat, ghost head: seq<Byte>, ghost es: seq<Entry>)
    returns (n: nat)
    requires Written(data[..], was, start, head + EntryBytes(es))
    requires at == start + |head| + |EntryBytes(es)| && at + EntrySize(e.key, e.val) <= data.Length
    modifies data
    ensures n == EntrySize(e.key, e.val)
    ensures Written(data[..], was, start, head + EntryBytes(es + [e]))
  {
    hide Written, EntryBytes;
    ghost var mid := data[..];
    var klen := WriteString(data, at, e.key);
    ghost var mid' := data[..];
    var vlen := WriteString(data, at + klen, e.val);
    EntryWritten(data[..], mid, mid', was, start, head, es, e);
    n := klen + vlen;
  }

  /** Part of the map is in `done`, each key once, and the rest is still to come. */
  ghost predicate Split(m: StringMap, done: seq<Entry>, rest: StringMap) {
    && rest.Keys <= m.Keys && (forall k :: k in rest ==> rest[k] == m[k])
    && MapOf(done) == m - rest.Keys && |done| + |rest| == |m|
    && |EntryBytes(done)| + MapBytes(rest) == MapBytes(m)
  }

  lemma SplitMore(m: StringMap, done: seq<Entry>, rest: StringMap, k: seq<Byte>)
    requires Split(m, done, rest) && k in rest
    ensures Split(m, done + [Entry(k, rest[k])], rest - {k})
    ensures EntrySize(k, rest[k]) <= MapBytes(rest)
    ensures |EntryBytes(done + [Entry(k, rest[k])])| == |EntryBytes(done)| + EntrySize(k, rest[k])
  {
    hide EntryBytes;
    var e := Entry(k, rest[k]);
    MapBytesAny(rest, k);
    OneMoreEntry(done, e);
    assert (done + [e])[..|done|] == done;
    assert m - (rest - {k}).Keys == MapOf(done)[k := rest[k]];
  }

  /** Writes the number of entries, or the nil marker, and the entries in any order. */
  method WriteMap(data: array<Byte>, at: nat, m: Option<StringMap>) returns (n: nat, ghost es: Option<seq<Entry>>)
    requires at + 4 + (if m.Some? then MapBytes(m.value) else 0) <= data.Length
    modifies data
    ensures Lists(es, m) && n == |EncodeValue(Pairs(es))|
    ensures Written(data[..], old(data[..]), at, EncodeValue(Pairs(es)))
  {
    hide Written, EntryBytes, Split, MapOf, MapBytes;
    ghost var was := data[..];
    if m.None? {
      PutNum(data, at, NIL_LEN, 4);
      n, es := 4, None;
      PutIsWritten(data[..], was, at, NIL_LEN);
      return;
    }
    PutNum(data, at, |m.value|, 4);
    PutIsWritten(data[..], was, at, |m.value|);
    ghost var head := NumBytes(|m.value|, 4);
    var rest := m.value;
    ghost var done: seq<Entry> := [];
    n := 4;
    SplitStart(m.value, head);
    while rest != map[]
      invariant Split(m.value, done, rest)
      invariant n == 4 + |EntryBytes(done)| && n + MapBytes(rest) == 4 + MapBytes(m.value)
      invariant Written(data[..], was, at, head + EntryBytes(done))
      decreases |rest|
    {
      var k :| k in rest;
      SplitMore(m.value, done, rest, k);
      SplitSize(m.value, done + [Entry(k, rest[k])], rest - {k});
      var len := WriteEntry(data, at + n, Entry(k, rest[k]), was, at, head, done);
      n := n + len;
      done := done + [Entry(k, rest[k])];
      rest := rest - {k};
    }
    SplitEnd(m.value, done, rest);
    es := Some(done);
  }

  lemma SplitStart(m: StringMap, head: seq<Byte>)
    ensures Split(m, [], m)
    ensures EntryBytes([]) == [] && head + EntryBytes([]) == head
  {
  }

  lemma SplitSize(m: StringMap, done: seq<Entry>, rest: StringMap)
    requires Split(m, done, rest)
    ensures |EntryBytes(done)| + MapBytes(rest) == MapBytes(m)
  {
  }

  lemma SplitEnd(m: StringMap, done: seq<Entry>, rest: StringMap)
    requires Split(m, done, rest) && rest == map[]
    ensures Enumerates(done, m)
  {
  }

  lemma PutIsWritten(now: seq<Byte>, was: seq<Byte>, at: nat, v: nat)
    requires at + 4 <= |was| && now == was[..at] + NumBytes(v, 4) + was[at + 4..]
    ensures Written(now, was, at, NumBytes(v, 4))
  {
  }

  // ---------------------------------------------------------------------------------------
  // Reading
  // ---------------------------------------------------------------------------------------

  datatype Outcome = Complete | Early | Panicked

  /** The read loop of a map field. It may panic when a length is read beyond the underlying array. */
  method ReadEntries(n: nat, data: seq<Byte>, at: nat, slack: nat)
    returns (how: Outcome, m: StringMap, next: nat, ghost es: seq<Entry>)
    ensures how != Panicked ==> MapOf(es) == m
    ensures ParseEntries(n, data, at, slack, []) ==
              if how == Panicked then BadEntries else Entries(es, how == Early, next)
  {
    hide StringAt;
    m, next, es := map[], at, [];
    for i := 0 to n
      invariant MapOf(es) == m
      invariant ParseEntries(n, data, at, slack, []) == ParseEntries(n - i, data, next, slack, es)
    {
      if next > |data| {
        return Early, m, next, es;
      }
      var key, ok := TryString(data, next, slack);
      if !ok {
        return Panicked, m, next, es;
      }
      var mid := next + 4 + |key|;
      if mid + 2 > |data| {
        return Early, m, mid, es;
      }
      var val;
      val, ok := TryString(data, mid, slack);
      if !ok {
        return Panicked, m, next, es;
      }
      next := mid + 4 + |val|;
      m := m[key := val];
      ghost var more := es + [Entry(key, val)];
      assert more[..|more| - 1] == es;
      es := more;
    }
    how := Complete;
  }

  /** readBinaryString where fewer than four bytes may be left. */
  method TryString(data: seq<Byte>, at: nat, slack: nat) returns (s: seq<Byte>, ok: bool)
    ensures StringAt(data, at, slack) == if ok then Some(s) else None
  {
    if at + 4 > |data| + slack {
      return [], false;
    }
    if at + 4 > |data| {
      return [], true;
    }
    s := ReadString(data, at, slack);
    ok := true;
  }

  method TakeMap(data: seq<Byte>, at: nat, slack: nat, ghost done: seq<Value>, ghost schema: seq<Kind>)
    returns (how: Outcome, m: Option<StringMap>, next: nat, ghost es: Option<seq<Entry>>)
    requires |done| < |schema| && schema[|done|] == KPairs
    ensures Represents(es, m)
    ensures match how
            case Complete =>
              Resume(done, schema, data, at, slack) == Resume(done + [Pairs(es)], schema, data, next, slack)
            case Early =>
              Resume(done, schema, data, at, slack) == Some(done + [Pairs(es)] + ZerosFrom(schema, |done| + 1))
            case Panicked => Resume(done, schema, data, at, slack) == None
  {
    hide ParseEntries, MapOf;
    how, m, next, es := Early, None, at, None;
    if at + 4 > |data| {
      assert done + ([Pairs(None)] + ZerosFrom(schema, |done| + 1)) ==
          done + [Pairs(None)] + ZerosFrom(schema, |done| + 1);
      return;
    }
    var n := LenAt(data, at);
    next := at + 4;
    if n == NIL_LEN {
      how := Complete;
    } else {
      var m';
      ghost var entries;
      how, m', next, entries := ReadEntries(n, data, at + 4, slack);
      if how == Panicked {
        assert ParseValue(schema[|done|], data, at, slack) == Panic;
        return;
      }
      m, es := Some(m'), Some(entries);
    }
    if how == Complete {
      ResumeGo(done, schema, data, at, slack, Pairs(es), next);
    } else {
      ResumeStop(done, schema, data, at, slack, Pairs(es));
    }
  }
}
