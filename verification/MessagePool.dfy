/**
 Pooled messages: a size-classed pool of message objects, each with its own buffer, and the
 operations that fill, read and release a message.
 */
module MessagePool {
  import opened Basics
  import opened Bytes
  import opened Codec

  /** The message pool's size classes, up to the largest message. */
  const SIZE_CONTROL: seq<nat> := [
    32, 64, 128, 256, 512, 1024, 2 * 1024, 4 * 1024, 6 * 1024, 8 * 1024, 10 * 1024, 15 * 1024, 20 * 1024,
    25 * 1024, 30 * 1024, 35 * 1024, 40 * 1024, 45 * 1024, 50 * 1024, 55 * 1024, 60 * 1024, 64 * 1024,
    128 * 1024, 256 * 1024, 512 * 1024, 1024 * 1024, 2 * 1024 * 1024, 4 * 1024 * 1024, 8 * 1024 * 1024]

  ghost predicate Table(sizes: seq<nat>) {
    sizes != [] && forall i, j :: 0 <= i < j < |sizes| ==> sizes[i] < sizes[j]
  }

  /** A list that grows from each element to the next is a table, as is every part of it. */
  lemma {:induction false} StepwiseIsTable(sizes: seq<nat>, n: nat)
    requires 0 < n <= |sizes| && forall i :: 0 < i < |sizes| ==> sizes[i - 1] < sizes[i]
    ensures Table(sizes[..n])
  {
    if n > 1 {
      StepwiseIsTable(sizes, n - 1);
      forall i | 0 <= i < n - 1 ensures sizes[i] < sizes[n - 1] {
        assert sizes[..n - 1][i] <= sizes[..n - 1][n - 2] == sizes[n - 2];
      }
    }
  }

  lemma SizeControlIsTable()
    ensures Table(SIZE_CONTROL) && SIZE_CONTROL[|SIZE_CONTROL| - 1] == MAX_SIZE
  {
    hide Table;
    StepwiseIsTable(SIZE_CONTROL, |SIZE_CONTROL|);
    assert SIZE_CONTROL[..|SIZE_CONTROL|] == SIZE_CONTROL;
  }

  /** getIndex: the smallest class whose size is enough, or -1. */
  method GetIndex(sizes: seq<nat>, size: int) returns (index: int)
    requires Table(sizes)
    ensures index == -1 <==> size > sizes[|sizes| - 1]
    ensures index != -1 ==> 0 <= index < |sizes| && size <= sizes[index]
    ensures index != -1 ==> forall i :: 0 <= i < index ==> sizes[i] < size
  {
    if size <= sizes[0] {
      return 0;
    }
    for i := 1 to |sizes|
      invariant sizes[i - 1] < size
    {
      if size > sizes[i - 1] && size <= sizes[i] {
        return i;
      }
    }
    index := -1;
  }

  /** getIndexSafety: the largest class whose size is covered, or -1. */
  method GetIndexSafety(sizes: seq<nat>, size: int) returns (index: int)
    requires Table(sizes)
    ensures index == -1 <==> size < sizes[0]
    ensures index != -1 ==> 0 <= index < |sizes| && sizes[index] <= size
    ensures index != -1 ==> forall i :: index < i < |sizes| ==> size < sizes[i]
  {
    if size < sizes[0] {
      return -1;
    }
    for i := 1 to |sizes|
      invariant sizes[i - 1] <= size
    {
      if size >= sizes[i - 1] && size < sizes[i] {
        return i - 1;
      }
    }
    index := |sizes| - 1;
  }

  /** How an operation on a message's buffer ends: Go's slices panic on negative bounds. */
  datatype Outcome = Done | Refused | Panicked

  /** copy(buffer[soffset:soffset+bytenum], data[doffset:doffset+bytenum]), whose upper bounds are within both. */
  method CopyPart(buffer: array<Byte>, soffset: int, data: seq<Byte>, doffset: int, bytenum: int) returns (out: Outcome)
    requires soffset + bytenum <= buffer.Length && doffset + bytenum <= |data|
    modifies buffer
    ensures out == if soffset < 0 || doffset < 0 || bytenum < 0 then Panicked else Done
    ensures out == Done ==> buffer[soffset..soffset + bytenum] == data[doffset..doffset + bytenum]
    ensures out != Done ==> buffer[..] == old(buffer[..])
  {
    if soffset < 0 || doffset < 0 || bytenum < 0 {
      return Panicked;
    }
    PutBytes(buffer, soffset, data[doffset..doffset + bytenum]);
    assert buffer[soffset..soffset + bytenum] == buffer[..][soffset..soffset + bytenum];
    out := Done;
  }

  class MessageBinary {
    var totalLength: int
    var msgID: MsgID
    var protoLength: int
    /** The body as a part of the buffer; None is a nil slice. */
    var protoBound: Option<(nat, nat)>
    var buffer: array<Byte>

    constructor (size: nat)
      ensures fresh(buffer) && buffer.Length == size && totalLength == 0
    {
      buffer := new Byte[size](_ => 0);
      totalLength, msgID, protoLength, protoBound := 0, 0, 0, None;
    }

    method Reset()
      modifies this`totalLength, this`msgID, this`protoBound
      ensures totalLength == 0 && msgID == 0 && protoBound == None
    {
      totalLength, msgID, protoBound := 0, 0, None;
    }

    ghost function ProtoData(): Option<seq<Byte>>
      reads this, buffer
    {
      if protoBound.Some? && protoBound.value.0 + protoBound.value.1 <= buffer.Length
      then Some(buffer[protoBound.value.0..protoBound.value.0 + protoBound.value.1])
      else None
    }

    /** Refuses an end outside the buffer; a negative offset or count that passes the test makes the slice panic. */
    method SetProtoDataBound(offset: int, bytenum: int) returns (out: Outcome)
      modifies this`protoBound, this`protoLength
      ensures out == Refused <==> !(0 <= offset + bytenum <= buffer.Length)
      ensures out == Panicked <==> out != Refused && (offset < 0 || bytenum < 0)
      ensures if out == Done then protoBound == Some((offset, bytenum)) && protoLength == bytenum
              else protoBound == old(protoBound) && protoLength == old(protoLength)
    {
      if buffer.Length < offset + bytenum || offset + bytenum < 0 {
        return Refused;
      }
      if offset < 0 || bytenum < 0 {
        return Panicked;
      }
      protoBound := Some((offset, bytenum));
      protoLength := bytenum;
      out := Done;
    }

    /** Bounds, sizes and header around a body that is in the buffer already. */
    method SealFrame(cmdid: MsgID, ghost protodata: seq<Byte>, datalen: nat)
      requires HEAD_SIZE + datalen <= buffer.Length && datalen == |protodata|
      requires buffer[HEAD_SIZE..HEAD_SIZE + datalen] == protodata
      modifies this`totalLength, this`msgID, this`protoBound, this`protoLength, buffer
      ensures totalLength == HEAD_SIZE + datalen && msgID == cmdid && ProtoData() == Some(protodata)
      ensures buffer[..totalLength] == FrameBytes(Msg(cmdid, protodata))
    {
      var _ := SetProtoDataBound(HEAD_SIZE, datalen);
      totalLength := HEAD_SIZE + datalen;
      msgID := cmdid;
      WriteHead(buffer, totalLength, cmdid);
      assert buffer[HEAD_SIZE..totalLength] == buffer[HEAD_SIZE..][..datalen] == protodata;
      assert buffer[..totalLength] == buffer[..HEAD_SIZE] + buffer[HEAD_SIZE..totalLength];
    }
  }

  /**
   The pool. `held` is ghost: the messages handed out and not freed yet. Go's sync.Pool may drop
   its content at any time, so a pooled object need not be found again.
   */
  class FlexiblePool {
    const sizeControler: seq<nat>
    var pools: seq<seq<MessageBinary>>
    ghost var held: set<MessageBinary>

    ghost function Pooled(): set<MessageBinary>
      reads this
    {
      set i, j | 0 <= i < |pools| && 0 <= j < |pools[i]| :: pools[i][j]
    }

    ghost function PooledBuffers(): set<array<Byte>>
      reads this, Pooled()
    {
      set m | m in Pooled() :: m.buffer
    }

    /**
     Every pooled object is big enough for its class and in the pool once, nothing is both pooled and
     held, and no two messages, pooled or held, share a buffer.
     */
    ghost predicate Valid()
      reads this, Pooled(), held
    {
      && Table(sizeControler) && |pools| == |sizeControler|
      && (forall i, j :: 0 <= i < |pools| && 0 <= j < |pools[i]| ==>
            pools[i][j].buffer.Length >= sizeControler[i] && pools[i][j] !in held)
      && (forall i, j, k, l :: 0 <= i < |pools| && 0 <= j < |pools[i]| && 0 <= k < |pools| && 0 <= l < |pools[k]| ==>
            pools[i][j] == pools[k][l] ==> i == k && j == l)
      && (forall m, n :: m in Pooled() + held && n in Pooled() + held && m != n ==> m.buffer != n.buffer)
    }

    constructor (sizes: seq<nat>)
      requires Table(sizes)
      ensures Valid() && held == {} && Pooled() == {} && sizeControler == sizes
    {
      sizeControler := sizes;
      pools := seq(|sizes|, _ => []);
      held := {};
    }

    function MaxSize(): nat
      requires sizeControler != []
    {
      sizeControler[|sizeControler| - 1]
    }

    method TakePooled(index: nat) returns (msg: MessageBinary)
      requires Valid() && index < |pools| && pools[index] != []
      modifies this
      ensures Valid() && msg in old(Pooled()) && msg.buffer.Length >= sizeControler[index]
      ensures msg !in old(held) && held == old(held) + {msg} && Pooled() <= old(Pooled())
      ensures msg == old(pools[index][0]) && pools == old(pools)[index := old(pools[index])[1..]]
    {
      msg := pools[index][0];
      pools := pools[index := pools[index][1..]];
      held := held + {msg};
    }

    method MakeNew(size: nat) returns (msg: MessageBinary)
      requires Valid()
      modifies this`held
      ensures Valid() && fresh(msg) && fresh(msg.buffer) && msg.buffer.Length == size
      ensures held == old(held) + {msg}
    {
      msg := new MessageBinary(size);
      held := held + {msg};
    }

    /**
     A message of the smallest class that is enough for `size`: the first one pooled there, or a new one of
     that size; None for a size above the largest class.
     */
    method Get(size: int) returns (m: Option<MessageBinary>, ghost index: nat, ghost found: bool)
      requires Valid()
      modifies this
      ensures Valid()
      ensures m.None? <==> size > MaxSize()
      ensures m.None? ==> held == old(held) && pools == old(pools)
      ensures m.Some? ==> m.value !in old(held) && held == old(held) + {m.value} && m.value.buffer.Length >= size
      ensures m.Some? ==> m.value in old(Pooled()) || (fresh(m.value) && fresh(m.value.buffer))
      ensures Pooled() <= old(Pooled())
      ensures m.Some? ==> index < |sizeControler| && size <= sizeControler[index]
      ensures m.Some? && index > 0 ==> sizeControler[index - 1] < size
      ensures m.Some? && found ==> index < |old(pools)| && old(pools[index]) != [] && m.value == old(pools[index][0])
      ensures m.Some? && found ==> pools == old(pools)[index := old(pools[index])[1..]]
      ensures m.Some? && !found ==>
                fresh(m.value) && m.value.buffer.Length == sizeControler[index] && pools == old(pools)
    {
      index, found := 0, false;
      if size > MaxSize() {
        return None, 0, false;
      }
      var bucket := GetIndex(sizeControler, size);
      index := bucket;
      var tried: bool := *;
      var msg;
      if tried && pools[bucket] != [] {
        found := true;
        msg := TakePooled(bucket);
      } else {
        msg := MakeNew(sizeControler[bucket]);
      }
      m := Some(msg);
    }

    /** GetMessageBinary: a message with a buffer of at least this size. */
    method GetMessageBinary(size: int) returns (m: Option<MessageBinary>)
      requires Valid()
      modifies this
      ensures Valid()
      ensures m.None? <==> size > MaxSize()
      ensures m.None? ==> held == old(held) && pools == old(pools)
      ensures m.Some? ==> m.value !in old(held) && held == old(held) + {m.value} && m.value.buffer.Length >= size
      ensures m.Some? ==> m.value in old(Pooled()) || (fresh(m.value) && fresh(m.value.buffer))
      ensures Pooled() <= old(Pooled())
    {
      ghost var index, found;
      m, index, found := Get(size);
    }

    /**
     Takes a message back into the largest class that its size covers; one outside all classes is left to the
     collector.
     */
    method Put(msg: MessageBinary) returns (ok: bool, ghost index: nat)
      requires Valid() && msg in held
      modifies this
      ensures Valid() && held == old(held) - {msg}
      ensures ok == (sizeControler[0] <= msg.buffer.Length <= MaxSize())
      ensures Pooled() == if ok then old(Pooled()) + {msg} else old(Pooled())
      ensures ok ==> index < |sizeControler| && sizeControler[index] <= msg.buffer.Length
      ensures ok && index + 1 < |sizeControler| ==> msg.buffer.Length < sizeControler[index + 1]
      ensures pools == if ok && index < |old(pools)| then old(pools)[index := old(pools[index]) + [msg]] else old(pools)
    {
      held := held - {msg};
      var size := msg.buffer.Length;
      if size > MaxSize() {
        return false, 0;
      }
      var bucket := GetIndexSafety(sizeControler, size);
      if bucket < 0 {
        return false, 0;
      }
      PutBack(msg, bucket);
      ok, index := true, bucket;
    }

    method PutBack(msg: MessageBinary, index: nat)
      requires Valid() && index < |pools| && msg !in Pooled() + held && msg.buffer.Length >= sizeControler[index]
      requires forall m :: m in Pooled() + held ==> m.buffer != msg.buffer
      modifies this`pools
      ensures Valid() && Pooled() == old(Pooled()) + {msg}
      ensures pools == old(pools)[index := old(pools[index]) + [msg]]
    {
      hide Table;
      ghost var before := pools;
      pools := pools[index := pools[index] + [msg]];
      assert forall i, j :: 0 <= i < |pools| && 0 <= j < |pools[i]| ==>
        if i == index && j == |before[i]| then pools[i][j] == msg else j < |before[i]| && pools[i][j] == before[i][j];
      assert pools[index][|before[index]|] == msg;
    }

    /** Free: the message is reset, its buffer stays with it. */
    method Free(msg: MessageBinary) returns (ok: bool)
      requires Valid() && msg in held
      modifies this, msg`totalLength, msg`msgID, msg`protoBound
      ensures Valid() && held == old(held) - {msg} && msg.totalLength == 0 && msg.protoBound == None
      ensures ok == (sizeControler[0] <= msg.buffer.Length <= MaxSize())
    {
      msg.Reset();
      ghost var index;
      ok, index := Put(msg);
    }

    /** Sees to a buffer of the length needed: one that is too small is replaced by that of a new message. */
    method EnsureLength(msg: MessageBinary, need: int) returns (ok: bool)
      requires Valid() && msg in held
      modifies this, msg`buffer
      ensures Valid() && held == old(held) && Pooled() <= old(Pooled())
      ensures ok <==> need <= old(msg.buffer).Length || need <= MaxSize()
      ensures need <= old(msg.buffer).Length || !ok ==> msg.buffer == old(msg.buffer)
      ensures msg.buffer == old(msg.buffer) || fresh(msg.buffer) || msg.buffer in old(PooledBuffers())
      ensures ok ==> need <= msg.buffer.Length
    {
      ok := true;
      if msg.buffer.Length < need {
        var tmpmsg := GetMessageBinary(need);
        if tmpmsg.None? {
          return false;
        }
        TakeOver(msg, tmpmsg.value);
      }
    }

    /** The message gets the other one's buffer, and that one is given up. */
    method TakeOver(msg: MessageBinary, other: MessageBinary)
      requires Valid() && msg in held && other in held && msg != other
      modifies this`held, msg`buffer
      ensures Valid() && held == old(held) - {other} && msg.buffer == other.buffer
    {
      hide Table;
      held := held - {other};
      msg.buffer := other.buffer;
    }

    /**
     MessageBinary.Read: copies a part of `data` into the message's buffer at `soffset`. A buffer
     that is too small is replaced by that of a new message of the right size, which nobody else has.
     Nothing looks at the signs of offsets and count: the copy panics on a negative one.
     */
    method ReadInto(msg: MessageBinary, soffset: int, data: seq<Byte>, doffset: int, bytenum: int)
      returns (out: Outcome)
      requires Valid() && msg in held
      modifies this, msg`buffer, msg.buffer, PooledBuffers()
      ensures Valid() && held == old(held) && Pooled() <= old(Pooled())
      ensures out == Refused <==>
                doffset + bytenum > |data| ||
                (soffset + bytenum > old(msg.buffer).Length && soffset + bytenum > MaxSize())
      ensures out == Panicked <==> out != Refused && (soffset < 0 || doffset < 0 || bytenum < 0)
      ensures soffset + bytenum <= old(msg.buffer).Length || out == Refused ==> msg.buffer == old(msg.buffer)
      ensures msg.buffer == old(msg.buffer) || fresh(msg.buffer) || msg.buffer in old(PooledBuffers())
      ensures out == Done ==> soffset + bytenum <= msg.buffer.Length
      ensures out == Done ==> msg.buffer[soffset..soffset + bytenum] == data[doffset..doffset + bytenum]
      ensures out != Done && msg.buffer == old(msg.buffer) ==> msg.buffer[..] == old(msg.buffer[..])
    {
      if doffset + bytenum > |data| {
        return Refused;
      }
      var ok := EnsureLength(msg, soffset + bytenum);
      if !ok {
        return Refused;
      }
      out := CopyPart(msg.buffer, soffset, data, doffset, bytenum);
    }

    /** DefaultEncodeBytes: a held message whose first bytes are the frame, or an empty one if the body is too large. */
    method EncodeBytes(cmdid: MsgID, protodata: seq<Byte>) returns (msg: MessageBinary)
      requires Valid() && MaxSize() >= MAX_SIZE
      modifies this, Pooled(), PooledBuffers()
      ensures Valid() && msg !in old(held) && held == old(held) + {msg}
      ensures 0 <= msg.totalLength <= msg.buffer.Length
      ensures msg.totalLength == if 6 + |protodata| < 8 * 1024 * 1024 then 6 + |protodata| else 0
      ensures msg.totalLength > 0 ==>
                msg.buffer[..msg.totalLength] == NumBytes(6 + |protodata|, 4) + NumBytes(cmdid, 2) + protodata
      ensures msg.buffer[..msg.totalLength] == EncodedBytes(Msg(cmdid, protodata))
      ensures msg.totalLength > 0 ==> msg.ProtoData() == Some(protodata) && msg.msgID == cmdid
    {
      hide NumBytes;
      var datalen := |protodata|;
      var totalLength := HEAD_SIZE + datalen;
      if totalLength >= MAX_SIZE {
        var empty := GetMessageBinary(0);
        msg := empty.value;
        msg.Reset();
        return;
      }
      var got := GetMessageBinary(totalLength);
      msg := got.value;
      var _ := ReadInto(msg, HEAD_SIZE, protodata, 0, datalen);
      msg.SealFrame(cmdid, protodata, datalen);
    }

    method Stamp(msg: MessageBinary, totalLen: nat, msgID: MsgID)
      requires Valid() && msg in held
      modifies msg`totalLength, msg`msgID
      ensures Valid() && msg.totalLength == totalLen && msg.msgID == msgID
    {
      msg.totalLength := totalLen;
      msg.msgID := msgID;
    }

    /** The decoder's way to a message object: None, and so a dropped message, only above the largest class. */
    method MakeMessage(totalLen: nat, msgID: MsgID, cmdbuff: seq<Byte>) returns (m: Option<MessageBinary>)
      requires Valid() && totalLen == HEAD_SIZE + |cmdbuff|
      modifies this, Pooled(), PooledBuffers()
      ensures Valid() && (m.None? <==> totalLen > MaxSize())
      ensures m.None? ==> held == old(held)
      ensures m.Some? ==> m.value !in old(held) && held == old(held) + {m.value}
      ensures m.Some? ==> m.value.totalLength == totalLen && m.value.msgID == msgID
      ensures m.Some? ==> m.value.ProtoData() == Some(cmdbuff)
    {
      m := GetMessageBinary(totalLen);
      if m.None? {
        return;
      }
      var msg := m.value;
      Stamp(msg, totalLen, msgID);
      var _ := ReadInto(msg, HEAD_SIZE, cmdbuff, 0, |cmdbuff|);
      assert cmdbuff[0..|cmdbuff|] == cmdbuff;
      var _ := msg.SetProtoDataBound(HEAD_SIZE, |cmdbuff|);
    }
  }

  /** DefaultWriteHead: the total length and the id, in front. */
  method WriteHead(data: array<Byte>, totalLen: nat, msgid: MsgID)
    requires HEAD_SIZE <= data.Length
    modifies data
    ensures data[..HEAD_SIZE] == NumBytes(totalLen, 4) + NumBytes(msgid, 2)
    ensures data[HEAD_SIZE..] == old(data[HEAD_SIZE..])
  {
    PutNum(data, 0, totalLen, 4);
    ghost var mid := data[..];
    PutNum(data, 4, msgid, 2);
    assert data[..4] == mid[..4];
  }
}
