/**
 A TCP connection: the send loop that joins queued messages into one write, and the receive loop
 that decodes whatever fragments arrive. The scheduler and the network are nondeterministic: a poll
 of the send channel may find it empty at any time, a read takes part of what is on its way.
 */
module TcpConn {
  import opened Basics
  import opened Bytes
  import opened IOBuffers
  import opened Codec

  const MAX_PACK := 200
  const SERVER_BUFFER_SIZE := MAX_SIZE * 10

  /** An encoded message: the part of its buffer that its total length covers. */
  datatype Packet = Packet(bytes: seq<Byte>)

  function JoinPackets(ps: seq<Packet>): seq<Byte> {
    if ps == [] then [] else JoinPackets(ps[..|ps| - 1]) + ps[|ps| - 1].bytes
  }

  /** The send buffer behind the writes of a batch; a packet that does not fit is left out. */
  function JoinView(v: View, batch: seq<Packet>, defaultLength: nat, banned: bool): View {
    if batch == [] then v
    else
      var front := JoinView(v, batch[..|batch| - 1], defaultLength, banned);
      WriteView(front, batch[|batch| - 1].bytes, defaultLength, banned)
  }

  /** What the join guards let pass: a further packet only into a buffer with room for any message. */
  ghost predicate Batched(v: View, batch: seq<Packet>, defaultLength: nat, banned: bool) {
    && |batch| <= MAX_PACK
    && forall i :: 1 <= i < |batch| ==>
         JoinView(v, batch[..i], defaultLength, banned).max >= MAX_SIZE + |JoinPackets(batch[..i])|
  }

  lemma JoinSnoc(ps: seq<Packet>, p: Packet)
    ensures JoinPackets(ps + [p]) == JoinPackets(ps) + p.bytes
  {
  }

  lemma {:induction false} JoinAppend(a: seq<Packet>, b: seq<Packet>)
    ensures JoinPackets(a + b) == JoinPackets(a) + JoinPackets(b)
    decreases |b|
  {
    if b == [] {
      assert a + b == a;
    } else {
      assert (a + b)[..|a + b| - 1] == a + b[..|b| - 1];
      JoinAppend(a, b[..|b| - 1]);
    }
  }

  lemma WriteLength(v: View, src: seq<Byte>, size: nat)
    requires v.max == size
    ensures WriteView(v, src, size, true) == if |v.queue| + |src| <= size then View(v.queue + src, size) else v
  {
  }

  /**
   With a banned buffer for at least one message a batch is never longer than the buffer. It is kept
   whole if and only if there is room behind what a failed write may have left, so always in an empty one.
   */
  lemma {:induction false} ServerBatchFits(v: View, batch: seq<Packet>, size: nat)
    requires size >= MAX_SIZE && (forall i :: 0 <= i < |batch| ==> |batch[i].bytes| < MAX_SIZE)
    requires v.max == size && |v.queue| <= size && Batched(v, batch, size, true)
    ensures |JoinPackets(batch)| <= size && JoinView(v, batch, size, true).max == size
    ensures |JoinView(v, batch, size, true).queue| <= |v.queue| + |JoinPackets(batch)|
    ensures |JoinView(v, batch, size, true).queue| <= size
    ensures JoinView(v, batch, size, true).queue == v.queue + JoinPackets(batch) <==>
              |v.queue| + |JoinPackets(batch)| <= size
    decreases |batch|
  {
    hide WriteView;
    if batch != [] {
      var front, last := batch[..|batch| - 1], batch[|batch| - 1].bytes;
      assert forall i :: 1 <= i < |front| ==> front[..i] == batch[..i];
      ServerBatchFits(v, front, size);
      assert |front| >= 1 ==> size >= MAX_SIZE + |JoinPackets(front)|;
      WriteLength(JoinView(v, front, size, true), last, size);
      assert v.queue + JoinPackets(batch) == (v.queue + JoinPackets(front)) + last;
    }
  }

  /**
   With a client's auto-growing buffer every message is sent alone. It is kept if and only if, together
   with what a failed write may have left behind, it fits into sixteen times the default length;
   otherwise it is lost, no error reaches the caller, and the buffer still holds what it did.
   */
  lemma ClientBatch(v: View, batch: seq<Packet>, size: nat)
    requires 0 < size && GROWTH_LIMIT * size < MAX_SIZE && batch != []
    requires Bounded(v, size) && Batched(v, batch, size, false)
    ensures |batch| == 1
    ensures var queue := JoinView(v, batch, size, false).queue;
            queue == if |v.queue| + |JoinPackets(batch)| > GROWTH_LIMIT * size then v.queue
                     else v.queue + JoinPackets(batch)
  {
    var p := batch[0];
    assert batch[..1] == [p] && [p][..0] == [];
    assert JoinPackets([p]) == [] + p.bytes && [] + p.bytes == p.bytes;
    var w := JoinView(v, [p], size, false);
    assert w == WriteView(JoinView(v, [p][..0], size, false), p.bytes, size, false) ==
        WriteView(v, p.bytes, size, false);
    assert w.max < MAX_SIZE;
    assert |batch| <= 1;
    assert batch == [p];
  }

  // ---------------------------------------------------------------------------------------
  // What is written
  // ---------------------------------------------------------------------------------------

  /** A write to the socket: the bytes that it took, which may be some before it failed. */
  datatype Attempt = Attempt(bytes: seq<Byte>, ok: bool)

  /** All that the socket took. */
  function OnWire(writes: seq<Attempt>): seq<Byte> {
    if writes == [] then [] else OnWire(writes[..|writes| - 1]) + writes[|writes| - 1].bytes
  }

  /** What it took in writes that succeeded: the rest stays in the buffer and is written again. */
  function Acked(writes: seq<Attempt>): seq<Byte> {
    if writes == [] then [] else
    var (front, last) := (writes[..|writes| - 1], writes[|writes| - 1]);
    if last.ok then Acked(front) + last.bytes else Acked(front)
  }

  /** What a failed write took comes again: the writes behind it and the buffer begin with it. */
  ghost predicate Repeated(writes: seq<Attempt>, queue: seq<Byte>) {
    forall i :: 0 <= i < |writes| && !writes[i].ok ==> writes[i].bytes <= Acked(writes[i + 1..]) + queue
  }

  /** The wire carries the output and nothing else exactly if no failed write took anything. */
  lemma {:induction false} WireIsOutput(writes: seq<Attempt>)
    ensures |OnWire(writes)| >= |Acked(writes)|
    ensures OnWire(writes) == Acked(writes) <==>
              forall i :: 0 <= i < |writes| && !writes[i].ok ==> writes[i].bytes == []
  {
    if writes != [] {
      var front, last := writes[..|writes| - 1], writes[|writes| - 1];
      WireIsOutput(front);
      assert forall i :: 0 <= i < |front| ==> front[i] == writes[i];
      if !last.ok && last.bytes == [] {
        assert OnWire(writes) == OnWire(front);
      }
      if OnWire(writes) == Acked(writes) && last.ok {
        assert OnWire(writes)[..|OnWire(front)|] == OnWire(front) && Acked(writes)[..|Acked(front)|] == Acked(front);
      }
    }
  }

  lemma AckedMore(writes: seq<Attempt>, w: Attempt)
    ensures Acked(writes + [w]) == if w.ok then Acked(writes) + w.bytes else Acked(writes)
  {
  }

  /** The buffer grows, and is written, with success or without. */
  lemma RepeatedMore(writes: seq<Attempt>, queue: seq<Byte>, more: seq<Byte>)
    requires Repeated(writes, queue)
    ensures Repeated(writes, queue + more)
  {
    forall i | 0 <= i < |writes| && !writes[i].ok ensures writes[i].bytes <= Acked(writes[i + 1..]) + (queue + more) {
      assert Acked(writes[i + 1..]) + (queue + more) == Acked(writes[i + 1..]) + queue + more;
    }
  }

  lemma RepeatedWrite(writes: seq<Attempt>, queue: seq<Byte>, w: Attempt)
    requires Repeated(writes, queue) && w.bytes <= queue && (w.ok ==> w.bytes == queue)
    ensures Repeated(writes + [w], if w.ok then [] else queue)
  {
    var left := if w.ok then [] else queue;
    var all := writes + [w];
    forall i | 0 <= i < |all| && !all[i].ok ensures all[i].bytes <= Acked(all[i + 1..]) + left {
      if i < |writes| {
        assert all[i + 1..] == writes[i + 1..] + [w];
        AckedMore(writes[i + 1..], w);
        assert Acked(all[i + 1..]) + left == Acked(writes[i + 1..]) + queue;
      } else {
        assert all[i + 1..] == [] && Acked([]) + left == left;
      }
    }
  }

  datatype SendStart = SendStart(queue: seq<Packet>, output: seq<Byte>, acked: nat, finished: seq<Packet>, waiting: int)

  /** Some of the packets, in their order. */
  predicate Subsequence(some: seq<Packet>, all: seq<Packet>)
    decreases |all|
  {
    if all == [] then some == []
    else || (some != [] && some[|some| - 1] == all[|all| - 1] && Subsequence(some[..|some| - 1], all[..|all| - 1]))
         || Subsequence(some, all[..|all| - 1])
  }

  lemma {:induction false} SubsequenceSelf(all: seq<Packet>)
    ensures Subsequence(all, all)
    decreases |all|
  {
    if all != [] {
      SubsequenceSelf(all[..|all| - 1]);
    }
  }

  lemma {:induction false} SubsequenceJoin(a: seq<Packet>, x: seq<Packet>, b: seq<Packet>, y: seq<Packet>)
    requires Subsequence(a, x) && Subsequence(b, y)
    ensures Subsequence(a + b, x + y)
    decreases |y|
  {
    if y == [] {
      assert a + b == a && x + y == x;
    } else {
      assert (x + y)[..|x + y| - 1] == x + y[..|y| - 1];
      if Subsequence(b, y[..|y| - 1]) {
        SubsequenceJoin(a, x, b, y[..|y| - 1]);
      } else {
        SubsequenceJoin(a, x, b[..|b| - 1], y[..|y| - 1]);
        assert (a + b)[..|a + b| - 1] == a + b[..|b| - 1];
      }
    }
  }

  /** A batch adds whole packets to the buffer, those that fit. */
  lemma {:induction false} BatchKept(v: View, batch: seq<Packet>, defaultLength: nat, banned: bool)
    returns (kept: seq<Packet>)
    ensures Subsequence(kept, batch)
    ensures JoinView(v, batch, defaultLength, banned).queue == v.queue + JoinPackets(kept)
    decreases |batch|
  {
    if batch == [] {
      kept := [];
    } else {
      var front, last := batch[..|batch| - 1], batch[|batch| - 1];
      kept := BatchKept(v, front, defaultLength, banned);
      var w := JoinView(v, front, defaultLength, banned);
      if WriteFits(w, last.bytes, defaultLength, banned) {
        JoinSnoc(kept, last);
        assert v.queue + JoinPackets(kept) + last.bytes == v.queue + (JoinPackets(kept) + last.bytes);
        assert (kept + [last])[..|kept|] == kept;
        kept := kept + [last];
      }
    }
  }

  class TCPConn {
    const sendBuffer: IOBuffer
    /** The send channel, in order, with all that is still going to be put into it. */
    var sendmsgchan: seq<Packet>
    const joined: array<Packet>
    var waitingSendBufferLength: int
    /** The writes to the socket, and the messages whose send-finish callback has run and that are freed. */
    var writes: seq<Attempt>
    var finished: seq<Packet>

    const recvBuffer: IOBuffer
    const codec: DefaultCodec
    var recvmsgchan: seq<Msg>

    ghost predicate Valid()
      reads this, sendBuffer, recvBuffer, codec
    {
      && joined.Length == MAX_PACK && sendBuffer != recvBuffer
      && sendBuffer.Valid() && recvBuffer.Valid() && codec.Valid()
      && sendBuffer.buf != recvBuffer.buf
    }

    constructor (sendBufferSize: nat, recvBufferSize: nat, queue: seq<Packet>)
      ensures Valid() && fresh({sendBuffer, recvBuffer, codec, joined, sendBuffer.buf, recvBuffer.buf})
      ensures sendBuffer.AsView() == View([], sendBufferSize) && sendBuffer.defaultLength == sendBufferSize
      ensures recvBuffer.AsView() == View([], recvBufferSize) && recvBuffer.defaultLength == recvBufferSize
      ensures codec.State() == None && !sendBuffer.banAutoResize && !recvBuffer.banAutoResize
      ensures sendmsgchan == queue && writes == []
      ensures finished == [] && recvmsgchan == [] && waitingSendBufferLength == 0
    {
      sendBuffer := new IOBuffer(sendBufferSize);
      recvBuffer := new IOBuffer(recvBufferSize);
      codec := new DefaultCodec();
      joined := new Packet[MAX_PACK](_ => Packet([]));
      sendmsgchan, writes, finished, recvmsgchan, waitingSendBufferLength := queue, [], [], [], 0;
    }

    method SetBanAutoResize(value: bool)
      requires Valid()
      modifies sendBuffer`banAutoResize, recvBuffer`banAutoResize
      ensures Valid() && sendBuffer.banAutoResize == value && recvBuffer.banAutoResize == value
    {
      sendBuffer.SetBanAutoResize(value);
      recvBuffer.SetBanAutoResize(value);
    }

    /** The next message of a batch: the first one, or what the channel holds while count and size allow it. */
    method NextMsg(first: Option<Packet>, nowpkgsum: nat, nowpkglen: nat) returns (p: Option<Packet>)
      modifies this`sendmsgchan
      ensures if nowpkgsum == 0 && first.Some? then p == first && sendmsgchan == old(sendmsgchan)
              else if p.None? then sendmsgchan == old(sendmsgchan)
              else [p.value] + sendmsgchan == old(sendmsgchan)
                   && nowpkgsum < 200 && sendBuffer.maxLength >= 8 * 1024 * 1024 + nowpkglen
    {
      if nowpkgsum == 0 && first.Some? {
        return first;
      }
      if nowpkgsum >= MAX_PACK {
        return None;
      }
      if sendBuffer.TotalSize() < MAX_SIZE || nowpkglen > sendBuffer.TotalSize() - MAX_SIZE {
        return None;
      }
      var ready: bool := *;
      if ready && sendmsgchan != [] {
        p := Some(sendmsgchan[0]);
        sendmsgchan := sendmsgchan[1..];
      } else {
        p := None;
      }
    }

    method SetSlot(i: nat, msg: Packet)
      requires i < joined.Length
      modifies joined
      ensures joined[..i + 1] == old(joined[..i]) + [msg]
    {
      joined[i] := msg;
    }

    /** joinMsgByFunc: writes messages to the send buffer while there is a next one. */
    method JoinMsgByFunc(first: Option<Packet>) returns (nowpkgsum: nat, ghost batch: seq<Packet>)
      requires Valid()
      modifies this`sendmsgchan, joined, sendBuffer, sendBuffer.buf
      ensures Valid() && sendBuffer.banAutoResize == old(sendBuffer.banAutoResize)
      ensures sendBuffer.buf == old(sendBuffer.buf) || fresh(sendBuffer.buf)
      ensures nowpkgsum <= MAX_PACK && joined[..nowpkgsum] == batch && (first.Some? ==> batch != [])
      ensures batch + sendmsgchan == Queued(first) + old(sendmsgchan)
      ensures Batched(old(sendBuffer.AsView()), batch, sendBuffer.defaultLength, old(sendBuffer.banAutoResize))
      ensures sendBuffer.AsView()
           == JoinView(old(sendBuffer.AsView()), batch, sendBuffer.defaultLength, old(sendBuffer.banAutoResize))
    {
      hide JoinPackets, JoinView, WriteView, WriteFits, Batched;
      ghost var v0, def, ban := sendBuffer.AsView(), sendBuffer.defaultLength, sendBuffer.banAutoResize;
      nowpkgsum, batch := 0, [];
      var nowpkglen := 0;
      JoinNothing(v0, def, ban);
      while true
        invariant Valid() && sendBuffer.banAutoResize == ban
        invariant sendBuffer.buf == old(sendBuffer.buf) || fresh(sendBuffer.buf)
        invariant nowpkgsum == |batch| <= MAX_PACK && joined[..nowpkgsum] == batch && nowpkglen == |JoinPackets(batch)|
        invariant if nowpkgsum == 0 then sendmsgchan == old(sendmsgchan)
                  else batch + sendmsgchan == Queued(first) + old(sendmsgchan)
        invariant Batched(v0, batch, def, ban) && sendBuffer.AsView() == JoinView(v0, batch, def, ban)
        decreases |sendmsgchan|, if nowpkgsum == 0 then 1 else 0
      {
        ghost var chan := sendmsgchan;
        var msg := NextMsg(first, nowpkgsum, nowpkglen);
        if msg.None? {
          break;
        }
        QueueMore(batch, msg.value, sendmsgchan, chan);
        var sendata := msg.value.bytes;
        JoinMore(v0, batch, msg.value, def, ban);
        var _ := sendBuffer.Write(sendata);
        SetSlot(nowpkgsum, msg.value);
        batch := batch + [msg.value];
        nowpkgsum := nowpkgsum + 1;
        nowpkglen := nowpkglen + |sendata|;
      }
    }

    /**
     Sends a batch: the joined bytes in one write, then the send-finish callback and the release of
     each message of the batch. A write that fails, perhaps after some bytes, leaves all of them in the buffer.
     */
    method SendMsgList(first: Option<Packet>, failsAfter: Option<nat>) returns (ghost batch: seq<Packet>)
      requires Valid()
      modifies this`sendmsgchan, this`writes, this`finished, this`waitingSendBufferLength, joined,
               sendBuffer, sendBuffer.buf
      ensures Valid() && sendBuffer.banAutoResize == old(sendBuffer.banAutoResize)
      ensures sendBuffer.buf == old(sendBuffer.buf) || fresh(sendBuffer.buf)
      ensures batch + sendmsgchan == Queued(first) + old(sendmsgchan) && (first.Some? ==> batch != [])
      ensures finished == old(finished) + batch
      ensures Batched(old(sendBuffer.AsView()), batch, sendBuffer.defaultLength, old(sendBuffer.banAutoResize))
      ensures var v := JoinView(old(sendBuffer.AsView()), batch, sendBuffer.defaultLength,
                               old(sendBuffer.banAutoResize));
              if batch == []
              then writes == old(writes) && sendBuffer.AsView() == v
                   && waitingSendBufferLength == old(waitingSendBufferLength)
              else if failsAfter.None?
              then writes == old(writes) + [Attempt(v.queue, true)] && sendBuffer.AsView() == v.(queue := [])
                   && waitingSendBufferLength == old(waitingSendBufferLength) - |v.queue|
              else writes == old(writes) + [Attempt(FirstBytes(v.queue, failsAfter.value), false)]
                   && sendBuffer.AsView() == v && waitingSendBufferLength == old(waitingSendBufferLength)
    {
      hide JoinView, Batched, JoinPackets, WriteView;
      JoinNothing(sendBuffer.AsView(), sendBuffer.defaultLength, sendBuffer.banAutoResize);
      var nowpkgsum;
      nowpkgsum, batch := JoinMsgByFunc(first);
      if nowpkgsum == 0 {
        return;
      }
      var bs := sendBuffer.SeekAll();
      if failsAfter.None? {
        writes := writes + [Attempt(bs, true)];
        var _ := sendBuffer.MoveStart(|bs|);
        waitingSendBufferLength := waitingSendBufferLength - |bs|;
      } else {
        writes := writes + [Attempt(FirstBytes(bs, failsAfter.value), false)];
      }
      Finish(nowpkgsum);
    }

    /** The send-finish callback and the release of each message of a batch. */
    method Finish(nowpkgsum: nat)
      requires nowpkgsum <= joined.Length
      modifies this`finished
      ensures finished == old(finished) + joined[..nowpkgsum]
    {
      for i := 0 to nowpkgsum
        invariant finished == old(finished) + joined[..i]
      {
        assert joined[..i + 1] == joined[..i] + [joined[i]];
        finished := finished + [joined[i]];
      }
    }

    /** A server connection: the buffers may not grow, and hold at least one message of any size. */
    ghost predicate ServerSide()
      reads this, sendBuffer, recvBuffer, codec
    {
      && Valid() && sendBuffer.banAutoResize && recvBuffer.banAutoResize
      && sendBuffer.maxLength == sendBuffer.defaultLength >= MAX_SIZE
      && recvBuffer.maxLength == recvBuffer.defaultLength >= MAX_SIZE
    }

    /** The bytes that have gone out for good, or are on their way. */
    ghost function Output(): seq<Byte>
      reads this, sendBuffer, sendBuffer.buf, recvBuffer, codec
      requires Valid()
    {
      Acked(writes) + sendBuffer.AsView().queue
    }

    /** Where it stands: of the messages `sent` so far those in `kept` have reached the output. */
    ghost predicate HasSent(start: SendStart, sent: seq<Packet>, kept: seq<Packet>)
      reads this, sendBuffer, sendBuffer.buf, recvBuffer, codec
    {
      && Valid() && sent + sendmsgchan == start.queue && Subsequence(kept, sent)
      && Output() == start.output + JoinPackets(kept) && finished == start.finished + sent
      && waitingSendBufferLength == start.waiting - (|Acked(writes)| - start.acked)
      && Repeated(writes, sendBuffer.AsView().queue)
    }

    /** Nothing has been held up or lost: a server connection whose writes have all succeeded. */
    ghost predicate AllOut(queue: seq<Packet>, sent: seq<Packet>, kept: seq<Packet>)
      reads this, sendBuffer, sendBuffer.buf, recvBuffer, codec
    {
      && ServerSide() && sendBuffer.AsView().queue == [] && kept == sent
      && (forall i :: 0 <= i < |writes| ==> writes[i].ok)
      && forall i :: 0 <= i < |queue| ==> |queue[i].bytes| < MAX_SIZE
    }

    /** One batch, started with the first message of the channel. */
    method SendFirst(failsAfter: Option<nat>, ghost start: SendStart, ghost sent: seq<Packet>, ghost kept: seq<Packet>)
      returns (ghost sent': seq<Packet>, ghost kept': seq<Packet>)
      requires HasSent(start, sent, kept) && sendmsgchan != []
      modifies this`sendmsgchan, this`writes, this`finished, this`waitingSendBufferLength, joined,
               sendBuffer, sendBuffer.buf
      ensures HasSent(start, sent', kept') && |sendmsgchan| < |old(sendmsgchan)|
      ensures sendBuffer.buf == old(sendBuffer.buf) || fresh(sendBuffer.buf)
      ensures failsAfter.None? && old(AllOut(start.queue, sent, kept)) ==> AllOut(start.queue, sent', kept')
    {
      hide JoinPackets, JoinView, Batched, Subsequence, Repeated, Acked, WriteView, FirstBytes;
      ghost var v, def, ban := sendBuffer.AsView(), sendBuffer.defaultLength, sendBuffer.banAutoResize;
      ghost var out := Output();
      var msg := sendmsgchan[0];
      sendmsgchan := sendmsgchan[1..];
      ghost var batch := SendMsgList(Some(msg), failsAfter);
      assert Queued(Some(msg)) + old(sendmsgchan)[1..] == old(sendmsgchan);
      SentMore(start.queue, sent, batch, sendmsgchan);
      ghost var of := BatchKept(v, batch, def, ban);
      if failsAfter.None? && old(AllOut(start.queue, sent, kept)) {
        ServerBatchFits(View([], def), batch, def);
        of := batch;
        SubsequenceSelf(batch);
      }
      BatchWritten(old(writes), v.queue, JoinPackets(of));
      assert Output() == out + JoinPackets(of);
      OutMore(start.output, JoinPackets(kept), JoinPackets(of));
      JoinAppend(kept, of);
      SubsequenceJoin(kept, sent, of, batch);
      sent', kept' := sent + batch, kept + of;
    }

    /**
     The send loop up to the shutdown, and the draining of the channel behind it, on any connection.
     However the polls fall into batches and whichever writes fail: every message is finished exactly
     once, in queue order, and the bytes that have gone out for good and are left in the buffer are whole
     messages of the queue, in its order; what a failed write put on the wire besides is the beginning
     of what comes next. On a server connection whose writes all succeed all messages go out, and
     nothing else does.
     */
    method AsyncSendCmd(reliable: bool) returns (ghost kept: seq<Packet>)
      requires Valid() && Repeated(writes, sendBuffer.AsView().queue)
      modifies this`sendmsgchan, this`writes, this`finished, this`waitingSendBufferLength, joined,
               sendBuffer, sendBuffer.buf
      ensures Valid() && sendmsgchan == [] && finished == old(finished) + old(sendmsgchan)
      ensures Subsequence(kept, old(sendmsgchan)) && Output() == old(Output()) + JoinPackets(kept)
      ensures Repeated(writes, sendBuffer.AsView().queue)
      ensures waitingSendBufferLength == old(waitingSendBufferLength) - (|Acked(writes)| - |old(Acked(writes))|)
      ensures reliable && old(AllOut(sendmsgchan, [], [])) ==>
                kept == old(sendmsgchan) && sendBuffer.AsView().queue == [] && OnWire(writes) == Acked(writes)
    {
      hide JoinPackets, Subsequence, AllOut;
      ghost var start := SendStart(sendmsgchan, Output(), |Acked(writes)|, finished, waitingSendBufferLength);
      ghost var sent: seq<Packet>, out := [], AllOut(sendmsgchan, [], []);
      kept := [];
      NoPackets();
      assert start.output + [] == start.output;
      var isrunning := true;
      while isrunning
        invariant HasSent(start, sent, kept) && (reliable && out ==> AllOut(start.queue, sent, kept))
        invariant sendBuffer.buf == old(sendBuffer.buf) || fresh(sendBuffer.buf)
        decreases isrunning, |sendmsgchan|
      {
        var received: bool := *;
        if received && sendmsgchan != [] {
          var failsAfter: Option<nat> := *;
          sent, kept := SendFirst(if reliable then None else failsAfter, start, sent, kept);
        } else {
          isrunning := false;
        }
      }
      while sendmsgchan != []
        invariant HasSent(start, sent, kept) && (reliable && out ==> AllOut(start.queue, sent, kept))
        invariant sendBuffer.buf == old(sendBuffer.buf) || fresh(sendBuffer.buf)
        decreases |sendmsgchan|
      {
        var failsAfter: Option<nat> := *;
        sent, kept := SendFirst(if reliable then None else failsAfter, start, sent, kept);
      }
      assert sent == start.queue;
      AllOutIs(start.queue, sent, kept);
      WireIsOutput(writes);
    }

    lemma AllOutIs(queue: seq<Packet>, sent: seq<Packet>, kept: seq<Packet>)
      ensures AllOut(queue, sent, kept) ==>
                && Valid() && kept == sent && sendBuffer.AsView().queue == []
                && forall i :: 0 <= i < |writes| ==> writes[i].ok
    {
    }

    /** What has been received is the decoding of the bytes taken so far. */
    ghost predicate Received(taken: seq<Byte>, got0: seq<Msg>, ok: bool)
      reads this, sendBuffer, recvBuffer, recvBuffer.buf, codec
      requires Valid()
    {
      var d := Decode(None, taken);
      && recvmsgchan == got0 + d.msgs && ok == !d.failed
      && codec.State() == d.head && recvBuffer.AsView().queue == d.rest
    }

    ghost predicate RecvReady()
      reads this, recvBuffer, recvBuffer.buf
      requires recvBuffer.Valid()
    {
      recvBuffer.defaultLength > 0 && Roomy(recvBuffer.AsView(), recvBuffer.defaultLength, recvBuffer.banAutoResize)
    }

    /** One round of the receive loop: a read of what fits of the bytes at hand, and a decode of the buffer. */
    method RecvOnce(offered: seq<Byte>, ghost taken: seq<Byte>, ghost got0: seq<Msg>) returns (n: nat, ok: bool)
      requires Valid() && RecvReady() && Received(taken, got0, true)
      modifies this`recvmsgchan, recvBuffer, recvBuffer.buf, codec
      ensures Valid() && RecvReady() && recvBuffer.banAutoResize == old(recvBuffer.banAutoResize)
      ensures recvBuffer.buf == old(recvBuffer.buf) || fresh(recvBuffer.buf)
      ensures n == Taken(old(recvBuffer.AsView()), offered, recvBuffer.defaultLength)
      ensures var limit := if recvBuffer.banAutoResize then recvBuffer.defaultLength else 16 * recvBuffer.defaultLength;
              offered != [] && AwaitsAtMost(Decode(None, taken), limit) ==> n > 0
      ensures Received(taken + offered[..n], got0, ok)
      ensures var limit := if recvBuffer.banAutoResize then recvBuffer.defaultLength else 16 * recvBuffer.defaultLength;
              Fit(Decode(None, taken).msgs, limit) ==> Fit(Decode(None, taken + offered[..n]).msgs, limit)
    {
      hide Decode, Taken, FillView, Roomy, AwaitsAtMost, Limit, Fit;
      FitMore(taken, offered[..Taken(recvBuffer.AsView(), offered, recvBuffer.defaultLength)]);
      LimitIs(recvBuffer.defaultLength, recvBuffer.banAutoResize);
      ghost var v, def, ban := recvBuffer.AsView(), recvBuffer.defaultLength, recvBuffer.banAutoResize;
      TookMore(taken, offered[..Taken(v, offered, def)], got0);
      Room(taken, def, ban, offered, v);
      Refilled(v, offered, def, ban);
      n, ok := recvBuffer.ReadFromReader(offered, false);
      ghost var w := recvBuffer.AsView();
      HoldsAtMost(w, def, ban);
      DecodeShortens(codec.State(), w.queue);
      var msgs;
      msgs, ok := codec.RangeMsgBinary(recvBuffer);
      recvmsgchan := recvmsgchan + msgs;
      Emptied(w, recvBuffer.AsView(), def, ban);
    }

    /** A round in which no bytes arrive in time. */
    method RecvTimeout(ghost taken: seq<Byte>, ghost got0: seq<Msg>)
      requires Valid() && RecvReady() && Received(taken, got0, true)
      modifies recvBuffer, recvBuffer.buf
      ensures Valid() && RecvReady() && recvBuffer.banAutoResize == old(recvBuffer.banAutoResize)
      ensures recvBuffer.buf == old(recvBuffer.buf) || fresh(recvBuffer.buf)
      ensures Received(taken, got0, true)
    {
      hide Decode, Roomy;
      Relaxed(recvBuffer.AsView(), recvBuffer.defaultLength, recvBuffer.banAutoResize);
      var _, _ := recvBuffer.ReadFromReader([], true);
    }

    /**
     The receive loop on a fresh connection. The network may time out, and may have any number of the
     remaining bytes ready. Whatever the fragmentation, what has been received is the decoding of the
     bytes taken from the stream; and as long as what the decoder waits for fits into the buffer, as
     far as that may grow, every arrival of bytes makes progress.
     */
    method RecvThread(stream: seq<Byte>, arrivals: seq<Arrival>) returns (left: seq<Byte>, ok: bool)
      requires Valid() && RecvReady() && recvBuffer.AsView().queue == [] && codec.State() == None
      modifies this`recvmsgchan, recvBuffer, recvBuffer.buf, codec
      ensures Valid() && |left| <= |stream| && stream[|stream| - |left|..] == left
      ensures Received(stream[..|stream| - |left|], old(recvmsgchan), ok)
      ensures var limit := if old(recvBuffer.banAutoResize) then recvBuffer.defaultLength
                           else 16 * recvBuffer.defaultLength;
              && (ok && NeverStuck(stream, limit) && Productive(arrivals) >= |stream| ==> left == [])
              && Fit(Decode(None, stream[..|stream| - |left|]).msgs, limit)
    {
      hide Decode, NeverStuck, Productive, Taken, Roomy, Limit, AwaitsAtMost;
      LimitIs(recvBuffer.defaultLength, recvBuffer.banAutoResize);
      left, ok := stream, true;
      ghost var def, ban, got0 := recvBuffer.defaultLength, recvBuffer.banAutoResize, recvmsgchan;
      ghost var k := 0;
      StartReceiving(stream, got0, arrivals);
      for i := 0 to |arrivals|
        invariant Valid() && RecvReady() && recvBuffer.banAutoResize == ban && ok
        invariant recvBuffer.buf == old(recvBuffer.buf) || fresh(recvBuffer.buf)
        invariant k <= |stream| && left == stream[k..] && Received(stream[..k], got0, true)
        invariant Fit(Decode(None, stream[..k]).msgs, Limit(def, ban))
        invariant NeverStuck(stream, Limit(def, ban)) ==> left == [] || Productive(arrivals[..i]) <= k
      {
        ProductiveMore(arrivals, i);
        var arrival := arrivals[i];
        if arrival == Timeout {
          RecvTimeout(stream[..k], got0);
          continue;
        }
        var offered := left[..if arrival.n <= |left| then arrival.n else |left|];
        NeverStuckAt(stream, k, Limit(def, ban));
        var n;
        n, ok := RecvOnce(offered, stream[..k], got0);
        TakeMore(stream, k, offered, n);
        left := left[n..];
        k := k + n;
        if !ok {
          return;
        }
      }
      assert arrivals[..|arrivals|] == arrivals;
    }
  }

  // ---------------------------------------------------------------------------------------
  // Room in the receive buffer
  // ---------------------------------------------------------------------------------------

  /** How far a buffer may grow. */
  function Limit(defaultLength: nat, banned: bool): nat {
    if banned then defaultLength else GROWTH_LIMIT * defaultLength
  }

  lemma FitMore(taken: seq<Byte>, more: seq<Byte>)
    requires !Decode(None, taken).failed
    ensures var d := Decode(None, taken);
            forall limit :: Fit(d.msgs, limit) && |d.rest + more| <= limit ==>
                Fit(Decode(None, taken + more).msgs, limit)
  {
    hide Decode;
    var d := Decode(None, taken);
    TookMore(taken, more, []);
    DecodeBodies(d.head, d.rest + more);
  }

  lemma HoldsAtMost(v: View, def: nat, banned: bool)
    requires Roomy(v, def, banned)
    ensures |v.queue| <= Limit(def, banned)
  {
  }

  lemma LimitIs(defaultLength: nat, banned: bool)
    ensures Limit(defaultLength, banned) == if banned then defaultLength else 16 * defaultLength
  {
  }

  /** Between reads: the capacity is the default doubled some times, and a full buffer cannot grow any more. */
  ghost predicate Roomy(v: View, def: nat, banned: bool) {
    && |v.queue| <= v.max
    && v.max in (if banned then {def} else {def, 2 * def, 4 * def, 8 * def, 16 * def})
    && (|v.queue| == v.max ==> v.max == Limit(def, banned))
  }

  lemma Refilled(v: View, offered: seq<Byte>, def: nat, banned: bool)
    requires def > 0 && Roomy(v, def, banned)
    ensures Roomy(FillView(v, offered, def, banned), def, banned)
    ensures FillView(v, offered, def, banned).queue == v.queue + offered[..Taken(v, offered, def)]
  {
  }

  lemma Relaxed(v: View, def: nat, banned: bool)
    requires def > 0 && Roomy(v, def, banned)
    ensures Roomy(View(v.queue, Shrunk(v, def, 2 * def + 1)), def, banned)
  {
  }

  lemma Emptied(v: View, v': View, def: nat, banned: bool)
    requires Roomy(v, def, banned) && v'.max == v.max && |v'.queue| <= |v.queue|
    ensures Roomy(v', def, banned)
  {
  }

  lemma DecodeShortens(head: Option<Head>, s: seq<Byte>)
    requires ValidHead(head)
    ensures |Decode(head, s).rest| <= |s|
  {
    DecodeProgress(head, s);
  }

  /** Receive progress: a decoder that did not fail leaves room for the next read, unless it waits for too much. */
  lemma Room(taken: seq<Byte>, def: nat, banned: bool, offered: seq<Byte>, v: View)
    requires def > 0 && Roomy(v, def, banned)
    requires var d := Decode(None, taken); !d.failed && v.queue == d.rest
    ensures AwaitsAtMost(Decode(None, taken), Limit(def, banned)) && offered != [] ==> Taken(v, offered, def) > 0
  {
    hide Decode;
    DecodeProgress(None, taken);
  }

  /**
   When no read takes anything any more: exactly when the buffer has grown to its limit and is full. Then
   the decoder waits for more than that, the buffer stays as it is, and so it is for ever.
   */
  lemma StuckExactly(v: View, def: nat, banned: bool, head: Option<Head>, offered: seq<Byte>)
    requires def > 0 && Roomy(v, def, banned) && ValidHead(head) && |v.queue| < Needed(head) && offered != []
    ensures Taken(v, offered, def) == 0 <==> |v.queue| == Limit(def, banned)
    ensures Taken(v, offered, def) == 0 ==> Needed(head) > Limit(def, banned) && FillView(v, offered, def, banned) == v
  {
  }

  // ---------------------------------------------------------------------------------------
  // The network
  // ---------------------------------------------------------------------------------------

  /** One blocking read: it times out, or some bytes are there. */
  datatype Arrival = Timeout | Chunk(n: nat)

  /** The number of reads that find bytes. */
  function Productive(arrivals: seq<Arrival>): nat {
    if arrivals == [] then 0
    else Productive(arrivals[..|arrivals| - 1]) + if arrivals[|arrivals| - 1] in {Timeout, Chunk(0)} then 0 else 1
  }

  /** Nothing the decoder ever waits for in this stream is longer than the buffer. */
  ghost predicate NeverStuck(stream: seq<Byte>, max: nat) {
    forall k :: 0 <= k <= |stream| ==> AwaitsAtMost(Decode(None, stream[..k]), max)
  }

  ghost predicate AwaitsAtMost(d: Decoded, max: nat) {
    ValidHead(d.head) && Needed(d.head) <= max
  }

  lemma TakeMore(stream: seq<Byte>, k: nat, offered: seq<Byte>, n: nat)
    requires k <= |stream| && offered <= stream[k..] && n <= |offered|
    ensures stream[..k] + offered[..n] == stream[..k + n] && stream[k..][n..] == stream[k + n..]
  {
  }

  lemma NeverStuckAt(stream: seq<Byte>, k: nat, max: nat)
    requires k <= |stream|
    ensures NeverStuck(stream, max) ==> AwaitsAtMost(Decode(None, stream[..k]), max)
  {
  }

  /** Those that bring at least one byte. */
  lemma {:induction false} ProductiveCounts(arrivals: seq<Arrival>)
    ensures Productive(arrivals) == |set i | 0 <= i < |arrivals| && arrivals[i].Chunk? && arrivals[i].n > 0|
    decreases |arrivals|
  {
    if arrivals != [] {
      var front, last := arrivals[..|arrivals| - 1], arrivals[|arrivals| - 1];
      ProductiveCounts(front);
      var was := set i | 0 <= i < |front| && front[i].Chunk? && front[i].n > 0;
      var now := set i | 0 <= i < |arrivals| && arrivals[i].Chunk? && arrivals[i].n > 0;
      assert forall i :: 0 <= i < |front| ==> front[i] == arrivals[i];
      if last in {Timeout, Chunk(0)} {
        assert now == was;
      } else {
        assert last.Chunk? && last.n > 0;
        assert now == was + {|front|};
      }
    }
  }

  lemma ProductiveMore(arrivals: seq<Arrival>, i: nat)
    requires i < |arrivals|
    ensures Productive(arrivals[..i + 1])
         == Productive(arrivals[..i]) + if arrivals[i] in {Timeout, Chunk(0)} then 0 else 1
  {
    assert arrivals[..i + 1][..i] == arrivals[..i];
  }

  lemma StartReceiving(stream: seq<Byte>, got: seq<Msg>, arrivals: seq<Arrival>)
    ensures stream[..0] == [] && stream[0..] == stream && Decode(None, []) == Decoded([], None, [], false)
    ensures got + [] == got && Productive(arrivals[..0]) == 0 && forall limit :: Fit([], limit)
  {
  }

  lemma TookMore(taken: seq<Byte>, more: seq<Byte>, got: seq<Msg>)
    requires !Decode(None, taken).failed
    ensures var d := Decode(None, taken);
            && ValidHead(d.head)
            && var e := Decode(d.head, d.rest + more);
               Decode(None, taken + more) == Decoded(d.msgs + e.msgs, e.head, e.rest, e.failed)
               && got + d.msgs + e.msgs == got + (d.msgs + e.msgs)
  {
    hide Decode;
    DecodeResumes(None, taken, more);
  }

  /**
   When a full buffer is stuck: for a decoder that waits with `rest` and any further bytes that fill
   the buffer, decoding takes nothing, and so leaves no room for ever, if and only if what it waits
   for is longer than the buffer.
   */
  lemma StuckWhenTooLong(head: Option<Head>, rest: seq<Byte>, more: seq<Byte>, max: nat)
    requires ValidHead(head) && |rest| < Needed(head) && |rest + more| == max
    ensures Decode(head, rest + more) == Decoded([], head, rest + more, false) <==> Needed(head) > max
    ensures Needed(head) <= max ==> |Decode(head, rest + more).rest| < max
  {
    var s := rest + more;
    DecodeStep(head, s);
    if Needed(head) <= max {
      match head
      case None =>
        if HeadAt(s).total >= HEAD_SIZE {
          DecodeProgress(Some(HeadAt(s)), s[HEAD_SIZE..]);
        }
      case Some(h) =>
        DecodeProgress(None, s[Needed(head)..]);
    }
  }

  /** The messages in front of the channel's when a batch starts. */
  function Queued(first: Option<Packet>): seq<Packet> {
    if first.None? then [] else [first.value]
  }

  lemma NoPackets()
    ensures JoinPackets([]) == []
    ensures Subsequence([], [])
  {
  }

  lemma SentMore(queue: seq<Packet>, sent: seq<Packet>, batch: seq<Packet>, rest: seq<Packet>)
    requires sent + (batch + rest) == queue
    ensures sent + batch + rest == queue && forall i :: 0 <= i < |batch| ==> batch[i] == queue[|sent| + i]
  {
    assert (sent + batch + rest)[|sent|..|sent| + |batch|] == batch;
  }

  function FirstBytes(s: seq<Byte>, n: nat): seq<Byte> {
    if n < |s| then s[..n] else s
  }

  /** A batch `more` goes into the buffer behind `queue`, which is then written. */
  lemma BatchWritten(writes: seq<Attempt>, queue: seq<Byte>, more: seq<Byte>)
    ensures var out := Acked(writes) + queue + more;
            && Acked(writes + [Attempt(queue + more, true)]) + [] == out
            && forall n: nat :: Acked(writes + [Attempt(FirstBytes(queue + more, n), false)]) + (queue + more) == out
    ensures Repeated(writes, queue) ==>
              && Repeated(writes + [Attempt(queue + more, true)], [])
              && forall n: nat :: Repeated(writes + [Attempt(FirstBytes(queue + more, n), false)], queue + more)
  {
    AckedMore(writes, Attempt(queue + more, true));
    assert Acked(writes) + queue + more == Acked(writes) + (queue + more);
    forall n: nat ensures Acked(writes + [Attempt(FirstBytes(queue + more, n), false)]) == Acked(writes) {
      AckedMore(writes, Attempt(FirstBytes(queue + more, n), false));
    }
    if Repeated(writes, queue) {
      RepeatedMore(writes, queue, more);
      RepeatedWrite(writes, queue + more, Attempt(queue + more, true));
      forall n: nat ensures Repeated(writes + [Attempt(FirstBytes(queue + more, n), false)], queue + more) {
        RepeatedWrite(writes, queue + more, Attempt(FirstBytes(queue + more, n), false));
      }
    }
  }

  lemma OutMore(a: seq<Byte>, b: seq<Byte>, c: seq<Byte>)
    ensures a + (b + c) == a + b + c && a + b + c + [] == a + b + c
  {
  }

  lemma QueueMore(batch: seq<Packet>, p: Packet, rest: seq<Packet>, queue: seq<Packet>)
    ensures [p] + rest == queue ==> batch + [p] + rest == batch + queue
    ensures [] + [p] == [p]
  {
  }

  lemma JoinNothing(v: View, defaultLength: nat, banned: bool)
    ensures JoinView(v, [], defaultLength, banned) == v && JoinPackets([]) == []
    ensures Batched(v, [], defaultLength, banned)
  {
  }

  lemma JoinMore(v: View, batch: seq<Packet>, p: Packet, defaultLength: nat, banned: bool)
    requires |batch| < MAX_PACK && Batched(v, batch, defaultLength, banned)
    requires batch != [] ==> JoinView(v, batch, defaultLength, banned).max >= MAX_SIZE + |JoinPackets(batch)|
    ensures Batched(v, batch + [p], defaultLength, banned)
    ensures JoinView(v, batch + [p], defaultLength, banned)
         == WriteView(JoinView(v, batch, defaultLength, banned), p.bytes, defaultLength, banned)
    ensures |JoinPackets(batch + [p])| == |JoinPackets(batch)| + |p.bytes|
  {
    JoinViewMore(v, batch, p, defaultLength, banned);
    JoinSnoc(batch, p);
    hide JoinView, JoinPackets, WriteView;
    var more := batch + [p];
    forall i | 1 <= i < |more|
      ensures JoinView(v, more[..i], defaultLength, banned).max >= MAX_SIZE + |JoinPackets(more[..i])|
    {
      assert more[..i] == batch[..i];
      assert i == |batch| ==> batch[..i] == batch;
    }
  }

  lemma JoinViewMore(v: View, batch: seq<Packet>, p: Packet, defaultLength: nat, banned: bool)
    ensures JoinView(v, batch + [p], defaultLength, banned)
         == WriteView(JoinView(v, batch, defaultLength, banned), p.bytes, defaultLength, banned)
  {
  }

  // ---------------------------------------------------------------------------------------
  // End to end
  // ---------------------------------------------------------------------------------------

  function EncodeAll(ms: seq<Msg>): (ps: seq<Packet>)
    ensures |ps| == |ms| && forall i :: 0 <= i < |ms| ==> ps[i] == Packet(EncodedBytes(ms[i]))
  {
    if ms == [] then [] else [Packet(EncodedBytes(ms[0]))] + EncodeAll(ms[1..])
  }

  /** The messages that get through the encoder. */
  function Sent(ms: seq<Msg>): (r: seq<Msg>)
    ensures AllSendable(r) && (AllSendable(ms) ==> r == ms)
  {
    if ms == [] then [] else if Sendable(ms[0]) then [ms[0]] + Sent(ms[1..]) else Sent(ms[1..])
  }

  /** They are the messages whose frames are shorter than 8 MiB, in order. */
  lemma {:induction false} SentExactly(ms: seq<Msg>, m: Msg)
    ensures Sent(ms + [m]) == Sent(ms) + if 6 + |m.data| < 8 * 1024 * 1024 then [m] else []
    ensures forall i :: 0 <= i < |Sent(ms)| ==> 6 + |Sent(ms)[i].data| < 8 * 1024 * 1024
    ensures (forall i :: 0 <= i < |ms| ==> 6 + |ms[i].data| < 8 * 1024 * 1024) ==> Sent(ms) == ms
  {
    if ms == [] {
      assert ms + [m] == [m] && [m][1..] == [];
    } else {
      assert (ms + [m])[1..] == ms[1..] + [m];
      SentExactly(ms[1..], m);
    }
  }

  lemma {:induction false} EncodedStream(ms: seq<Msg>)
    ensures JoinPackets(EncodeAll(ms)) == StreamBytes(Sent(ms))
  {
    NoPackets();
    if ms != [] {
      var p, ps := Packet(EncodedBytes(ms[0])), EncodeAll(ms[1..]);
      JoinAppend([p], ps);
      assert JoinPackets([p]) == p.bytes by {
        JoinSnoc([], p);
        assert [] + [p] == [p] && [] + p.bytes == p.bytes;
      }
      EncodedStream(ms[1..]);
      if Sendable(ms[0]) {
        assert Sent(ms)[1..] == Sent(ms[1..]);
      } else {
        assert [] + StreamBytes(Sent(ms[1..])) == StreamBytes(Sent(ms[1..]));
      }
    }
  }

  lemma SentStreamOk(ms: seq<Msg>, max: nat)
    requires AllSendable(ms) && max >= 6 && Fit(ms, max)
    ensures NeverStuck(StreamBytes(ms), max)
    ensures Decode(None, StreamBytes(ms)) == Decoded(ms, None, [], false)
  {
    forall k | 0 <= k <= |StreamBytes(ms)| ensures AwaitsAtMost(Decode(None, StreamBytes(ms)[..k]), max) {
      PrefixDecodes(ms, k);
    }
    WholeStream(ms);
  }

  lemma WholeStream(ms: seq<Msg>)
    requires AllSendable(ms)
    ensures Decode(None, StreamBytes(ms)) == Decoded(ms, None, [], false)
  {
    StreamDecodes(ms, []);
    assert StreamBytes(ms) + [] == StreamBytes(ms) && ms + [] == ms;
  }

  /** What a server connection puts on the wire for a queue of messages, in whatever batches. */
  method SendAll(ms: seq<Msg>) returns (wire: seq<Byte>)
    ensures wire == StreamBytes(Sent(ms))
  {
    hide JoinPackets, StreamBytes, FrameBytes;
    var a := new TCPConn(SERVER_BUFFER_SIZE, SERVER_BUFFER_SIZE, EncodeAll(ms));
    a.SetBanAutoResize(true);
    EncodedSizes(ms);
    ghost var kept := a.AsyncSendCmd(true);
    EncodedStream(ms);
    wire := OnWire(a.writes);
    assert wire + [] == wire && [] + [] + JoinPackets(kept) == JoinPackets(kept);
  }

  /** What a connection receives of a byte stream, and how much of it is still on its way. */
  method ReceiveAll(size: nat, banned: bool, stream: seq<Byte>, arrivals: seq<Arrival>)
    returns (got: seq<Msg>, ok: bool, left: nat)
    requires size > 0
    ensures left <= |stream|
    ensures var d := Decode(None, stream[..|stream| - left]); got == d.msgs && ok == !d.failed
    ensures var limit := if banned then size else 16 * size;
            && (ok && NeverStuck(stream, limit) && Productive(arrivals) >= |stream| ==> left == 0)
            && Fit(got, limit)
  {
    hide Decode, Productive, NeverStuck;
    var b := new TCPConn(SERVER_BUFFER_SIZE, size, []);
    b.SetBanAutoResize(banned);
    var rest;
    rest, ok := b.RecvThread(stream, arrivals);
    got, left := b.recvmsgchan, |rest|;
    var d := Decode(None, stream[..|stream| - left]);
    assert [] + d.msgs == d.msgs;
  }

  /**
   End-to-end delivery from a server connection to any connection: for any messages, any batching by the
   sender and any fragmentation by the network, the receiver gets a prefix of the messages that the
   encoder accepted, unchanged and in order, and never fails. Once enough reads found bytes it has all
   of them if and only if no body is longer than its buffer can get. The encoder accepts all messages
   whose frames are shorter than 8 MiB.
   */
  method Deliver(ms: seq<Msg>, size: nat, banned: bool, arrivals: seq<Arrival>) returns (got: seq<Msg>, ok: bool)
    requires size > 0
    ensures ok && got <= Sent(ms)
    ensures var limit := if banned then size else 16 * size;
            limit >= 6 && Productive(arrivals) >= |StreamBytes(Sent(ms))| ==>
              (got == Sent(ms) <==> forall i :: 0 <= i < |Sent(ms)| ==> |Sent(ms)[i].data| <= limit)
    ensures (forall i :: 0 <= i < |ms| ==> 6 + |ms[i].data| < 8 * 1024 * 1024) ==> Sent(ms) == ms
  {
    hide Decode, Productive, NeverStuck, StreamBytes, Sent;
    var wire := SendAll(ms);
    var left;
    got, ok, left := ReceiveAll(size, banned, wire, arrivals);
    ghost var limit := if banned then size else 16 * size;
    PrefixDecodes(Sent(ms), |wire| - left);
    WholeStream(Sent(ms));
    if limit >= 6 && Fit(Sent(ms), limit) {
      SentStreamOk(Sent(ms), limit);
    }
    assert left == 0 ==> wire[..|wire| - left] == wire;
    SentExactly(ms, Msg(0, []));
  }

  /** To a server connection, whose buffer holds ten of the longest messages, all of them. */
  method DeliverToServer(ms: seq<Msg>, arrivals: seq<Arrival>) returns (got: seq<Msg>, ok: bool)
    requires forall i :: 0 <= i < |ms| ==> 6 + |ms[i].data| < 8 * 1024 * 1024
    ensures ok && got <= ms && (Productive(arrivals) >= |StreamBytes(ms)| ==> got == ms)
  {
    hide Productive, StreamBytes, Sent;
    got, ok := Deliver(ms, SERVER_BUFFER_SIZE, true, arrivals);
  }

  lemma EncodedSizes(ms: seq<Msg>)
    ensures forall i :: 0 <= i < |ms| ==> |EncodeAll(ms)[i].bytes| < MAX_SIZE
  {
  }
}
