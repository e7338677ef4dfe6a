/**
 The default message codec: a message is a frame of a 4-byte total length, a 2-byte id and the
 body. The decoder resumes at any byte; what it makes of a stream is the function `Decode`.
 */
module Codec {
  import opened Basics
  import opened Bytes
  import opened IOBuffers

  const HEAD_SIZE := 6
  const MAX_SIZE: nat := 8 * 1024 * 1024

  type MsgID = n: nat | n < 0x1_0000
  datatype Msg = Msg(id: MsgID, data: seq<Byte>)
  /** A header that has been read while its body is still to come. */
  datatype Head = Head(total: nat, id: MsgID)

  // ---------------------------------------------------------------------------------------
  // Frames
  // ---------------------------------------------------------------------------------------

  function FrameBytes(m: Msg): (r: seq<Byte>)
    ensures |r| == HEAD_SIZE + |m.data|
  {
    NumBytes(HEAD_SIZE + |m.data|, 4) + NumBytes(m.id, 2) + m.data
  }

  function StreamBytes(ms: seq<Msg>): seq<Byte> {
    if ms == [] then [] else FrameBytes(ms[0]) + StreamBytes(ms[1..])
  }

  /** What the encoder accepts; a larger message is replaced by an empty one. */
  predicate Sendable(m: Msg) {
    HEAD_SIZE + |m.data| < MAX_SIZE
  }

  /** The bytes of the encoder's result: those of a message that is too large are none. */
  function EncodedBytes(m: Msg): seq<Byte> {
    if Sendable(m) then FrameBytes(m) else []
  }

  predicate AllSendable(ms: seq<Msg>) {
    forall i :: 0 <= i < |ms| ==> Sendable(ms[i])
  }

  // ---------------------------------------------------------------------------------------
  // Decoding a byte stream
  // ---------------------------------------------------------------------------------------

  /** The messages found, the header and the bytes left over, and whether a header was invalid. */
  datatype Decoded = Decoded(msgs: seq<Msg>, head: Option<Head>, rest: seq<Byte>, failed: bool)

  function HeadAt(s: seq<Byte>): (h: Head)
    requires |s| >= HEAD_SIZE
    ensures h.total < 0x1_0000_0000
  {
    Widths();
    Head(Num(s[..4]), Num(s[4..6]))
  }

  /** A message that no pooled buffer can hold is dropped. */
  function Emitted(h: Head, body: seq<Byte>): seq<Msg> {
    if h.total <= MAX_SIZE then [Msg(h.id, body)] else []
  }

  function Before(ms: seq<Msg>, d: Decoded): Decoded {
    d.(msgs := ms + d.msgs)
  }

  predicate ValidHead(head: Option<Head>) {
    head.Some? ==> head.value.total >= HEAD_SIZE
  }

  function Decode(head: Option<Head>, s: seq<Byte>): Decoded
    requires ValidHead(head)
    decreases |s|, if head.Some? then 1 else 0
  {
    match head
    case None =>
      if |s| < HEAD_SIZE then Decoded([], None, s, false)
      else if HeadAt(s).total < HEAD_SIZE then Decoded([], None, s[HEAD_SIZE..], true)
      else Decode(Some(HeadAt(s)), s[HEAD_SIZE..])
    case Some(h) =>
      var len := h.total - HEAD_SIZE;
      if |s| < len then Decoded([], head, s, false)
      else Before(Emitted(h, s[..len]), Decode(None, s[len..]))
  }

  /** The length the decoder waits for: of a header, or of the pending body. */
  function Needed(head: Option<Head>): nat
    requires ValidHead(head)
  {
    if head.None? then HEAD_SIZE else head.value.total - HEAD_SIZE
  }

  /** After a decode without error there is less than what it waits for, and a suffix of what it was given. */
  lemma {:induction false} DecodeProgress(head: Option<Head>, s: seq<Byte>)
    requires ValidHead(head)
    ensures var d := Decode(head, s);
            && ValidHead(d.head) && |d.rest| <= |s| && d.rest == s[|s| - |d.rest|..]
            && (!d.failed ==> |d.rest| < Needed(d.head))
    decreases |s|, if head.Some? then 1 else 0
  {
    match head
    case None =>
      if |s| >= HEAD_SIZE && HeadAt(s).total >= HEAD_SIZE {
        DecodeProgress(Some(HeadAt(s)), s[HEAD_SIZE..]);
      }
    case Some(h) =>
      var len := h.total - HEAD_SIZE;
      if |s| >= len {
        DecodeProgress(None, s[len..]);
      }
  }

  /** A header is read from the first bytes alone. */
  lemma HeadAtMore(a: seq<Byte>, b: seq<Byte>)
    requires |a| >= HEAD_SIZE
    ensures HeadAt(a + b) == HeadAt(a)
  {
    assert (a + b)[..4] == a[..4] && (a + b)[4..6] == a[4..6];
  }

  /** Decoding goes on where it stopped, unless it failed. */
  function Resume(d: Decoded, more: seq<Byte>): Decoded
    requires ValidHead(d.head)
  {
    if d.failed then d.(rest := d.rest + more) else Before(d.msgs, Decode(d.head, d.rest + more))
  }

  /**
   Fragmentation does not matter: for any bytes at all, decoding a part and then going on with the
   rest finds the same messages, the same state and the same failure as decoding everything at once.
   */
  lemma {:induction false} DecodeResumes(head: Option<Head>, a: seq<Byte>, b: seq<Byte>)
    requires ValidHead(head)
    ensures ValidHead(Decode(head, a).head)
    ensures Decode(head, a + b) == Resume(Decode(head, a), b)
    decreases |a|, if head.Some? then 1 else 0
  {
    hide HeadAt;
    DecodeProgress(head, a);
    match head
    case None =>
      if |a| >= HEAD_SIZE {
        HeadAtMore(a, b);
        assert (a + b)[HEAD_SIZE..] == a[HEAD_SIZE..] + b;
        if HeadAt(a).total >= HEAD_SIZE {
          DecodeResumes(Some(HeadAt(a)), a[HEAD_SIZE..], b);
        }
      } else {
        NothingBefore(Decode(head, a + b));
      }
    case Some(h) =>
      var len := h.total - HEAD_SIZE;
      if |a| >= len {
        assert (a + b)[..len] == a[..len] && (a + b)[len..] == a[len..] + b;
        DecodeResumes(None, a[len..], b);
        BeforeBefore(Emitted(h, a[..len]), Decode(None, a[len..]), b);
      } else {
        NothingBefore(Decode(head, a + b));
      }
  }

  lemma NothingBefore(d: Decoded)
    ensures Before([], d) == d
  {
  }

  lemma BeforeBefore(ms: seq<Msg>, d: Decoded, more: seq<Byte>)
    requires ValidHead(d.head)
    ensures Before(ms, Resume(d, more)) == Resume(Before(ms, d), more)
  {
  }

  /** Chunk after chunk, as the receiver sees the stream; bytes behind a failure stay undecoded. */
  function Feed(d: Decoded, chunks: seq<seq<Byte>>): Decoded
    requires ValidHead(d.head)
    decreases |chunks|
  {
    if chunks == [] then d else
    var next := Resume(d, chunks[0]);
    if !d.failed then
      DecodeProgress(d.head, d.rest + chunks[0]);
      Feed(next, chunks[1..])
    else Feed(next, chunks[1..])
  }

  function Join(chunks: seq<seq<Byte>>): seq<Byte> {
    if chunks == [] then [] else chunks[0] + Join(chunks[1..])
  }

  lemma ResumeTwice(d: Decoded, a: seq<Byte>, b: seq<Byte>)
    requires ValidHead(d.head)
    ensures ValidHead(Resume(d, a).head)
    ensures Resume(Resume(d, a), b) == Resume(d, a + b)
  {
    if d.failed {
      assert d.rest + a + b == d.rest + (a + b);
    } else {
      DecodeResumes(d.head, d.rest + a, b);
      assert d.rest + a + b == d.rest + (a + b);
      BeforeBefore(d.msgs, Decode(d.head, d.rest + a), b);
    }
  }

  /** ... for any number of fragments of any sizes. */
  lemma {:induction false} AnyFragmentation(d: Decoded, chunks: seq<seq<Byte>>)
    requires ValidHead(d.head) && d == Resume(d, [])
    ensures Feed(d, chunks) == Resume(d, Join(chunks))
    decreases |chunks|
  {
    if chunks != [] {
      var next := Resume(d, chunks[0]);
      ResumeTwice(d, chunks[0], []);
      assert chunks[0] + [] == chunks[0];
      AnyFragmentation(next, chunks[1..]);
      ResumeTwice(d, chunks[0], Join(chunks[1..]));
    }
  }

  // ---------------------------------------------------------------------------------------
  // Decoding what was encoded, and encoding what was decoded
  // ---------------------------------------------------------------------------------------

  lemma HeadReads(total: nat, id: MsgID, more: seq<Byte>)
    requires total < 0x1_0000_0000
    ensures HeadAt(NumBytes(total, 4) + NumBytes(id, 2) + more) == Head(total, id)
  {
    Widths();
    var s := NumBytes(total, 4) + NumBytes(id, 2) + more;
    assert s[..4] == NumBytes(total, 4) && s[4..6] == NumBytes(id, 2);
    NumRoundTrip(total, 4);
    NumRoundTrip(id, 2);
  }

  lemma FrameDecodes(m: Msg, rest: seq<Byte>)
    requires HEAD_SIZE + |m.data| <= MAX_SIZE
    ensures Decode(None, FrameBytes(m) + rest) == Before([m], Decode(None, rest))
  {
    var total, s := HEAD_SIZE + |m.data|, FrameBytes(m) + rest;
    HeadReads(total, m.id, m.data + rest);
    assert s == NumBytes(total, 4) + NumBytes(m.id, 2) + (m.data + rest);
    assert s[HEAD_SIZE..] == m.data + rest;
    assert (m.data + rest)[..|m.data|] == m.data && (m.data + rest)[|m.data|..] == rest;
  }

  /** A whole frame gives its message if it is no longer than 8 MiB, else nothing; one under six bytes is an error. */
  lemma OneFrame(id: MsgID, body: seq<Byte>, bad: nat, more: seq<Byte>)
    requires 6 + |body| < 0x1_0000_0000 && bad < 6
    ensures Decode(None, NumBytes(6 + |body|, 4) + NumBytes(id, 2) + body)
         == Decoded(if 6 + |body| <= 8 * 1024 * 1024 then [Msg(id, body)] else [], None, [], false)
    ensures Decode(None, NumBytes(bad, 4) + NumBytes(id, 2) + more) == Decoded([], None, more, true)
  {
    hide HeadAt, NumBytes;
    var s, t := NumBytes(6 + |body|, 4) + NumBytes(id, 2) + body, NumBytes(bad, 4) + NumBytes(id, 2) + more;
    HeadReads(6 + |body|, id, body);
    assert s[6..] == body && body[..|body|] == body && body[|body|..] == [];
    DecodeStep(None, s);
    DecodeStep(Some(Head(6 + |body|, id)), body);
    NothingDecodes();
    HeadReads(bad, id, more);
    assert t[6..] == more;
    DecodeStep(None, t);
  }

  /** The messages of a stream of frames are its messages, ids and bodies unchanged, in order. */
  lemma {:induction false} StreamDecodes(ms: seq<Msg>, rest: seq<Byte>)
    requires AllSendable(ms)
    ensures Decode(None, StreamBytes(ms) + rest) == Before(ms, Decode(None, rest))
  {
    hide FrameBytes, Decode;
    if ms == [] {
      NothingBefore(Decode(None, rest));
      assert [] + rest == rest;
    } else {
      assert StreamBytes(ms) + rest == FrameBytes(ms[0]) + (StreamBytes(ms[1..]) + rest);
      FrameDecodes(ms[0], StreamBytes(ms[1..]) + rest);
      StreamDecodes(ms[1..], rest);
      var d := Decode(None, rest);
      assert [ms[0]] + (ms[1..] + d.msgs) == ms + d.msgs;
    }
  }

  /** Any cut of such a stream: no error, a prefix of the messages, and less than a full frame awaited. */
  lemma {:induction false} PrefixDecodes(ms: seq<Msg>, k: nat)
    requires AllSendable(ms) && k <= |StreamBytes(ms)|
    ensures var d := Decode(None, StreamBytes(ms)[..k]);
            !d.failed && ValidHead(d.head) && d.msgs <= ms
            && (d.head.Some? ==> exists i :: 0 <= i < |ms| && Needed(d.head) == |ms[i].data|)
  {
    hide FrameBytes, Decode;
    if ms != [] {
      var m, tail := ms[0], StreamBytes(ms[1..]);
      var len := HEAD_SIZE + |m.data|;
      CutFrame(FrameBytes(m), tail, k);
      if k >= len {
        FrameDecodes(m, tail[..k - len]);
        PrefixDecodes(ms[1..], k - len);
        assert ms == [m] + ms[1..];
        assert forall i :: 0 <= i < |ms[1..]| ==> ms[1..][i] == ms[i + 1];
      } else {
        PartDecodes(m, k);
      }
    } else {
      NothingDecodes();
    }
  }

  lemma NothingDecodes()
    ensures Decode(None, []) == Decoded([], None, [], false)
  {
  }

  /** A part of a frame: no message yet, and what is awaited is at most the rest of it. */
  lemma PartDecodes(m: Msg, k: nat)
    requires Sendable(m) && k < HEAD_SIZE + |m.data|
    ensures var d := Decode(None, FrameBytes(m)[..k]);
            !d.failed && ValidHead(d.head) && (d.head.Some? ==> Needed(d.head) == |m.data|) && d.msgs == []
  {
    if k >= HEAD_SIZE {
      var len := HEAD_SIZE + |m.data|;
      assert FrameBytes(m)[..k] == NumBytes(len, 4) + NumBytes(m.id, 2) + m.data[..k - HEAD_SIZE];
      HeadReads(len, m.id, m.data[..k - HEAD_SIZE]);
    }
  }

  /** No body is longer than this. */
  predicate Fit(msgs: seq<Msg>, limit: nat) {
    forall i :: 0 <= i < |msgs| ==> |msgs[i].data| <= limit
  }

  lemma FitJoined(a: seq<Msg>, b: seq<Msg>, less: nat, limit: nat)
    requires less <= limit && Fit(b, less)
    ensures Fit(b, limit) && (Fit(a, limit) ==> Fit(a + b, limit))
  {
  }

  /** No message has a longer body than the bytes that it was found in. */
  lemma {:induction false} DecodeBodies(head: Option<Head>, s: seq<Byte>)
    requires ValidHead(head)
    ensures Fit(Decode(head, s).msgs, |s|)
    decreases |s|, if head.Some? then 1 else 0
  {
    match head
    case None =>
      if |s| >= HEAD_SIZE && HeadAt(s).total >= HEAD_SIZE {
        DecodeBodies(Some(HeadAt(s)), s[HEAD_SIZE..]);
        FitJoined([], Decode(head, s).msgs, |s| - HEAD_SIZE, |s|);
      }
    case Some(h) =>
      var len := h.total - HEAD_SIZE;
      if |s| >= len {
        DecodeBodies(None, s[len..]);
        FitJoined(Emitted(h, s[..len]), Decode(None, s[len..]).msgs, |s| - len, |s|);
      }
  }

  lemma CutFrame(frame: seq<Byte>, tail: seq<Byte>, k: nat)
    requires k <= |frame + tail|
    ensures (frame + tail)[..k] == if k < |frame| then frame[..k] else frame + tail[..k - |frame|]
  {
  }

  function HeadBytes(head: Option<Head>): seq<Byte> {
    if head.None? then [] else NumBytes(head.value.total, 4) + NumBytes(head.value.id, 2)
  }

  /** All frames of a stream, those that are dropped for their size included. */
  function Frames(head: Option<Head>, s: seq<Byte>): seq<Msg>
    requires ValidHead(head)
    decreases |s|, if head.Some? then 1 else 0
  {
    match head
    case None =>
      if |s| < HEAD_SIZE || HeadAt(s).total < HEAD_SIZE then [] else Frames(Some(HeadAt(s)), s[HEAD_SIZE..])
    case Some(h) =>
      var len := h.total - HEAD_SIZE;
      if |s| < len then [] else [Msg(h.id, s[..len])] + Frames(None, s[len..])
  }

  function Kept(ms: seq<Msg>): seq<Msg> {
    if ms == [] then []
    else if HEAD_SIZE + |ms[0].data| <= MAX_SIZE then [ms[0]] + Kept(ms[1..])
    else Kept(ms[1..])
  }

  lemma {:induction false} DecodeKeeps(head: Option<Head>, s: seq<Byte>)
    requires ValidHead(head)
    ensures Decode(head, s).msgs == Kept(Frames(head, s))
    decreases |s|, if head.Some? then 1 else 0
  {
    match head
    case None =>
      if |s| >= HEAD_SIZE && HeadAt(s).total >= HEAD_SIZE {
        DecodeKeeps(Some(HeadAt(s)), s[HEAD_SIZE..]);
      }
    case Some(h) =>
      var len := h.total - HEAD_SIZE;
      if |s| >= len {
        DecodeKeeps(None, s[len..]);
        assert Frames(head, s)[1..] == Frames(None, s[len..]);
      }
  }

  /** The bytes of an invalid header that stopped the decoder, if one did. */
  ghost predicate Offender(failed: bool, bad: seq<Byte>) {
    if failed then |bad| == HEAD_SIZE && HeadAt(bad).total < HEAD_SIZE else bad == []
  }

  /**
   No byte is lost or made up: any stream is its frames, encoded again, then the offending header
   if decoding failed, then the pending header, then the rest.
   */
  lemma {:induction false} DecodeConserves(head: Option<Head>, s: seq<Byte>) returns (bad: seq<Byte>)
    requires ValidHead(head) && (head.Some? ==> head.value.total < 0x1_0000_0000)
    ensures var d := Decode(head, s);
            && Offender(d.failed, bad)
            && HeadBytes(head) + s == StreamBytes(Frames(head, s)) + bad + HeadBytes(d.head) + d.rest
    decreases |s|, if head.Some? then 1 else 0
  {
    hide HeadBytes, StreamBytes;
    NoHeadBytes();
    bad := [];
    match head
    case None =>
      if |s| >= HEAD_SIZE {
        HeadWrites(s);
        if HeadAt(s).total < HEAD_SIZE {
          bad := s[..HEAD_SIZE];
          assert bad[..4] == s[..4];
          assert [] + s == [] + bad + [] + s[HEAD_SIZE..];
        } else {
          bad := DecodeConserves(Some(HeadAt(s)), s[HEAD_SIZE..]);
          assert [] + s == s;
        }
      } else {
        assert [] + s == [] + [] + [] + s;
      }
    case Some(h) =>
      var len := h.total - HEAD_SIZE;
      if |s| >= len {
        bad := DecodeConserves(None, s[len..]);
        var d := Decode(None, s[len..]);
        FrameConserves(h, s, Frames(None, s[len..]), bad, HeadBytes(d.head), d.rest);
      } else {
        assert HeadBytes(head) + s == [] + [] + HeadBytes(head) + s;
      }
  }

  lemma NoHeadBytes()
    ensures HeadBytes(None) == [] && StreamBytes([]) == []
  {
  }

  lemma FrameConserves(h: Head, s: seq<Byte>, ms: seq<Msg>, bad: seq<Byte>, pending: seq<Byte>, rest: seq<Byte>)
    requires h.total >= HEAD_SIZE && |s| >= h.total - HEAD_SIZE
    requires HeadBytes(None) + s[h.total - HEAD_SIZE..] == StreamBytes(ms) + bad + pending + rest
    ensures HeadBytes(Some(h)) + s == StreamBytes([Msg(h.id, s[..h.total - HEAD_SIZE])] + ms) + bad + pending + rest
  {
    hide FrameBytes, HeadBytes;
    var len := h.total - HEAD_SIZE;
    var m := Msg(h.id, s[..len]);
    assert ([m] + ms)[1..] == ms;
    HeadThenBody(h, s);
    Regroup(FrameBytes(m), StreamBytes(ms), bad, pending, rest);
  }

  lemma HeadThenBody(h: Head, s: seq<Byte>)
    requires h.total >= HEAD_SIZE && |s| >= h.total - HEAD_SIZE
    ensures var len := h.total - HEAD_SIZE;
            HeadBytes(Some(h)) + s == FrameBytes(Msg(h.id, s[..len])) + s[len..]
    ensures HeadBytes(None) + s[h.total - HEAD_SIZE..] == s[h.total - HEAD_SIZE..]
  {
    hide NumBytes;
  }

  lemma Regroup(a: seq<Byte>, b: seq<Byte>, c: seq<Byte>, d: seq<Byte>, e: seq<Byte>)
    ensures a + (b + c + d + e) == (a + b) + c + d + e
  {
  }

  lemma HeadWrites(s: seq<Byte>)
    requires |s| >= HEAD_SIZE
    ensures HeadBytes(Some(HeadAt(s))) + s[HEAD_SIZE..] == s
  {
    BytesRoundTrip(s[..4]);
    BytesRoundTrip(s[4..6]);
    assert s == s[..4] + s[4..6] + s[HEAD_SIZE..];
  }

  // ---------------------------------------------------------------------------------------
  // The resumable decoder
  // ---------------------------------------------------------------------------------------

  class DefaultCodec {
    var inMsg: bool
    var totalLen: int
    var protoLen: int
    var msgID: MsgID

    ghost predicate Valid()
      reads this
    {
      inMsg ==> totalLen >= HEAD_SIZE && protoLen == totalLen - HEAD_SIZE
    }

    ghost function State(): (head: Option<Head>)
      reads this
      requires Valid()
      ensures ValidHead(head)
    {
      if inMsg then Some(Head(totalLen, msgID)) else None
    }

    constructor ()
      ensures Valid() && State() == None
    {
      inMsg, totalLen, protoLen, msgID := false, 0, 0, 0;
    }

    /** Takes the header's fields over, also those of a header it then refuses. */
    method ReadHead(data: seq<Byte>) returns (ok: bool)
      requires |data| == HEAD_SIZE
      modifies this`totalLen, this`protoLen, this`msgID
      ensures totalLen == Num(data[..4]) && protoLen == totalLen - 6 && msgID == Num(data[4..6])
      ensures Head(totalLen, msgID) == HeadAt(data) && ok == (totalLen >= 6)
    {
      Widths();
      totalLen := Num(data[..4]);
      protoLen := totalLen - HEAD_SIZE;
      msgID := Num(data[4..6]);
      ok := totalLen >= HEAD_SIZE;
    }

    /** Reads a header; an invalid one is consumed and reported. */
    method TakeHead(buf: IOBuffer) returns (ok: bool)
      requires Valid() && buf.Valid() && !inMsg && buf.Len() >= HEAD_SIZE
      modifies this, buf`start
      ensures Valid() && buf.Valid() && buf.AsView() == View(old(buf.AsView().queue)[HEAD_SIZE..], buf.maxLength)
      ensures ok == (HeadAt(old(buf.AsView().queue)).total >= HEAD_SIZE)
      ensures State() == if ok then Some(HeadAt(old(buf.AsView().queue))) else None
    {
      hide HeadAt;
      ghost var queue := buf.AsView().queue;
      var headData := buf.Read(0, HEAD_SIZE);
      ok := ReadHead(headData.value);
      HeadAtMore(headData.value, queue[HEAD_SIZE..]);
      assert headData.value + queue[HEAD_SIZE..] == queue;
      if ok {
        inMsg := true;
      }
    }

    /** Reads the pending body and leaves the message; one that is too large for any pooled buffer is dropped. */
    method TakeBody(buf: IOBuffer) returns (more: seq<Msg>)
      requires Valid() && buf.Valid() && inMsg && buf.Len() >= protoLen
      modifies this, buf`start
      ensures Valid() && buf.Valid() && State() == None
      ensures buf.AsView() == View(old(buf.AsView().queue)[old(protoLen)..], buf.maxLength)
      ensures more == Emitted(Head(old(totalLen), old(msgID)), old(buf.AsView().queue)[..old(protoLen)])
    {
      var body := buf.Read(0, protoLen);
      more := if totalLen <= MAX_SIZE then [Msg(msgID, body.value)] else [];
      inMsg := false;
    }

    /** Decodes all that the buffer holds and leaves the rest in it; the callback's messages, in order. */
    method RangeMsgBinary(buf: IOBuffer) returns (emitted: seq<Msg>, ok: bool)
      requires Valid() && buf.Valid()
      modifies this, buf`start
      ensures Valid() && buf.Valid()
      ensures var d := Decode(old(State()), old(buf.AsView().queue));
              emitted == d.msgs && ok == !d.failed && State() == d.head && buf.AsView() == View(d.rest, buf.maxLength)
    {
      hide Decode, Before, HeadAt;
      emitted, ok := [], true;
      ghost var all := Decode(State(), buf.AsView().queue);
      NothingBefore(all);
      while true
        invariant Valid() && buf.Valid() && ok
        invariant all == Before(emitted, Decode(State(), buf.AsView().queue))
        decreases buf.Len(), if inMsg then 1 else 0
      {
        DecodeStep(State(), buf.AsView().queue);
        if !inMsg && buf.Len() >= HEAD_SIZE {
          ok := TakeHead(buf);
          if !ok {
            NothingFound(emitted, None, buf.AsView().queue, true);
            return;
          }
        }
        DecodeStep(State(), buf.AsView().queue);
        if inMsg && buf.Len() >= protoLen {
          var more := TakeBody(buf);
          BeforeTwice(emitted, more, Decode(None, buf.AsView().queue));
          emitted := emitted + more;
        } else {
          NothingFound(emitted, State(), buf.AsView().queue, false);
          break;
        }
      }
    }
  }

  /** One step of the decoder. */
  lemma DecodeStep(head: Option<Head>, s: seq<Byte>)
    requires ValidHead(head)
    ensures |s| < Needed(head) ==> Decode(head, s) == Decoded([], head, s, false)
    ensures head == None && |s| >= HEAD_SIZE && HeadAt(s).total < HEAD_SIZE ==>
              Decode(head, s) == Decoded([], None, s[HEAD_SIZE..], true)
    ensures head == None && |s| >= HEAD_SIZE && HeadAt(s).total >= HEAD_SIZE ==>
              Decode(head, s) == Decode(Some(HeadAt(s)), s[HEAD_SIZE..])
    ensures head.Some? && |s| >= Needed(head) ==>
              Decode(head, s) == Before(Emitted(head.value, s[..Needed(head)]), Decode(None, s[Needed(head)..]))
  {
  }

  lemma NothingFound(ms: seq<Msg>, head: Option<Head>, rest: seq<Byte>, failed: bool)
    ensures Before(ms, Decoded([], head, rest, failed)) == Decoded(ms, head, rest, failed)
  {
  }

  lemma BeforeTwice(a: seq<Msg>, b: seq<Msg>, d: Decoded)
    ensures Before(a, Before(b, d)) == Before(a + b, d)
  {
  }
}
