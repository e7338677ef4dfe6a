/**
 The sliding, growing and shrinking IO buffer, refining a queue of bytes with a capacity.
 Slices into the Go buffer are returned as values. The reader is a parameter: the bytes
 it has to offer, of which a read takes as many as fit, or its failure.
 */
module IOBuffers {
  import opened Basics
  import opened Bytes

  datatype Error = NotEnough | OverSize | Less0

  const GROWTH_LIMIT := 16

  /** What a buffer stands for: its content, and how much it can hold at the moment. */
  datatype View = View(queue: seq<Byte>, max: nat)

  /** The capacity after an emptied buffer has given back what it grew to. */
  function Shrunk(v: View, defaultLength: nat, threshold: nat): nat {
    if v.queue == [] && v.max >= threshold then defaultLength else v.max
  }

  /** Write takes all of `src` or nothing: whether it succeeds, ... */
  predicate WriteFits(v: View, src: seq<Byte>, defaultLength: nat, banned: bool) {
    |v.queue| + |src| <=
      if banned then Shrunk(v, defaultLength, 2 * defaultLength) else GROWTH_LIMIT * defaultLength
  }

  /** ... and the buffer behind it, never longer than needed. */
  function WriteView(v: View, src: seq<Byte>, defaultLength: nat, banned: bool): View {
    var max := Shrunk(v, defaultLength, 2 * defaultLength);
    if !WriteFits(v, src, defaultLength, banned) then View(v.queue, max)
    else View(v.queue + src, if |v.queue| + |src| > max then |v.queue| + |src| else max)
  }

  /** How many of the offered bytes a read takes. */
  function Taken(v: View, offered: seq<Byte>, defaultLength: nat): (n: nat)
    requires |v.queue| <= v.max
    ensures n <= |offered|
  {
    var free := Shrunk(v, defaultLength, 2 * defaultLength + 1) - |v.queue|;
    if |offered| <= free then |offered| else free
  }

  /** ReadFromReader: takes what fits, and doubles the capacity when that fills it. */
  function FillView(v: View, offered: seq<Byte>, defaultLength: nat, banned: bool): View
    requires |v.queue| <= v.max
  {
    var max := Shrunk(v, defaultLength, 2 * defaultLength + 1);
    var q := v.queue + offered[..Taken(v, offered, defaultLength)];
    View(q, if |q| == max && !banned && 2 * max <= GROWTH_LIMIT * defaultLength then 2 * max else max)
  }

  class IOBuffer {
    var buf: array<Byte>
    var start: nat
    var end: nat
    var maxLength: nat
    const defaultLength: nat
    var banAutoResize: bool

    ghost predicate Valid()
      reads this
    {
      && start <= end <= maxLength == buf.Length
      && defaultLength <= maxLength <= GROWTH_LIMIT * defaultLength
    }

    ghost function AsView(): View
      reads this, buf
      requires Valid()
    {
      View(buf[start..end], maxLength)
    }

    constructor (length: nat)
      ensures Valid() && fresh(buf) && AsView() == View([], length)
      ensures defaultLength == length && !banAutoResize
    {
      buf := new Byte[length](_ => 0);
      start, end, maxLength, defaultLength := 0, 0, length, length;
      banAutoResize := false;
    }

    method SetBanAutoResize(value: bool)
      modifies this`banAutoResize
      ensures banAutoResize == value
    {
      banAutoResize := value;
    }

    function Len(): nat
      reads this
      requires Valid()
    {
      end - start
    }

    function TotalSize(): nat
      reads this
    {
      maxLength
    }

    /** Moves the content to the front. */
    method Grow()
      requires Valid()
      modifies this`start, this`end, buf
      ensures Valid() && start == 0 && AsView() == old(AsView())
    {
      if start != 0 {
        var len := end - start;
        forall i | 0 <= i < len {
          buf[i] := buf[start + i];
        }
        end := len;
        start := 0;
      }
    }

    /** Moves the content to the front of a new array. */
    method Resize(length: nat)
      requires Valid() && end - start <= length && defaultLength <= length <= GROWTH_LIMIT * defaultLength
      modifies this`buf, this`start, this`end, this`maxLength
      ensures Valid() && fresh(buf) && AsView() == View(old(AsView()).queue, length)
      ensures old(start) == 0 ==> start == 0 && end == old(end)
    {
      var newbuf := new Byte[length](_ => 0);
      if end != 0 || start != 0 {
        forall i | 0 <= i < end - start {
          newbuf[i] := buf[start + i];
        }
        end := end - start;
        start := 0;
      }
      buf := newbuf;
      maxLength := length;
    }

    /** Moves the content to the front; an empty buffer gives back what it grew to. */
    method GiveBack(threshold: nat)
      requires Valid()
      modifies this`buf, this`start, this`end, this`maxLength, buf
      ensures Valid() && (buf == old(buf) || fresh(buf)) && start == 0
      ensures AsView() == View(old(AsView()).queue, Shrunk(old(AsView()), defaultLength, threshold))
    {
      Grow();
      if end == 0 && maxLength >= threshold {
        Resize(defaultLength);
      }
    }

    method Append(src: seq<Byte>)
      requires Valid() && end + |src| <= maxLength
      modifies this`end, buf
      ensures Valid() && AsView() == View(old(AsView()).queue + src, maxLength) && end == old(end) + |src|
    {
      ghost var was := buf[..end];
      PutBytes(buf, end, src);
      assert buf[..end + |src|] == was + src;
      end := end + |src|;
    }

    method ReadFromReader(offered: seq<Byte>, failed: bool) returns (n: nat, ok: bool)
      requires Valid()
      modifies this, buf
      ensures Valid() && (buf == old(buf) || fresh(buf)) && banAutoResize == old(banAutoResize)
      ensures ok == !failed
      ensures ok ==> n == Taken(old(AsView()), offered, defaultLength)
      ensures var v := old(AsView());
              var max := if v.queue == [] && v.max > 2 * defaultLength then defaultLength else v.max;
              var free := max - |v.queue|;
              if !ok then AsView() == View(v.queue, max)
              else
                && n == (if |offered| <= free then |offered| else free)
                && AsView().queue == v.queue + offered[..n]
                && maxLength == if n == free && !banAutoResize && 2 * max <= 16 * defaultLength then 2 * max else max
      ensures ok ==> AsView() == FillView(old(AsView()), offered, defaultLength, banAutoResize)
      ensures !ok ==> AsView() == View(old(AsView()).queue, Shrunk(old(AsView()), defaultLength, 2 * defaultLength + 1))
    {
      GiveBack(defaultLength * 2 + 1);
      if failed {
        return 0, false;
      }
      var leftSize := maxLength - end;
      n := if |offered| <= leftSize then |offered| else leftSize;
      Append(offered[..n]);
      if n == leftSize && !banAutoResize {
        var targetLength := maxLength * 2;
        if targetLength <= defaultLength * GROWTH_LIMIT {
          Resize(targetLength);
        }
      }
      ok := true;
    }

    /** All the content, without consuming it. */
    method SeekAll() returns (bytes: seq<Byte>)
      requires Valid()
      ensures bytes == AsView().queue
    {
      bytes := buf[start..end];
    }

    /** Drops `offset` bytes and takes the next `n`, or fails and changes nothing. */
    method Read(offset: int, n: int) returns (r: Result<seq<Byte>, Error>)
      requires Valid()
      modifies this`start
      ensures Valid()
      ensures r.Ok? <==> 0 <= offset && 0 <= n && offset + n <= |old(AsView()).queue|
      ensures r.Ok? ==> r.value == old(AsView()).queue[offset..offset + n]
      ensures r.Ok? ==> AsView() == old(AsView()).(queue := old(AsView()).queue[offset + n..])
      ensures r.Err? ==> start == old(start)
      ensures r.Err? ==> r.error == if n > maxLength then OverSize else if offset < 0 || n < 0 then Less0 else NotEnough
    {
      if maxLength < n {
        return Err(OverSize);
      }
      if offset < 0 || n < 0 {
        return Err(Less0);
      }
      if start + offset + n > end {
        return Err(NotEnough);
      }
      start := start + offset;
      r := Ok(buf[start..start + n]);
      start := start + n;
    }

    method Write(src: seq<Byte>) returns (ok: bool)
      requires Valid()
      modifies this, buf
      ensures Valid() && (buf == old(buf) || fresh(buf)) && banAutoResize == old(banAutoResize)
      ensures ok == WriteFits(old(AsView()), src, defaultLength, banAutoResize)
      ensures AsView() == WriteView(old(AsView()), src, defaultLength, banAutoResize)
      ensures var v := old(AsView());
              var max := if v.queue == [] && v.max >= 2 * defaultLength then defaultLength else v.max;
              var need := |v.queue| + |src|;
              && (ok <==> need <= if banAutoResize then max else 16 * defaultLength)
              && AsView() == if !ok then View(v.queue, max) else View(v.queue + src, if need > max then need else max)
    {
      GiveBack(defaultLength * 2);
      if |src| > maxLength - (end - start) && !banAutoResize {
        var targetLength := end + |src|;
        if targetLength <= defaultLength * GROWTH_LIMIT {
          Resize(targetLength);
        }
      }
      if |src| > maxLength - (end - start) {
        return false;
      }
      Append(src);
      ok := true;
    }

    /**
     Advances the start. Only the exact move that consumes all of the content acts on the queue: a
     shorter one is refused, and a longer one leaves the start behind the end.
     */
    method MoveStart(n: int) returns (r: Result<(), Error>)
      requires Valid()
      modifies this`start
      ensures n == |old(AsView()).queue| ==> r.Ok? && Valid() && AsView() == old(AsView()).(queue := [])
      ensures n < |old(AsView()).queue| ==>
                start == old(start) && r == Err(if old(start) + n < 0 then Less0 else OverSize)
      ensures n > |old(AsView()).queue| ==> r.Ok? && start == old(start) + n && !Valid()
    {
      var tmpn := start + n;
      if tmpn < 0 {
        return Err(Less0);
      }
      if tmpn < end {
        return Err(OverSize);
      }
      start := tmpn;
      r := Ok(());
    }
  }

  // ---------------------------------------------------------------------------------------
  // Runs
  // ---------------------------------------------------------------------------------------

  /** The operations of a buffer: `Drain` is the MoveStart behind a complete send of the content. */
  datatype Op =
    | Write(src: seq<Byte>)
    | Fill(offered: seq<Byte>, failed: bool)
    | Read(offset: int, n: int)
    | Drain

  predicate ReadOk(v: View, op: Op)
    requires op.Read?
  {
    0 <= op.offset && 0 <= op.n && op.offset + op.n <= |v.queue|
  }

  function Step(v: View, op: Op, defaultLength: nat, banned: bool): View
    requires |v.queue| <= v.max
  {
    match op
    case Write(src) => WriteView(v, src, defaultLength, banned)
    case Fill(offered, failed) =>
      if failed then View(v.queue, Shrunk(v, defaultLength, 2 * defaultLength + 1))
      else FillView(v, offered, defaultLength, banned)
    case Read(offset, n) => if ReadOk(v, op) then v.(queue := v.queue[offset + n..]) else v
    case Drain => v.(queue := [])
  }

  /** What an operation puts behind the queue, and what it takes from its front. */
  function Accepted(v: View, op: Op, defaultLength: nat, banned: bool): seq<Byte>
    requires |v.queue| <= v.max
  {
    match op
    case Write(src) => if WriteFits(v, src, defaultLength, banned) then src else []
    case Fill(offered, failed) => if failed then [] else offered[..Taken(v, offered, defaultLength)]
    case _ => []
  }

  function Consumed(v: View, op: Op): seq<Byte> {
    match op
    case Read(offset, n) => if ReadOk(v, op) then v.queue[..offset + n] else []
    case Drain => v.queue
    case _ => []
  }

  ghost predicate Bounded(v: View, defaultLength: nat) {
    |v.queue| <= v.max && defaultLength <= v.max <= GROWTH_LIMIT * defaultLength
  }

  /** Every operation keeps the bounds and treats the buffer as a first-in first-out queue. */
  lemma StepIsFifo(v: View, op: Op, defaultLength: nat, banned: bool)
    requires Bounded(v, defaultLength)
    ensures var v' := Step(v, op, defaultLength, banned);
            Bounded(v', defaultLength) && v.queue + Accepted(v, op, defaultLength, banned) == Consumed(v, op) + v'.queue
  {
  }

  function Run(v: View, ops: seq<Op>, defaultLength: nat, banned: bool): (View, seq<Byte>, seq<Byte>)
    requires Bounded(v, defaultLength)
    decreases |ops|
  {
    if ops == [] then (v, [], []) else
    StepIsFifo(v, ops[0], defaultLength, banned);
    var (end, taken, given) := Run(Step(v, ops[0], defaultLength, banned), ops[1..], defaultLength, banned);
    (end, Accepted(v, ops[0], defaultLength, banned) + taken, Consumed(v, ops[0]) + given)
  }

  /**
   Over any run, with any failures, slides, growths and shrinks, the accepted bytes come out in
   order: old content and accepted bytes are the consumed bytes and the new content; and the
   capacity stays between the default and sixteen times the default.
   */
  lemma {:induction false} RunIsFifo(v: View, ops: seq<Op>, defaultLength: nat, banned: bool)
    requires Bounded(v, defaultLength)
    ensures var (end, taken, given) := Run(v, ops, defaultLength, banned);
            Bounded(end, defaultLength) && v.queue + taken == given + end.queue
    decreases |ops|
  {
    hide Step, Accepted, Consumed;
    if ops != [] {
      StepIsFifo(v, ops[0], defaultLength, banned);
      var v' := Step(v, ops[0], defaultLength, banned);
      RunIsFifo(v', ops[1..], defaultLength, banned);
      var (end, taken, given) := Run(v', ops[1..], defaultLength, banned);
      var a, c := Accepted(v, ops[0], defaultLength, banned), Consumed(v, ops[0]);
      Glue(v.queue, a, c, v'.queue, taken, given, end.queue);
    }
  }

  lemma Glue(q: seq<Byte>, a: seq<Byte>, c: seq<Byte>, q': seq<Byte>, taken: seq<Byte>, given: seq<Byte>,
             end: seq<Byte>)
    requires q + a == c + q' && q' + taken == given + end
    ensures q + (a + taken) == (c + given) + end
  {
    assert q + (a + taken) == (q + a) + taken == c + (q' + taken) == (c + given) + end;
  }

  /** The class under a run does what the views do. */
  method RunBuffer(b: IOBuffer, ops: seq<Op>)
    requires b.Valid()
    modifies b, b.buf
    ensures b.Valid() && b.AsView() == Run(old(b.AsView()), ops, b.defaultLength, old(b.banAutoResize)).0
  {
    hide WriteView, FillView, WriteFits, Taken, Accepted, Consumed;
    ghost var first, banned := b.AsView(), b.banAutoResize;
    for i := 0 to |ops|
      invariant b.Valid() && (b.buf == old(b.buf) || fresh(b.buf)) && b.banAutoResize == banned
      invariant Run(b.AsView(), ops[i..], b.defaultLength, banned).0 == Run(first, ops, b.defaultLength, banned).0
    {
      assert ops[i..][1..] == ops[i + 1..];
      match ops[i] {
        case Write(src) => var _ := b.Write(src);
        case Fill(offered, failed) => var _, _ := b.ReadFromReader(offered, failed);
        case Read(offset, n) => var _ := b.Read(offset, n);
        case Drain => var _ := b.MoveStart(b.Len());
      }
    }
  }
}
