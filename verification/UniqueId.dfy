/** Ids that are unique within a module, from a clock in seconds that may stand still or go backwards. */
module UniqueId {

  import opened Basics

  const EPOCH := 1514736000

  datatype Failure = ServerTime | TooMany | Duplicate
  type ID = Result<string, Failure>

  datatype Builder = Builder(low: U16, mid: U32, packed: nat)

  const FRESH := Builder(0, 0, 0)

  function Packed(mid: U32, low: U16): nat {
    mid * 0x1_0000 + low
  }

  /** Go's int64 subtraction wraps. */
  function Wrapped64(x: int): (r: int)
    ensures -0x8000_0000_0000_0000 <= r < 0x8000_0000_0000_0000 && (r - x) % 0x1_0000_0000_0000_0000 == 0
  {
    (x + 0x8000_0000_0000_0000) % 0x1_0000_0000_0000_0000 - 0x8000_0000_0000_0000
  }

  function Decimal(n: nat): string {
    if n < 10 then ["0123456789"[n]] else Decimal(n / 10) + ["0123456789"[n % 10]]
  }

  function Digit(c: char): nat {
    if '0' <= c <= '9' then (c - '0') as nat else 0
  }

  function DecimalValue(s: string): nat {
    if s == "" then 0 else 10 * DecimalValue(s[..|s| - 1]) + Digit(s[|s| - 1])
  }

  lemma {:induction false} DecimalReads(n: nat)
    ensures DecimalValue(Decimal(n)) == n
  {
    var s := Decimal(n);
    if n >= 10 {
      DecimalReads(n / 10);
      assert s[..|s| - 1] == Decimal(n / 10);
    } else {
      assert s[..0] == "";
    }
  }

  /** GenUniqueID at the given clock reading. */
  function Gen(b: Builder, unix: int, height: U16): (ID, Builder) {
    var nowtime := Wrapped64(unix - EPOCH);
    if nowtime <= 0 then (Err(ServerTime), b) else
    var now := nowtime % 0x1_0000_0000;
    if now <= b.mid && b.low == 0xffff then (Err(TooMany), b) else
    var b1 := if now > b.mid then b.(low := 0, mid := now) else b.(low := b.low + 1);
    var subvalue := Packed(b1.mid, b1.low);
    if subvalue <= b.packed then (Err(Duplicate), b1)
    else (Ok(Decimal(subvalue * 0x1_0000 + height)), b1.(packed := subvalue))
  }

  /** The packed value is what its parts say. */
  predicate Valid(b: Builder) {
    b.packed == Packed(b.mid, b.low)
  }

  /**
   The duplicate check never fires; an id is given exactly when the clock is late enough and either
   has moved on or the counter has room; and an id is the new packed value, larger than before,
   followed by the module's own part.
   */
  lemma GenAdvances(b: Builder, unix: int, height: U16)
    requires Valid(b)
    ensures var (r, b') := Gen(b, unix, height);
            var nowtime := Wrapped64(unix - EPOCH);
            && Valid(b') && r != Err(Duplicate)
            && (r.Ok? <==> nowtime > 0 && (nowtime % 0x1_0000_0000 > b.mid || b.low < 0xffff))
            && (if r.Ok? then b.packed < b'.packed && r.value == Decimal(b'.packed * 0x1_0000 + height) else b' == b)
  {
  }

  /**
   An id's number has the second on top, then the counter, then the module's part: of the clock's
   second and a counter from 0 if the clock has moved on, else of the last second and the next counter.
   */
  lemma GenReadsClock(b: Builder, unix: int, height: U16)
    requires Gen(b, unix, height).0.Ok?
    ensures var id := DecimalValue(Gen(b, unix, height).0.value);
            var second := Wrapped64(unix - EPOCH) % 0x1_0000_0000;
            && id % 0x1_0000 == height
            && id / 0x1_0000_0000 == (if second > b.mid then second else b.mid)
            && id / 0x1_0000 % 0x1_0000 == if second > b.mid then 0 else b.low + 1
    ensures var b' := Gen(b, unix, height).1; DecimalValue(Gen(b, unix, height).0.value) / 0x1_0000_0000 == b'.mid
  {
    hide Decimal, DecimalValue;
    var b' := Gen(b, unix, height).1;
    DecimalReads(b'.packed * 0x1_0000 + height);
    IdParts(b'.mid, b'.low, height);
  }

  lemma IdParts(mid: U32, low: U16, height: U16)
    ensures var id := Packed(mid, low) * 0x1_0000 + height;
            id % 0x1_0000 == height && id / 0x1_0000_0000 == mid && id / 0x1_0000 % 0x1_0000 == low
  {
    var id := Packed(mid, low) * 0x1_0000 + height;
    assert id == mid * 0x1_0000_0000 + (low * 0x1_0000 + height);
    assert id / 0x1_0000 == Packed(mid, low);
  }

  /** A thousand seconds after the epoch, the first id of module 7. */
  lemma FirstId()
    ensures Gen(FRESH, 1514737000, 7).0.Ok? && DecimalValue(Gen(FRESH, 1514737000, 7).0.value) == 4294967296007
  {
    hide Decimal, DecimalValue;
    NoWrap(1514737000);
    DecimalReads(4294967296007);
  }

  /** Digits are decimal, the highest first. */
  lemma Digits()
    ensures Decimal(4093) == "4093" && DecimalValue("4093") == 4093
  {
    assert Decimal(4) == "4" && Decimal(40) == "40" && Decimal(409) == "409";
    DecimalReads(4093);
  }

  datatype Call = Call(unix: int, height: U16)

  function Run(b: Builder, calls: seq<Call>): Builder {
    if calls == [] then b else Gen(Run(b, calls[..|calls| - 1]), calls[|calls| - 1].unix, calls[|calls| - 1].height).1
  }

  /** The outcome of call `i` of a run. */
  function Outcome(calls: seq<Call>, i: nat): ID
    requires i < |calls|
  {
    Gen(Run(FRESH, calls[..i]), calls[i].unix, calls[i].height).0
  }

  lemma FreshIsValid()
    ensures Valid(FRESH)
  {
  }

  lemma {:induction false} RunAdvances(calls: seq<Call>, i: nat, j: nat)
    requires i <= j <= |calls|
    ensures Valid(Run(FRESH, calls[..j]))
    ensures Run(FRESH, calls[..i]).packed <= Run(FRESH, calls[..j]).packed
    decreases j
  {
    hide Gen, Valid;
    FreshIsValid();
    if j == 0 {
      assert calls[..0] == [];
    } else {
      RunAdvances(calls, if i < j then i else j - 1, j - 1);
      assert calls[..j][..j - 1] == calls[..j - 1];
      GenAdvances(Run(FRESH, calls[..j - 1]), calls[j - 1].unix, calls[j - 1].height);
    }
  }

  /**
   For every sequence of clock readings, and whatever module numbers are passed: an id that is given
   is a larger number than all earlier ones with their last 16 bits dropped, so no id is given twice,
   and no call reports a duplicate.
   */
  lemma NeverRepeats(calls: seq<Call>, i: nat, j: nat)
    requires i < j < |calls|
    ensures Outcome(calls, j) != Err(Duplicate)
    ensures Outcome(calls, i).Ok? && Outcome(calls, j).Ok? ==>
              && DecimalValue(Outcome(calls, i).value) / 0x1_0000 < DecimalValue(Outcome(calls, j).value) / 0x1_0000
              && Outcome(calls, i).value != Outcome(calls, j).value
  {
    hide Gen, Decimal, DecimalValue, Packed;
    RunAdvances(calls, i + 1, j);
    RunAdvances(calls, i, i);
    assert calls[..i + 1][..i] == calls[..i];
    GenAdvances(Run(FRESH, calls[..i]), calls[i].unix, calls[i].height);
    GenAdvances(Run(FRESH, calls[..j]), calls[j].unix, calls[j].height);
    DecimalReads(Gen(Run(FRESH, calls[..i]), calls[i].unix, calls[i].height).1.packed * 0x1_0000 + calls[i].height);
    DecimalReads(Gen(Run(FRESH, calls[..j]), calls[j].unix, calls[j].height).1.packed * 0x1_0000 + calls[j].height);
  }

  /** A run's last second only grows, up to the latest reading. */
  lemma {:induction false} SecondsGrow(calls: seq<Call>, i: nat, j: nat)
    requires i <= j <= |calls|
    ensures Run(FRESH, calls[..i]).mid <= Run(FRESH, calls[..j]).mid
    decreases j
  {
    if i < j {
      SecondsGrow(calls, i, j - 1);
      assert calls[..j][..j - 1] == calls[..j - 1];
    }
  }

  lemma {:induction false} SecondsBelow(calls: seq<Call>, i: nat, limit: int)
    requires i <= |calls| && 1514736000 < limit <= 1514736000 + 0x1_0000_0000
    requires forall k :: 0 <= k < |calls| ==> 0 <= calls[k].unix < limit
    ensures Run(FRESH, calls[..i]).mid < limit - 1514736000
    decreases i
  {
    hide Gen;
    if i > 0 {
      SecondsBelow(calls, i - 1, limit);
      assert calls[..i][..i - 1] == calls[..i - 1];
      SecondBelow(Run(FRESH, calls[..i - 1]), calls[i - 1], limit);
    }
  }

  /** Go's subtraction does not wrap for clocks of our time. */
  lemma NoWrap(unix: int)
    requires 0 <= unix < 1514736000 + 0x1_0000_0000
    ensures Wrapped64(unix - EPOCH) == unix - 1514736000
  {
  }

  lemma SecondBelow(b: Builder, c: Call, limit: int)
    requires 0 <= c.unix < limit <= 1514736000 + 0x1_0000_0000 && b.mid < limit - 1514736000
    ensures Gen(b, c.unix, c.height).1.mid < limit - 1514736000
  {
    hide Wrapped64, Decimal;
    NoWrap(c.unix);
  }

  /**
   A module that starts again, at a later second than any of the readings before, gives only larger
   ids than before, whatever its clock does after that.
   */
  lemma RestartIsSafe(calls: seq<Call>, later: seq<Call>, i: nat, j: nat)
    requires i < |calls| && j < |later| && 1514736000 < later[0].unix < 1514736000 + 0x1_0000_0000
    requires forall k :: 0 <= k < |calls| ==> 0 <= calls[k].unix < later[0].unix
    ensures Outcome(calls, i).Ok? && Outcome(later, j).Ok? ==>
              DecimalValue(Outcome(calls, i).value) < DecimalValue(Outcome(later, j).value)
  {
    if Outcome(calls, i).Ok? && Outcome(later, j).Ok? {
      hide DecimalValue, Decimal, Gen;
      SecondsBelow(calls, i + 1, later[0].unix);
      SecondsGrow(later, 1, j + 1);
      assert later[..1][..0] == [] && later[..j + 1][..j] == later[..j] && calls[..i + 1][..i] == calls[..i];
      StartSecond(later[0].unix, later[0].height);
      GenReadsClock(Run(FRESH, calls[..i]), calls[i].unix, calls[i].height);
      GenReadsClock(Run(FRESH, later[..j]), later[j].unix, later[j].height);
    }
  }

  lemma StartSecond(unix: int, height: U16)
    requires 1514736000 < unix < 1514736000 + 0x1_0000_0000
    ensures Gen(FRESH, unix, height).1.mid == unix - 1514736000
  {
  }

  /** Modules with different numbers never give the same id. */
  lemma AcrossModules(b: Builder, c: Builder, one: Call, two: Call)
    requires Valid(b) && Valid(c) && one.height != two.height
    requires Gen(b, one.unix, one.height).0.Ok? && Gen(c, two.unix, two.height).0.Ok?
    ensures Gen(b, one.unix, one.height).0.value != Gen(c, two.unix, two.height).0.value
  {
    hide Gen, Decimal, DecimalValue, Packed;
    GenAdvances(b, one.unix, one.height);
    GenAdvances(c, two.unix, two.height);
    DecimalReads(Gen(b, one.unix, one.height).1.packed * 0x1_0000 + one.height);
    DecimalReads(Gen(c, two.unix, two.height).1.packed * 0x1_0000 + two.height);
  }

  class UniqueIDBuilder {
    var lastLowlevelID: U16
    var lastMidlevelID: U32
    var lastMidLowLevelID: nat

    ghost function Value(): Builder
      reads this
    {
      Builder(lastLowlevelID, lastMidlevelID, lastMidLowLevelID)
    }

    constructor ()
      ensures Value() == FRESH
    {
      lastLowlevelID, lastMidlevelID, lastMidLowLevelID := 0, 0, 0;
    }

    method GenUniqueID(heightlevelID: U16, unix: int) returns (r: ID)
      modifies this
      ensures (r, Value()) == Gen(old(Value()), unix, heightlevelID)
      ensures 0 < unix - 1514736000 < 0x1_0000_0000 && unix - 1514736000 > old(lastMidlevelID) &&
              old(lastMidLowLevelID) == Packed(old(lastMidlevelID), old(lastLowlevelID)) ==>
                r.Ok? && DecimalValue(r.value) == (unix - 1514736000) * 0x1_0000_0000 + heightlevelID
    {
      hide Decimal, DecimalValue;
      var nowtime := Wrapped64(unix - EPOCH);
      if nowtime <= 0 {
        return Err(ServerTime);
      }
      var now: U32 := nowtime % 0x1_0000_0000;
      if now > lastMidlevelID {
        lastLowlevelID := 0;
        lastMidlevelID := now;
      } else {
        if lastLowlevelID == 0xffff {
          return Err(TooMany);
        } else {
          lastLowlevelID := lastLowlevelID + 1;
        }
      }
      var subvalue := Packed(lastMidlevelID, lastLowlevelID);
      if subvalue <= lastMidLowLevelID {
        return Err(Duplicate);
      }
      lastMidLowLevelID := subvalue;
      DecimalReads(subvalue * 0x1_0000 + heightlevelID);
      r := Ok(Decimal(subvalue * 0x1_0000 + heightlevelID));
    }
  }
}
