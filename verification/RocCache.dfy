/** The per-process cache of which module hosts which remote object. */
module RocCache {
  import opened Basics

  type ObjType = string
  type ObjID = string
  type ModuleID = string

  /** The cache as one map from objects to hosts. */
  type Hosts = map<(ObjType, ObjID), ModuleID>

  /** SetM and DelM; Set and Del are the same for a single id. */
  datatype Op = SetM(t: ObjType, ids: seq<ObjID>, host: ModuleID) | DelM(t: ObjType, ids: seq<ObjID>, host: ModuleID)

  function SetIDs(h: Hosts, t: ObjType, ids: set<ObjID>, host: ModuleID): Hosts {
    h + map id | id in ids :: (t, id) := host
  }

  /** A module can only take out what is still its own. */
  function DelIDs(h: Hosts, t: ObjType, ids: set<ObjID>, host: ModuleID): Hosts {
    map x | x in h && !(x.0 == t && x.1 in ids && h[x] == host) :: h[x]
  }

  function IDSet(ids: seq<ObjID>): set<ObjID> {
    set id | id in ids
  }

  function Apply(h: Hosts, op: Op): Hosts {
    match op
    case SetM(t, ids, host) => SetIDs(h, t, IDSet(ids), host)
    case DelM(t, ids, host) => DelIDs(h, t, IDSet(ids), host)
  }

  function Replay(h: Hosts, ops: seq<Op>): Hosts {
    if ops == [] then h else Apply(Replay(h, ops[..|ops| - 1]), ops[|ops| - 1])
  }

  function Lookup(h: Hosts, x: (ObjType, ObjID)): Option<ModuleID> {
    if x in h then Some(h[x]) else None
  }

  // ---------------------------------------------------------------------------------------
  // The history law
  // ---------------------------------------------------------------------------------------

  predicate Sets(op: Op, x: (ObjType, ObjID)) {
    op.SetM? && op.t == x.0 && x.1 in op.ids
  }

  predicate Dels(op: Op, x: (ObjType, ObjID), host: ModuleID) {
    op.DelM? && op.t == x.0 && x.1 in op.ids && op.host == host
  }

  /** `i` is the last operation that set `x`, it was by `host`, and `host` has not deleted it since. */
  ghost predicate LastSet(ops: seq<Op>, x: (ObjType, ObjID), host: ModuleID, i: nat) {
    && i < |ops| && Sets(ops[i], x) && ops[i].host == host
    && forall j :: i < j < |ops| ==> !Sets(ops[j], x) && !Dels(ops[j], x, host)
  }

  /**
   After any history the cache says that `host` has `x` if and only if the last one to set it was
   `host`, which has not deleted it since; deletes by others never matter.
   */
  lemma {:induction false} HistoryLaw(ops: seq<Op>, x: (ObjType, ObjID), host: ModuleID)
    ensures Lookup(Replay(map[], ops), x) == Some(host) <==> exists i :: LastSet(ops, x, host, i)
    decreases |ops|
  {
    hide Apply, LastSet, Sets, Dels;
    if ops != [] {
      var front, op := ops[..|ops| - 1], ops[|ops| - 1];
      HistoryLaw(front, x, host);
      ApplyAt(Replay(map[], front), op, x);
      LastSetStep(ops, x, host);
      DelsIsBy(op, x, host);
    } else {
      NoLastSet(x, host);
    }
  }

  lemma DelsIsBy(op: Op, x: (ObjType, ObjID), host: ModuleID)
    ensures Dels(op, x, host) <==> op.DelM? && Dels(op, x, op.host) && op.host == host
  {
  }

  lemma NoLastSet(x: (ObjType, ObjID), host: ModuleID)
    ensures !exists i :: LastSet([], x, host, i)
  {
  }

  /** Whether there is a last set still standing, one operation later. */
  lemma LastSetStep(ops: seq<Op>, x: (ObjType, ObjID), host: ModuleID)
    requires ops != []
    ensures var (front, op) := (ops[..|ops| - 1], ops[|ops| - 1]);
            (exists i :: LastSet(ops, x, host, i)) <==>
            if Sets(op, x) then op.host == host
            else !Dels(op, x, host) && exists i :: LastSet(front, x, host, i)
  {
    var (front, op) := (ops[..|ops| - 1], ops[|ops| - 1]);
    if Sets(op, x) {
      if op.host == host {
        assert LastSet(ops, x, host, |ops| - 1);
      }
    } else if !Dels(op, x, host) {
      forall i ensures LastSet(ops, x, host, i) <==> LastSet(front, x, host, i) {
      }
    }
  }

  lemma SetAt(h: Hosts, t: ObjType, ids: set<ObjID>, host: ModuleID, x: (ObjType, ObjID))
    ensures Lookup(SetIDs(h, t, ids, host), x) == if x.0 == t && x.1 in ids then Some(host) else Lookup(h, x)
  {
    assert x == (x.0, x.1);
  }

  lemma DelAt(h: Hosts, t: ObjType, ids: set<ObjID>, host: ModuleID, x: (ObjType, ObjID))
    ensures Lookup(DelIDs(h, t, ids, host), x)
         == if x.0 == t && x.1 in ids && Lookup(h, x) == Some(host) then None else Lookup(h, x)
  {
  }

  /** What one operation does to one object. */
  lemma ApplyAt(h: Hosts, op: Op, x: (ObjType, ObjID))
    ensures Lookup(Apply(h, op), x) ==
            if Sets(op, x) then Some(op.host)
            else if op.DelM? && Dels(op, x, op.host) && Lookup(h, x) == Some(op.host) then None
            else Lookup(h, x)
  {
    hide SetIDs, DelIDs;
    match op
    case SetM(t, ids, host) => SetAt(h, t, IDSet(ids), host, x);
    case DelM(t, ids, host) => DelAt(h, t, IDSet(ids), host, x);
  }

  lemma SameLookups(a: Hosts, b: Hosts)
    requires forall x :: Lookup(a, x) == Lookup(b, x)
    ensures a == b
  {
    forall x ensures x in a <==> x in b {
      assert Lookup(a, x) == Lookup(b, x);
    }
    forall x | x in a ensures a[x] == b[x] {
      assert Lookup(a, x) == Lookup(b, x);
    }
  }

  /**
   Once the old host's object is in the cache, the new host's add and the old host's delete commute: the
   object moves.
   */
  lemma MoveCommutes(h: Hosts, t: ObjType, id: ObjID, was: ModuleID, now: ModuleID)
    requires was != now && Lookup(h, (t, id)) == Some(was)
    ensures var (add, del) := (SetM(t, [id], now), DelM(t, [id], was));
            && Apply(Apply(h, add), del) == Apply(Apply(h, del), add)
            && Lookup(Apply(Apply(h, add), del), (t, id)) == Some(now)
  {
    hide Apply;
    var (add, del) := (SetM(t, [id], now), DelM(t, [id], was));
    forall x ensures Lookup(Apply(Apply(h, add), del), x) == Lookup(Apply(Apply(h, del), add), x)
                  == if x == (t, id) then Some(now) else Lookup(h, x)
    {
      MovedAt(h, add, del, x);
    }
    SameLookups(Apply(Apply(h, add), del), Apply(Apply(h, del), add));
  }

  lemma MovedAt(h: Hosts, add: Op, del: Op, x: (ObjType, ObjID))
    requires add.SetM? && del.DelM? && add.t == del.t && |add.ids| == 1 && add.ids == del.ids && add.host != del.host
    requires Lookup(h, (add.t, add.ids[0])) == Some(del.host)
    ensures Lookup(Apply(Apply(h, add), del), x) == Lookup(Apply(Apply(h, del), add), x)
         == if x == (add.t, add.ids[0]) then Some(add.host) else Lookup(h, x)
  {
    hide Apply;
    ApplyAt(h, add, x);
    ApplyAt(Apply(h, add), del, x);
    ApplyAt(h, del, x);
    ApplyAt(Apply(h, del), add, x);
  }

  /**
   A move whose messages are interleaved in any way, "add, delete" from the old host and "add" from
   the new one: the object ends up at the new host if and only if the old host's add came first.
   */
  lemma MoveInterleaved(t: ObjType, id: ObjID, was: ModuleID, now: ModuleID, ops: seq<Op>)
    requires was != now
    requires var (a, d, n) := (SetM(t, [id], was), DelM(t, [id], was), SetM(t, [id], now));
             ops == [a, d, n] || ops == [a, n, d] || ops == [n, a, d]
    ensures Lookup(Replay(map[], ops), (t, id)) == Some(now) <==> ops[0] == SetM(t, [id], was)
  {
    HistoryLaw(ops, (t, id), now);
    if ops[0] == SetM(t, [id], was) {
      if ops[1] == SetM(t, [id], now) {
        assert LastSet(ops, (t, id), now, 1);
      } else {
        assert LastSet(ops, (t, id), now, 2);
      }
    }
  }

  // ---------------------------------------------------------------------------------------
  // The two-level table
  // ---------------------------------------------------------------------------------------

  datatype ServerInfo = ServerInfo(moduleid: ModuleID)

  type Types = map<ObjType, map<ObjID, ServerInfo>>

  ghost function AsHosts(types: Types): Hosts {
    map t, id | t in types && id in types[t] :: (t, id) := types[t][id].moduleid
  }

  lemma HostAt(types: Types, x: (ObjType, ObjID))
    ensures Lookup(AsHosts(types), x) ==
              if x.0 in types && x.1 in types[x.0] then Some(types[x.0][x.1].moduleid) else None
  {
  }

  lemma NewType(types: Types, t: ObjType)
    requires t !in types
    ensures AsHosts(types[t := map[]]) == AsHosts(types)
  {
    hide AsHosts;
    forall x ensures Lookup(AsHosts(types[t := map[]]), x) == Lookup(AsHosts(types), x) {
      HostAt(types, x);
      HostAt(types[t := map[]], x);
    }
    SameLookups(AsHosts(types[t := map[]]), AsHosts(types));
  }

  lemma PutOne(types: Types, t: ObjType, id: ObjID, server: ServerInfo)
    requires t in types
    ensures AsHosts(types[t := types[t][id := server]]) == SetIDs(AsHosts(types), t, {id}, server.moduleid)
  {
    hide AsHosts, SetIDs, Lookup;
    var now := types[t := types[t][id := server]];
    var want := SetIDs(AsHosts(types), t, {id}, server.moduleid);
    forall x ensures Lookup(AsHosts(now), x) == Lookup(want, x) {
      HostAt(types, x);
      HostAt(now, x);
      SetAt(AsHosts(types), t, {id}, server.moduleid, x);
    }
    SameLookups(AsHosts(now), want);
  }

  lemma TakeOne(types: Types, t: ObjType, id: ObjID, host: ModuleID)
    requires t in types
    ensures var now := if id in types[t] && types[t][id].moduleid == host then types[t := types[t] - {id}] else types;
            AsHosts(now) == DelIDs(AsHosts(types), t, {id}, host)
  {
    hide AsHosts, DelIDs, Lookup;
    var now := if id in types[t] && types[t][id].moduleid == host then types[t := types[t] - {id}] else types;
    var want := DelIDs(AsHosts(types), t, {id}, host);
    forall x ensures Lookup(AsHosts(now), x) == Lookup(want, x) {
      HostAt(types, x);
      HostAt(now, x);
      DelAt(AsHosts(types), t, {id}, host, x);
    }
    SameLookups(AsHosts(now), want);
  }

  lemma IDsMore(ids: seq<ObjID>, i: nat)
    requires i < |ids|
    ensures forall id :: id in IDSet(ids[..i + 1]) <==> id in IDSet(ids[..i]) || id == ids[i]
  {
  }

  lemma SetMore(h: Hosts, t: ObjType, ids: seq<ObjID>, i: nat, host: ModuleID)
    requires i < |ids|
    ensures SetIDs(SetIDs(h, t, IDSet(ids[..i]), host), t, {ids[i]}, host) == SetIDs(h, t, IDSet(ids[..i + 1]), host)
  {
    hide SetIDs, IDSet, Lookup;
    IDsMore(ids, i);
    var h1, h2 := SetIDs(h, t, IDSet(ids[..i]), host), SetIDs(h, t, IDSet(ids[..i + 1]), host);
    forall x ensures Lookup(SetIDs(h1, t, {ids[i]}, host), x) == Lookup(h2, x) {
      SetAt(h, t, IDSet(ids[..i]), host, x);
      SetAt(h1, t, {ids[i]}, host, x);
      SetAt(h, t, IDSet(ids[..i + 1]), host, x);
    }
    SameLookups(SetIDs(h1, t, {ids[i]}, host), h2);
  }

  lemma DelMore(h: Hosts, t: ObjType, ids: seq<ObjID>, i: nat, host: ModuleID)
    requires i < |ids|
    ensures DelIDs(DelIDs(h, t, IDSet(ids[..i]), host), t, {ids[i]}, host) == DelIDs(h, t, IDSet(ids[..i + 1]), host)
  {
    hide DelIDs, IDSet, Lookup;
    IDsMore(ids, i);
    var h1, h2 := DelIDs(h, t, IDSet(ids[..i]), host), DelIDs(h, t, IDSet(ids[..i + 1]), host);
    forall x ensures Lookup(DelIDs(h1, t, {ids[i]}, host), x) == Lookup(h2, x) {
      DelAt(h, t, IDSet(ids[..i]), host, x);
      DelAt(h1, t, {ids[i]}, host, x);
      DelAt(h, t, IDSet(ids[..i + 1]), host, x);
    }
    SameLookups(DelIDs(h1, t, {ids[i]}, host), h2);
  }

  class Cache {
    var catchServer: map<ModuleID, ServerInfo>
    var catchType: Types

    /** Every module's record carries its own id. */
    ghost predicate Valid()
      reads this
    {
      forall m :: m in catchServer ==> catchServer[m].moduleid == m
    }

    ghost function Hosts(): Hosts
      reads this
    {
      AsHosts(catchType)
    }

    constructor ()
      ensures Valid() && Hosts() == map[]
    {
      catchServer, catchType := map[], map[];
    }

    /** Looking a type up creates its table, and hosts stay as they were. */
    method CatchGetTypeMust(t: ObjType)
      modifies this`catchType
      ensures t in catchType && Hosts() == old(Hosts())
    {
      hide AsHosts;
      if t !in catchType {
        NewType(catchType, t);
        catchType := catchType[t := map[]];
      }
    }

    method CatchGetServerMust(host: ModuleID) returns (server: ServerInfo)
      requires Valid()
      modifies this`catchServer
      ensures Valid() && server.moduleid == host
    {
      if host !in catchServer {
        catchServer := catchServer[host := ServerInfo(host)];
      }
      server := catchServer[host];
    }

    method Set(t: ObjType, id: ObjID, host: ModuleID)
      requires Valid()
      modifies this
      ensures Valid() && Hosts() == Apply(old(Hosts()), Op.SetM(t, [id], host))
      ensures t in catchType && id in catchType[t] && catchType[t][id].moduleid == host
    {
      hide AsHosts;
      CatchGetTypeMust(t);
      var server := CatchGetServerMust(host);
      PutOne(catchType, t, id, server);
      assert IDSet([id]) == {id};
      catchType := catchType[t := catchType[t][id := server]];
    }

    method SetM(t: ObjType, ids: seq<ObjID>, host: ModuleID)
      requires Valid()
      modifies this
      ensures Valid() && Hosts() == Apply(old(Hosts()), Op.SetM(t, ids, host))
      ensures t in catchType
      ensures forall i :: 0 <= i < |ids| ==> ids[i] in catchType[t] && catchType[t][ids[i]].moduleid == host
    {
      hide AsHosts;
      CatchGetTypeMust(t);
      var server := CatchGetServerMust(host);
      ghost var was := Hosts();
      for i := 0 to |ids|
        invariant Valid() && t in catchType
        invariant Hosts() == SetIDs(was, t, IDSet(ids[..i]), host)
        invariant forall j :: 0 <= j < i ==> ids[j] in catchType[t] && catchType[t][ids[j]].moduleid == host
      {
        PutOne(catchType, t, ids[i], server);
        SetMore(was, t, ids, i, host);
        catchType := catchType[t := catchType[t][ids[i] := server]];
      }
      assert ids[..|ids|] == ids;
    }

    method Del(t: ObjType, id: ObjID, host: ModuleID)
      requires Valid()
      modifies this`catchType
      ensures Valid() && Hosts() == Apply(old(Hosts()), Op.DelM(t, [id], host))
      ensures t in catchType && (id in catchType[t] ==> catchType[t][id].moduleid != host)
    {
      hide AsHosts;
      CatchGetTypeMust(t);
      TakeOne(catchType, t, id, host);
      assert IDSet([id]) == {id};
      if id in catchType[t] && catchType[t][id].moduleid == host {
        catchType := catchType[t := catchType[t] - {id}];
      }
    }

    method DelM(t: ObjType, ids: seq<ObjID>, host: ModuleID)
      requires Valid()
      modifies this`catchType
      ensures Valid() && Hosts() == Apply(old(Hosts()), Op.DelM(t, ids, host))
      ensures t in catchType
      ensures forall i :: 0 <= i < |ids| && ids[i] in catchType[t] ==> catchType[t][ids[i]].moduleid != host
    {
      hide AsHosts;
      CatchGetTypeMust(t);
      ghost var was := Hosts();
      for i := 0 to |ids|
        invariant Valid() && t in catchType
        invariant Hosts() == DelIDs(was, t, IDSet(ids[..i]), host)
        invariant forall j :: 0 <= j < i && ids[j] in catchType[t] ==> catchType[t][ids[j]].moduleid != host
      {
        TakeOne(catchType, t, ids[i], host);
        DelMore(was, t, ids, i, host);
        if ids[i] in catchType[t] && catchType[t][ids[i]].moduleid == host {
          catchType := catchType[t := catchType[t] - {ids[i]}];
        }
      }
      assert ids[..|ids|] == ids;
    }

    /** The host of an object, or "" if there is none in the cache. */
    method Get(t: ObjType, id: ObjID) returns (host: ModuleID)
      modifies this`catchType
      ensures Hosts() == old(Hosts())
      ensures host == match Lookup(Hosts(), (t, id)) case Some(m) => m case None => ""
      ensures t in catchType && host == if id in catchType[t] then catchType[t][id].moduleid else ""
    {
      hide AsHosts;
      CatchGetTypeMust(t);
      HostAt(catchType, (t, id));
      if id in catchType[t] {
        return catchType[t][id].moduleid;
      }
      return "";
    }

    /**
     Calls back for the objects of one type on the allowed modules, in any order, until the callback
     stops it, which it does at call number `last`; nothing is called twice, and nothing is left out
     unless it was stopped.
     */
    method RangeByType(t: ObjType, limit: Option<map<ModuleID, bool>>, last: nat)
      returns (calls: seq<(ObjID, ModuleID)>)
      modifies this`catchType
      ensures Hosts() == old(Hosts())
      ensures forall i, j :: 0 <= i < j < |calls| ==> calls[i].0 != calls[j].0
      ensures forall i :: 0 <= i < |calls| ==>
                Lookup(Hosts(), (t, calls[i].0)) == Some(calls[i].1)
                && (limit.Some? ==> calls[i].1 in limit.value && limit.value[calls[i].1])
      ensures |calls| < last || last == 0 ==>
                forall id, m :: Lookup(Hosts(), (t, id)) == Some(m) &&
                    (limit.None? || (m in limit.value && limit.value[m]))
                  ==> (id, m) in calls
    {
      hide AsHosts, Lookup;
      CatchGetTypeMust(t);
      var back := map id | id in catchType[t] && Allowed(limit, catchType[t][id].moduleid) :: catchType[t][id];
      forall id
        ensures Lookup(Hosts(), (t, id)) == if id in catchType[t] then Some(catchType[t][id].moduleid) else None
      {
        HostAt(catchType, (t, id));
      }
      calls := CallBack(back, last);
      if |calls| < last || last == 0 {
        forall id, m | Lookup(Hosts(), (t, id)) == Some(m) && Allowed(limit, m) ensures (id, m) in calls {
          assert id in back;
        }
      }
    }
  }

  /** The calls for a copy of the table of one type. */
  method CallBack(back: map<ObjID, ServerInfo>, last: nat) returns (calls: seq<(ObjID, ModuleID)>)
    ensures forall i, j :: 0 <= i < j < |calls| ==> calls[i].0 != calls[j].0
    ensures forall i :: 0 <= i < |calls| ==> calls[i].0 in back && calls[i].1 == back[calls[i].0].moduleid
    ensures |calls| < last || last == 0 ==> forall id :: id in back ==> (id, back[id].moduleid) in calls
  {
    calls := [];
    var left := back.Keys;
    while left != {}
      invariant left <= back.Keys
      invariant forall i :: 0 <= i < |calls| ==>
                calls[i].0 in back && calls[i].0 !in left && calls[i].1 == back[calls[i].0].moduleid
      invariant forall i, j :: 0 <= i < j < |calls| ==> calls[i].0 != calls[j].0
      invariant forall id :: id in back && id !in left ==> (id, back[id].moduleid) in calls
      invariant last > 0 ==> |calls| < last
      decreases |left|
    {
      var id :| id in left;
      left := left - {id};
      ghost var was := calls;
      calls := calls + [(id, back[id].moduleid)];
      assert calls[|was|] == (id, back[id].moduleid) && forall c :: c in was ==> c in calls;
      if |calls| == last {
        break;
      }
    }
  }

  predicate Allowed(limit: Option<map<ModuleID, bool>>, host: ModuleID) {
    match limit
    case None => true
    case Some(allowed) => host in allowed && allowed[host]
  }
}
