/**
 What a module tells its peers about the objects it hosts: a bind or unbind message for each object
 that comes or goes, one at a time or in batches, and a snapshot for a peer that joins.
 */
module RocServer {
  import opened Basics
  import opened RocCache
  import Codec

  type Obj = (ObjType, ObjID)

  datatype SROCBind = SROCBind(hostModuleID: ModuleID, isDelete: bool, objType: ObjType, objIDs: seq<ObjID>)

  /** What a peer does to its cache when the message arrives. */
  function OpOf(msg: SROCBind): Op {
    if msg.isDelete then Op.DelM(msg.objType, msg.objIDs, msg.hostModuleID)
    else Op.SetM(msg.objType, msg.objIDs, msg.hostModuleID)
  }

  function Pairs(t: ObjType, ids: seq<ObjID>): seq<Obj> {
    seq(|ids|, i requires 0 <= i < |ids| => (t, ids[i]))
  }

  /** The objects that a run of messages names, in order. */
  function Named(msgs: seq<SROCBind>): seq<Obj> {
    if msgs == [] then []
    else var (front, last) := (msgs[..|msgs| - 1], msgs[|msgs| - 1]); Named(front) + Pairs(last.objType, last.objIDs)
  }

  lemma NamedMore(msgs: seq<SROCBind>, m: SROCBind)
    ensures Named(msgs + [m]) == Named(msgs) + Pairs(m.objType, m.objIDs)
  {
  }

  // ---------------------------------------------------------------------------------------
  // The snapshot
  // ---------------------------------------------------------------------------------------

  const BATCH := 100

  function EstimatedSize(ids: seq<ObjID>): nat {
    if ids == [] then 0 else EstimatedSize(ids[..|ids| - 1]) + |ids[|ids| - 1]| + 4
  }

  /**
   The messages that introduce a module's objects to a new peer: they name each of them exactly once
   and nothing else, and no message goes on after half the size of the largest message is passed.
   */
  ghost predicate Snapshot(msgs: seq<SROCBind>, host: ModuleID, local: set<Obj>) {
    multiset(Named(msgs)) == multiset(local) && Introductions(msgs, host)
  }

  predicate Introductions(msgs: seq<SROCBind>, host: ModuleID) {
    forall i :: 0 <= i < |msgs| ==> IntroductionOf(msgs[i], host)
  }

  predicate IntroductionOf(msg: SROCBind, host: ModuleID) {
    && msg.hostModuleID == host && !msg.isDelete && msg.objIDs != []
    && EstimatedSize(msg.objIDs[..|msg.objIDs| - 1]) <= Codec.MAX_SIZE / 2
  }

  function AllBytes(ids: seq<ObjID>): string {
    if ids == [] then "" else AllBytes(ids[..|ids| - 1]) + ids[|ids| - 1]
  }

  lemma {:induction false} EstimateIsLength(ids: seq<ObjID>)
    ensures EstimatedSize(ids) == |AllBytes(ids)| + 4 * |ids|
  {
    if ids != [] {
      EstimateIsLength(ids[..|ids| - 1]);
    }
  }

  /**
   The ids of a snapshot's message, each with a length of four bytes, take no more than 4 MiB without the
   last one.
   */
  lemma SnapshotIsSmall(msgs: seq<SROCBind>, host: ModuleID, local: set<Obj>, i: nat)
    requires Snapshot(msgs, host, local) && i < |msgs|
    ensures var front := msgs[i].objIDs[..|msgs[i].objIDs| - 1]; |AllBytes(front)| + 4 * |front| <= 4 * 1024 * 1024
  {
    EstimateIsLength(msgs[i].objIDs[..|msgs[i].objIDs| - 1]);
    assert IntroductionOf(msgs[i], host);
  }

  /** Each object is named once if it is there, and not at all otherwise. */
  lemma SnapshotNamesOnce(msgs: seq<SROCBind>, host: ModuleID, local: set<Obj>, x: Obj)
    requires Snapshot(msgs, host, local)
    ensures multiset(Named(msgs))[x] == if x in local then 1 else 0
    ensures forall i :: 0 <= i < |msgs| ==> msgs[i].hostModuleID == host && !msgs[i].isDelete && msgs[i].objIDs != []
  {
    assert forall i :: 0 <= i < |msgs| ==> IntroductionOf(msgs[i], host);
    assert multiset(local)[x] == if x in local then 1 else 0;
  }

  /** A connection in the pool. Until its login it does not know the id of the module behind it. */
  class Peer {
    var moduleID: ModuleID
    var sent: seq<SROCBind>

    constructor ()
      ensures moduleID == "" && sent == []
    {
      moduleID, sent := "", [];
    }

    method SendCmd(msg: SROCBind)
      modifies this`sent
      ensures sent == old(sent) + [msg]
    {
      sent := sent + [msg];
    }
  }

  ghost function ObjsOf(localObj: map<ObjType, set<ObjID>>): set<Obj> {
    set t, id | t in localObj && id in localObj[t] :: (t, id)
  }

  ghost function ObjsOfTypes(localObj: map<ObjType, set<ObjID>>, types: set<ObjType>): set<Obj> {
    set x | x in ObjsOf(localObj) && x.0 in types
  }

  /** Of one type those no longer left, and everything of the earlier types. */
  ghost function Covered(localObj: map<ObjType, set<ObjID>>, earlier: set<ObjType>, t: ObjType,
                         left: set<ObjID>): set<Obj> {
    set x | x in ObjsOf(localObj) && (x.0 in earlier || (x.0 == t && x.1 !in left))
  }

  lemma CoveredEnds(localObj: map<ObjType, set<ObjID>>, earlier: set<ObjType>, t: ObjType)
    requires t in localObj && t !in earlier
    ensures Covered(localObj, earlier, t, localObj[t]) == ObjsOfTypes(localObj, earlier)
    ensures Covered(localObj, earlier, t, {}) == ObjsOfTypes(localObj, earlier + {t})
  {
  }

  lemma CoveredStep(localObj: map<ObjType, set<ObjID>>, earlier: set<ObjType>, t: ObjType, left: set<ObjID>, id: ObjID)
    requires t in localObj && t !in earlier && left <= localObj[t] && id in left
    ensures (t, id) !in Covered(localObj, earlier, t, left)
    ensures Covered(localObj, earlier, t, left - {id}) == Covered(localObj, earlier, t, left) + {(t, id)}
  {
  }

  /** What was sent and what waits in the list make up `done`, each object once. */
  ghost predicate Accounted(msgs: seq<SROCBind>, t: ObjType, waiting: seq<ObjID>, done: set<Obj>) {
    multiset(Named(msgs) + Pairs(t, waiting)) == multiset(done)
  }

  lemma Enlisted(msgs: seq<SROCBind>, t: ObjType, waiting: seq<ObjID>, done: set<Obj>, id: ObjID)
    requires Accounted(msgs, t, waiting, done) && (t, id) !in done
    ensures Accounted(msgs, t, waiting + [id], done + {(t, id)})
  {
    assert Named(msgs) + Pairs(t, waiting + [id]) == (Named(msgs) + Pairs(t, waiting)) + [(t, id)];
  }

  lemma Dispatched(msgs: seq<SROCBind>, m: SROCBind, done: set<Obj>)
    requires Accounted(msgs, m.objType, m.objIDs, done)
    ensures Accounted(msgs + [m], m.objType, [], done)
  {
  }

  lemma NothingWaits(msgs: seq<SROCBind>, t: ObjType, done: set<Obj>)
    ensures Accounted(msgs, t, [], done) <==> multiset(Named(msgs)) == multiset(done)
  {
  }

  lemma NothingYet()
    ensures EstimatedSize([]) == 0
  {
  }

  lemma EstimatedMore(ids: seq<ObjID>, id: ObjID)
    ensures EstimatedSize(ids + [id]) == EstimatedSize(ids) + |id| + 4
  {
  }

  lemma IntroducedMore(msgs: seq<SROCBind>, host: ModuleID, t: ObjType, ids: seq<ObjID>, id: ObjID)
    requires Introductions(msgs, host) && EstimatedSize(ids) <= Codec.MAX_SIZE / 2
    ensures Introductions(msgs + [SROCBind(host, false, t, ids + [id])], host)
  {
  }

  // ---------------------------------------------------------------------------------------
  // Batches
  // ---------------------------------------------------------------------------------------

  /** What wakes the notice thread: an object on its channel, or its timer or the stop channel. */
  datatype Event = Came(obj: Obj) | Tick

  function Objs(events: seq<Event>): seq<Obj> {
    if events == [] then []
    else var (front, last) := (events[..|events| - 1], events[|events| - 1]);
         Objs(front) + if last.Came? then [last.obj] else []
  }

  /** How many objects came since the last tick. */
  function SinceTick(events: seq<Event>): nat {
    if events == [] || events[|events| - 1].Tick? then 0 else SinceTick(events[..|events| - 1]) + 1
  }

  lemma NextEvent(events: seq<Event>, taken: nat)
    requires taken < |events|
    ensures Objs(events[..taken + 1]) == Objs(events[..taken]) + if events[taken].Came? then [events[taken].obj] else []
    ensures SinceTick(events[..taken + 1]) == if events[taken].Came? then SinceTick(events[..taken]) + 1 else 0
  {
    assert events[..taken + 1][..taken] == events[..taken];
  }

  predicate Batch(msg: SROCBind, host: ModuleID, isDelete: bool) {
    msg.hostModuleID == host && msg.isDelete == isDelete && 1 <= |msg.objIDs| <= 100
  }

  /** Nothing but objects of one type comes. */
  predicate Uniform(events: seq<Event>) {
    forall i :: 0 <= i < |events| ==> events[0].Came? && events[i].Came? && events[i].obj.0 == events[0].obj.0
  }

  lemma {:induction false} UniformObjs(events: seq<Event>, taken: nat)
    requires Uniform(events) && taken <= |events|
    ensures |Objs(events[..taken])| == taken
    ensures forall i :: 0 <= i < taken ==> Objs(events[..taken])[i].0 == events[0].obj.0
    decreases taken
  {
    if taken > 0 {
      UniformObjs(events, taken - 1);
      NextEvent(events, taken - 1);
    }
  }

  /** Without a tick or another type only full batches are sent. */
  ghost predicate Full(msgs: seq<SROCBind>, events: seq<Event>) {
    Uniform(events) ==> |Named(msgs)| == 100 * |msgs|
  }

  lemma OneMoreFull(msgs: seq<SROCBind>, m: SROCBind, events: seq<Event>)
    requires Full(msgs, events) && (Uniform(events) ==> |m.objIDs| == 100)
    ensures Full(msgs + [m], events)
  {
    NamedMore(msgs, m);
  }

  /** What ends a list: it is full, it was time, or another type came. */
  ghost predicate Ended(events: seq<Event>, taken: nat, now: seq<Obj>, leftObj: Option<Obj>) {
    && 0 < taken <= |events|
    && (|now| == 100 || events[taken - 1].Tick? || (leftObj.Some? && now != [] && leftObj.value.0 != now[0].0))
  }

  lemma ListEnds(events: seq<Event>, taken: nat, now: seq<Obj>, leftObj: Option<Obj>)
    requires 0 < taken <= |events|
    ensures |now| == 100 || events[taken - 1].Tick? || (leftObj.Some? && now != [] && leftObj.value.0 != now[0].0) ==>
              Ended(events, taken, now, leftObj)
  {
  }

  /** A list of one type is only sent when it is full, another type came, or it was time. */
  lemma FullWhenSent(events: seq<Event>, taken: nat, before: seq<Obj>, now: seq<Obj>, leftObj: Option<Obj>)
    requires 0 < taken <= |events| && Objs(events[..taken]) == before + (now + Left(leftObj))
    requires Ended(events, taken, now, leftObj)
    ensures Uniform(events) ==> |now| == 100
  {
    if Uniform(events) {
      UniformObjs(events, taken);
      var all := Objs(events[..taken]);
      if leftObj.Some? && now != [] {
        assert all[|before|] == now[0] && all[|before| + |now|] == leftObj.value;
      }
    }
  }

  lemma AllFull(msgs: seq<SROCBind>, kept: seq<Obj>, events: seq<Event>)
    requires Full(msgs, events) && Named(msgs) + kept == Objs(events) && |kept| < 100
    ensures Uniform(events) ==> |msgs| == |events| / 100 && |kept| == |events| % 100
  {
    if Uniform(events) {
      UniformObjs(events, |events|);
      assert events[..|events|] == events;
    }
  }

  predicate Batches(msgs: seq<SROCBind>, host: ModuleID, isDelete: bool) {
    forall i :: 0 <= i < |msgs| ==> Batch(msgs[i], host, isDelete)
  }

  lemma BatchesAre(msgs: seq<SROCBind>, host: ModuleID, isDelete: bool)
    requires Batches(msgs, host, isDelete)
    ensures forall i :: 0 <= i < |msgs| ==> msgs[i].hostModuleID == host && msgs[i].isDelete == isDelete
    ensures forall i :: 0 <= i < |msgs| ==> 1 <= |msgs[i].objIDs| <= 100
  {
    assert forall i :: 0 <= i < |msgs| ==> Batch(msgs[i], host, isDelete);
  }

  lemma OneMoreBatch(msgs: seq<SROCBind>, m: SROCBind, host: ModuleID, isDelete: bool)
    requires Batches(msgs, host, isDelete) && Batch(m, host, isDelete)
    ensures Batches(msgs + [m], host, isDelete)
  {
  }

  lemma NothingSent(host: ModuleID, isDelete: bool, events: seq<Event>)
    ensures Batches([], host, isDelete) && Named([]) == [] && Objs([]) == [] && SinceTick([]) == 0 && Full([], events)
  {
  }

  function Left(leftObj: Option<Obj>): seq<Obj> {
    if leftObj.Some? then [leftObj.value] else []
  }

  /** The first `n` slots of the list hold the objects `held`, all of one type. */
  ghost predicate Holds(list: array<Option<Obj>>, n: nat, held: seq<Obj>)
    reads list
  {
    && n == |held| <= list.Length == BATCH
    && (forall i :: 0 <= i < n ==> list[i] == Some(held[i]))
    && forall i :: 0 <= i < n ==> held[i].0 == held[0].0
  }

  class ROCServer {
    const moduleid: ModuleID
    /** The modules of this process, which all share one cache. */
    const process: set<ModuleID>
    const cache: Cache
    const asynchronous: bool
    var servers: set<Peer>
    var localObj: map<ObjType, set<ObjID>>
    var rocAddCacheChan: seq<Obj>
    var rocDelCacheChan: seq<Obj>

    constructor (moduleid: ModuleID, process: set<ModuleID>, cache: Cache, asynchronous: bool)
      ensures this.moduleid == moduleid && this.process == process && this.cache == cache
      ensures this.asynchronous == asynchronous
      ensures Local() == {} && servers == {} && rocAddCacheChan == [] && rocDelCacheChan == []
    {
      this.moduleid, this.process, this.cache, this.asynchronous := moduleid, process, cache, asynchronous;
      servers, localObj, rocAddCacheChan, rocDelCacheChan := {}, map[], [], [];
    }

    ghost function Local(): set<Obj>
      reads this
    {
      ObjsOf(localObj)
    }

    method RecordLocalObj(t: ObjType, id: ObjID, isDelete: bool)
      modifies this`localObj
      ensures Local() == if isDelete then old(Local()) - {(t, id)} else old(Local()) + {(t, id)}
      ensures t in localObj && (id in localObj[t] <==> !isDelete)
    {
      if t !in localObj {
        localObj := localObj[t := {}];
      }
      if isDelete {
        localObj := localObj[t := localObj[t] - {id}];
      } else {
        localObj := localObj[t := localObj[t] + {id}];
      }
    }

    /** Modules that are known to be of the same process hear nothing: they share the cache. */
    method SendROCBindMsg(msg: SROCBind)
      modifies servers`sent
      ensures forall s :: s in servers && s.moduleID !in process ==> s.sent == old(s.sent) + [msg]
      ensures forall s :: s in servers && s.moduleID in process ==> s.sent == old(s.sent)
    {
      var left := servers;
      while left != {}
        invariant left <= servers
        invariant forall s :: s in servers && s !in left && s.moduleID !in process ==> s.sent == old(s.sent) + [msg]
        invariant forall s :: s in servers && (s in left || s.moduleID in process) ==> s.sent == old(s.sent)
        decreases |left|
      {
        var s :| s in left;
        if s.moduleID !in process {
          s.SendCmd(msg);
        }
        left := left - {s};
      }
    }

    /** An object was registered here. */
    method OnROCObjAdd(t: ObjType, id: ObjID)
      requires cache.Valid()
      modifies this`localObj, this`rocAddCacheChan, cache, servers`sent
      ensures cache.Valid() && cache.Hosts() == Apply(old(cache.Hosts()), Op.SetM(t, [id], moduleid))
      ensures Local() == old(Local()) + {(t, id)}
      ensures rocAddCacheChan == old(rocAddCacheChan) + if asynchronous then [(t, id)] else []
      ensures forall s :: s in servers && !asynchronous && s.moduleID !in process ==>
                s.sent == old(s.sent) + [SROCBind(moduleid, false, t, [id])]
      ensures forall s :: s in servers && (asynchronous || s.moduleID in process) ==> s.sent == old(s.sent)
    {
      hide AsHosts, ObjsOf, Apply;
      cache.Set(t, id, moduleid);
      if asynchronous {
        rocAddCacheChan := rocAddCacheChan + [(t, id)];
      } else {
        SendROCBindMsg(SROCBind(moduleid, false, t, [id]));
      }
      RecordLocalObj(t, id, false);
    }

    /** An object was taken away here. */
    method OnROCObjDel(t: ObjType, id: ObjID)
      requires cache.Valid()
      modifies this`localObj, this`rocDelCacheChan, cache, servers`sent
      ensures cache.Valid() && cache.Hosts() == Apply(old(cache.Hosts()), Op.DelM(t, [id], moduleid))
      ensures Local() == old(Local()) - {(t, id)}
      ensures rocDelCacheChan == old(rocDelCacheChan) + if asynchronous then [(t, id)] else []
      ensures forall s :: s in servers && !asynchronous && s.moduleID !in process ==>
                s.sent == old(s.sent) + [SROCBind(moduleid, true, t, [id])]
      ensures forall s :: s in servers && (asynchronous || s.moduleID in process) ==> s.sent == old(s.sent)
    {
      hide AsHosts, ObjsOf, Apply;
      cache.Del(t, id, moduleid);
      if asynchronous {
        rocDelCacheChan := rocDelCacheChan + [(t, id)];
      } else {
        SendROCBindMsg(SROCBind(moduleid, true, t, [id]));
      }
      RecordLocalObj(t, id, true);
    }

    /** A peer's message arrived. */
    method OnMsgROCBind(msg: SROCBind)
      requires cache.Valid()
      modifies cache
      ensures cache.Valid() && cache.Hosts() == Apply(old(cache.Hosts()), OpOf(msg))
    {
      if !msg.isDelete {
        cache.SetM(msg.objType, msg.objIDs, msg.hostModuleID);
      } else {
        cache.DelM(msg.objType, msg.objIDs, msg.hostModuleID);
      }
    }

    /** A peer joined: it is sent the snapshot, unless it is in this process. */
    method OnServerJoinSubnet(server: Peer) returns (msgs: seq<SROCBind>)
      modifies server`sent
      ensures server.sent == old(server.sent) + msgs
      ensures if server.moduleID in process then msgs == [] else Snapshot(msgs, moduleid, Local())
    {
      msgs := [];
      if server.moduleID in process {
        return;
      }
      var types := localObj.Keys;
      assert ObjsOfTypes(localObj, {}) == {};
      while types != {}
        invariant types <= localObj.Keys
        invariant server.sent == old(server.sent) + msgs
        invariant Snapshot(msgs, moduleid, ObjsOfTypes(localObj, localObj.Keys - types))
        decreases |types|
      {
        var t :| t in types;
        msgs := SendType(server, t, msgs, localObj.Keys - types, old(server.sent));
        types := types - {t};
        assert localObj.Keys - types == localObj.Keys - (types + {t}) + {t};
      }
      assert ObjsOfTypes(localObj, localObj.Keys) == Local();
    }

    /** The part of the snapshot for one type. */
    method SendType(server: Peer, t: ObjType, before: seq<SROCBind>, ghost earlier: set<ObjType>,
                    ghost was: seq<SROCBind>) returns (msgs: seq<SROCBind>)
      requires t in localObj && t !in earlier
      requires server.sent == was + before
      requires Snapshot(before, moduleid, ObjsOfTypes(localObj, earlier))
      modifies server`sent
      ensures server.sent == was + msgs
      ensures Snapshot(msgs, moduleid, ObjsOfTypes(localObj, earlier + {t}))
    {
      hide ObjsOf, ObjsOfTypes, Covered, Accounted, Named, EstimatedSize, Introductions;
      msgs := before;
      var left := localObj[t];
      var leftnum := |left|;
      var tmplist: seq<ObjID>, tmpsize := [], 0;
      ghost var waiting: seq<ObjID> := [];
      CoveredEnds(localObj, earlier, t);
      NothingWaits(msgs, t, ObjsOfTypes(localObj, earlier));
      NothingYet();
      while left != {}
        invariant left <= localObj[t] && leftnum == |left|
        invariant server.sent == was + msgs
        invariant Accounted(msgs, t, waiting, Covered(localObj, earlier, t, left))
        invariant left != {} ==> waiting == tmplist && tmpsize == EstimatedSize(tmplist) <= Codec.MAX_SIZE / 2
        invariant left == {} ==> waiting == []
        invariant Introductions(msgs, moduleid)
        decreases |left|
      {
        var id :| id in left;
        CoveredStep(localObj, earlier, t, left, id);
        Enlisted(msgs, t, waiting, Covered(localObj, earlier, t, left), id);
        EstimatedMore(tmplist, id);
        IntroducedMore(msgs, moduleid, t, tmplist, id);
        left, leftnum := left - {id}, leftnum - 1;
        tmplist, tmpsize := tmplist + [id], tmpsize + |id| + 4;
        waiting := tmplist;
        if leftnum == 0 || (tmpsize > Codec.MAX_SIZE / 2 && tmpsize > 32 * 1024) {
          var m := SROCBind(moduleid, false, t, tmplist);
          Dispatched(msgs, m, Covered(localObj, earlier, t, left));
          server.SendCmd(m);
          msgs := msgs + [m];
          waiting := [];
          if leftnum > 0 {
            tmplist, tmpsize := [], 0;
          }
        }
      }
      NothingWaits(msgs, t, ObjsOfTypes(localObj, earlier + {t}));
    }

    /** Sends what the list holds as one message and clears it. */
    method SendBatch(isDelete: bool, list: array<Option<Obj>>, n: nat, ghost held: seq<Obj>) returns (msg: SROCBind)
      requires n > 0 && Holds(list, n, held)
      modifies list, servers`sent
      ensures forall s :: s in servers && s.moduleID !in process ==> s.sent == old(s.sent) + [msg]
      ensures forall s :: s in servers && s.moduleID in process ==> s.sent == old(s.sent)
      ensures Batch(msg, moduleid, isDelete) && Pairs(msg.objType, msg.objIDs) == held && Holds(list, 0, [])
    {
      var ids: seq<ObjID>, t := [], list[0].value.0;
      var i := 0;
      while i < list.Length && i < n
        invariant 0 <= i <= n && i == |ids|
        invariant forall k :: 0 <= k < i ==> held[k] == (t, ids[k])
        invariant forall k :: i <= k < n ==> list[k] == Some(held[k])
        modifies list
      {
        ids := ids + [list[i].value.1];
        list[i] := None;
        i := i + 1;
      }
      msg := SROCBind(moduleid, isDelete, t, ids);
      SendROCBindMsg(msg);
    }

    method NewList() returns (list: array<Option<Obj>>)
      ensures fresh(list) && list.Length == BATCH && Holds(list, 0, [])
    {
      list := new Option<Obj>[BATCH](_ => None);
    }

    method SetFirst(list: array<Option<Obj>>, obj: Obj)
      requires list.Length == BATCH
      modifies list
      ensures Holds(list, 1, [obj])
    {
      list[0] := Some(obj);
    }

    /**
     Collects objects from the channel until the list is full, an object of another type comes, or
     it is woken otherwise; `blocked` says that the events ran out while it was waiting.
     */
    method Collect(events: seq<Event>, from: nat, list: array<Option<Obj>>, listI: nat, ghost held: seq<Obj>,
        ghost before: seq<Obj>)
      returns (n: nat, leftObj: Option<Obj>, taken: nat, blocked: bool, ghost now: seq<Obj>)
      requires from <= |events| && listI < BATCH && Holds(list, listI, held) && Objs(events[..from]) == before + held
      modifies list
      ensures Holds(list, n, now) && |now| == n && from <= taken <= |events|
      ensures Objs(events[..taken]) == before + (now + Left(leftObj))
      ensures |held| <= SinceTick(events[..from]) && (blocked || n == BATCH || leftObj.Some?) ==>
                |now + Left(leftObj)| <= SinceTick(events[..taken])
      ensures if blocked then taken == |events| && leftObj == None && n < BATCH else taken > from
      ensures leftObj.Some? ==> n > 0
      ensures !blocked ==> Ended(events, taken, now, leftObj)
    {
      hide Objs, SinceTick, Ended;
      n, leftObj, taken, blocked, now := listI, None, from, false, held;
      var wait := true;
      while wait
        invariant from <= taken <= |events| && (wait ==> n < BATCH && leftObj == None)
        invariant Holds(list, n, now) && !blocked
        invariant Objs(events[..taken]) == before + (now + Left(leftObj))
        invariant |held| <= SinceTick(events[..from]) && (wait || n == BATCH || leftObj.Some?) ==>
                  |now + Left(leftObj)| <= SinceTick(events[..taken])
        invariant !wait ==> taken > from
        invariant leftObj.Some? ==> n > 0
        invariant !wait ==> Ended(events, taken, now, leftObj)
        decreases |events| - taken, wait
      {
        wait := false;
        if taken == |events| {
          blocked := true;
          break;
        }
        NextEvent(events, taken);
        match events[taken] {
          case Came(obj) =>
            if n == 0 || obj.0 == list[0].value.0 {
              list[n] := Some(obj);
              n, now := n + 1, now + [obj];
              wait := n < list.Length;
            } else {
              leftObj := Some(obj);
            }
          case Tick =>
        }
        taken := taken + 1;
        ListEnds(events, taken, now, leftObj);
      }
    }

    /**
     The notice thread over the events that reach it. Whether the server has stopped is read afresh
     each time and never turns back. What was sent and what is kept is everything that was taken, in
     order; and unless it was stopped, nothing that came before the last tick is still kept.
     */
    method RocObjNoticeProcess(isDelete: bool, events: seq<Event>)
      returns (msgs: seq<SROCBind>, taken: nat, stopped: bool, ghost kept: seq<Obj>)
      modifies servers`sent
      ensures forall s :: s in servers && s.moduleID !in process ==> s.sent == old(s.sent) + msgs
      ensures forall s :: s in servers && s.moduleID in process ==> s.sent == old(s.sent)
      ensures forall i :: 0 <= i < |msgs| ==> msgs[i].hostModuleID == moduleid && msgs[i].isDelete == isDelete
      ensures forall i :: 0 <= i < |msgs| ==> 1 <= |msgs[i].objIDs| <= 100
      ensures taken <= |events| && Named(msgs) + kept == Objs(events[..taken])
      ensures !stopped ==> taken == |events| && |kept| <= SinceTick(events) && |kept| < 100
      ensures !stopped && Uniform(events) ==> |msgs| == |events| / 100 && |kept| == |events| % 100
    {
      hide Named, Objs, SinceTick, Batches, Holds, Uniform, Full, Ended;
      NothingSent(moduleid, isDelete, events);
      var tmpList := NewList();
      var tmpListI, leftObj: Option<Obj> := 0, None;
      ghost var held: seq<Obj> := [];
      msgs, taken, kept := [], 0, [];
      stopped := *;
      while !stopped
        invariant fresh(tmpList) && (!stopped ==> tmpListI == 0)
        invariant Holds(tmpList, tmpListI, held) && |held| == tmpListI && kept == held + Left(leftObj)
        invariant taken <= |events| && Named(msgs) + kept == Objs(events[..taken])
        invariant !stopped ==> |kept| <= SinceTick(events[..taken])
        invariant Batches(msgs, moduleid, isDelete) && Full(msgs, events)
        invariant forall s :: s in servers && s.moduleID !in process ==> s.sent == old(s.sent) + msgs
        invariant forall s :: s in servers && s.moduleID in process ==> s.sent == old(s.sent)
        decreases |events| - taken, !stopped
      {
        if tmpListI == 0 && leftObj.Some? {
          SetFirst(tmpList, leftObj.value);
          tmpListI, held, leftObj := tmpListI + 1, [leftObj.value], None;
        }
        var blocked;
        tmpListI, leftObj, taken, blocked, held := Collect(events, taken, tmpList, tmpListI, held, Named(msgs));
        kept := held + Left(leftObj);
        if blocked {
          assert events[..taken] == events;
          AllFull(msgs, kept, events);
          BatchesAre(msgs, moduleid, isDelete);
          return;
        }
        stopped := *;
        if !stopped && tmpListI > 0 {
          FullWhenSent(events, taken, Named(msgs), held, leftObj);
          var msg := SendBatch(isDelete, tmpList, tmpListI, held);
          OneMoreFull(msgs, msg, events);
          NamedMore(msgs, msg);
          OneMoreBatch(msgs, msg, moduleid, isDelete);
          msgs, tmpListI, held, kept := msgs + [msg], 0, [], Left(leftObj);
        }
        if !stopped {
          stopped := *;
        }
      }
      BatchesAre(msgs, moduleid, isDelete);
    }
  }
}
