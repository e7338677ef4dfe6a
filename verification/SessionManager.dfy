/** The session objects, their manager, and the handler of session updates. */
module SessionManagers {
  import opened Basics
  import opened Sessions
  import opened SessionUpdates

  /** What a session holds that takes over missing keys, with these left to look at. */
  ghost function Added(mine: Data, other: Data, left: set<string>): Data {
    (other - left) + mine
  }

  lemma OneAdded(mine: Data, other: Data, left: set<string>, k: string)
    requires left <= other.Keys && k in left
    ensures var m := Added(mine, other, left);
            Added(mine, other, left - {k}) == if k in m then m else m[k := other[k]]
    ensures mine == other ==> k in Added(mine, other, left)
  {
  }

  lemma AddedEnds(mine: Data, other: Data)
    ensures Added(mine, other, other.Keys) == mine && Added(mine, other, {}) == other + mine
  {
    assert other - {} == other;
  }

  class Session {
    var m: Data

    constructor ()
      ensures m == map[]
    {
      m := map[];
    }

    method Get(key: string) returns (value: string)
      ensures value == if key in m then m[key] else ""
    {
      if key in m {
        return m[key];
      }
      return "";
    }

    method GetUUID() returns (uuid: string)
      ensures uuid == if "_s0_uuid" in m then m["_s0_uuid"] else ""
    {
      uuid := Get(UUID_KEY);
    }

    method Set(key: string, value: string)
      modifies this
      ensures m == old(m)[key := value]
    {
      m := m[key := value];
    }

    /** A copy of everything the session holds. */
    method ToMap() returns (res: Data)
      ensures res == m
    {
      res := map[];
      var left := m.Keys;
      while left != {}
        invariant left <= m.Keys
        invariant res.Keys == m.Keys - left && forall k :: k in res ==> res[k] == m[k]
        decreases |left|
      {
        var k :| k in left;
        res, left := res[k := m[k]], left - {k};
      }
    }

    method FromMap(data: Data)
      modifies this
      ensures m == old(m) + data
    {
      var left := data.Keys;
      while left != {}
        invariant left <= data.Keys
        invariant m == old(m) + (data - left)
        decreases |left|
      {
        var k :| k in left;
        Set(k, data[k]);
        assert old(m) + (data - (left - {k})) == (old(m) + (data - left))[k := data[k]];
        left := left - {k};
      }
      assert data - {} == data;
    }

    /** Takes over what `dir` has and this session does not; `dir` may be this session. */
    method OnlyAddKeyFromSession(dir: Session)
      modifies this
      ensures m == old(dir.m) + old(m)
    {
      hide Added;
      ghost var mine, other := m, dir.m;
      var left := dir.m.Keys;
      AddedEnds(mine, other);
      while left != {}
        invariant left <= other.Keys
        invariant dir.m == if dir == this then m else other
        invariant m == Added(mine, other, left)
        decreases |left|
      {
        var k :| k in left;
        OneAdded(mine, other, left, k);
        if k !in m {
          m := m[k := dir.m[k]];
        }
        left := left - {k};
      }
    }

    method GetServerSyncMsg() returns (msg: SyncMsg)
      ensures msg == ServerSyncMsg(m) && msg.session == m
      ensures "_s0_connectid" in m ==> msg.clientConnID == m["_s0_connectid"]
      ensures "_s0_uuid" in m ==> msg.uuid == m["_s0_uuid"]
    {
      var session := ToMap();
      var connID := Get(CONNECT_KEY);
      var uuid := GetUUID();
      msg := SyncMsg(session, connID, uuid);
    }
  }

  ghost function Maps(known: set<Session>): map<Session, Data>
    reads known
  {
    map s | s in known :: s.m
  }

  /** All sessions but `c` hold what `maps` says. */
  lemma MapsSet(maps: map<Session, Data>, known: set<Session>, c: Session)
    requires c in known && maps.Keys + {c} == known && forall s :: s in known && s != c ==> maps[s] == s.m
    ensures Maps(known) == maps[c := c.m]
  {
  }

  lemma MapsHas(known: set<Session>)
    ensures Maps(known).Keys == known && forall s :: s in known ==> Maps(known)[s] == s.m
  {
  }

  /** The manager; `known` are the sessions that exist, whoever holds them. */
  class SessionManager {
    var sessions: map<string, Session>

    constructor ()
      ensures sessions == map[]
    {
      sessions := map[];
    }

    ghost function AsStore(known: set<Session>): Store<Session>
      reads this, known
    {
      Sessions.Store(sessions, Maps(known))
    }

    ghost predicate Within(known: set<Session>)
      reads this
    {
      forall k :: k in sessions ==> sessions[k] in known
    }

    method GetSession(uuid: string) returns (s: Option<Session>)
      ensures s == if uuid in sessions then Some(sessions[uuid]) else None
    {
      s := if uuid in sessions then Some(sessions[uuid]) else None;
    }

    method Store(session: Session, ghost known: set<Session>)
      requires Within(known) && session in known
      modifies this
      ensures Within(known) && AsStore(known) == Stored(old(AsStore(known)), session)
      ensures sessions == if "_s0_uuid" in session.m && session.m["_s0_uuid"] != ""
                          then old(sessions)[session.m["_s0_uuid"] := session] else old(sessions)
    {
      var uuid := session.GetUUID();
      if uuid == "" {
        return;
      }
      sessions := sessions[uuid := session];
    }

    method LoadOrStore(uuid: string, session: Session) returns (s: Session, isload: bool)
      modifies this
      ensures isload == (uuid in old(sessions)) && s == if isload then old(sessions)[uuid] else session
      ensures sessions == if isload then old(sessions) else old(sessions)[uuid := session]
    {
      isload := uuid in sessions;
      if !isload {
        sessions := sessions[uuid := session];
      }
      s := sessions[uuid];
    }

    method DeleteSession(uuid: string)
      modifies this
      ensures sessions == old(sessions) - {uuid}
    {
      sessions := sessions - {uuid};
    }

    /** Returns false where Go's MustUpdateFromMap panics. */
    method MustUpdateFromMap(target: Session, data: Data, ghost known: set<Session>) returns (ok: bool)
      requires Within(known) && target in known
      modifies this, known
      ensures Within(known)
      ensures Some(AsStore(known)) ==
                if ok then Updated(old(AsStore(known)), target, data) else Some(old(AsStore(known)))
      ensures ok <==> UUID(old(target.m)) != ""
    {
      hide Maps;
      MapsHas(known);
      ghost var v := AsStore(known);
      var uuid := target.GetUUID();
      if uuid == "" {
        return false;
      }
      var session, isload := LoadOrStore(uuid, target);
      ghost var maps := v.maps;
      if isload && session != target {
        session.OnlyAddKeyFromSession(target);
        MapsSet(maps, known, session);
        maps := Maps(known);
      }
      session.FromMap(data);
      MapsSet(maps, known, session);
      ok := true;
    }

    method UpdateSessionUUID(uuid: string, session: Option<Session>, ghost known: set<Session>)
      requires Within(known) && (session.Some? ==> session.value in known)
      modifies this, known
      ensures Within(known)
      ensures AsStore(known) ==
                if session.None? then old(AsStore(known)) else Rebound(old(AsStore(known)), uuid, session.value)
    {
      hide Maps, Unbound;
      if session.None? {
        return;
      }
      MapsHas(known);
      Unbind(uuid, session.value, known);
      MapsHas(known);
      ghost var v1 := AsStore(known);
      var localsession := GetSession(uuid);
      ghost var maps := Maps(known);
      if localsession.Some? && localsession.value != session.value {
        session.value.OnlyAddKeyFromSession(localsession.value);
        MapsSet(maps, known, session.value);
        maps := Maps(known);
      }
      session.value.Set(UUID_KEY, uuid);
      MapsSet(maps, known, session.value);
      Store(session.value, known);
    }

    /** The first half of it. */
    method Unbind(uuid: string, session: Session, ghost known: set<Session>)
      requires Within(known) && session in known
      modifies this, known
      ensures Within(known) && AsStore(known) == Unbound(old(AsStore(known)), uuid, session)
    {
      hide Maps;
      MapsHas(known);
      ghost var maps := Maps(known);
      var olduuid := session.GetUUID();
      if olduuid != "" {
        var oldsession := GetSession(olduuid);
        if oldsession.Some? {
          if oldsession.value != session {
            session.OnlyAddKeyFromSession(oldsession.value);
            MapsSet(maps, known, session);
          }
          if uuid != olduuid {
            DeleteSession(olduuid);
          }
        }
      }
    }
  }

  lemma SpareKeeps(v: Store<Session>, spare: Session)
    requires Indexed(v) && spare !in v.maps
    ensures Indexed(SetData(v, spare, map[])) && Unused(SetData(v, spare, map[]), spare)
    ensures SetData(v, spare, map[]).maps.Keys == v.maps.Keys + {spare}
  {
  }

  class ServerCmdHandler {
    const sessionManager: SessionManager
    /** The sessions of the clients that are connected here, if this is a gate. */
    var clients: Option<map<string, Session>>

    constructor (sessionManager: SessionManager, clients: Option<map<string, Session>>)
      ensures this.sessionManager == sessionManager && this.clients == clients
    {
      this.sessionManager, this.clients := sessionManager, clients;
    }

    /** Returns false where MustUpdateFromMap panics; `spare` is the new session it makes if it needs one. */
    method OnUpdateSession(smsg: SyncMsg, ghost known: set<Session>) returns (ok: bool, spare: Session)
      requires sessionManager.Within(known)
      requires clients.Some? && smsg.clientConnID in clients.value ==> clients.value[smsg.clientConnID] in known
      modifies sessionManager, known
      ensures fresh(spare) && sessionManager.Within(known + {spare})
      ensures var v := SetData(old(sessionManager.AsStore(known)), spare, map[]);
              var client := if clients.Some? && smsg.clientConnID in clients.value
                            then Some(clients.value[smsg.clientConnID]) else None;
              var r := OnUpdated(v, client, smsg.session, smsg.uuid, spare);
              ok == r.Some? && (ok ==> sessionManager.AsStore(known + {spare}) == r.value)
    {
      hide Maps, Updated, Rebound;
      ghost var was := Maps(known);
      MapsHas(known);
      spare := new Session();
      ghost var all := known + {spare};
      assert unchanged(known);
      MapsSet(was, all, spare);
      MapsHas(all);
      ghost var v := sessionManager.AsStore(all);
      assert v == SetData(old(sessionManager.AsStore(known)), spare, map[]);
      var connectedSession: Option<Session> := None;
      if clients.Some? {
        if smsg.clientConnID in clients.value {
          connectedSession := Some(clients.value[smsg.clientConnID]);
          connectedSession.value.FromMap(smsg.session);
          MapsSet(v.maps, all, connectedSession.value);
        }
      }
      ghost var v1 := sessionManager.AsStore(all);
      assert v1 == if connectedSession.Some? then Overwritten(v, connectedSession.value, smsg.session) else v;
      ok := true;
      if smsg.uuid != "" {
        ok := UpdateLocal(smsg, connectedSession, spare, all);
      }
    }

    /**
     From one server to another: what a session with a uuid tells of itself reaches, at a gate that has
     the connection the session names, the session of that very client, which is found under the uuid
     from then on, with all values of the sender; elsewhere it reaches the session under the uuid.
     */
    method Sync(sender: Session, ghost known: set<Session>) returns (ghost to: Session)
      requires sessionManager.Within(known) && Indexed(sessionManager.AsStore(known))
      requires "_s0_uuid" in sender.m && sender.m["_s0_uuid"] != ""
      requires clients.Some? ==> forall c :: c in clients.value ==> clients.value[c] in known
      modifies sessionManager, known
      ensures var uuid := old(sender.m["_s0_uuid"]);
              && uuid in sessionManager.sessions && sessionManager.sessions[uuid] == to
              && sessionManager.sessions == old(sessionManager.sessions)[uuid := to]
      ensures forall k :: k in old(sender.m) ==> k in to.m && to.m[k] == old(sender.m[k])
      ensures clients.Some? && "_s0_connectid" in old(sender.m) && old(sender.m["_s0_connectid"]) in clients.value ==>
                to == clients.value[old(sender.m["_s0_connectid"])]
      ensures forall s :: s in known && s != to ==> s.m == old(s.m)
    {
      hide OnUpdated, Indexed, Maps;
      ghost var v0 := sessionManager.AsStore(known);
      MapsHas(known);
      var msg := sender.GetServerSyncMsg();
      ghost var connected := if clients.Some? && msg.clientConnID in clients.value
                             then Some(clients.value[msg.clientConnID]) else None;
      var ok, spare := OnUpdateSession(msg, known);
      MapsHas(known + {spare});
      SpareKeeps(v0, spare);
      SyncMergesOnly(SetData(v0, spare, map[]), connected, msg.session, msg.uuid, spare);
      to := sessionManager.sessions[msg.uuid];
    }

    /** The local part of it, once the client's session has taken the message in. */
    method UpdateLocal(smsg: SyncMsg, connectedSession: Option<Session>, spare: Session, ghost all: set<Session>)
      returns (ok: bool)
      requires sessionManager.Within(all) && spare in all
      requires connectedSession.Some? ==> connectedSession.value in all
      modifies sessionManager, all
      ensures sessionManager.Within(all)
      ensures var v1 := old(sessionManager.AsStore(all));
              var r := OnLocal(v1, connectedSession, smsg.session, smsg.uuid, spare);
              ok == r.Some? && (ok ==> sessionManager.AsStore(all) == r.value)
    {
      hide Maps, Updated, Rebound;
      MapsHas(all);
      ghost var v1 := sessionManager.AsStore(all);
      var s := connectedSession;
      var localsession := sessionManager.GetSession(smsg.uuid);
      if localsession.Some? {
        if connectedSession.Some? && connectedSession.value != localsession.value {
          connectedSession.value.OnlyAddKeyFromSession(localsession.value);
          MapsSet(v1.maps, all, connectedSession.value);
          assert sessionManager.AsStore(all) == Completed(v1, connectedSession.value, localsession.value);
          sessionManager.Store(connectedSession.value, all);
          localsession := connectedSession;
        }
        s := localsession;
      }
      if s.None? {
        s := Some(spare);
        sessionManager.UpdateSessionUUID(smsg.uuid, s, all);
      }
      MapsHas(all);
      ghost var v2 := sessionManager.AsStore(all);
      ok := sessionManager.MustUpdateFromMap(s.value, smsg.session, all);
      Panics(v2, s.value, smsg.session);
    }
  }
}
