/**
 Login between modules. Both sides may dial each other at once; every login carries the priority of
 its connection, and the side that already has a connection to the peer keeps the better one.
 */
module Subnet {
  import opened Basics
  import opened ServerPools

  /** What a module answers to a login: nothing, that the identity is refused, or that it is accepted. */
  datatype Reply = Ignored | Refused | Accepted

  const LOGINRETCODE_IDENTICAL := 2

  /** The id that a connection gets when it has lost its place to a better one. */
  function UnuseID(tempID: string, uid: string): string {
    tempID + "unuse" + uid
  }

  /** OnServerLogin: the peer `id` logs in on `conn` with the given priority; `uid` is a new unique id. */
  function LoginStep<C(==)>(v: PoolView<C>, conn: C, id: string, priority: int, uid: string): (PoolView<C>, Reply)
    requires conn in v.ends && (id in v.index ==> v.index[id] in v.ends)
  {
    if id in v.index && v.ends[v.index[id]].connectPriority >= priority then (v, Ignored) else
    var v1 := if id in v.index then Displaced(v, v.index[id], uid) else v;
    if id == "" then (SetEnd(v1, conn, v1.ends[conn].(terminated := true)), Refused) else
    var v2 := Renamed(v1, conn, id);
    (SetEnd(v2, conn, v2.ends[conn].(peer := id, verified := true)), Accepted)
  }

  /** The connection that was there is marked as finished and renamed out of the way. */
  function Displaced<C(==)>(v: PoolView<C>, mine: C, uid: string): PoolView<C>
    requires mine in v.ends
  {
    var v1 := SetEnd(v, mine, v.ends[mine].(normalDisconnect := true, terminated := true));
    Renamed(v1, mine, UnuseID(v.ends[mine].tempID, uid))
  }

  /** The answer of the peer on a connection of ours. */
  function LoginRetStep<C(==)>(v: PoolView<C>, conn: C, loginFailed: nat, destination: string): PoolView<C>
    requires conn in v.ends
  {
    var e := v.ends[conn];
    SetEnd(v, conn,
           if loginFailed > 0
           then e.(terminated := true, normalDisconnect := e.normalDisconnect || loginFailed == LOGINRETCODE_IDENTICAL)
           else e.(peer := destination))
  }

  function CloseStep<C(==)>(v: PoolView<C>, conn: C): PoolView<C>
    requires Indexed(v) && conn in v.ends
  {
    Removed(v, v.ends[conn].tempID)
  }

  /** A login keeps the index in step with the connections' ids. */
  lemma LoginKeepsIndexed<C>(v: PoolView<C>, conn: C, id: string, priority: int, uid: string)
    requires Indexed(v) && conn in v.ends
    ensures Indexed(LoginStep(v, conn, id, priority, uid).0)
  {
    hide Indexed, Renamed;
    SetKeepsIndexed(v);
    if id in v.index && v.ends[v.index[id]].connectPriority < priority {
      DisplaceKeepsIndexed(v, v.index[id], uid);
    }
    var v1 := if id in v.index then Displaced(v, v.index[id], uid) else v;
    if !(id in v.index && v.ends[v.index[id]].connectPriority >= priority) {
      SetKeepsIndexed(v1);
      IndexedKept(v1, conn, v1.ends[conn], id);
      RenamedEnds(v1, conn, id);
      SetKeepsIndexed(Renamed(v1, conn, id));
    }
  }

  lemma SetKeepsIndexed<C>(v: PoolView<C>)
    requires Indexed(v)
    ensures forall k :: k in v.index ==> v.index[k] in v.ends
    ensures forall c, e: End :: c in v.ends && e.tempID == v.ends[c].tempID ==> Indexed(SetEnd(v, c, e))
  {
  }

  lemma RenamedEnds<C>(v: PoolView<C>, c: C, id: string)
    requires c in v.ends
    ensures Renamed(v, c, id).ends.Keys == v.ends.Keys
  {
  }

  lemma DisplaceKeepsIndexed<C>(v: PoolView<C>, mine: C, uid: string)
    requires Indexed(v) && mine in v.ends
    ensures Indexed(Displaced(v, mine, uid)) && Displaced(v, mine, uid).ends.Keys == v.ends.Keys
  {
  }

  /**
   The contest: with an unused id at hand, the better connection takes the place of the one that was
   there, and closing the loser, then or later, does not take the winner out of the index.
   */
  lemma LoserCloses<C>(v: PoolView<C>, conn: C, id: string, priority: int, uid: string)
    requires Indexed(v) && conn in v.ends && id != "" && id in v.index && v.index[id] != conn
    requires v.ends[v.index[id]].connectPriority < priority && UnuseID(id, uid) !in v.index
    requires v.ends[conn].tempID != id && v.ends[conn].tempID != UnuseID(id, uid)
    ensures var (v', reply) := LoginStep(v, conn, id, priority, uid);
            && reply == Accepted && id in v'.index && v'.index[id] == conn
            && v'.ends[v.index[id]].terminated && v'.ends[v.index[id]].tempID == UnuseID(id, uid)
            && Indexed(v') && id in CloseStep(v', v.index[id]).index && CloseStep(v', v.index[id]).index[id] == conn
  {
  }

  // ---------------------------------------------------------------------------------------
  // New connections
  // ---------------------------------------------------------------------------------------

  function NewEnd(tempID: string, priority: int, client: bool): End {
    End(tempID, priority, "", client, false, false, false, false)
  }

  /** Our own connection to a module, under the module's id at once; not if there is one already. */
  function DialStep<C(==)>(v: PoolView<C>, conn: C, id: string, priority: int): Option<PoolView<C>> {
    if id in v.index then None else Some(Added(v, conn, NewEnd(id, priority, true)))
  }

  /** The peer's connection, under a unique id until it logs in. */
  function AcceptStep<C(==)>(v: PoolView<C>, conn: C, uid: string, priority: int): PoolView<C> {
    Added(v, conn, NewEnd(uid, priority, false))
  }

  /**
   What a module does about a connection to a peer: nothing as there is one, ask its channel, or dial, which
   may fail.
   */
  datatype Dial = Duplicate | Asked | Failed | Dialed(conn: Server)

  /** What a module does about a message of the channel handshake. */
  datatype Handshake = Dropped | Offered(conn: Server) | Connected(conn: Server)

  class SubnetManager {
    const pool: ServerPool

    constructor ()
      ensures pool.Valid() && pool.AsView() == PoolView(map[], map[]) && fresh(pool)
    {
      pool := new ServerPool();
    }

    /** Dials a module that there is no connection to; one without an id is entered under a unique id. */
    method ConnectServer(id: string, viaChan: bool, dialOk: bool, uid: string, priority: int) returns (r: Dial)
      requires pool.Valid()
      modifies pool
      ensures pool.Valid()
      ensures r == Duplicate <==> id in old(pool.allSockets)
      ensures r.Dialed? ==> fresh(r.conn) && r.conn.client && r.conn.connectPriority == priority
      ensures r.Dialed? ==> r.conn.tempID == (if id == "" then uid else id)
      ensures r.Dialed? ==> pool.allSockets == old(pool.allSockets)[r.conn.tempID := r.conn]
      ensures r.Dialed? && id == "" ==> pool.AsView() == Added(old(pool.AsView()), r.conn, NewEnd(uid, priority, true))
      ensures r.Dialed? && id != "" ==> Some(pool.AsView()) == DialStep(old(pool.AsView()), r.conn, id, priority)
      ensures r != Duplicate ==> (r.Asked? <==> viaChan) && (r.Failed? <==> !viaChan && !dialOk)
      ensures !r.Dialed? ==> pool.AsView() == old(pool.AsView())
    {
      var oldconn := pool.GetServer(id);
      if oldconn.Some? {
        return Duplicate;
      }
      if viaChan {
        return Asked;
      }
      if !dialOk {
        return Failed;
      }
      var conn := pool.NewServer(true, id, uid, priority);
      r := Dialed(conn);
    }

    /** A TCP connection that a listener accepted. */
    method OnAccept(uid: string, priority: int) returns (conn: Server)
      requires pool.Valid()
      modifies pool
      ensures pool.Valid() && fresh(conn) && pool.AsView() == AcceptStep(old(pool.AsView()), conn, uid, priority)
      ensures !conn.client && conn.connectPriority == priority && conn.tempID == uid
      ensures pool.allSockets == old(pool.allSockets)[uid := conn]
    {
      conn := pool.NewServer(false, "", uid, priority);
    }

    /**
     Step 0 of the handshake creates the accepting end, step 1 the dialing one; both only without a
     connection to the peer, and while the peer listens to a channel at all.
     */
    method ProcessChanServerRequest(remoteChan: bool, seqNo: nat, peerID: string, uid: string, priority: int)
      returns (r: Handshake)
      requires pool.Valid()
      modifies pool
      ensures pool.Valid()
      ensures r.Dropped? <==> !remoteChan || peerID in old(pool.allSockets) || seqNo > 1
      ensures r.Offered? ==> seqNo == 0 && fresh(r.conn) && !r.conn.client && r.conn.connectPriority == priority
      ensures r.Offered? ==> pool.allSockets == old(pool.allSockets)[uid := r.conn]
      ensures r.Offered? ==> pool.AsView() == AcceptStep(old(pool.AsView()), r.conn, uid, priority)
      ensures r.Connected? ==> seqNo == 1 && fresh(r.conn) && r.conn.client && r.conn.connectPriority == priority
      ensures r.Connected? ==> pool.allSockets == old(pool.allSockets)[if peerID == "" then uid else peerID := r.conn]
      ensures r.Connected? && peerID == "" ==>
                pool.AsView() == Added(old(pool.AsView()), r.conn, NewEnd(uid, priority, true))
      ensures r.Connected? && peerID != "" ==>
                Some(pool.AsView()) == DialStep(old(pool.AsView()), r.conn, peerID, priority)
      ensures r.Dropped? ==> pool.AsView() == old(pool.AsView())
    {
      if !remoteChan {
        return Dropped;
      }
      var oldconn := pool.GetServer(peerID);
      if seqNo == 0 && oldconn.None? {
        var conn := pool.NewServer(false, "", uid, priority);
        return Offered(conn);
      }
      if seqNo == 1 && oldconn.None? {
        var conn := pool.NewServer(true, peerID, uid, priority);
        return Connected(conn);
      }
      r := Dropped;
    }

    method Displace(myconn: Server, uid: string)
      requires pool.Valid() && myconn in pool.known
      modifies pool, myconn
      ensures pool.Valid() && pool.known == old(pool.known)
      ensures pool.AsView() == Displaced(old(pool.AsView()), myconn, uid)
      ensures myconn.terminateForce && myconn.isNormalDisconnect && myconn.moduleID == old(myconn.moduleID)
      ensures var name := old(myconn.tempID) + "unuse" + uid;
              if name in old(pool.allSockets)
              then pool.allSockets == old(pool.allSockets) && myconn.tempID == old(myconn.tempID)
              else
                && pool.allSockets == old(pool.allSockets)[name := myconn] - {old(myconn.tempID)}
                && myconn.tempID == name
    {
      hide Ends;
      ghost var ends := Ends(pool.known);
      EndsHas(pool.known);
      myconn.isNormalDisconnect := true;
      myconn.terminateForce := true;
      EndsSet(ends, pool.known, myconn);
      var _ := pool.ChangeServerTempid(myconn, UnuseID(myconn.tempID, uid));
    }

    method OnServerLogin(conn: Server, id: string, priority: int, uid: string) returns (reply: Reply)
      requires pool.Valid() && conn in pool.known
      modifies pool, pool.known
      ensures pool.Valid() && pool.known == old(pool.known)
      ensures (pool.AsView(), reply) == LoginStep(old(pool.AsView()), conn, id, priority, uid)
      ensures reply == Ignored <==> id in old(pool.allSockets) && old(pool.allSockets[id].connectPriority) >= priority
      ensures reply == Ignored ==> pool.allSockets == old(pool.allSockets)
      ensures reply == Refused ==> id == "" && conn.terminateForce
      ensures reply == Accepted ==> id != "" && conn.moduleID == id && conn.verifyOk
      ensures reply == Accepted && id !in old(pool.allSockets) ==>
                conn.tempID == id && pool.allSockets == old(pool.allSockets)[id := conn] - {old(conn.tempID)}
      ensures reply == Accepted && id in old(pool.allSockets) ==>
                var mine := old(pool.allSockets[id]);
                && mine.terminateForce && mine.isNormalDisconnect
                && (id + "unuse" + uid !in old(pool.allSockets) && mine != conn ==>
                      mine.tempID == id + "unuse" + uid && conn.tempID == id)
    {
      hide Ends, Displaced, Renamed;
      EndsHas(pool.known);
      var myconn := pool.GetServer(id);
      if myconn.Some? {
        if myconn.value.connectPriority < priority {
          Displace(myconn.value, uid);
        } else {
          return Ignored;
        }
      }
      if id == "" {
        Refuse(conn);
        return Refused;
      }
      Admit(conn, id);
      reply := Accepted;
    }

    method Refuse(conn: Server)
      requires pool.Valid() && conn in pool.known
      modifies conn
      ensures pool.Valid()
      ensures var v := old(pool.AsView()); pool.AsView() == SetEnd(v, conn, v.ends[conn].(terminated := true))
      ensures conn.terminateForce
    {
      hide Ends;
      ghost var ends := Ends(pool.known);
      EndsHas(pool.known);
      conn.terminateForce := true;
      EndsSet(ends, pool.known, conn);
    }

    method Admit(conn: Server, id: string)
      requires pool.Valid() && conn in pool.known
      modifies pool, conn
      ensures pool.Valid() && pool.known == old(pool.known)
      ensures var v := Renamed(old(pool.AsView()), conn, id);
              pool.AsView() == SetEnd(v, conn, v.ends[conn].(peer := id, verified := true))
      ensures conn.moduleID == id && conn.verifyOk && conn.terminateForce == old(conn.terminateForce)
      ensures conn.isNormalDisconnect == old(conn.isNormalDisconnect)
      ensures if id in old(pool.allSockets)
              then pool.allSockets == old(pool.allSockets) && conn.tempID == old(conn.tempID)
              else pool.allSockets == old(pool.allSockets)[id := conn] - {old(conn.tempID)} && conn.tempID == id
    {
      hide Ends, Renamed, SetEnd;
      EndsHas(pool.known);
      var _ := pool.ChangeServerTempid(conn, id);
      EndsHas(pool.known);
      pool.Verify(conn, id);
    }

    method OnLoginRet(conn: Server, loginFailed: nat, destination: string)
      requires pool.Valid() && conn in pool.known
      modifies conn
      ensures pool.Valid() && pool.AsView() == LoginRetStep(old(pool.AsView()), conn, loginFailed, destination)
      ensures conn.terminateForce == (old(conn.terminateForce) || loginFailed > 0)
      ensures conn.isNormalDisconnect == (old(conn.isNormalDisconnect) || loginFailed == 2)
      ensures conn.moduleID == (if loginFailed > 0 then old(conn.moduleID) else destination)
      ensures conn.tempID == old(conn.tempID) && conn.verifyOk == old(conn.verifyOk)
    {
      hide Ends;
      ghost var ends := Ends(pool.known);
      EndsHas(pool.known);
      if loginFailed > 0 {
        conn.terminateForce := true;
        if loginFailed == LOGINRETCODE_IDENTICAL {
          conn.isNormalDisconnect := true;
        }
      } else {
        conn.moduleID := destination;
      }
      EndsSet(ends, pool.known, conn);
    }

    method OnConnectClose(conn: Server)
      requires pool.Valid() && conn in pool.known
      modifies pool, pool.known
      ensures pool.Valid() && pool.known == old(pool.known)
      ensures Indexed(old(pool.AsView())) && pool.AsView() == CloseStep(old(pool.AsView()), conn)
      ensures pool.allSockets == old(pool.allSockets) - {conn.tempID} && conn.tempID == old(conn.tempID)
    {
      pool.ValidIsIndexed();
      pool.RemoveServer(conn.tempID);
    }
  }
}
