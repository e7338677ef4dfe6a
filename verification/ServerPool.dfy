/**
 The pool of server connections: an index by a temporary id that is also stored in the connection
 and can be changed. The operations on a pool's value are shared by the class, whose connections
 are objects, and by the protocol, whose connections are plain names.
 */
module ServerPools {
  import opened Basics

  /** One end of a connection. */
  datatype End = End(tempID: string, connectPriority: int, peer: string, client: bool,
                     terminated: bool, normalDisconnect: bool, verified: bool, shutdown: bool)

  datatype PoolView<C> = PoolView(index: map<string, C>, ends: map<C, End>)

  /** Every entry sits under its own connection's id. */
  ghost predicate Indexed<C>(v: PoolView<C>) {
    forall k :: k in v.index ==> v.index[k] in v.ends && v.ends[v.index[k]].tempID == k
  }

  function SetEnd<C(==)>(v: PoolView<C>, c: C, e: End): PoolView<C> {
    v.(ends := v.ends[c := e])
  }

  function Added<C(==)>(v: PoolView<C>, c: C, e: End): PoolView<C> {
    PoolView(v.index[e.tempID := c], v.ends[c := e])
  }

  /** ChangeServerTempid: fails if the new id is taken. */
  function Renamed<C(==)>(v: PoolView<C>, c: C, newID: string): PoolView<C>
    requires c in v.ends
  {
    if newID in v.index then v
    else PoolView(v.index[newID := c] - {v.ends[c].tempID}, v.ends[c := v.ends[c].(tempID := newID)])
  }

  function Removed<C(==)>(v: PoolView<C>, id: string): PoolView<C>
    requires id in v.index ==> v.index[id] in v.ends
  {
    if id !in v.index then v
    else PoolView(v.index - {id}, v.ends[v.index[id] := v.ends[v.index[id]].(shutdown := true)])
  }

  /** Adding a new connection, renaming any, and removing keep the index in step with the connections' own ids. */
  lemma IndexedKept<C>(v: PoolView<C>, c: C, e: End, id: string)
    requires Indexed(v)
    ensures c !in v.ends ==> Indexed(Added(v, c, e))
    ensures c in v.ends ==> Indexed(Renamed(v, c, id))
    ensures Indexed(Removed(v, id))
  {
  }

  class Server {
    var tempID: string
    const connectPriority: int
    var moduleID: string
    const client: bool
    var terminateForce: bool
    var isNormalDisconnect: bool
    var verifyOk: bool
    var isShutdown: bool

    constructor (tempID: string, connectPriority: int, client: bool)
      ensures AsEnd() == End(tempID, connectPriority, "", client, false, false, false, false)
    {
      this.tempID, this.connectPriority, moduleID, this.client := tempID, connectPriority, "", client;
      terminateForce, isNormalDisconnect, verifyOk, isShutdown := false, false, false, false;
    }

    method SetVerified(id: string)
      modifies this`moduleID, this`verifyOk
      ensures moduleID == id && verifyOk
      ensures AsEnd() == old(AsEnd()).(peer := id, verified := true)
    {
      moduleID, verifyOk := id, true;
    }

    ghost function AsEnd(): End
      reads this
    {
      End(tempID, connectPriority, moduleID, client, terminateForce, isNormalDisconnect, verifyOk, isShutdown)
    }
  }

  ghost function Ends(known: set<Server>): map<Server, End>
    reads known
  {
    map s | s in known :: s.AsEnd()
  }

  /** All ends but that of `c` are what they were in `ends`. */
  lemma EndsSet(ends: map<Server, End>, known: set<Server>, c: Server)
    requires c in known && ends.Keys + {c} == known && forall s :: s in known && s != c ==> ends[s] == s.AsEnd()
    ensures Ends(known) == ends[c := c.AsEnd()]
  {
  }

  lemma EndsHas(known: set<Server>)
    ensures Ends(known).Keys == known && forall s :: s in known ==> Ends(known)[s] == s.AsEnd()
  {
  }

  class ServerPool {
    var allSockets: map<string, Server>
    var linkSum: int
    /** All connections that were ever added to the pool. */
    ghost var known: set<Server>

    ghost function AsView(): PoolView<Server>
      reads this, known
    {
      PoolView(allSockets, Ends(known))
    }

    /** The link counter counts the entries, and every entry sits under its own connection's id. */
    ghost predicate Valid()
      reads this, known
    {
      && linkSum == |allSockets|
      && forall k :: k in allSockets ==> allSockets[k] in known && allSockets[k].tempID == k
    }

    constructor ()
      ensures Valid() && AsView() == PoolView(map[], map[]) && known == {}
    {
      allSockets, linkSum, known := map[], 0, {};
    }

    lemma ValidIsIndexed()
      requires Valid()
      ensures Indexed(AsView())
    {
    }

    method Len() returns (n: int)
      requires Valid()
      ensures n == |allSockets|
    {
      n := if linkSum < 0 then 0 else linkSum;
    }

    method GetServer(tmpid: string) returns (r: Option<Server>)
      ensures r == if tmpid in allSockets then Some(allSockets[tmpid]) else None
    {
      r := if tmpid in allSockets then Some(allSockets[tmpid]) else None;
    }

    method Add(tmpid: string, value: Server)
      modifies this`allSockets, this`linkSum
      ensures allSockets == old(allSockets)[tmpid := value]
      ensures linkSum == old(linkSum) + if tmpid in old(allSockets) then 0 else 1
    {
      if tmpid !in allSockets {
        allSockets := allSockets[tmpid := value];
        linkSum := linkSum + 1;
      } else {
        allSockets := allSockets[tmpid := value];
      }
    }

    method Remove(tmpid: string)
      modifies this`allSockets, this`linkSum
      ensures allSockets == old(allSockets) - {tmpid}
      ensures linkSum == old(linkSum) - if tmpid in old(allSockets) then 1 else 0
    {
      if tmpid !in allSockets {
        return;
      }
      allSockets := allSockets - {tmpid};
      linkSum := linkSum - 1;
    }

    /** Enters a connection under its own id. */
    method Enter(conn: Server)
      requires Valid() && conn !in known
      modifies this
      ensures Valid() && known == old(known) + {conn} && allSockets == old(allSockets)[conn.tempID := conn]
    {
      Add(conn.tempID, conn);
      known := known + {conn};
      MapInsertSize(old(allSockets), conn.tempID, conn);
    }

    /** A new connection, under the given module id, or under its own unique id if that is empty. */
    method NewServer(client: bool, moduleid: string, uid: string, priority: int) returns (conn: Server)
      requires Valid()
      modifies this
      ensures Valid() && fresh(conn) && known == old(known) + {conn}
      ensures AsView() == Added(old(AsView()), conn,
                                End(if moduleid == "" then uid else moduleid, priority, "", client,
                                    false, false, false, false))
      ensures conn.tempID == (if moduleid == "" then uid else moduleid) && conn.connectPriority == priority
      ensures conn.client == client && !conn.terminateForce && !conn.isShutdown && conn.moduleID == ""
      ensures allSockets == old(allSockets)[conn.tempID := conn]
    {
      hide Ends, Valid;
      ghost var ends := Ends(known);
      EndsHas(known);
      conn := new Server(uid, priority, client);
      if moduleid != "" {
        conn.tempID := moduleid;
      }
      assert unchanged(known);
      Enter(conn);
      EndsSet(ends, known, conn);
    }

    method RemoveServer(tmpid: string)
      requires Valid()
      modifies this`allSockets, this`linkSum, known
      ensures Valid() && known == old(known) && AsView() == Removed(old(AsView()), tmpid)
      ensures allSockets == old(allSockets) - {tmpid}
      ensures tmpid in old(allSockets) ==> old(allSockets)[tmpid].isShutdown
    {
      hide Ends;
      EndsHas(known);
      if tmpid in allSockets {
        var value := allSockets[tmpid];
        ghost var ends := Ends(known);
        value.isShutdown := true;
        EndsSet(ends, known, value);
        Remove(tmpid);
        MapRemoveSize(old(allSockets), tmpid);
      }
    }

    /** The peer behind a connection has shown who it is. */
    method Verify(conn: Server, id: string)
      requires Valid() && conn in known
      modifies conn`moduleID, conn`verifyOk
      ensures Valid() && AsView() ==
                SetEnd(old(AsView()), conn, old(AsView()).ends[conn].(peer := id, verified := true))
      ensures conn.moduleID == id && conn.verifyOk
    {
      hide Ends;
      EndsHas(known);
      ghost var ends := Ends(known);
      conn.SetVerified(id);
      EndsSet(ends, known, conn);
    }

    /** Both indexes point to the connection for a moment, then the old one is dropped. */
    method Rekey(tcptask: Server, newTmpID: string)
      requires Valid() && tcptask in known && newTmpID !in allSockets
      modifies this`allSockets, this`linkSum, tcptask`tempID
      ensures Valid() && tcptask.tempID == newTmpID
      ensures allSockets == old(allSockets)[newTmpID := tcptask] - {old(tcptask.tempID)}
    {
      MapInsertSize(allSockets, newTmpID, tcptask);
      allSockets := allSockets[newTmpID := tcptask];
      var oldTmpID := tcptask.tempID;
      tcptask.tempID := newTmpID;
      MapRemoveSize(allSockets, oldTmpID);
      Remove(oldTmpID);
      linkSum := linkSum + 1;
    }

    method ChangeServerTempid(tcptask: Server, newTmpID: string) returns (ok: bool)
      requires Valid() && tcptask in known
      modifies this`allSockets, this`linkSum, tcptask`tempID
      ensures Valid() && ok == (newTmpID !in old(allSockets)) && AsView() == Renamed(old(AsView()), tcptask, newTmpID)
      ensures ok ==> allSockets == old(allSockets)[newTmpID := tcptask] - {old(tcptask.tempID)}
      ensures !ok ==> allSockets == old(allSockets)
      ensures tcptask.tempID == if ok then newTmpID else old(tcptask.tempID)
    {
      hide Ends, Valid;
      if newTmpID in allSockets {
        return false;
      }
      ghost var ends := Ends(known);
      EndsHas(known);
      Rekey(tcptask, newTmpID);
      EndsSet(ends, known, tcptask);
      ok := true;
    }
  }
}
