/**
 A session that was changed on one server is sent to the others, each of which merges it with its
 own session of the same uuid and with the session of the client connection, if it has them.
 */
module SessionUpdates {
  import opened Basics
  import opened Sessions

  datatype SyncMsg = SyncMsg(session: Data, clientConnID: string, uuid: string)

  /** What a session tells of itself. */
  function ServerSyncMsg(m: Data): SyncMsg {
    SyncMsg(m, GetFromMap(m, CONNECT_KEY), UUID(m))
  }

  /** onUpdateSession: `client` is the connected client's session, `spare` a new empty one; None is a panic. */
  function OnUpdated<R(==)>(v: Store<R>, client: Option<R>, data: Data, uuid: string, spare: R): Option<Store<R>>
    requires Closed(v) && spare in v.maps && (client.Some? ==> client.value in v.maps)
  {
    var v1 := if client.Some? then Overwritten(v, client.value, data) else v;
    if uuid == "" then Some(v1) else OnLocal(v1, client, data, uuid, spare)
  }

  function OnLocal<R(==)>(v: Store<R>, client: Option<R>, data: Data, uuid: string, spare: R): Option<Store<R>>
    requires Closed(v) && spare in v.maps && (client.Some? ==> client.value in v.maps)
  {
    if uuid in v.index then
      var local := v.index[uuid];
      if client.Some? && client.value != local
      then Updated(Stored(Completed(v, client.value, local), client.value), client.value, data)
      else Updated(v, local, data)
    else if client.Some? then Updated(v, client.value, data)
    else Updated(Rebound(v, uuid, spare), spare, data)
  }

  ghost predicate Unused<R>(v: Store<R>, spare: R) {
    spare in v.maps && v.maps[spare] == map[]
  }

  function ClientData<R(==)>(v: Store<R>, client: Option<R>): Data
    requires client.Some? ==> client.value in v.maps
  {
    if client.Some? then v.maps[client.value] else map[]
  }

  // ---------------------------------------------------------------------------------------
  // The merge law
  // ---------------------------------------------------------------------------------------

  /**
   The session under the uuid holds what it held here, overridden by the connected client's session,
   overridden by the message; and it is the client's own session if the client is connected.
   */
  ghost predicate Merged<R>(v: Store<R>, client: Option<R>, data: Data, uuid: string, v': Store<R>)
    requires Closed(v) && (client.Some? ==> client.value in v.maps)
  {
    && uuid in v'.index && v'.index[uuid] in v'.maps
    && (client.Some? ==> v'.index[uuid] == client.value)
    && v'.maps[v'.index[uuid]] == map[UUID_KEY := uuid] + Held(v, uuid) + ClientData(v, client) + data
  }

  /** Whether the merged session is one with the message's uuid; only the client's session can stand in the way. */
  ghost predicate Consistent<R>(v: Store<R>, client: Option<R>, data: Data, uuid: string)
    requires Closed(v) && (client.Some? ==> client.value in v.maps)
  {
    client.Some? ==>
      if uuid in v.index && v.index[uuid] == client.value
      then UUID(ClientData(v, client) + data) != ""
      else UUID(Held(v, uuid) + ClientData(v, client) + data) == uuid
  }

  /**
   The merge law holds exactly for the consistent updates; the others panic or leave the client's session
   elsewhere.
   */
  lemma MergeLaw<R>(v: Store<R>, client: Option<R>, data: Data, uuid: string, spare: R)
    requires Indexed(v) && Unused(v, spare) && (client.Some? ==> client.value in v.maps) && uuid != ""
    ensures (var r := OnUpdated(v, client, data, uuid, spare); r.Some? && Merged(v, client, data, uuid, r.value))
            <==> Consistent(v, client, data, uuid)
  {
    match client
    case None =>
      if uuid in v.index {
        MergeLocal(v, data, uuid, spare);
      } else {
        MergeNew(v, data, uuid, spare);
      }
    case Some(c) =>
      if uuid !in v.index {
        MergeClient(v, c, data, uuid, spare);
      } else if v.index[uuid] == c {
        MergeSame(v, c, data, uuid, spare);
      } else {
        MergeBoth(v, c, data, uuid, spare);
      }
  }

  lemma MergeLocal<R>(v: Store<R>, data: Data, uuid: string, spare: R)
    requires Indexed(v) && Unused(v, spare) && uuid in v.index
    ensures var r := OnUpdated(v, None, data, uuid, spare); r.Some? && Merged(v, None, data, uuid, r.value)
  {
  }

  lemma MergeNew<R>(v: Store<R>, data: Data, uuid: string, spare: R)
    requires Indexed(v) && Unused(v, spare) && uuid !in v.index && uuid != ""
    ensures var r := OnUpdated(v, None, data, uuid, spare); r.Some? && Merged(v, None, data, uuid, r.value)
  {
  }

  lemma MergeClient<R>(v: Store<R>, c: R, data: Data, uuid: string, spare: R)
    requires Indexed(v) && Unused(v, spare) && uuid !in v.index && uuid != "" && c in v.maps
    ensures (var r := OnUpdated(v, Some(c), data, uuid, spare); r.Some? && Merged(v, Some(c), data, uuid, r.value))
            <==> Consistent(v, Some(c), data, uuid)
  {
    var C := v.maps[c];
    assert map[] + C + data == C + data;
    if UUID(C + data) == uuid {
      assert map[UUID_KEY := uuid] + map[] + C + data == C + data == C + data + data;
    }
  }

  lemma MergeSame<R>(v: Store<R>, c: R, data: Data, uuid: string, spare: R)
    requires Indexed(v) && Unused(v, spare) && uuid in v.index && v.index[uuid] == c
    ensures (var r := OnUpdated(v, Some(c), data, uuid, spare); r.Some? && Merged(v, Some(c), data, uuid, r.value))
            <==> UUID(v.maps[c] + data) != ""
  {
  }

  lemma MergeBoth<R>(v: Store<R>, c: R, data: Data, uuid: string, spare: R)
    requires Indexed(v) && Unused(v, spare) && uuid in v.index && v.index[uuid] != c && c in v.maps
    ensures (var r := OnUpdated(v, Some(c), data, uuid, spare); r.Some? && Merged(v, Some(c), data, uuid, r.value))
            <==> UUID(Held(v, uuid) + v.maps[c] + data) == uuid
  {
    var L, C := Held(v, uuid), v.maps[c];
    assert L + (C + data) == L + C + data == L + C + data + data;
    assert map[UUID_KEY := uuid] + L == L;
  }

  /** A message that a session with a uuid makes of itself always merges, and no value in it is lost. */
  lemma SyncMerges<R>(v: Store<R>, client: Option<R>, sender: Data, spare: R)
    requires Indexed(v) && Unused(v, spare) && (client.Some? ==> client.value in v.maps) && UUID(sender) != ""
    ensures var msg := ServerSyncMsg(sender);
            var r := OnUpdated(v, client, msg.session, msg.uuid, spare);
            && r.Some? && Merged(v, client, sender, UUID(sender), r.value)
            && forall k :: k in sender ==> GetFromMap(r.value.maps[r.value.index[UUID(sender)]], k) == sender[k]
  {
    hide OnUpdated;
    assert Consistent(v, client, sender, UUID(sender));
    MergeLaw(v, client, sender, UUID(sender), spare);
  }

  /**
   A message that carries its own uuid merges, into the client's own session if the client is connected:
   no value of it is lost, and nothing but the merged session and the entry under the uuid changes.
   */
  lemma SyncMergesOnly<R>(v: Store<R>, client: Option<R>, data: Data, uuid: string, spare: R)
    requires Indexed(v) && Unused(v, spare) && (client.Some? ==> client.value in v.maps) && uuid != ""
    requires "_s0_uuid" in data && data["_s0_uuid"] == uuid
    ensures var r := OnUpdated(v, client, data, uuid, spare);
            && r.Some? && uuid in r.value.index && r.value.index == v.index[uuid := r.value.index[uuid]]
            && r.value.index[uuid] in r.value.maps
            && r.value.maps == v.maps[r.value.index[uuid] := Held(v, uuid) + ClientData(v, client) + data]
            && (client.Some? ==> r.value.index[uuid] == client.value)
            && (client.None? && uuid in v.index ==> r.value.index[uuid] == v.index[uuid])
  {
    hide OnUpdated, Indexed, ClientData, Held;
    IndexedIsClosed(v);
    assert Consistent(v, client, data, uuid);
    MergeLaw(v, client, data, uuid, spare);
    OwnUuid(Held(v, uuid) + ClientData(v, client), data, uuid);
    assert map[UUID_KEY := uuid] + Held(v, uuid) + ClientData(v, client) ==
        map[UUID_KEY := uuid] + (Held(v, uuid) + ClientData(v, client));
    OnlyThere(v, client, data, uuid, spare);
    var v' := OnUpdated(v, client, data, uuid, spare).value;
    OnlyOne(v.maps, v'.maps, v'.index[uuid]);
    OnlyOne(v.index, v'.index, uuid);
  }

  lemma OnlyOne<K, V>(a: map<K, V>, b: map<K, V>, k: K)
    requires k in b && (forall x :: x in b <==> x == k || x in a) && forall x :: x in a && x != k ==> b[x] == a[x]
    ensures b == a[k := b[k]]
  {
  }

  lemma OwnUuid(a: Data, data: Data, uuid: string)
    requires UUID_KEY in data
    ensures map[UUID_KEY := uuid] + a + data == a + data
  {
  }

  lemma OnlyThere<R>(v: Store<R>, client: Option<R>, data: Data, uuid: string, spare: R)
    requires Indexed(v) && Unused(v, spare) && (client.Some? ==> client.value in v.maps) && uuid != ""
    requires UUID_KEY in data && data[UUID_KEY] == uuid
    ensures var r := OnUpdated(v, client, data, uuid, spare);
            && r.Some? && uuid in r.value.index && r.value.maps.Keys == v.maps.Keys
            && (forall k :: k in r.value.index <==> k == uuid || k in v.index)
            && (forall k :: k in v.index && k != uuid ==> r.value.index[k] == v.index[k])
            && (forall s :: s in v.maps && s != r.value.index[uuid] ==> r.value.maps[s] == v.maps[s])
            && (client.None? && uuid in v.index ==> r.value.index[uuid] == v.index[uuid])
  {
    hide OnUpdated, Indexed;
    match client
    case None => OnlyThereLocal(v, data, uuid, spare);
    case Some(c) => OnlyThereClient(v, c, data, uuid, spare);
  }

  lemma OnlyThereLocal<R>(v: Store<R>, data: Data, uuid: string, spare: R)
    requires Indexed(v) && Unused(v, spare) && uuid != ""
    requires UUID_KEY in data && data[UUID_KEY] == uuid
    ensures var r := OnUpdated(v, None, data, uuid, spare);
            && r.Some? && uuid in r.value.index && r.value.maps.Keys == v.maps.Keys
            && (forall k :: k in r.value.index <==> k == uuid || k in v.index)
            && (forall k :: k in v.index && k != uuid ==> r.value.index[k] == v.index[k])
            && (forall s :: s in v.maps && s != r.value.index[uuid] ==> r.value.maps[s] == v.maps[s])
            && (uuid in v.index ==> r.value.index[uuid] == v.index[uuid])
  {
    hide Indexed;
    IndexedIsClosed(v);
  }

  lemma OnlyThereClient<R>(v: Store<R>, c: R, data: Data, uuid: string, spare: R)
    requires Indexed(v) && Unused(v, spare) && c in v.maps && uuid != ""
    requires UUID_KEY in data && data[UUID_KEY] == uuid
    ensures var r := OnUpdated(v, Some(c), data, uuid, spare);
            && r.Some? && uuid in r.value.index && r.value.maps.Keys == v.maps.Keys
            && (forall k :: k in r.value.index <==> k == uuid || k in v.index)
            && (forall k :: k in v.index && k != uuid ==> r.value.index[k] == v.index[k])
            && (forall s :: s in v.maps && s != r.value.index[uuid] ==> r.value.maps[s] == v.maps[s])
  {
    hide Indexed;
    IndexedIsClosed(v);
  }

  /** Without a uuid only the connected client's session takes the message in. */
  lemma NoUuid<R>(v: Store<R>, client: Option<R>, data: Data, spare: R)
    requires Indexed(v) && Unused(v, spare) && (client.Some? ==> client.value in v.maps)
    ensures var r := OnUpdated(v, client, data, "", spare);
            && r.Some? && r.value.index == v.index
            && r.value.maps == if client.Some? then v.maps[client.value := v.maps[client.value] + data] else v.maps
  {
  }

  // ---------------------------------------------------------------------------------------
  // The index
  // ---------------------------------------------------------------------------------------

  /** The update keeps the index exactly when it does not change the uuid of an indexed session. */
  ghost predicate KeepsUUID<R>(v: Store<R>, client: Option<R>, data: Data, uuid: string)
    requires client.Some? ==> client.value in v.maps
  {
    match client
    case Some(c) => c in v.index.Values ==> UUID(v.maps[c] + data) == UUID(v.maps[c])
    case None => uuid != "" && UUID_KEY in data ==> data[UUID_KEY] == uuid
  }

  lemma UpdateKeepsIndexed<R>(v: Store<R>, client: Option<R>, data: Data, uuid: string, spare: R)
    requires Indexed(v) && Unused(v, spare) && (client.Some? ==> client.value in v.maps)
    ensures var r := OnUpdated(v, client, data, uuid, spare);
            r.Some? ==> (Indexed(r.value) <==> KeepsUUID(v, client, data, uuid))
  {
    match client
    case None =>
      if uuid in v.index {
        hide Updated, Indexed;
        IndexedIsClosed(v);
        UpdatedKeeps(v, v.index[uuid], data);
      } else if uuid != "" {
        NewKeepsIndexed(v, data, uuid, spare);
      }
    case Some(c) => ClientKeepsIndexed(v, c, data, uuid, spare);
  }

  lemma NewKeepsIndexed<R>(v: Store<R>, data: Data, uuid: string, spare: R)
    requires Indexed(v) && Unused(v, spare) && uuid !in v.index && uuid != ""
    ensures var r := OnUpdated(v, None, data, uuid, spare);
            r.Some? && (Indexed(r.value) <==> KeepsUUID(v, None, data, uuid))
  {
  }

  lemma Panics<R>(v: Store<R>, target: R, data: Data)
    requires Closed(v) && target in v.maps
    ensures Updated(v, target, data) == None <==> UUID(v.maps[target]) == ""
  {
  }

  /** The session is entered under a key that is not its own. */
  ghost predicate Misplaced<R>(v: Store<R>, k: string, c: R) {
    k in v.index && v.index[k] == c && c in v.maps && UUID(v.maps[c]) != k
  }

  lemma ClientKeepsIndexed<R>(v: Store<R>, c: R, data: Data, uuid: string, spare: R)
    requires Indexed(v) && Unused(v, spare) && c in v.maps
    ensures var r := OnUpdated(v, Some(c), data, uuid, spare);
            r.Some? ==> (Indexed(r.value) <==> KeepsUUID(v, Some(c), data, uuid))
  {
    hide Indexed, Updated;
    IndexedIsClosed(v);
    var v1 := Overwritten(v, c, data);
    SetDataKeeps(v, c, v.maps[c] + data);
    var both := uuid in v.index && v.index[uuid] != c;
    var v2 := if both then Stored(Completed(v1, c, v1.index[uuid]), c) else v1;
    var target := if uuid in v.index && !both then v.index[uuid] else c;
    assert target == c;
    assert OnUpdated(v, Some(c), data, uuid, spare) == if uuid == "" then Some(v1) else Updated(v2, c, data);
    if Indexed(v1) {
      if both {
        CompletedKeeps(v1, c, uuid);
        StoredKeeps(Completed(v1, c, v1.index[uuid]), c);
      }
      if uuid != "" && UUID(v2.maps[c]) != "" {
        UpdatedKeeps(v2, c, data);
      } else if uuid != "" {
        Panics(v2, c, data);
      }
    } else {
      var k := UUID(v.maps[c]);
      var k' :| k' in v.index && v.index[k'] == c;
      assert Misplaced(v1, k, c) && UUID_KEY in v.maps[c];
      assert Misplaced(v2, k, c);
      if uuid != "" && UUID(v2.maps[c]) != "" {
        StaysMisplaced(v2, k, c, data);
      } else if uuid != "" {
        Panics(v2, c, data);
      } else {
        assert !Indexed(v1);
      }
    }
  }

  lemma CompletedKeeps<R>(v: Store<R>, c: R, uuid: string)
    requires Indexed(v) && c in v.maps && uuid in v.index
    ensures Indexed(Completed(v, c, v.index[uuid]))
  {
  }

  lemma StaysMisplaced<R>(v: Store<R>, k: string, c: R, data: Data)
    requires Misplaced(v, k, c) && Closed(v) && UUID(v.maps[c]) != ""
    requires UUID_KEY in data ==> data[UUID_KEY] == UUID(v.maps[c])
    ensures Updated(v, c, data).Some? && !Indexed(Updated(v, c, data).value)
  {
    var v' := Updated(v, c, data).value;
    assert k in v'.index && v'.index[k] == c;
    assert UUID(v'.maps[c]) != k;
  }
}
