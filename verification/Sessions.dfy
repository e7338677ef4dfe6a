/**
 Client sessions and the manager that indexes them by a key stored inside each session. Sessions are
 shared objects: a gate's client and the manager may hold the same one. What the operations do is
 said of a store of sessions by name, which the objects are one example of.
 */
module Sessions {
  import opened Basics

  type Data = map<string, string>

  const UUID_KEY := "_s0_uuid"
  const CONNECT_KEY := "_s0_connectid"

  function GetFromMap(m: Data, key: string): string {
    if key in m then m[key] else ""
  }

  function UUID(m: Data): string {
    GetFromMap(m, UUID_KEY)
  }

  /** The manager's index, and what each session holds. */
  datatype Store<!R> = Store(index: map<string, R>, maps: map<R, Data>)

  /** Every session sits under its own, non-empty, key. */
  ghost predicate Indexed<R>(v: Store<R>) {
    forall k :: k in v.index ==> k != "" && v.index[k] in v.maps && UUID(v.maps[v.index[k]]) == k
  }

  ghost predicate Closed<R>(v: Store<R>) {
    forall k :: k in v.index ==> v.index[k] in v.maps
  }

  lemma IndexedIsClosed<R>(v: Store<R>)
    requires Indexed(v)
    ensures Closed(v) && "" !in v.index
    ensures forall k :: k in v.index ==> UUID(v.maps[v.index[k]]) == k
  {
  }

  function SetData<R(==)>(v: Store<R>, s: R, m: Data): Store<R> {
    v.(maps := v.maps[s := m])
  }

  /** FromMap: the values of `data` replace those of the session. */
  function Overwritten<R(==)>(v: Store<R>, s: R, data: Data): Store<R>
    requires s in v.maps
  {
    SetData(v, s, v.maps[s] + data)
  }

  /** OnlyAddKeyFromSession: only what the session does not have yet is taken over. */
  function Completed<R(==)>(v: Store<R>, s: R, from: R): Store<R>
    requires s in v.maps && from in v.maps
  {
    SetData(v, s, v.maps[from] + v.maps[s])
  }

  function Stored<R(==)>(v: Store<R>, s: R): Store<R>
    requires s in v.maps
  {
    if UUID(v.maps[s]) == "" then v else v.(index := v.index[UUID(v.maps[s]) := s])
  }

  function LoadedOrStored<R(==)>(v: Store<R>, uuid: string, s: R): (R, Store<R>) {
    if uuid in v.index then (v.index[uuid], v) else (s, v.(index := v.index[uuid := s]))
  }

  /** MustUpdateFromMap: panics without a uuid. */
  function Updated<R(==)>(v: Store<R>, target: R, data: Data): Option<Store<R>>
    requires target in v.maps
    requires forall k :: k in v.index ==> v.index[k] in v.maps
  {
    var uuid := UUID(v.maps[target]);
    if uuid == "" then None else
    var (session, v1) := LoadedOrStored(v, uuid, target);
    var v2 := if session != target then Completed(v1, session, target) else v1;
    Some(Overwritten(v2, session, data))
  }

  /** UpdateSessionUUID. */
  function Rebound<R(==)>(v: Store<R>, uuid: string, s: R): Store<R>
    requires s in v.maps
    requires forall k :: k in v.index ==> v.index[k] in v.maps
  {
    Claimed(Unbound(v, uuid, s), uuid, s)
  }

  /** Its second half: the session that has the new uuid is merged in and replaced. */
  function Claimed<R(==)>(v: Store<R>, uuid: string, s: R): Store<R>
    requires s in v.maps
    requires forall k :: k in v.index ==> v.index[k] in v.maps
  {
    var v1 := if uuid in v.index && v.index[uuid] != s then Completed(v, s, v.index[uuid]) else v;
    Stored(SetData(v1, s, v1.maps[s][UUID_KEY := uuid]), s)
  }

  /** Its first half: the session that has the old uuid is merged in and its key is given up. */
  function Unbound<R(==)>(v: Store<R>, uuid: string, s: R): (v': Store<R>)
    requires s in v.maps
    requires forall k :: k in v.index ==> v.index[k] in v.maps
    ensures s in v'.maps && forall k :: k in v'.index ==> v'.index[k] in v'.maps
  {
    var olduuid := UUID(v.maps[s]);
    if olduuid == "" || olduuid !in v.index then v else
    var v1 := if v.index[olduuid] != s then Completed(v, s, v.index[olduuid]) else v;
    if uuid != olduuid then v1.(index := v1.index - {olduuid}) else v1
  }

  function Deleted<R>(v: Store<R>, uuid: string): Store<R> {
    v.(index := v.index - {uuid})
  }

  // ---------------------------------------------------------------------------------------
  // The index over all runs
  // ---------------------------------------------------------------------------------------

  lemma StoredKeeps<R>(v: Store<R>, s: R)
    requires Indexed(v) && s in v.maps
    ensures Indexed(Stored(v, s))
  {
  }

  /** A session may be entered under a free key exactly when the key is its own and not empty. */
  lemma LoadOrStoreKeeps<R>(v: Store<R>, uuid: string, s: R)
    requires Indexed(v) && s in v.maps
    ensures Indexed(LoadedOrStored(v, uuid, s).1) <==> uuid in v.index || (uuid != "" && UUID(v.maps[s]) == uuid)
  {
    if uuid !in v.index {
      assert v.index[uuid := s][uuid] == s;
      if Indexed(LoadedOrStored(v, uuid, s).1) {
        assert uuid in LoadedOrStored(v, uuid, s).1.index;
      }
    }
  }

  /** Changing what a session holds keeps the index exactly when the session is not in it or keeps its uuid. */
  lemma SetDataKeeps<R>(v: Store<R>, s: R, m: Data)
    requires Indexed(v) && s in v.maps
    ensures Indexed(SetData(v, s, m)) <==> UUID(m) == UUID(v.maps[s]) || s !in v.index.Values
  {
  }

  /** Updating from a map keeps the index exactly when the map does not give another uuid. */
  lemma UpdatedKeeps<R>(v: Store<R>, target: R, data: Data)
    requires Indexed(v) && target in v.maps && UUID(v.maps[target]) != ""
    ensures Updated(v, target, data).Some?
    ensures Indexed(Updated(v, target, data).value) <==> (UUID_KEY in data ==> data[UUID_KEY] == UUID(v.maps[target]))
  {
    hide Indexed;
    IndexedIsClosed(v);
    var uuid := UUID(v.maps[target]);
    var (session, v1) := LoadedOrStored(v, uuid, target);
    LoadOrStoreKeeps(v, uuid, target);
    var v2 := if session != target then Completed(v1, session, target) else v1;
    if session != target {
      SetDataKeeps(v1, session, v1.maps[target] + v1.maps[session]);
    }
    SetDataKeeps(v2, session, v2.maps[session] + data);
    assert v2.index[uuid] == session && session in v2.index.Values;
  }

  /** What the session under a key holds, if there is one. */
  function Held<R>(v: Store<R>, uuid: string): Data
    requires forall k :: k in v.index ==> v.index[k] in v.maps
  {
    if uuid in v.index then v.maps[v.index[uuid]] else map[]
  }

  /**
   Updating from a map: the session that has the uuid already is completed by the given one, and the
   map overrides both; without one, the given session is entered. No other session changes.
   */
  lemma UpdatedMerges<R>(v: Store<R>, target: R, data: Data)
    requires Indexed(v) && target in v.maps && UUID(v.maps[target]) != ""
    ensures var uuid := UUID(v.maps[target]);
            var v' := Updated(v, target, data).value;
            var session := if uuid in v.index then v.index[uuid] else target;
            && v'.index == v.index[uuid := session] && v'.maps.Keys == v.maps.Keys
            && (forall s :: s in v.maps && s != session ==> v'.maps[s] == v.maps[s])
            && (forall k :: k in v'.maps[session] <==> k in data || k in Held(v, uuid) || k in v.maps[target])
            && forall k :: k in v'.maps[session] ==>
                 v'.maps[session][k] ==
                   if k in data then data[k] else if k in Held(v, uuid) then Held(v, uuid)[k] else v.maps[target][k]
  {
  }

  /**
   Rebinding loses no key: the session ends up with everything from the one it replaces, the one it
   was known as, and itself, in this order of increasing precedence, and with the new uuid, under which it is found.
   */
  lemma ReboundMerges<R>(v: Store<R>, uuid: string, s: R)
    requires Indexed(v) && s in v.maps
    ensures var was := UUID(v.maps[s]);
            Rebound(v, uuid, s).maps == v.maps[s := (Held(v, uuid) + Held(v, was) + v.maps[s])[UUID_KEY := uuid]]
    ensures var rest := if UUID(v.maps[s]) == uuid then v.index else v.index - {UUID(v.maps[s])};
            Rebound(v, uuid, s).index == if uuid == "" then rest else rest[uuid := s]
  {
    hide Unbound, Claimed, UUID;
    UnboundMerges(v, uuid, s);
    var was := UUID(v.maps[s]);
    var v1 := Unbound(v, uuid, s);
    ClaimedMerges(v1, uuid, s);
    var (existing, kept) := (Held(v, uuid), Held(v, was) + v.maps[s]);
    assert existing + kept == existing + Held(v, was) + v.maps[s];
    assert Held(v1, uuid) + kept == existing + kept;
  }

  lemma ClaimedMerges<R>(v: Store<R>, uuid: string, s: R)
    requires Closed(v) && s in v.maps
    ensures Claimed(v, uuid, s).maps == v.maps[s := (Held(v, uuid) + v.maps[s])[UUID_KEY := uuid]]
    ensures Claimed(v, uuid, s).index == if uuid == "" then v.index else v.index[uuid := s]
  {
    if uuid !in v.index || v.index[uuid] == s {
      assert Held(v, uuid) + v.maps[s] == v.maps[s];
    }
  }

  lemma UnboundMerges<R>(v: Store<R>, uuid: string, s: R)
    requires Indexed(v) && s in v.maps
    ensures Unbound(v, uuid, s).maps == v.maps[s := Held(v, UUID(v.maps[s])) + v.maps[s]]
    ensures Unbound(v, uuid, s).index == if UUID(v.maps[s]) == uuid then v.index else v.index - {UUID(v.maps[s])}
  {
    assert "" !in v.index;
    var was := UUID(v.maps[s]);
    if was !in v.index || v.index[was] == s {
      assert Held(v, was) + v.maps[s] == v.maps[s];
    }
  }

  /** Rebinding always keeps the index. */
  lemma ReboundKeeps<R>(v: Store<R>, uuid: string, s: R)
    requires Indexed(v) && s in v.maps
    ensures Indexed(Rebound(v, uuid, s))
  {
    hide Rebound, Held;
    ReboundMerges(v, uuid, s);
  }

  datatype Op<!R> =
    | OpNew(s: R, m: Data)
    | OpSet(s: R, key: string, value: string)
    | OpStore(s: R)
    | OpUpdate(s: R, data: Data)
    | OpRebind(uuid: string, s: R)
    | OpDelete(uuid: string)

  /** What a caller must respect: sessions exist, uuids are only changed by rebinding, and updates need one. */
  ghost predicate Allowed<R>(v: Store<R>, op: Op<R>) {
    match op
    case OpNew(s, _) => s !in v.maps
    case OpSet(s, key, _) => s in v.maps && key != UUID_KEY
    case OpStore(s) => s in v.maps
    case OpUpdate(s, data) =>
      s in v.maps && UUID(v.maps[s]) != "" && (UUID_KEY in data ==> data[UUID_KEY] == UUID(v.maps[s]))
    case OpRebind(_, s) => s in v.maps
    case OpDelete(_) => true
  }

  ghost function Done<R>(v: Store<R>, op: Op<R>): Store<R>
    requires Closed(v) && Allowed(v, op)
  {
    match op
    case OpNew(s, m) => SetData(v, s, m)
    case OpSet(s, key, value) => SetData(v, s, v.maps[s][key := value])
    case OpStore(s) => Stored(v, s)
    case OpUpdate(s, data) => Updated(v, s, data).value
    case OpRebind(uuid, s) => Rebound(v, uuid, s)
    case OpDelete(uuid) => Deleted(v, uuid)
  }

  lemma DoneKeeps<R>(v: Store<R>, op: Op<R>)
    requires Indexed(v) && Allowed(v, op)
    ensures Indexed(Done(v, op))
  {
    match op
    case OpNew(s, m) =>
      forall k | k in v.index ensures v.index[k] != s {
      }
    case OpSet(s, key, value) => SetDataKeeps(v, s, v.maps[s][key := value]);
    case OpStore(s) => StoredKeeps(v, s);
    case OpUpdate(s, data) => UpdatedKeeps(v, s, data);
    case OpRebind(uuid, s) => ReboundKeeps(v, uuid, s);
    case OpDelete(uuid) =>
  }

  ghost predicate Runs<R>(v: Store<R>, ops: seq<Op<R>>, v': Store<R>)
    requires Indexed(v)
    decreases |ops|
  {
    if ops == [] then v' == v
    else Allowed(v, ops[0]) && (DoneKeeps(v, ops[0]); Runs(Done(v, ops[0]), ops[1..], v'))
  }

  /** Over every run from an empty manager each key is the uuid inside its session, so no session has two keys. */
  lemma {:induction false} RunKeepsIndexed<R>(v: Store<R>, ops: seq<Op<R>>, v': Store<R>)
    requires Indexed(v) && Runs(v, ops, v')
    ensures Indexed(v')
    ensures forall k, k' :: k in v'.index && k' in v'.index && v'.index[k] == v'.index[k'] ==> k == k'
    decreases |ops|
  {
    if ops != [] {
      DoneKeeps(v, ops[0]);
      RunKeepsIndexed(Done(v, ops[0]), ops[1..], v');
    }
  }
}
