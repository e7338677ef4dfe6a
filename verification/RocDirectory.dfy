/**
 The object directory over all runs: modules in processes, one cache per process, and connections that
 carry the bind messages of a module to its peers. Adding an object, taking one away and the snapshot
 for a joining peer are single steps; every object is only ever hosted by one module.

 A module posts to every peer whose id it does not know to be in its own process; until the login it
 does not know the id of any. The receiver hands what comes from a stranger to its first message
 thread, and what comes after the sender's login message or answer to the thread that the sender's id
 selects. So a connection has two lanes, each processed in order, but not one after the other.
 */
module RocDirectory {
  import opened Basics
  import opened RocCache
  import opened RocServer

  type ProcessID = string
  type LinkID = nat

  /** `split(m, r)`: r processes what it knows to come from m in another thread than what strangers send. */
  datatype World = World(process: ModuleID -> ProcessID, owner: Obj -> ModuleID, split: (ModuleID, ModuleID) -> bool)

  /**
   One direction of a connection. It exists from the moment the connection is in the pool; `known` is
   set with the login, when the peer's id is, `signed` when the sender's own login message or answer
   is sent, and `joined` with the snapshot.
   */
  datatype Link = Link(from: ModuleID, to: ModuleID, known: bool, signed: bool, joined: bool,
                       early: seq<SROCBind>, late: seq<SROCBind>)

  datatype Lane = Lane(link: LinkID, late: bool)

  datatype State = State(local: map<ModuleID, set<Obj>>, caches: map<ProcessID, Hosts>, links: map<LinkID, Link>)

  const INIT := State(map[], map[], map[])

  function Local(s: State, m: ModuleID): set<Obj> {
    if m in s.local then s.local[m] else {}
  }

  function CacheOf(s: State, p: ProcessID): Hosts {
    if p in s.caches then s.caches[p] else map[]
  }

  datatype Step =
    | Change(m: ModuleID, x: Obj, isDelete: bool)
    | Connect(l: LinkID, m: ModuleID, r: ModuleID)
    | Login(l: LinkID)
    | Sign(l: LinkID)
    | Join(l: LinkID, msgs: seq<SROCBind>)
    | Deliver(k: Lane)

  /** Whether the link ends in the process that it starts in. */
  predicate Inside(w: World, link: Link) {
    w.process(link.to) == w.process(link.from)
  }

  function QueueOf(s: State, k: Lane): seq<SROCBind> {
    if k.link !in s.links then [] else if k.late then s.links[k.link].late else s.links[k.link].early
  }

  ghost predicate Enabled(w: World, s: State, step: Step) {
    match step
    case Change(m, x, _) => w.owner(x) == m
    case Connect(l, m, r) => l !in s.links && m != r
    case Login(l) => l in s.links
    case Sign(l) => l in s.links
    case Join(l, msgs) =>
      && l in s.links && s.links[l].known && s.links[l].signed && !Inside(w, s.links[l])
      && Snapshot(msgs, s.links[l].from, Local(s, s.links[l].from))
    case Deliver(k) => QueueOf(s, k) != []
  }

  predicate Posts(w: World, link: Link) {
    !link.known || !Inside(w, link)
  }

  /** Whether what is sent now goes to the second lane. */
  predicate IsLate(w: World, link: Link) {
    link.signed && w.split(link.from, link.to)
  }

  function Sent(w: World, link: Link, msgs: seq<SROCBind>): Link {
    if IsLate(w, link) then link.(late := link.late + msgs) else link.(early := link.early + msgs)
  }

  function Announced(w: World, links: map<LinkID, Link>, m: ModuleID, msg: SROCBind): map<LinkID, Link> {
    map l | l in links :: if links[l].from == m && Posts(w, links[l]) then Sent(w, links[l], [msg]) else links[l]
  }

  function Taken(link: Link, late: bool): Link
    requires (if late then link.late else link.early) != []
  {
    if late then link.(late := link.late[1..]) else link.(early := link.early[1..])
  }

  ghost function Next(w: World, s: State, step: Step): State
    requires Enabled(w, s, step)
  {
    match step
    case Change(m, x, isDelete) =>
      var msg := SROCBind(m, isDelete, x.0, [x.1]);
      State(s.local[m := if isDelete then Local(s, m) - {x} else Local(s, m) + {x}],
            s.caches[w.process(m) := Apply(CacheOf(s, w.process(m)), OpOf(msg))],
            Announced(w, s.links, m, msg))
    case Connect(l, m, r) => s.(links := s.links[l := Link(m, r, false, false, false, [], [])])
    case Login(l) => s.(links := s.links[l := s.links[l].(known := true)])
    case Sign(l) => s.(links := s.links[l := s.links[l].(signed := true)])
    case Join(l, msgs) => s.(links := s.links[l := Sent(w, s.links[l], msgs).(joined := true)])
    case Deliver(k) =>
      var p := w.process(s.links[k.link].to);
      s.(links := s.links[k.link := Taken(s.links[k.link], k.late)],
         caches := s.caches[p := Apply(CacheOf(s, p), OpOf(QueueOf(s, k)[0]))])
  }

  ghost predicate Reaches(w: World, s: State, steps: seq<Step>, t: State)
    decreases |steps|
  {
    if steps == [] then t == s
    else Enabled(w, s, steps[0]) && Reaches(w, Next(w, s, steps[0]), steps[1..], t)
  }

  // ---------------------------------------------------------------------------------------
  // The last word of a queue on an object
  // ---------------------------------------------------------------------------------------

  predicate Names(msg: SROCBind, x: Obj) {
    msg.objType == x.0 && x.1 in msg.objIDs
  }

  /** Whether the queue's last message about `x` binds it, if there is one. */
  function Final(queue: seq<SROCBind>, x: Obj): Option<bool> {
    if queue == [] then None
    else var (front, last) := (queue[..|queue| - 1], queue[|queue| - 1]);
         if Names(last, x) then Some(!last.isDelete) else Final(front, x)
  }

  lemma FinalMore(queue: seq<SROCBind>, msg: SROCBind, x: Obj)
    ensures Final(queue + [msg], x) == if Names(msg, x) then Some(!msg.isDelete) else Final(queue, x)
  {
  }

  lemma {:induction false} FinalJoined(queue: seq<SROCBind>, more: seq<SROCBind>, x: Obj)
    ensures Final(queue + more, x) == if Final(more, x).Some? then Final(more, x) else Final(queue, x)
  {
    if more == [] {
      assert queue + more == queue;
    } else {
      var front, last := more[..|more| - 1], more[|more| - 1];
      FinalJoined(queue, front, x);
      FinalMore(queue + front, last, x);
      assert (queue + front) + [last] == queue + more;
    }
  }

  /** Taking the first message out only matters to the objects that no later message is about. */
  lemma FinalRest(queue: seq<SROCBind>, x: Obj)
    requires queue != []
    ensures Final(queue, x) == if Final(queue[1..], x).Some? then Final(queue[1..], x)
                               else if Names(queue[0], x) then Some(!queue[0].isDelete) else None
  {
    FinalJoined([queue[0]], queue[1..], x);
    FinalMore([], queue[0], x);
    assert [queue[0]] + queue[1..] == queue && [] + [queue[0]] == [queue[0]];
  }

  lemma {:induction false} FinalNamed(msgs: seq<SROCBind>, x: Obj)
    ensures Final(msgs, x).Some? <==> x in Named(msgs)
    ensures (forall i :: 0 <= i < |msgs| ==> !msgs[i].isDelete) ==> Final(msgs, x) in {None, Some(true)}
  {
    if msgs != [] {
      var front, last := msgs[..|msgs| - 1], msgs[|msgs| - 1];
      FinalNamed(front, x);
      PairsHas(last, x);
      assert Named(msgs) == Named(front) + Pairs(last.objType, last.objIDs);
    }
  }

  lemma PairsHas(msg: SROCBind, x: Obj)
    ensures x in Pairs(msg.objType, msg.objIDs) <==> Names(msg, x)
  {
    var pairs := Pairs(msg.objType, msg.objIDs);
    if Names(msg, x) {
      var i :| 0 <= i < |msg.objIDs| && msg.objIDs[i] == x.1;
      assert pairs[i] == x;
    }
  }

  /** A snapshot binds exactly the local objects. */
  lemma SnapshotFinal(msgs: seq<SROCBind>, m: ModuleID, local: set<Obj>, x: Obj)
    requires Snapshot(msgs, m, local)
    ensures Final(msgs, x) == if x in local then Some(true) else None
  {
    FinalNamed(msgs, x);
    assert forall i :: 0 <= i < |msgs| ==> IntroductionOf(msgs[i], m);
    assert x in Named(msgs) <==> x in multiset(Named(msgs));
    assert x in local <==> x in multiset(local);
  }

  // ---------------------------------------------------------------------------------------
  // What concerns one object
  // ---------------------------------------------------------------------------------------

  /** A message on a link of `m` speaks for `m` and about its own objects. */
  ghost predicate Honest(w: World, msg: SROCBind, m: ModuleID) {
    msg.hostModuleID == m && forall x :: Names(msg, x) ==> w.owner(x) == m
  }

  ghost predicate AllHonest(w: World, s: State) {
    forall k: Lane, i :: k.link in s.links && 0 <= i < |QueueOf(s, k)| ==>
      Honest(w, QueueOf(s, k)[i], s.links[k.link].from)
  }

  /** No link leads back to its module, and nothing is in a second lane that is not in use. */
  ghost predicate LinksFine(w: World, links: map<LinkID, Link>) {
    forall l :: l in links ==> links[l].from != links[l].to && (!IsLate(w, links[l]) ==> links[l].late == [])
  }

  ghost predicate WellLinked(w: World, s: State) {
    AllHonest(w, s) && LinksFine(w, s.links)
  }

  predicate Has(s: State, m: ModuleID, x: Obj) {
    x in Local(s, m)
  }

  function Where(s: State, p: ProcessID, x: Obj): Option<ModuleID> {
    Lookup(CacheOf(s, p), x)
  }

  predicate IsFrom(s: State, k: Lane, m: ModuleID) {
    k.link in s.links && s.links[k.link].from == m
  }

  predicate IsTo(w: World, s: State, k: Lane, p: ProcessID) {
    k.link in s.links && w.process(s.links[k.link].to) == p
  }

  predicate IsJoined(s: State, k: Lane) {
    k.link in s.links && s.links[k.link].joined
  }

  /** The lane is the one that its module posts on. */
  predicate IsOpen(w: World, s: State, k: Lane) {
    k.link in s.links && Posts(w, s.links[k.link]) && k.late == IsLate(w, s.links[k.link])
  }

  /** The lane of the same link that is in use. */
  function InUse(w: World, s: State, k: Lane): Lane {
    if k.link in s.links then Lane(k.link, IsLate(w, s.links[k.link])) else k
  }

  /** The last message about `x` under way on a lane. */
  function Said(s: State, k: Lane, x: Obj): Option<bool> {
    Final(QueueOf(s, k), x)
  }

  /** No message about `x` is under way to the process `p`. */
  ghost predicate Silent(w: World, s: State, p: ProcessID, x: Obj) {
    forall k :: IsTo(w, s, k, p) ==> Said(s, k, x) == None
  }

  ghost predicate Linked(w: World, s: State, m: ModuleID, p: ProcessID) {
    exists k :: IsFrom(s, k, m) && IsTo(w, s, k, p)
  }

  ghost predicate Joined(w: World, s: State, m: ModuleID, p: ProcessID) {
    exists k :: IsFrom(s, k, m) && IsTo(w, s, k, p) && IsJoined(s, k)
  }

  /** A process hears of all objects of its own modules, and of a module that has sent it a snapshot. */
  ghost predicate Introduced(w: World, s: State, m: ModuleID, p: ProcessID) {
    p == w.process(m) || Joined(w, s, m, p)
  }

  /** What the caches and the last messages say about one object. */
  ghost predicate Tracked(w: World, s: State, x: Obj) {
    var m := w.owner(x);
    && (forall m' :: Has(s, m', x) ==> m' == m)
    && (forall p :: Where(s, p, x) in {None, Some(m)})
    && (forall k :: IsOpen(w, s, k) ==> Said(s, k, x) in {None, Some(Has(s, m, x))})
    && (forall k :: Said(s, k, x).Some? ==> IsFrom(s, k, m))
    && (forall p :: p != w.process(m) && !Linked(w, s, m, p) ==> Where(s, p, x) == None)
  }

  ghost predicate Inv(w: World, s: State) {
    WellLinked(w, s) && forall x :: Tracked(w, s, x)
  }

  /**
   The process `p` is going to be right about the object: what is still under way to it says what is so,
   and if nothing is, its cache does, as far as it was told.
   */
  ghost predicate Settled(w: World, s: State, x: Obj, p: ProcessID) {
    var m := w.owner(x);
    && (forall k :: IsTo(w, s, k, p) ==> Said(s, k, x) in {None, Some(Has(s, m, x))})
    && (Silent(w, s, p, x) && Where(s, p, x) == Some(m) ==> Has(s, m, x))
    && (Silent(w, s, p, x) && Introduced(w, s, m, p) && Has(s, m, x) ==> Where(s, p, x) == Some(m))
  }

  /**
   What a module has to see to before it adds or takes away an object: no lane to the process that it
   posts on no more still carries, as its last word on the object, the opposite. Such lanes are those
   from before the login: the first lane where the receiver uses another thread after it, and both
   inside the module's own process.
   */
  ghost predicate Careful(w: World, s: State, m: ModuleID, x: Obj, isDelete: bool, p: ProcessID) {
    forall k :: IsFrom(s, k, m) && IsTo(w, s, k, p) && !IsOpen(w, s, k) ==> Said(s, k, x) in {None, Some(!isDelete)}
  }

  /** What a message does to one object in a cache. */
  lemma Receives(h: Hosts, msg: SROCBind, x: Obj)
    ensures Names(msg, x) && !msg.isDelete ==> Lookup(Apply(h, OpOf(msg)), x) == Some(msg.hostModuleID)
    ensures Names(msg, x) && msg.isDelete && (x in h ==> h[x] == msg.hostModuleID) ==>
              Lookup(Apply(h, OpOf(msg)), x) == None
    ensures !Names(msg, x) ==> Lookup(Apply(h, OpOf(msg)), x) == Lookup(h, x)
  {
  }

  /** The step changes nothing that concerns `y`, except that links may appear and logins happen. */
  ghost predicate Untouched(w: World, s: State, t: State, y: Obj) {
    && (forall m :: Has(t, m, y) == Has(s, m, y))
    && (forall p :: Where(t, p, y) == Where(s, p, y))
    && (forall k :: Said(t, k, y) == Said(s, k, y))
    && (forall k, m :: IsFrom(s, k, m) ==> IsFrom(t, k, m))
    && (forall k, p :: IsTo(w, s, k, p) ==> IsTo(w, t, k, p))
    && (forall k, p :: IsTo(w, t, k, p) && Said(t, k, y).Some? ==> IsTo(w, s, k, p))
    && (forall k, m, p :: IsJoined(t, k) && IsFrom(t, k, m) && IsTo(w, t, k, p) && w.owner(y) == m ==>
          IsJoined(s, k) && IsFrom(s, k, m) && IsTo(w, s, k, p))
    && (forall k :: IsOpen(w, t, k) && Said(t, k, y).Some? ==> IsOpen(w, s, k))
  }

  lemma UntouchedTracks(w: World, s: State, t: State, y: Obj)
    requires Tracked(w, s, y) && Untouched(w, s, t, y)
    ensures Tracked(w, t, y) && forall p :: Settled(w, s, y, p) ==> Settled(w, t, y, p)
  {
    hide Has, Where, Said, IsFrom, IsTo, IsJoined, IsOpen;
    var n := w.owner(y);
    forall p ensures Silent(w, t, p, y) <==> Silent(w, s, p, y) {
    }
    forall p ensures Joined(w, t, n, p) ==> Joined(w, s, n, p) {
    }
    forall p ensures Linked(w, s, n, p) ==> Linked(w, t, n, p) {
    }
  }

  /** No link appears, and no lane is opened or closed. */
  ghost predicate SameLinks(w: World, s: State, t: State) {
    && (forall k, m :: IsFrom(t, k, m) == IsFrom(s, k, m))
    && (forall k, p :: IsTo(w, t, k, p) == IsTo(w, s, k, p))
    && (forall k :: IsOpen(w, t, k) == IsOpen(w, s, k))
  }

  /** A change posts one message on the open lanes of its module. */
  lemma ChangePosts(w: World, s: State, m: ModuleID, x: Obj, isDelete: bool)
    requires w.owner(x) == m
    ensures var (t, msg) := (Next(w, s, Change(m, x, isDelete)), SROCBind(m, isDelete, x.0, [x.1]));
            forall k :: QueueOf(t, k) ==
              if IsFrom(s, k, m) && IsOpen(w, s, k) then QueueOf(s, k) + [msg] else QueueOf(s, k)
  {
    hide Apply;
  }

  lemma ChangeIs(w: World, s: State, m: ModuleID, x: Obj, isDelete: bool)
    requires w.owner(x) == m
    ensures var (t, msg) := (Next(w, s, Change(m, x, isDelete)), SROCBind(m, isDelete, x.0, [x.1]));
            && SameLinks(w, s, t) && (forall k :: IsJoined(t, k) == IsJoined(s, k))
            && (forall n, y :: Has(t, n, y) == if n == m && y == x then !isDelete else Has(s, n, y))
            && forall p :: CacheOf(t, p) == if p == w.process(m) then Apply(CacheOf(s, p), OpOf(msg)) else CacheOf(s, p)
  {
    hide Apply;
  }

  lemma RemoteOpen(w: World, s: State)
    ensures forall k, m, p :: IsFrom(s, k, m) && IsTo(w, s, k, p) && p != w.process(m) ==>
              IsOpen(w, s, InUse(w, s, k)) && IsFrom(s, InUse(w, s, k), m) && IsTo(w, s, InUse(w, s, k), p)
  {
  }

  lemma ChangeTracks(w: World, s: State, m: ModuleID, x: Obj, isDelete: bool, y: Obj)
    requires Tracked(w, s, y) && w.owner(x) == m
    ensures Tracked(w, Next(w, s, Change(m, x, isDelete)), y)
    ensures y != x ==> forall p :: Settled(w, s, y, p) ==> Settled(w, Next(w, s, Change(m, x, isDelete)), y, p)
    ensures y == x ==> forall p :: Settled(w, s, x, p) ==>
              (Settled(w, Next(w, s, Change(m, x, isDelete)), x, p) <==> Careful(w, s, m, x, isDelete, p))
  {
    hide Apply, Final, Tracked, Settled, Careful, Next, Has, QueueOf, CacheOf, IsFrom, IsTo, IsJoined, IsOpen, InUse;
    var msg := SROCBind(m, isDelete, x.0, [x.1]);
    var t := Next(w, s, Change(m, x, isDelete));
    assert Names(msg, y) <==> y == x;
    ChangeIs(w, s, m, x, isDelete);
    ChangePosts(w, s, m, x, isDelete);
    OwnIs(w, s, y, w.process(m));
    Receives(CacheOf(s, w.process(m)), msg, y);
    forall k
      ensures Said(t, k, y) == if y == x && IsFrom(s, k, m) && IsOpen(w, s, k) then Some(!isDelete) else Said(s, k, y)
    {
      FinalMore(QueueOf(s, k), msg, y);
    }
    if y == x {
      RemoteOpen(w, s);
      ChangedTracks(w, s, t, m, x, isDelete);
    } else {
      UntouchedTracks(w, s, t, y);
    }
  }

  lemma OwnIs(w: World, s: State, x: Obj, p: ProcessID)
    requires Tracked(w, s, x)
    ensures Where(s, p, x) in {None, Some(w.owner(x))}
  {
  }

  lemma ChangedTracks(w: World, s: State, t: State, m: ModuleID, x: Obj, isDelete: bool)
    requires Tracked(w, s, x) && w.owner(x) == m && SameLinks(w, s, t)
    requires forall m' :: Has(t, m', x) == if m' == m then !isDelete else Has(s, m', x)
    requires forall p :: Where(t, p, x) ==
               if p == w.process(m) then (if isDelete then None else Some(m)) else Where(s, p, x)
    requires forall k :: IsJoined(t, k) == IsJoined(s, k)
    requires forall k :: Said(t, k, x) == if IsFrom(s, k, m) && IsOpen(w, s, k) then Some(!isDelete) else Said(s, k, x)
    requires forall k, p :: IsFrom(s, k, m) && IsTo(w, s, k, p) && p != w.process(m) ==>
               IsOpen(w, s, InUse(w, s, k)) && IsFrom(s, InUse(w, s, k), m) && IsTo(w, s, InUse(w, s, k), p)
    ensures Tracked(w, t, x)
    ensures forall p :: Settled(w, s, x, p) ==> (Settled(w, t, x, p) <==> Careful(w, s, m, x, isDelete, p))
  {
    hide Has, Where, Said, IsFrom, IsTo, IsJoined, IsOpen, InUse;
    forall p ensures Linked(w, t, m, p) <==> Linked(w, s, m, p) {
    }
    forall p | p != w.process(m) ensures Silent(w, t, p, x) ==> !Linked(w, s, m, p) {
      if Linked(w, s, m, p) {
        var k :| IsFrom(s, k, m) && IsTo(w, s, k, p);
        assert Said(t, InUse(w, s, k), x) == Some(!isDelete);
      }
    }
    forall p ensures Joined(w, t, m, p) ==> Linked(w, t, m, p) {
    }
  }

  /** Nothing is sent or processed: links appear, logins happen, and lanes that hold nothing are opened. */
  ghost predicate Grown(w: World, s: State, t: State) {
    && t.local == s.local && t.caches == s.caches
    && (forall k :: QueueOf(t, k) == QueueOf(s, k))
    && (forall k, m :: IsFrom(s, k, m) ==> IsFrom(t, k, m))
    && (forall k, p :: IsTo(w, s, k, p) ==> IsTo(w, t, k, p))
    && (forall k, p :: IsTo(w, t, k, p) ==> IsTo(w, s, k, p) || QueueOf(s, k) == [])
    && (forall k, m :: IsJoined(t, k) && IsFrom(t, k, m) ==> IsJoined(s, k) && IsFrom(s, k, m))
    && (forall k, p :: IsJoined(t, k) && IsTo(w, t, k, p) ==> IsTo(w, s, k, p))
    && (forall k :: IsOpen(w, t, k) ==> IsOpen(w, s, k) || QueueOf(s, k) == [])
  }

  lemma ConnectGrows(w: World, s: State, l: LinkID, m: ModuleID, r: ModuleID)
    requires Enabled(w, s, Connect(l, m, r))
    ensures Grown(w, s, Next(w, s, Connect(l, m, r)))
  {
  }

  lemma LoginGrows(w: World, s: State, l: LinkID)
    requires Enabled(w, s, Login(l))
    ensures Grown(w, s, Next(w, s, Login(l)))
  {
  }

  lemma SignGrows(w: World, s: State, l: LinkID)
    requires Enabled(w, s, Sign(l)) && (!IsLate(w, s.links[l]) ==> s.links[l].late == [])
    ensures Grown(w, s, Next(w, s, Sign(l)))
  {
  }

  lemma LateIsEmpty(w: World, s: State, l: LinkID)
    requires WellLinked(w, s) && l in s.links
    ensures s.links[l].from != s.links[l].to && (!IsLate(w, s.links[l]) ==> s.links[l].late == [])
  {
  }

  lemma GrownTracks(w: World, s: State, t: State, y: Obj)
    requires Tracked(w, s, y) && Grown(w, s, t)
    ensures Tracked(w, t, y) && forall p :: Settled(w, s, y, p) ==> Settled(w, t, y, p)
  {
    hide Tracked, Settled, QueueOf, IsFrom, IsTo, IsJoined, IsOpen;
    UntouchedTracks(w, s, t, y);
  }

  /** A snapshot goes out on the lane that is in use. */
  lemma JoinIs(w: World, s: State, l: LinkID, msgs: seq<SROCBind>)
    requires Enabled(w, s, Join(l, msgs))
    ensures var (t, k) := (Next(w, s, Join(l, msgs)), Lane(l, IsLate(w, s.links[l])));
            && t.local == s.local && t.caches == s.caches && SameLinks(w, s, t)
            && IsFrom(s, k, s.links[l].from) && !IsTo(w, s, k, w.process(s.links[l].from))
            && (forall k', p :: IsJoined(t, k') && IsTo(w, s, k', p) ==> IsJoined(s, k') || IsTo(w, s, k, p))
            && (forall k', m :: IsJoined(t, k') && IsFrom(s, k', m) ==> IsJoined(s, k') || s.links[l].from == m)
            && forall k' :: QueueOf(t, k') == if k' == k then QueueOf(s, k) + msgs else QueueOf(s, k')
  {
    hide Snapshot;
  }

  lemma JoinTracks(w: World, s: State, l: LinkID, msgs: seq<SROCBind>, y: Obj)
    requires Tracked(w, s, y) && Enabled(w, s, Join(l, msgs))
    ensures var t := Next(w, s, Join(l, msgs));
            Tracked(w, t, y) && forall p :: Settled(w, s, y, p) ==> Settled(w, t, y, p)
  {
    hide Final, Snapshot, Settled, Tracked, Next, QueueOf, IsFrom, IsTo, IsJoined, IsOpen;
    var t := Next(w, s, Join(l, msgs));
    var (m, k) := (s.links[l].from, Lane(l, IsLate(w, s.links[l])));
    JoinIs(w, s, l, msgs);
    FinalJoined(QueueOf(s, k), msgs, y);
    SnapshotFinal(msgs, m, Local(s, m), y);
    if w.owner(y) == m {
      JoinedTracks(w, s, t, m, k, y);
    } else {
      OnlyOwnerHas(w, s, m, y);
      UntouchedTracks(w, s, t, y);
    }
  }

  lemma OnlyOwnerHas(w: World, s: State, m: ModuleID, y: Obj)
    requires Tracked(w, s, y) && w.owner(y) != m
    ensures !Has(s, m, y)
  {
  }

  lemma JoinedTracks(w: World, s: State, t: State, m: ModuleID, k: Lane, y: Obj)
    requires Tracked(w, s, y) && w.owner(y) == m && SameLinks(w, s, t) && IsFrom(s, k, m)
    requires !IsTo(w, s, k, w.process(m))
    requires forall m' :: Has(t, m', y) == Has(s, m', y)
    requires forall p :: Where(t, p, y) == Where(s, p, y)
    requires forall k', p :: IsJoined(t, k') && IsTo(w, s, k', p) ==> IsJoined(s, k') || IsTo(w, s, k, p)
    requires forall k' :: k' != k ==> Said(t, k', y) == Said(s, k', y)
    requires Said(t, k, y) == if Has(s, m, y) then Some(true) else Said(s, k, y)
    ensures Tracked(w, t, y) && forall p :: Settled(w, s, y, p) ==> Settled(w, t, y, p)
  {
    hide Has, Where, Said, IsFrom, IsTo, IsJoined, IsOpen;
    forall p ensures Linked(w, t, m, p) <==> Linked(w, s, m, p) {
    }
    forall p | Silent(w, t, p, y)
      ensures Silent(w, s, p, y) && (Has(s, m, y) && Joined(w, t, m, p) ==> Joined(w, s, m, p))
    {
    }
  }

  lemma DeliverIs(w: World, s: State, k: Lane)
    requires Enabled(w, s, Deliver(k))
    ensures k.link in s.links
    ensures var (t, q, queue) := (Next(w, s, Deliver(k)), w.process(s.links[k.link].to), QueueOf(s, k));
            && t.local == s.local && SameLinks(w, s, t) && (forall k' :: IsJoined(t, k') == IsJoined(s, k'))
            && (forall p :: CacheOf(t, p) == if p == q then Apply(CacheOf(s, p), OpOf(queue[0])) else CacheOf(s, p))
            && (forall k' :: QueueOf(t, k') == if k' == k then queue[1..] else QueueOf(s, k'))
            && t.links == s.links[k.link := Taken(s.links[k.link], k.late)] && t.links[k.link].to == s.links[k.link].to
  {
    hide Apply;
  }

  lemma DeliverTracks(w: World, s: State, k: Lane, y: Obj)
    requires Tracked(w, s, y) && WellLinked(w, s) && Enabled(w, s, Deliver(k))
    ensures var t := Next(w, s, Deliver(k)); Tracked(w, t, y) && forall p :: Settled(w, s, y, p) ==> Settled(w, t, y, p)
  {
    hide Apply, Final, Tracked, Settled, Next, QueueOf, CacheOf, IsOpen, IsJoined;
    DeliverIs(w, s, k);
    var t := Next(w, s, Deliver(k));
    var (link, queue) := (s.links[k.link], QueueOf(s, k));
    assert Honest(w, queue[0], link.from);
    OwnIs(w, s, y, w.process(link.to));
    Receives(CacheOf(s, w.process(link.to)), queue[0], y);
    FinalRest(queue, y);
    if Names(queue[0], y) {
      DeliveredTracks(w, s, t, link.from, k, w.process(link.to), y, !queue[0].isDelete);
    } else {
      UntouchedTracks(w, s, t, y);
    }
  }

  lemma DeliveredTracks(w: World, s: State, t: State, m: ModuleID, k: Lane, q: ProcessID, y: Obj, bound: bool)
    requires Tracked(w, s, y) && w.owner(y) == m && SameLinks(w, s, t) && IsFrom(s, k, m) && IsTo(w, s, k, q)
    requires forall m' :: Has(t, m', y) == Has(s, m', y)
    requires forall p :: Where(t, p, y) == if p == q then (if bound then Some(m) else None) else Where(s, p, y)
    requires forall k' :: IsJoined(t, k') == IsJoined(s, k')
    requires forall k' :: k' != k ==> Said(t, k', y) == Said(s, k', y)
    requires forall p :: p != q ==> !IsTo(w, s, k, p)
    requires Said(s, k, y) == if Said(t, k, y).Some? then Said(t, k, y) else Some(bound)
    ensures Tracked(w, t, y) && forall p :: Settled(w, s, y, p) ==> Settled(w, t, y, p)
  {
    hide Has, Where, Said, IsFrom, IsTo, IsJoined, IsOpen;
    forall p ensures Linked(w, t, m, p) <==> Linked(w, s, m, p) {
    }
    assert Linked(w, s, m, q);
    forall p | p != q && Silent(w, t, p, y) ensures Silent(w, s, p, y) {
    }
    forall p ensures Joined(w, t, m, p) ==> Joined(w, s, m, p) {
    }
  }

  lemma StepKeepsFine(w: World, s: State, step: Step)
    requires LinksFine(w, s.links) && Enabled(w, s, step)
    ensures LinksFine(w, Next(w, s, step).links)
  {
    hide Apply, Snapshot, OpOf;
  }

  lemma StepKeepsHonest(w: World, s: State, step: Step)
    requires AllHonest(w, s) && Enabled(w, s, step)
    requires forall m, x :: x in Local(s, m) ==> w.owner(x) == m
    ensures AllHonest(w, Next(w, s, step))
  {
    hide Apply, Snapshot, OpOf, Honest;
    var t := Next(w, s, step);
    forall k: Lane, i | k.link in t.links && 0 <= i < |QueueOf(t, k)|
      ensures Honest(w, QueueOf(t, k)[i], t.links[k.link].from)
    {
      if k.link in s.links {
        var was := QueueOf(s, k);
        if step == Deliver(k) {
          assert Honest(w, was[i + 1], s.links[k.link].from);
        } else if i < |was| {
          assert Honest(w, was[i], s.links[k.link].from);
        } else if step.Join? {
          SnapshotHonest(w, step.msgs, s.links[k.link].from, Local(s, s.links[k.link].from), i - |was|);
        } else {
          OwnMessage(w, step.m, step.x, step.isDelete);
        }
      }
    }
  }

  lemma OwnMessage(w: World, m: ModuleID, x: Obj, isDelete: bool)
    requires w.owner(x) == m
    ensures Honest(w, SROCBind(m, isDelete, x.0, [x.1]), m)
  {
  }

  lemma SnapshotHonest(w: World, msgs: seq<SROCBind>, m: ModuleID, local: set<Obj>, i: nat)
    requires Snapshot(msgs, m, local) && i < |msgs|
    requires forall x :: x in local ==> w.owner(x) == m
    ensures Honest(w, msgs[i], m)
  {
    assert IntroductionOf(msgs[i], m);
    forall x | Names(msgs[i], x) ensures w.owner(x) == m {
      NamedHas(msgs, i, x);
      assert x in multiset(Named(msgs));
    }
  }

  lemma {:induction false} NamedHas(msgs: seq<SROCBind>, i: nat, x: Obj)
    requires i < |msgs| && Names(msgs[i], x)
    ensures x in Named(msgs)
  {
    var front, last := msgs[..|msgs| - 1], msgs[|msgs| - 1];
    if i < |front| {
      NamedHas(front, i, x);
    } else {
      PairsHas(last, x);
    }
    assert Named(msgs) == Named(front) + Pairs(last.objType, last.objIDs);
  }

  lemma StepTracks(w: World, s: State, step: Step, y: Obj)
    requires Inv(w, s) && Enabled(w, s, step)
    ensures Tracked(w, Next(w, s, step), y)
    ensures forall p :: Settled(w, s, y, p) ==>
              (step.Change? && step.x == y ==> Careful(w, s, step.m, y, step.isDelete, p)) ==>
              Settled(w, Next(w, s, step), y, p)
  {
    hide Tracked, Settled, WellLinked, Next, Careful;
    match step
    case Change(m, x, isDelete) => ChangeTracks(w, s, m, x, isDelete, y);
    case Connect(l, m, r) =>
      ConnectGrows(w, s, l, m, r);
      GrownTracks(w, s, Next(w, s, step), y);
    case Login(l) =>
      LoginGrows(w, s, l);
      GrownTracks(w, s, Next(w, s, step), y);
    case Sign(l) =>
      LateIsEmpty(w, s, l);
      SignGrows(w, s, l);
      GrownTracks(w, s, Next(w, s, step), y);
    case Join(l, msgs) => JoinTracks(w, s, l, msgs, y);
    case Deliver(k) => DeliverTracks(w, s, k, y);
  }

  lemma StepKeepsInv(w: World, s: State, step: Step)
    requires Inv(w, s) && Enabled(w, s, step)
    ensures Inv(w, Next(w, s, step))
  {
    hide Next, Enabled, Settled, Careful;
    forall m, x | x in Local(s, m) ensures w.owner(x) == m {
      assert Tracked(w, s, x) && Has(s, m, x);
    }
    StepKeepsFine(w, s, step);
    StepKeepsHonest(w, s, step);
    forall y ensures Tracked(w, Next(w, s, step), y) {
      StepTracks(w, s, step, y);
    }
  }

  lemma {:induction false} RunKeepsInv(w: World, s: State, steps: seq<Step>, t: State)
    requires Inv(w, s) && Reaches(w, s, steps, t)
    ensures Inv(w, t)
    decreases |steps|
  {
    hide Inv;
    if steps != [] {
      StepKeepsInv(w, s, steps[0]);
      RunKeepsInv(w, Next(w, s, steps[0]), steps[1..], t);
    }
  }

  lemma StartsWell(w: World)
    ensures Inv(w, INIT)
  {
  }
}
