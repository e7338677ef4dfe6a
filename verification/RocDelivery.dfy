/**
 Delivering what is under way: it always ends, and draining a lane replays its messages on the cache
 of the process that it leads to.
 */
module RocDelivery {
  import opened Basics
  import opened RocCache
  import opened RocServer
  import opened RocDirectory

  // ---------------------------------------------------------------------------------------
  // Runs
  // ---------------------------------------------------------------------------------------

  lemma {:induction false} RunsJoin(w: World, s: State, one: seq<Step>, t: State, two: seq<Step>, u: State)
    requires Reaches(w, s, one, t) && Reaches(w, t, two, u)
    ensures Reaches(w, s, one + two, u)
    decreases |one|
  {
    hide Enabled, Next;
    if one == [] {
      assert one + two == two;
    } else {
      RunsJoin(w, Next(w, s, one[0]), one[1..], t, two, u);
      assert (one + two)[1..] == one[1..] + two;
    }
  }

  lemma StaysPut(w: World, s: State)
    ensures Reaches(w, s, [], s)
  {
  }

  ghost predicate OnlyDeliveries(steps: seq<Step>) {
    forall i :: 0 <= i < |steps| ==> steps[i].Deliver?
  }

  ghost predicate NoChanges(steps: seq<Step>) {
    forall i :: 0 <= i < |steps| ==> !steps[i].Change?
  }

  /** Deliveries neither change what anyone has nor make or break links. */
  lemma {:induction false} DeliveriesKeep(w: World, s: State, steps: seq<Step>, t: State)
    requires Reaches(w, s, steps, t) && OnlyDeliveries(steps)
    ensures t.local == s.local && SameLinks(w, s, t) && forall k :: IsJoined(t, k) == IsJoined(s, k)
    decreases |steps|
  {
    hide Next, IsFrom, IsTo, IsOpen, IsJoined, QueueOf, CacheOf;
    if steps != [] {
      assert steps[0].Deliver?;
      DeliverIs(w, s, steps[0].k);
      DeliveriesKeep(w, Next(w, s, steps[0]), steps[1..], t);
    }
  }

  /** The number of messages under way. */
  ghost function UnderWay(links: map<LinkID, Link>): nat {
    if links == map[] then 0 else
    var l :| l in links;
    |links[l].early| + |links[l].late| + UnderWay(links - {l})
  }

  lemma {:induction false} UnderWayAt(links: map<LinkID, Link>, l: LinkID)
    requires l in links
    ensures UnderWay(links) == |links[l].early| + |links[l].late| + UnderWay(links - {l})
    decreases |links|
  {
    var k :| k in links && UnderWay(links) == |links[k].early| + |links[k].late| + UnderWay(links - {k});
    if k != l {
      UnderWayAt(links - {k}, l);
      UnderWayAt(links - {l}, k);
      assert links - {k} - {l} == links - {l} - {k};
    }
  }

  /** Every delivery shortens what is under way by one message. */
  lemma DeliverShortens(w: World, s: State, k: Lane)
    requires Enabled(w, s, Deliver(k))
    ensures UnderWay(Next(w, s, Deliver(k)).links) + 1 == UnderWay(s.links)
  {
    hide Next, CacheOf, UnderWay;
    DeliverIs(w, s, k);
    var t := Next(w, s, Deliver(k));
    UnderWayAt(s.links, k.link);
    UnderWayAt(t.links, k.link);
    assert t.links - {k.link} == s.links - {k.link};
  }

  lemma {:induction false} DeliveriesShorten(w: World, s: State, steps: seq<Step>, t: State)
    requires Reaches(w, s, steps, t) && OnlyDeliveries(steps)
    ensures |steps| + UnderWay(t.links) == UnderWay(s.links)
    decreases |steps|
  {
    hide Next, UnderWay;
    if steps != [] {
      assert steps[0].Deliver?;
      DeliverShortens(w, s, steps[0].k);
      DeliveriesShorten(w, Next(w, s, steps[0]), steps[1..], t);
    }
  }

  /** From any state some deliveries leave nothing under way. */
  lemma {:induction false} DeliverEverything(w: World, s: State) returns (steps: seq<Step>, t: State)
    ensures Reaches(w, s, steps, t) && OnlyDeliveries(steps) && forall k :: QueueOf(t, k) == []
    decreases UnderWay(s.links)
  {
    hide Next, UnderWay, QueueOf;
    if k :| QueueOf(s, k) != [] {
      DeliverShortens(w, s, k);
      var rest;
      rest, t := DeliverEverything(w, Next(w, s, Deliver(k)));
      steps := [Deliver(k)] + rest;
      assert steps[1..] == rest;
    } else {
      steps, t := [], s;
    }
  }

  lemma NoneUnderWay(s: State)
    requires forall k :: QueueOf(s, k) == []
    ensures UnderWay(s.links) == 0
  {
    forall l | l in s.links ensures s.links[l].early == [] == s.links[l].late {
      assert QueueOf(s, Lane(l, false)) == [] == QueueOf(s, Lane(l, true));
    }
    EmptyLinks(s.links);
  }

  lemma {:induction false} EmptyLinks(links: map<LinkID, Link>)
    requires forall l :: l in links ==> links[l].early == [] == links[l].late
    ensures UnderWay(links) == 0
    decreases |links|
  {
    if links != map[] {
      var l :| l in links;
      UnderWayAt(links, l);
      EmptyLinks(links - {l});
    }
  }

  // ---------------------------------------------------------------------------------------
  // Draining lanes
  // ---------------------------------------------------------------------------------------

  function Drain(k: Lane, n: nat): seq<Step> {
    seq(n, _ => Deliver(k))
  }

  function Ops(msgs: seq<SROCBind>): seq<Op> {
    seq(|msgs|, i requires 0 <= i < |msgs| => OpOf(msgs[i]))
  }

  lemma {:induction false} ReplayFirst(h: Hosts, ops: seq<Op>)
    requires ops != []
    ensures Replay(h, ops) == Replay(Apply(h, ops[0]), ops[1..])
    decreases |ops|
  {
    hide Apply;
    if |ops| == 1 {
      assert ops[..0] == [] && ops[1..] == [];
    } else {
      var front := ops[..|ops| - 1];
      ReplayFirst(h, front);
      assert front[1..] == ops[1..][..|ops| - 2];
    }
  }

  lemma OpsRest(msgs: seq<SROCBind>)
    requires msgs != []
    ensures Ops(msgs) != [] && Ops(msgs)[0] == OpOf(msgs[0]) && Ops(msgs)[1..] == Ops(msgs[1..])
  {
  }

  lemma NoOps(h: Hosts)
    ensures Ops([]) == [] && Replay(h, []) == h
  {
  }

  /** Draining one lane replays its messages on the cache of the peer's process, and touches no other. */
  lemma {:induction false} DrainReplays(w: World, s: State, k: Lane) returns (t: State)
    requires k.link in s.links
    ensures Reaches(w, s, Drain(k, |QueueOf(s, k)|), t)
    ensures t.local == s.local && SameLinks(w, s, t) && forall k' :: IsJoined(t, k') == IsJoined(s, k')
    ensures forall k' :: QueueOf(t, k') == if k' == k then [] else QueueOf(s, k')
    ensures forall p :: CacheOf(t, p) ==
              if p == w.process(s.links[k.link].to) then Replay(CacheOf(s, p), Ops(QueueOf(s, k))) else CacheOf(s, p)
    decreases |QueueOf(s, k)|
  {
    hide Next, Apply, Ops, IsFrom, IsTo, IsJoined, IsOpen, QueueOf, CacheOf;
    var queue, q := QueueOf(s, k), w.process(s.links[k.link].to);
    if queue == [] {
      t := s;
      NoOps(CacheOf(s, q));
    } else {
      var next := Next(w, s, Deliver(k));
      DeliverIs(w, s, k);
      t := DrainReplays(w, next, k);
      assert Drain(k, |queue|)[1..] == Drain(k, |queue| - 1);
      OpsRest(queue);
      ReplayFirst(CacheOf(s, q), Ops(queue));
    }
  }

  /** What a queue does to an object of its module: its last word counts. */
  lemma {:induction false} ReplayFinal(h: Hosts, queue: seq<SROCBind>, x: Obj, m: ModuleID)
    requires Lookup(h, x) in {None, Some(m)}
    requires forall i :: 0 <= i < |queue| && Names(queue[i], x) ==> queue[i].hostModuleID == m
    ensures Lookup(Replay(h, Ops(queue)), x) ==
              match Final(queue, x) case None => Lookup(h, x) case Some(b) => if b then Some(m) else None
  {
    hide Apply;
    if queue != [] {
      var front, last := queue[..|queue| - 1], queue[|queue| - 1];
      ReplayFinal(h, front, x, m);
      Receives(Replay(h, Ops(front)), last, x);
      assert Ops(queue)[..|queue| - 1] == Ops(front);
    }
  }

  lemma InvTracks(w: World, s: State, x: Obj)
    requires Inv(w, s)
    ensures Tracked(w, s, x)
  {
  }

  lemma OwnIsOf(w: World, s: State, x: Obj, p: ProcessID)
    requires Inv(w, s)
    ensures Where(s, p, x) in {None, Some(w.owner(x))}
  {
    assert Tracked(w, s, x);
  }

  /** What an object will be known as when the lane is drained: its last word there, or else what the cache says. */
  function Foreseen(w: World, s: State, k: Lane, p: ProcessID, x: Obj): Option<ModuleID> {
    match Said(s, k, x)
    case None => Where(s, p, x)
    case Some(bound) => if bound then Some(w.owner(x)) else None
  }

  lemma Replayed(w: World, s: State, k: Lane, p: ProcessID, x: Obj)
    requires Inv(w, s) && IsTo(w, s, k, p)
    ensures Lookup(Replay(CacheOf(s, p), Ops(QueueOf(s, k))), x) == Foreseen(w, s, k, p, x)
  {
    hide Replay, Ops, Final, QueueOf, CacheOf;
    InvTracks(w, s, x);
    OwnIsOf(w, s, x, p);
    forall i | 0 <= i < |QueueOf(s, k)| && Names(QueueOf(s, k)[i], x)
      ensures QueueOf(s, k)[i].hostModuleID == w.owner(x)
    {
      assert Honest(w, QueueOf(s, k)[i], s.links[k.link].from);
    }
    ReplayFinal(CacheOf(s, p), QueueOf(s, k), x, w.owner(x));
  }

  /** Draining a lane leaves what its last word on an object says. */
  lemma DrainFinal(w: World, s: State, k: Lane, x: Obj) returns (t: State)
    requires Inv(w, s) && k.link in s.links
    ensures Reaches(w, s, Drain(k, |QueueOf(s, k)|), t) && Inv(w, t)
    ensures t.local == s.local && SameLinks(w, s, t) && forall k' :: IsJoined(t, k') == IsJoined(s, k')
    ensures forall k' :: QueueOf(t, k') == if k' == k then [] else QueueOf(s, k')
    ensures forall p :: Where(t, p, x) == if IsTo(w, s, k, p) then Foreseen(w, s, k, p, x) else Where(s, p, x)
  {
    hide Reaches, Inv, IsFrom, IsOpen, IsJoined, QueueOf, CacheOf, Foreseen;
    t := DrainReplays(w, s, k);
    RunKeepsInv(w, s, Drain(k, |QueueOf(s, k)|), t);
    Replayed(w, s, k, w.process(s.links[k.link].to), x);
  }

  ghost predicate Exist(s: State, ks: set<Lane>) {
    forall k :: k in ks ==> k.link in s.links
  }

  /** Draining lanes that say nothing of an object leaves it where it was. */
  lemma {:induction false} DrainSome(w: World, s: State, ks: set<Lane>, x: Obj) returns (steps: seq<Step>, t: State)
    requires Inv(w, s) && Exist(s, ks)
    ensures Reaches(w, s, steps, t) && OnlyDeliveries(steps) && Inv(w, t)
    ensures t.local == s.local && SameLinks(w, s, t) && forall k' :: IsJoined(t, k') == IsJoined(s, k')
    ensures forall k' :: QueueOf(t, k') == if k' in ks then [] else QueueOf(s, k')
    ensures (forall k :: k in ks ==> Said(s, k, x) == None) ==> forall p :: Where(t, p, x) == Where(s, p, x)
    decreases |ks|
  {
    hide Reaches, Inv, Where, IsTo, IsOpen, IsJoined, QueueOf;
    if ks == {} {
      steps, t := [], s;
      StaysPut(w, s);
    } else {
      var k :| k in ks;
      var mid := DrainFinal(w, s, k, x);
      assert Exist(mid, ks - {k}) by {
        forall k' | k' in ks - {k} ensures k'.link in mid.links {
          assert IsFrom(s, k', s.links[k'.link].from);
        }
      }
      var rest;
      rest, t := DrainSome(w, mid, ks - {k}, x);
      steps := Drain(k, |QueueOf(s, k)|) + rest;
      RunsJoin(w, s, Drain(k, |QueueOf(s, k)|), mid, rest, t);
      assert forall k' :: k' in ks - {k} ==> Said(mid, k', x) == Said(s, k', x);
    }
  }

  // ---------------------------------------------------------------------------------------
  // Draining one lane only
  // ---------------------------------------------------------------------------------------

  /** Nothing is under way from `m` to any module of the process `p`. */
  ghost predicate Drained(w: World, s: State, m: ModuleID, p: ProcessID) {
    forall k :: IsFrom(s, k, m) && IsTo(w, s, k, p) ==> QueueOf(s, k) == []
  }

  /** The cache says of an object that it is on `m` exactly when `m` has it. */
  ghost predicate Agrees(s: State, h: Hosts, m: ModuleID) {
    forall x: Obj :: Lookup(h, x) == Some(m) <==> x in Local(s, m)
  }

  lemma NotForeseen(w: World, s: State, k: Lane, m: ModuleID, p: ProcessID, x: Obj)
    requires Inv(w, s) && IsFrom(s, k, m) && w.owner(x) != m
    ensures !Has(s, m, x) && Foreseen(w, s, k, p, x) != Some(m)
  {
    InvTracks(w, s, x);
  }

  /**
   Of a process and one lane that leads to it from `m`: the cache with the lane's messages replayed
   agrees exactly if its last words are true, and where it has none the cache was right before. On
   the lane that is in use all last words are true.
   */
  lemma OneLaneAgrees(w: World, run: seq<Step>, s: State, k: Lane, m: ModuleID, p: ProcessID)
    requires Reaches(w, INIT, run, s) && IsFrom(s, k, m) && IsTo(w, s, k, p)
    ensures Agrees(s, Replay(CacheOf(s, p), Ops(QueueOf(s, k))), m) <==>
            forall x :: w.owner(x) == m ==>
              Said(s, k, x) in {None, Some(Has(s, m, x))} &&
              (Said(s, k, x) == None ==> (Where(s, p, x) == Some(m) <==> Has(s, m, x)))
    ensures IsOpen(w, s, k) ==> forall x :: w.owner(x) == m ==> Said(s, k, x) in {None, Some(Has(s, m, x))}
  {
    hide Reaches, Replay, Ops, Inv, Tracked, Said, Where;
    StartsWell(w);
    RunKeepsInv(w, INIT, run, s);
    forall x ensures Lookup(Replay(CacheOf(s, p), Ops(QueueOf(s, k))), x) == Foreseen(w, s, k, p, x) {
      Replayed(w, s, k, p, x);
    }
    forall x | w.owner(x) != m ensures !Has(s, m, x) && Foreseen(w, s, k, p, x) != Some(m) {
      NotForeseen(w, s, k, m, p, x);
    }
    forall x | w.owner(x) == m && IsOpen(w, s, k) ensures Said(s, k, x) in {None, Some(Has(s, m, x))} {
      InvTracks(w, s, x);
    }
  }
}
