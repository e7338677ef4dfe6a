/**
 What a process gets to know of a module's objects: its own modules' and those of modules that have
 introduced themselves. The directory converges if the receiver processes what a module sends in order;
 where it does not, across a login, it converges exactly for careful changes.
 */
module RocConvergence {
  import opened Basics
  import opened RocCache
  import opened RocServer
  import opened RocDirectory
  import opened RocDelivery

  // ---------------------------------------------------------------------------------------
  // Knowing a module's objects
  // ---------------------------------------------------------------------------------------

  ghost predicate AllSettled(w: World, s: State, m: ModuleID, p: ProcessID) {
    forall x :: w.owner(x) == m ==> Settled(w, s, x, p)
  }

  lemma NothingUnderWay(w: World, s: State, m: ModuleID, p: ProcessID, x: Obj)
    requires Inv(w, s) && Drained(w, s, m, p) && w.owner(x) == m
    ensures Silent(w, s, p, x)
  {
    assert Tracked(w, s, x);
  }

  /** A module has what it owns, and no cache says anything else. */
  lemma OnlyOwners(w: World, s: State, m: ModuleID, p: ProcessID, x: Obj)
    requires Inv(w, s) && w.owner(x) != m
    ensures !Has(s, m, x) && Where(s, p, x) != Some(m)
  {
    assert Tracked(w, s, x);
  }

  lemma SettledAgrees(w: World, s: State, m: ModuleID, p: ProcessID)
    requires Inv(w, s) && AllSettled(w, s, m, p) && Introduced(w, s, m, p) && Drained(w, s, m, p)
    ensures Agrees(s, CacheOf(s, p), m)
  {
    hide Drained, Inv, Introduced;
    forall x: Obj ensures Lookup(CacheOf(s, p), x) == Some(m) <==> x in Local(s, m) {
      assert Where(s, p, x) == Lookup(CacheOf(s, p), x) && Has(s, m, x) == (x in Local(s, m));
      if w.owner(x) == m {
        NothingUnderWay(w, s, m, p, x);
        assert Settled(w, s, x, p);
      } else {
        OnlyOwners(w, s, m, p, x);
      }
    }
  }

  /**
   However the run goes on without changes: when the process has been introduced to `m` and has heard all
   that is under way from it, it knows m's objects.
   */
  ghost predicate Settles(w: World, s: State, m: ModuleID, p: ProcessID) {
    forall steps, t :: NoChanges(steps) && Reaches(w, s, steps, t) && Introduced(w, t, m, p) && Drained(w, t, m, p) ==>
      Agrees(t, CacheOf(t, p), m)
  }

  lemma {:induction false} StepsSettle(w: World, s: State, steps: seq<Step>, t: State, m: ModuleID, p: ProcessID)
    requires Inv(w, s) && AllSettled(w, s, m, p) && Reaches(w, s, steps, t) && NoChanges(steps)
    ensures Inv(w, t) && AllSettled(w, t, m, p)
    decreases |steps|
  {
    hide Inv, Settled, Next;
    if steps != [] {
      assert !steps[0].Change?;
      StepKeepsInv(w, s, steps[0]);
      forall x | w.owner(x) == m ensures Settled(w, Next(w, s, steps[0]), x, p) {
        StepTracks(w, s, steps[0], x);
      }
      StepsSettle(w, Next(w, s, steps[0]), steps[1..], t, m, p);
    }
  }

  // ---------------------------------------------------------------------------------------
  // Settling is exact
  // ---------------------------------------------------------------------------------------

  /** All lanes that lead to the process. */
  ghost function LanesTo(w: World, s: State, p: ProcessID): set<Lane> {
    set l, b | l in s.links && b in {false, true} && IsTo(w, s, Lane(l, b), p) :: Lane(l, b)
  }

  lemma LanesToHas(w: World, s: State, p: ProcessID)
    ensures Exist(s, LanesTo(w, s, p)) && forall k :: k in LanesTo(w, s, p) <==> IsTo(w, s, k, p)
  {
    forall k | IsTo(w, s, k, p) ensures k in LanesTo(w, s, p) {
      assert k == Lane(k.link, k.late);
    }
  }

  /** An object that is not settled: some deliveries end with nothing under way and the process wrong about it. */
  lemma Unsettles(w: World, s: State, m: ModuleID, x: Obj, p: ProcessID)
    requires Inv(w, s) && w.owner(x) == m && !Settled(w, s, x, p) && Introduced(w, s, m, p)
    ensures !Settles(w, s, m, p)
  {
    hide Reaches, Inv, Tracked, QueueOf, IsFrom, IsOpen, IsJoined, LanesTo;
    LanesToHas(w, s, p);
    var steps, t;
    if k :| IsTo(w, s, k, p) && Said(s, k, x) !in {None, Some(Has(s, m, x))} {
      var mid;
      steps, mid := DrainSome(w, s, LanesTo(w, s, p) - {k}, x);
      t := DrainFinal(w, mid, k, x);
      RunsJoin(w, s, steps, mid, Drain(k, |QueueOf(mid, k)|), t);
      steps := steps + Drain(k, |QueueOf(mid, k)|);
      assert Said(mid, k, x) == Said(s, k, x) && IsTo(w, mid, k, p);
    } else {
      steps, t := DrainSome(w, s, LanesTo(w, s, p), x);
      assert Silent(w, s, p, x);
      OwnIsOf(w, s, x, p);
    }
    assert NoChanges(steps);
    StaysIntroduced(w, s, t, m, p);
    assert Drained(w, t, m, p);
    assert (Where(t, p, x) == Some(m)) != Has(t, m, x);
    assert !Agrees(t, CacheOf(t, p), m);
  }

  lemma StaysIntroduced(w: World, s: State, t: State, m: ModuleID, p: ProcessID)
    requires Introduced(w, s, m, p) && SameLinks(w, s, t) && forall k :: IsJoined(t, k) == IsJoined(s, k)
    ensures Introduced(w, t, m, p)
  {
    hide IsFrom, IsTo, IsJoined;
  }

  lemma SnapshotMore(msgs: seq<SROCBind>, m: ModuleID, local: set<Obj>, x: Obj)
    requires Snapshot(msgs, m, local) && x !in local
    ensures Snapshot(msgs + [SROCBind(m, false, x.0, [x.1])], m, local + {x})
  {
    hide Pairs, Named;
    NamedMore(msgs, SROCBind(m, false, x.0, [x.1]));
    OnePair(x);
    IntroducedMore(msgs, m, x.0, [], x.1);
  }

  lemma OnePair(x: Obj)
    ensures Pairs(x.0, [x.1]) == [x]
  {
  }

  /** A snapshot of any objects: one message for each. */
  lemma {:induction false} SomeSnapshot(m: ModuleID, local: set<Obj>) returns (msgs: seq<SROCBind>)
    ensures Snapshot(msgs, m, local)
  {
    hide Snapshot;
    if local == {} {
      msgs := [];
      assert Snapshot([], m, {}) by { EmptySnapshot(m); }
    } else {
      var x :| x in local;
      msgs := SomeSnapshot(m, local - {x});
      SnapshotMore(msgs, m, local - {x}, x);
      assert local - {x} + {x} == local;
      msgs := msgs + [SROCBind(m, false, x.0, [x.1])];
    }
  }

  lemma EmptySnapshot(m: ModuleID)
    ensures Snapshot([], m, {})
  {
  }

  /** A module can always introduce itself over a link to another process. */
  lemma Introduce(w: World, s: State, k: Lane, m: ModuleID, p: ProcessID, x: Obj) returns (steps: seq<Step>, t: State)
    requires Inv(w, s) && IsFrom(s, k, m) && IsTo(w, s, k, p) && p != w.process(m) && w.owner(x) == m
    ensures Reaches(w, s, steps, t) && NoChanges(steps) && Inv(w, t) && Introduced(w, t, m, p)
    ensures t.local == s.local && t.caches == s.caches
    ensures forall k' :: IsTo(w, t, k', p) == IsTo(w, s, k', p)
    ensures forall k' :: Said(t, k', x) == if k' == InUse(w, t, k) && Has(s, m, x) then Some(true) else Said(s, k', x)
    ensures IsOpen(w, t, InUse(w, t, k)) && InUse(w, t, k).link == k.link
    ensures Said(s, k, x).Some? && !IsOpen(w, s, k) ==> k != InUse(w, t, k)
  {
    hide Snapshot, Final, Reaches, Inv;
    var l := k.link;
    var s1 := Next(w, s, Login(l));
    var s2 := Next(w, s1, Sign(l));
    StepKeepsInv(w, s, Login(l));
    StepKeepsInv(w, s1, Sign(l));
    var msgs := SomeSnapshot(m, Local(s2, m));
    t := Next(w, s2, Join(l, msgs));
    StepKeepsInv(w, s2, Join(l, msgs));
    steps := [Login(l)] + ([Sign(l)] + [Join(l, msgs)]);
    OneStep(w, s, Login(l));
    OneStep(w, s1, Sign(l));
    OneStep(w, s2, Join(l, msgs));
    RunsJoin(w, s1, [Sign(l)], s2, [Join(l, msgs)], t);
    RunsJoin(w, s, [Login(l)], s1, [Sign(l)] + [Join(l, msgs)], t);
    assert IsFrom(t, k, m) && IsTo(w, t, k, p) && IsJoined(t, k);
    SnapshotFinal(msgs, m, Local(s2, m), x);
    var used := InUse(w, t, k);
    FinalJoined(QueueOf(s, used), msgs, x);
    forall k' ensures QueueOf(t, k') == if k' == used then QueueOf(s, k') + msgs else QueueOf(s, k') {
    }
    if Said(s, k, x).Some? && !IsOpen(w, s, k) {
      LaneCloses(w, s, k, x);
    }
  }

  lemma OneStep(w: World, s: State, step: Step)
    requires Enabled(w, s, step)
    ensures Reaches(w, s, [step], Next(w, s, step))
  {
    StaysPut(w, Next(w, s, step));
  }

  /** A lane to another process that is not posted on is a first lane after the login message. */
  lemma LaneCloses(w: World, s: State, k: Lane, x: Obj)
    requires Inv(w, s) && k.link in s.links && Said(s, k, x).Some? && !IsOpen(w, s, k) && !Inside(w, s.links[k.link])
    ensures !k.late && IsLate(w, s.links[k.link])
  {
    LateIsEmpty(w, s, k.link);
  }

  /** What settles goes on settling, as long as nothing changes. */
  lemma SettlesOn(w: World, s: State, steps: seq<Step>, t: State, m: ModuleID, p: ProcessID)
    requires Settles(w, s, m, p) && Reaches(w, s, steps, t) && NoChanges(steps)
    ensures Settles(w, t, m, p)
  {
    hide Reaches, Introduced, Drained, Agrees;
    forall more, u | NoChanges(more) && Reaches(w, t, more, u) && Introduced(w, u, m, p) && Drained(w, u, m, p)
      ensures Agrees(u, CacheOf(u, p), m)
    {
      RunsJoin(w, s, steps, t, more, u);
      assert NoChanges(steps + more);
    }
  }

  /** An object that is not settled at a process that has not been introduced: it stays so after the introduction. */
  lemma IntroducedUnsettled(w: World, s: State, m: ModuleID, x: Obj, p: ProcessID) returns (steps: seq<Step>, t: State)
    requires Inv(w, s) && w.owner(x) == m && !Settled(w, s, x, p)
    ensures Reaches(w, s, steps, t) && NoChanges(steps) && Inv(w, t) && Introduced(w, t, m, p) && !Settled(w, t, x, p)
  {
    hide Reaches, Inv, Has, Where, Said, IsFrom, IsTo, IsJoined, IsOpen, InUse;
    InvTracks(w, s, x);
    if Introduced(w, s, m, p) {
      steps, t := [], s;
      StaysPut(w, s);
    } else if k :| IsTo(w, s, k, p) && Said(s, k, x) !in {None, Some(Has(s, m, x))} {
      assert IsFrom(s, k, m) && !IsOpen(w, s, k);
      steps, t := Introduce(w, s, k, m, p, x);
      SameLocal(s, t, m, x, p);
      assert IsTo(w, t, k, p) && Said(t, k, x) == Said(s, k, x);
    } else {
      assert Silent(w, s, p, x) && Where(s, p, x) == Some(m) && !Has(s, m, x);
      var k :| IsFrom(s, k, m) && IsTo(w, s, k, p);
      steps, t := Introduce(w, s, k, m, p, x);
      SameLocal(s, t, m, x, p);
      assert Silent(w, t, p, x);
    }
  }

  lemma SameLocal(s: State, t: State, m: ModuleID, x: Obj, p: ProcessID)
    requires t.local == s.local && t.caches == s.caches
    ensures Has(t, m, x) == Has(s, m, x) && Where(t, p, x) == Where(s, p, x)
  {
  }

  /**
   In a state that keeps the invariant a process will know a module's objects, however the run goes on
   without changes, exactly if all of them are settled there.
   */
  lemma SettlesExactly(w: World, s: State, m: ModuleID, p: ProcessID)
    requires Inv(w, s)
    ensures Settles(w, s, m, p) <==> AllSettled(w, s, m, p)
  {
    hide Inv, Settled, Drained, Agrees, Reaches, Introduced;
    if AllSettled(w, s, m, p) {
      forall steps, t | NoChanges(steps) && Reaches(w, s, steps, t) && Introduced(w, t, m, p) && Drained(w, t, m, p)
        ensures Agrees(t, CacheOf(t, p), m)
      {
        StepsSettle(w, s, steps, t, m, p);
        SettledAgrees(w, t, m, p);
      }
    } else {
      var x :| w.owner(x) == m && !Settled(w, s, x, p);
      var steps, t := IntroducedUnsettled(w, s, m, x, p);
      Unsettles(w, t, m, x, p);
      if Settles(w, s, m, p) {
        SettlesOn(w, s, steps, t, m, p);
      }
    }
  }

  // ---------------------------------------------------------------------------------------
  // Careful runs
  // ---------------------------------------------------------------------------------------

  /** All changes of objects of `m` in the run are careful towards `p`. */
  ghost predicate CarefulRun(w: World, s: State, steps: seq<Step>, m: ModuleID, p: ProcessID)
    decreases |steps|
  {
    steps == [] ||
    (&& Enabled(w, s, steps[0])
     && (steps[0].Change? && steps[0].m == m ==> Careful(w, s, m, steps[0].x, steps[0].isDelete, p))
     && CarefulRun(w, Next(w, s, steps[0]), steps[1..], m, p))
  }

  /** In every state of the run the process will know m's objects. */
  ghost predicate AlwaysSettles(w: World, s: State, steps: seq<Step>, m: ModuleID, p: ProcessID)
    decreases |steps|
  {
    Settles(w, s, m, p) &&
    (steps == [] || (Enabled(w, s, steps[0]) && AlwaysSettles(w, Next(w, s, steps[0]), steps[1..], m, p)))
  }

  lemma StepSettles(w: World, s: State, step: Step, m: ModuleID, p: ProcessID)
    requires Inv(w, s) && Enabled(w, s, step) && AllSettled(w, s, m, p)
    ensures AllSettled(w, Next(w, s, step), m, p) <==>
            (step.Change? && step.m == m ==> Careful(w, s, m, step.x, step.isDelete, p))
  {
    hide Inv, Settled, Next, Careful;
    var t := Next(w, s, step);
    if step.Change? && step.m == m && !Careful(w, s, m, step.x, step.isDelete, p) {
      InvTracks(w, s, step.x);
      ChangeTracks(w, s, m, step.x, step.isDelete, step.x);
      assert !Settled(w, t, step.x, p);
    } else {
      forall x | w.owner(x) == m ensures Settled(w, t, x, p) {
        StepTracks(w, s, step, x);
      }
    }
  }

  lemma {:induction false} CarefulSettles(w: World, s: State, steps: seq<Step>, t: State, m: ModuleID, p: ProcessID)
    requires Inv(w, s) && AllSettled(w, s, m, p) && Reaches(w, s, steps, t)
    ensures CarefulRun(w, s, steps, m, p) <==> AlwaysSettles(w, s, steps, m, p)
    ensures CarefulRun(w, s, steps, m, p) ==> Inv(w, t) && AllSettled(w, t, m, p)
    decreases |steps|
  {
    hide Inv, AllSettled, Settles, Next, Careful;
    SettlesExactly(w, s, m, p);
    if steps != [] {
      var next := Next(w, s, steps[0]);
      StepKeepsInv(w, s, steps[0]);
      StepSettles(w, s, steps[0], m, p);
      if AllSettled(w, next, m, p) {
        CarefulSettles(w, next, steps[1..], t, m, p);
      } else {
        SettlesExactly(w, next, m, p);
      }
    }
  }

  lemma StartsSettled(w: World, m: ModuleID, p: ProcessID)
    ensures AllSettled(w, INIT, m, p)
  {
  }

  /**
   In every state of a run a process will know a module's objects, once it is introduced and has heard
   all that is under way, if and only if every change of the run was careful.
   */
  lemma ConvergesExactly(w: World, run: seq<Step>, s: State, m: ModuleID, p: ProcessID)
    requires Reaches(w, INIT, run, s)
    ensures CarefulRun(w, INIT, run, m, p) <==> AlwaysSettles(w, INIT, run, m, p)
  {
    hide Inv, AllSettled, Reaches, CarefulRun, AlwaysSettles;
    StartsWell(w);
    StartsSettled(w, m, p);
    CarefulSettles(w, INIT, run, s, m, p);
  }

  lemma CarefulIsSettled(w: World, run: seq<Step>, s: State, m: ModuleID, p: ProcessID)
    requires Reaches(w, INIT, run, s) && CarefulRun(w, INIT, run, m, p)
    ensures Inv(w, s) && AllSettled(w, s, m, p)
  {
    hide Inv, AllSettled, Reaches, CarefulRun, AlwaysSettles;
    StartsWell(w);
    StartsSettled(w, m, p);
    CarefulSettles(w, INIT, run, s, m, p);
  }

  /**
   All other modules of the process are elsewhere than `m`, and process what they hear from it in the order
   in which it was sent.
   */
  ghost predicate InOrder(w: World, m: ModuleID, p: ProcessID) {
    forall r :: r != m && w.process(r) == p ==> p != w.process(m) && !w.split(m, r)
  }

  lemma InOrderIsCarefulNow(w: World, s: State, m: ModuleID, x: Obj, isDelete: bool, p: ProcessID)
    requires Inv(w, s) && InOrder(w, m, p)
    ensures Careful(w, s, m, x, isDelete, p)
  {
    forall k | IsFrom(s, k, m) && IsTo(w, s, k, p) && !IsOpen(w, s, k) ensures QueueOf(s, k) == [] {
      LateIsEmpty(w, s, k.link);
    }
  }

  /** Where a module is heard in order no change can be careless. */
  lemma {:induction false} InOrderIsCareful(w: World, s: State, steps: seq<Step>, t: State, m: ModuleID, p: ProcessID)
    requires Inv(w, s) && Reaches(w, s, steps, t) && InOrder(w, m, p)
    ensures CarefulRun(w, s, steps, m, p)
    decreases |steps|
  {
    hide Inv, Next, Careful, InOrder;
    if steps != [] {
      StepKeepsInv(w, s, steps[0]);
      if steps[0].Change? && steps[0].m == m {
        InOrderIsCarefulNow(w, s, m, steps[0].x, steps[0].isDelete, p);
      }
      InOrderIsCareful(w, Next(w, s, steps[0]), steps[1..], t, m, p);
    }
  }

  /** Whether the run is one of which the process will hear right. */
  ghost predicate HeardRight(w: World, run: seq<Step>, m: ModuleID, p: ProcessID) {
    InOrder(w, m, p) || CarefulRun(w, INIT, run, m, p)
  }

  lemma HeardIsSettled(w: World, run: seq<Step>, s: State, m: ModuleID, p: ProcessID)
    requires Reaches(w, INIT, run, s) && HeardRight(w, run, m, p)
    ensures Inv(w, s) && AllSettled(w, s, m, p)
  {
    hide Inv, AllSettled, Reaches, CarefulRun, InOrder;
    StartsWell(w);
    if InOrder(w, m, p) {
      InOrderIsCareful(w, INIT, run, s, m, p);
    }
    CarefulIsSettled(w, run, s, m, p);
  }

  /**
   With nothing under way a process knows exactly the objects of its own modules and of those that were
   introduced.
   */
  lemma QuietAgrees(w: World, run: seq<Step>, s: State, m: ModuleID, p: ProcessID)
    requires Reaches(w, INIT, run, s) && HeardRight(w, run, m, p) && Introduced(w, s, m, p) && Drained(w, s, m, p)
    ensures Agrees(s, CacheOf(s, p), m)
  {
    hide Inv, AllSettled, Reaches, Introduced, Drained, Agrees, HeardRight;
    HeardIsSettled(w, run, s, m, p);
    SettledAgrees(w, s, m, p);
  }

  /** When what is under way has been delivered, in whatever order, the process knows exactly what the module had. */
  lemma DrainingConverges(w: World, run: seq<Step>, s: State, steps: seq<Step>, t: State, m: ModuleID, p: ProcessID)
    requires Reaches(w, INIT, run, s) && HeardRight(w, run, m, p) && Introduced(w, s, m, p)
    requires Reaches(w, s, steps, t) && OnlyDeliveries(steps) && Drained(w, t, m, p)
    ensures Agrees(s, CacheOf(t, p), m)
  {
    hide Inv, AllSettled, Reaches, Introduced, Drained, HeardRight;
    HeardIsSettled(w, run, s, m, p);
    assert NoChanges(steps);
    StepsSettle(w, s, steps, t, m, p);
    DeliveriesKeep(w, s, steps, t);
    StaysIntroduced(w, s, t, m, p);
    SettledAgrees(w, t, m, p);
  }

  /**
   Delivery always gets there: whatever deliveries have been made since a reachable state, some more of
   them, as many as messages are left and no more are possible, leave nothing under way; then every
   process that a module had introduced itself to, and its own, knows the module's objects.
   */
  lemma DeliveryGetsThere(w: World, run: seq<Step>, s: State, steps: seq<Step>, t: State)
    returns (more: seq<Step>, u: State)
    requires Reaches(w, INIT, run, s) && Reaches(w, s, steps, t) && OnlyDeliveries(steps)
    ensures Reaches(w, t, more, u) && OnlyDeliveries(more) && |steps + more| == UnderWay(s.links)
    ensures forall m, p :: Drained(w, u, m, p) &&
              (HeardRight(w, run, m, p) && Introduced(w, s, m, p) ==> Agrees(s, CacheOf(u, p), m))
  {
    hide Reaches, UnderWay, Introduced, Agrees, HeardRight;
    more, u := DeliverEverything(w, t);
    RunsJoin(w, s, steps, t, more, u);
    DeliveriesShorten(w, s, steps + more, u);
    NoneUnderWay(u);
    forall m, p | HeardRight(w, run, m, p) && Introduced(w, s, m, p) ensures Agrees(s, CacheOf(u, p), m) {
      DrainingConverges(w, run, s, steps + more, u, m, p);
    }
  }

  /** When all that is under way from `m` is on one lane, draining that one is enough. */
  lemma PendingReplayed(w: World, run: seq<Step>, s: State, k: Lane, m: ModuleID, p: ProcessID)
    requires Reaches(w, INIT, run, s) && IsFrom(s, k, m) && IsTo(w, s, k, p)
    requires HeardRight(w, run, m, p) && Introduced(w, s, m, p)
    requires forall k' :: k' != k && IsFrom(s, k', m) && IsTo(w, s, k', p) ==> QueueOf(s, k') == []
    ensures Agrees(s, Replay(CacheOf(s, p), Ops(QueueOf(s, k))), m)
  {
    hide Reaches, Agrees, Replay, Ops, Inv, HeardRight, Introduced;
    HeardIsSettled(w, run, s, m, p);
    forall x | w.owner(x) == m && Said(s, k, x) == None ensures Silent(w, s, p, x) {
      InvTracks(w, s, x);
    }
    OneLaneAgrees(w, run, s, k, m, p);
  }

  // ---------------------------------------------------------------------------------------
  // What can go wrong
  // ---------------------------------------------------------------------------------------

  lemma Extend(w: World, run: seq<Step>, s: State, step: Step) returns (longer: seq<Step>, t: State)
    requires Reaches(w, INIT, run, s) && Enabled(w, s, step)
    ensures Reaches(w, INIT, longer, t) && t == Next(w, s, step)
  {
    longer, t := run + [step], Next(w, s, step);
    OneStep(w, s, step);
    RunsJoin(w, INIT, run, s, [step], t);
  }

  lemma Disagrees(s: State, h: Hosts, m: ModuleID, x: Obj)
    requires Lookup(h, x) == Some(m) && x !in Local(s, m)
    ensures !Agrees(s, h, m)
  {
  }

  /** A process that is wrong with nothing under way: some change was not careful. */
  lemma WrongIsCareless(w: World, run: seq<Step>, s: State, m: ModuleID, p: ProcessID)
    requires Reaches(w, INIT, run, s) && Introduced(w, s, m, p) && Drained(w, s, m, p) && !Agrees(s, CacheOf(s, p), m)
    ensures !CarefulRun(w, INIT, run, m, p)
  {
    hide Reaches, Introduced, Drained, Agrees, CarefulRun, InOrder;
    if CarefulRun(w, INIT, run, m, p) {
      QuietAgrees(w, run, s, m, p);
    }
  }

  /**
   Inside a process: an object is added before the peer's login and taken away after it. The peer hears
   of the first only, and with nothing under way any more the process believes for good in an object
   that is gone.
   */
  lemma StaleInside(w: World, m: ModuleID, r: ModuleID, x: Obj) returns (run: seq<Step>, s: State)
    requires r != m && w.process(r) == w.process(m) && w.owner(x) == m
    ensures Reaches(w, INIT, run, s) && Local(s, m) == {} && forall k :: QueueOf(s, k) == []
    ensures !Agrees(s, CacheOf(s, w.process(m)), m) && !CarefulRun(w, INIT, run, m, w.process(m))
  {
    hide Replay, Apply, Reaches, CarefulRun, Agrees;
    var p, add := w.process(m), SROCBind(m, false, x.0, [x.1]);
    run, s := HeardOnce(w, m, r, x);
    Receives(CacheOf(s, p), add, x);
    run, s := Extend(w, run, s, Deliver(Lane(0, false)));
    assert Lookup(CacheOf(s, p), x) == Some(m) && x !in Local(s, m);
    Disagrees(s, CacheOf(s, p), m, x);
    WrongIsCareless(w, run, s, m, p);
  }

  /** An object is added before the login, and taken away unheard after it. */
  lemma HeardOnce(w: World, m: ModuleID, r: ModuleID, x: Obj) returns (run: seq<Step>, s: State)
    requires r != m && w.process(r) == w.process(m) && w.owner(x) == m
    ensures var add := SROCBind(m, false, x.0, [x.1]);
            && Reaches(w, INIT, run, s) && s.links == map[0 := Link(m, r, true, false, false, [add], [])]
            && Local(s, m) == {}
  {
    hide Apply, Reaches;
    var add := SROCBind(m, false, x.0, [x.1]);
    StaysPut(w, INIT);
    run, s := Extend(w, [], INIT, Connect(0, m, r));
    run, s := Extend(w, run, s, Change(m, x, false));
    assert s.links[0] == Link(m, r, false, false, false, [add], []);
    run, s := Extend(w, run, s, Login(0));
    run, s := Extend(w, run, s, Change(m, x, true));
    assert s.links[0] == Link(m, r, true, false, false, [add], []);
  }

  /**
   Between processes, with another thread for the module after the login: an object is added before the
   login, is in the snapshot, and is taken away. The message from before the login is processed last.
   */
  lemma StaleAcrossLogin(w: World, m: ModuleID, r: ModuleID, x: Obj) returns (run: seq<Step>, s: State)
    requires w.process(r) != w.process(m) && w.split(m, r) && w.owner(x) == m
    ensures Reaches(w, INIT, run, s) && Local(s, m) == {} && forall k :: QueueOf(s, k) == []
    ensures Joined(w, s, m, w.process(r))
    ensures !Agrees(s, CacheOf(s, w.process(r)), m) && !CarefulRun(w, INIT, run, m, w.process(r))
  {
    hide Replay, Apply, Reaches, CarefulRun, Agrees;
    var p := w.process(r);
    var add := SROCBind(m, false, x.0, [x.1]);
    run, s := HeardAfter(w, m, r, x);
    Receives(CacheOf(s, p), add, x);
    run, s := Extend(w, run, s, Deliver(Lane(0, false)));
    assert Lookup(CacheOf(s, p), x) == Some(m) && x !in Local(s, m);
    Disagrees(s, CacheOf(s, p), m, x);
    assert IsFrom(s, Lane(0, true), m) && IsTo(w, s, Lane(0, true), p) && IsJoined(s, Lane(0, true));
    WrongIsCareless(w, run, s, m, p);
  }

  /** An object is added before the login, and named again in the snapshot. */
  lemma HeardBefore(w: World, m: ModuleID, r: ModuleID, x: Obj) returns (run: seq<Step>, s: State)
    requires w.process(r) != w.process(m) && w.split(m, r) && w.owner(x) == m
    ensures var add := SROCBind(m, false, x.0, [x.1]);
            && Reaches(w, INIT, run, s) && s.links == map[0 := Link(m, r, true, true, true, [add], [add])]
            && Local(s, m) == {x}
  {
    hide Apply, Reaches, Snapshot;
    var add := SROCBind(m, false, x.0, [x.1]);
    EmptySnapshot(m);
    SnapshotMore([], m, {}, x);
    assert [] + [add] == [add] && {} + {x} == {x};
    StaysPut(w, INIT);
    run, s := Extend(w, [], INIT, Connect(0, m, r));
    run, s := Extend(w, run, s, Change(m, x, false));
    assert s.links[0] == Link(m, r, false, false, false, [add], []);
    run, s := Extend(w, run, s, Login(0));
    run, s := Extend(w, run, s, Sign(0));
    run, s := Extend(w, run, s, Join(0, [add]));
  }

  /** The object is taken away, and all that was sent after the login is processed. */
  lemma HeardAfter(w: World, m: ModuleID, r: ModuleID, x: Obj) returns (run: seq<Step>, s: State)
    requires w.process(r) != w.process(m) && w.split(m, r) && w.owner(x) == m
    ensures var add := SROCBind(m, false, x.0, [x.1]);
            && Reaches(w, INIT, run, s) && s.links == map[0 := Link(m, r, true, true, true, [add], [])]
            && Local(s, m) == {}
  {
    hide Apply, Reaches;
    var add, del := SROCBind(m, false, x.0, [x.1]), SROCBind(m, true, x.0, [x.1]);
    run, s := HeardBefore(w, m, r, x);
    run, s := Extend(w, run, s, Change(m, x, true));
    assert s.links[0].early == [add] && s.links[0].late == [add, del];
    run, s := Extend(w, run, s, Deliver(Lane(0, true)));
    assert s.links[0].late == [del];
    run, s := Extend(w, run, s, Deliver(Lane(0, true)));
    assert s.links[0] == Link(m, r, true, true, true, [add], []);
  }

  /** Whatever happened: introduced, and with nothing under way from `m`, the process knows m's objects. */
  ghost predicate AlwaysKnows(w: World, m: ModuleID, p: ProcessID) {
    forall run, s :: Reaches(w, INIT, run, s) && Introduced(w, s, m, p) && Drained(w, s, m, p) ==>
      Agrees(s, CacheOf(s, p), m)
  }

  /** A process can be relied on to know a module's objects exactly if it hears the module in order. */
  lemma KnowsExactly(w: World, m: ModuleID, p: ProcessID, x: Obj)
    requires w.owner(x) == m
    ensures AlwaysKnows(w, m, p) <==> InOrder(w, m, p)
  {
    hide Reaches, Introduced, Agrees, CarefulRun, Drained;
    if InOrder(w, m, p) {
      forall run, s | Reaches(w, INIT, run, s) && Introduced(w, s, m, p) && Drained(w, s, m, p)
        ensures Agrees(s, CacheOf(s, p), m)
      {
        QuietAgrees(w, run, s, m, p);
      }
    } else {
      var r :| r != m && w.process(r) == p && (p == w.process(m) || w.split(m, r));
      var run, s;
      if p == w.process(m) {
        run, s := StaleInside(w, m, r, x);
      } else {
        run, s := StaleAcrossLogin(w, m, r, x);
      }
      assert Introduced(w, s, m, p) && Drained(w, s, m, p) by {
        SilenceDrains(w, s, m, p);
      }
    }
  }

  lemma SilenceDrains(w: World, s: State, m: ModuleID, p: ProcessID)
    requires p == w.process(m) || Joined(w, s, m, p)
    requires forall k :: QueueOf(s, k) == []
    ensures Introduced(w, s, m, p) && Drained(w, s, m, p)
  {
  }

  /**
   With two links to one process it is not enough to drain one of them: what the other one still
   delivers can bring an object back for a while.
   */
  lemma OneLinkIsNotEnough() returns (w: World, run: seq<Step>, s: State, m: ModuleID, k: Lane, p: ProcessID)
    ensures Reaches(w, INIT, run, s) && IsFrom(s, k, m) && IsTo(w, s, k, p) && IsOpen(w, s, k) && IsJoined(s, k)
    ensures p != w.process(m) && InOrder(w, m, p) && !Agrees(s, Replay(CacheOf(s, p), Ops(QueueOf(s, k))), m)
  {
    hide Replay, Apply, Reaches, Agrees;
    w, m, k, p := World(n => if n == "a" then "1" else "2", _ => "a", (_, _) => false), "a", Lane(0, false), "2";
    var x: Obj := ("t", "x");
    var add: SROCBind;
    run, s, add := TwoPeersHear(w, x);
    run, s := Extend(w, run, s, Deliver(k));
    run, s := Extend(w, run, s, Deliver(k));
    Receives(CacheOf(s, "2"), add, x);
    run, s := Extend(w, run, s, Deliver(Lane(1, false)));
    assert QueueOf(s, k) == [] && Lookup(CacheOf(s, "2"), x) == Some("a");
    NoOps(CacheOf(s, "2"));
    Disagrees(s, CacheOf(s, "2"), "a", x);
  }

  /** One peer joined, another one is connected, and an object came and went. */
  lemma TwoPeersHear(w: World, x: Obj) returns (run: seq<Step>, s: State, add: SROCBind)
    requires w.process("a") != w.process("b") && w.owner(x) == "a" && !w.split("a", "b")
    ensures Reaches(w, INIT, run, s) && x !in Local(s, "a") && s.links.Keys == {0, 1}
    ensures |s.links[0].early| == 2 && s.links[0] == Link("a", "b", true, true, true, s.links[0].early, [])
    ensures s.links[1] == Link("a", "c", false, false, false, s.links[0].early, [])
    ensures s.links[0].early[0] == add && Names(add, x) && !add.isDelete && add.hostModuleID == "a"
  {
    hide Apply, Reaches;
    add := SROCBind("a", false, x.0, [x.1]);
    run, s := TwoPeers(w);
    run, s := Extend(w, run, s, Change("a", x, false));
    assert s.links[0].early == [add] == s.links[1].early;
    run, s := Extend(w, run, s, Change("a", x, true));
    assert s.links[0].early == [add, SROCBind("a", true, x.0, [x.1])] == s.links[1].early;
  }

  lemma TwoPeers(w: World) returns (run: seq<Step>, s: State)
    requires w.process("a") != w.process("b") && !w.split("a", "b")
    ensures Reaches(w, INIT, run, s)
    ensures s.links.Keys == {0, 1}
    ensures s.links[0] == Link("a", "b", true, true, true, [], [])
    ensures s.links[1] == Link("a", "c", false, false, false, [], [])
  {
    hide Apply, Reaches, Snapshot;
    EmptySnapshot("a");
    StaysPut(w, INIT);
    run, s := Extend(w, [], INIT, Connect(0, "a", "b"));
    run, s := Extend(w, run, s, Login(0));
    run, s := Extend(w, run, s, Sign(0));
    run, s := Extend(w, run, s, Join(0, []));
    run, s := Extend(w, run, s, Connect(1, "a", "c"));
  }
}
