/**
 The two modules do settle: every action uses something up, so no run goes on for long, and one that
 cannot go on is quiet.
 */
module SubnetProgress {
  import opened Basics
  import opened ServerPools
  import opened Subnet
  import opened SubnetProtocol

  /** How much can still happen to a connection: its dial, its accepting end, its packets, and its ends' breaking. */
  function Ahead(s: State, c: Conn): nat {
    (if c in s.used then 0 else 4) + (if In(s, c) then 0 else 1)
    + (if Seq0(c) in s.net then 3 else 0) + (if Seq1(c) in s.net then 3 else 0)
    + (if Login(c) in s.net then 2 else 0) + (if Ret(c) in s.net then 1 else 0)
    + (if (A, c) in s.closed then 0 else 1) + (if (B, c) in s.closed then 0 else 1)
  }

  function Rank(s: State): nat {
    Ahead(s, CA) + Ahead(s, CB)
  }

  /** No run is longer. */
  const MAX_ACTS := 14

  /** The connections of `s` are still there in `t`. */
  ghost predicate StaysUp(s: State, t: State) {
    forall c :: Up(s, c) ==> Up(t, c)
  }

  /** A name that is longer than all of these. */
  lemma {:induction false} LongerName(names: set<string>) returns (u: string)
    ensures forall n :: n in names ==> |n| < |u|
    decreases |names|
  {
    if names == {} {
      u := "";
    } else {
      var n :| n in names;
      var v := LongerName(names - {n});
      u := n + v + "x";
    }
  }

  /** There is always an unused id. */
  lemma UnusedName(cfg: Config, s: State, n: Node) returns (u: string)
    ensures FreshID(cfg, s, n, u) && forall id: string :: UnuseID(id, u) !in Pool(s, n).index
  {
    u := LongerName(Pool(s, n).index.Keys + {ID(cfg, Peer(n))});
    forall id: string ensures UnuseID(id, u) !in Pool(s, n).index {
      assert |UnuseID(id, u)| >= |u|;
    }
  }

  lemma LoginKeepsEnds(v: PoolView<Conn>, c: Conn, id: string, priority: int, uid: string)
    requires Indexed(v) && c in v.ends
    ensures LoginStep(v, c, id, priority, uid).0.ends.Keys == v.ends.Keys
  {
  }

  /** An action takes no connection out of a pool, and adds no packet about the other one. */
  lemma StepKeepsEnds(cfg: Config, s: State, a: Act, n: Node)
    requires ValidConfig(cfg) && Enabled(cfg, s, a)
    ensures var t := Next(cfg, s, a); Pool(s, n).ends.Keys <= Pool(t, n).ends.Keys
  {
    hide LoginStep, Indexed, UnuseID;
    if a.OnLogin? {
      LoginKeepsEnds(Pool(s, Acceptor(a.c)), a.c, ID(cfg, Dialer(a.c)), Priority(cfg, a.c), a.uid);
    }
  }

  lemma StepLeavesOther(cfg: Config, s: State, a: Act)
    requires ValidConfig(cfg) && Enabled(cfg, s, a)
    ensures Ahead(Next(cfg, s, a), Other(a.c)) <= Ahead(s, Other(a.c))
  {
    hide Next, Enabled, Ahead;
    var t := Next(cfg, s, a);
    StepKeepsEnds(cfg, s, a, Acceptor(Other(a.c)));
    StepGoesForward(cfg, s, a);
    OtherIsOther(a.c);
    NothingNew(s, t, Other(a.c));
  }

  function PacketOf(q: Packet): Conn { q.c }

  lemma OtherIsOther(c: Conn)
    ensures Other(c) != c
  {
  }

  /** Dials and breaks stay, and packets are only added about the action's own connection. */
  lemma StepGoesForward(cfg: Config, s: State, a: Act)
    requires ValidConfig(cfg) && Enabled(cfg, s, a)
    ensures var t := Next(cfg, s, a);
            s.used <= t.used && s.closed <= t.closed && forall q :: q in t.net && PacketOf(q) != a.c ==> q in s.net
  {
    hide LoginStep, DialStep, AcceptStep, LoginRetStep, CloseStep, Indexed, UnuseID;
  }

  lemma NothingNew(s: State, t: State, x: Conn)
    requires s.used <= t.used && s.closed <= t.closed && (In(s, x) ==> In(t, x))
    requires forall q :: q in t.net && PacketOf(q) == x ==> q in s.net
    ensures Ahead(t, x) <= Ahead(s, x)
  {
    hide In;
    assert forall q :: q in {Seq0(x), Seq1(x), Login(x), Ret(x)} ==> PacketOf(q) == x;
  }

  lemma StepShortensOwn(cfg: Config, s: State, a: Act)
    requires ValidConfig(cfg) && Enabled(cfg, s, a) && (a.OnSeq0? ==> !In(s, a.c))
    ensures Ahead(Next(cfg, s, a), a.c) < Ahead(s, a.c)
  {
    hide LoginStep, DialStep, LoginRetStep, CloseStep, Indexed, UnuseID;
    StepKeepsEnds(cfg, s, a, Acceptor(a.c));
  }

  lemma HandshakeIsNew(cfg: Config, s: State, c: Conn)
    requires ValidConfig(cfg) && Inv(cfg, s) && Seq0(c) in s.net
    ensures !In(s, c)
  {
    InvParts(cfg, s);
    assert ConnInv(cfg, s, c);
  }

  /** Every possible action lowers what can still happen, and loses no connection. */
  lemma StepShortens(cfg: Config, s: State, a: Act)
    requires ValidConfig(cfg) && Inv(cfg, s) && Enabled(cfg, s, a)
    ensures Rank(Next(cfg, s, a)) < Rank(s) && StaysUp(s, Next(cfg, s, a))
  {
    hide Next, Ahead, Inv, Indexed, UnuseID;
    if a.OnSeq0? {
      HandshakeIsNew(cfg, s, a.c);
    }
    StepLeavesOther(cfg, s, a);
    StepShortensOwn(cfg, s, a);
    StepKeepsEnds(cfg, s, a, A);
    StepKeepsEnds(cfg, s, a, B);
  }

  /** No run has more actions than can happen at the start. */
  lemma {:induction false} RunIsBounded(cfg: Config, acts: seq<Act>)
    requires ValidConfig(cfg) && Exec(cfg, acts).Some?
    ensures |acts| + Rank(Exec(cfg, acts).value) <= MAX_ACTS
    decreases |acts|
  {
    hide Rank, Next, Enabled, StaysUp, Inv;
    if acts == [] {
      assert Rank(INIT) == MAX_ACTS by { RankAtStart(); }
    } else {
      RunIsBounded(cfg, acts[..|acts| - 1]);
      ExecInv(cfg, acts[..|acts| - 1]);
      StepShortens(cfg, Exec(cfg, acts[..|acts| - 1]).value, acts[|acts| - 1]);
    }
  }

  lemma RankAtStart()
    ensures Rank(INIT) == MAX_ACTS
  {
  }

  ghost predicate CanGoOn(cfg: Config, s: State)
    requires ValidConfig(cfg)
  {
    exists a :: Enabled(cfg, s, a)
  }

  lemma InvIndexed(cfg: Config, s: State, n: Node)
    requires ValidConfig(cfg) && Inv(cfg, s)
    ensures Indexed(Pool(s, n))
  {
  }

  /** A packet on its way can be processed, perhaps after its connection has been accepted. */
  lemma PacketGoesOn(cfg: Config, s: State, c: Conn)
    requires ValidConfig(cfg) && Inv(cfg, s)
    requires Seq0(c) in s.net || Seq1(c) in s.net || Login(c) in s.net
    ensures CanGoOn(cfg, s)
  {
    hide Inv, Indexed, UnuseID;
    var u := UnusedName(cfg, s, Acceptor(c));
    InvIndexed(cfg, s, Acceptor(c));
    if Seq0(c) in s.net {
      assert Enabled(cfg, s, OnSeq0(c, u, 0));
    } else if Seq1(c) in s.net {
      assert Enabled(cfg, s, OnSeq1(c));
    } else if In(s, c) {
      assert Enabled(cfg, s, OnLogin(c, u));
    } else {
      assert Enabled(cfg, s, Accept(c, u, 0));
    }
  }

  lemma AnswerGoesOn(cfg: Config, s: State, c: Conn)
    requires ValidConfig(cfg) && Inv(cfg, s) && Ret(c) in s.net && (Dialer(c), c) !in s.closed
    ensures CanGoOn(cfg, s)
  {
    InvParts(cfg, s);
    assert ConnInv(cfg, s, c);
    assert Enabled(cfg, s, OnRet(c));
  }

  /** Of the connection agreed on no end has broken. */
  lemma WinnerIsOpen(cfg: Config, s: State, c: Conn, n: Node)
    requires ValidConfig(cfg) && Inv(cfg, s) && Settled(cfg, s) && Agree(cfg, s) && Indexes(cfg, s, A) == Some(c)
    ensures (n, c) !in s.closed
  {
    InvParts(cfg, s);
    hide NodeInv, Indexes;
    assert ConnInv(cfg, s, c);
  }

  /**
   The modules must settle: a run has at most 14 actions, and where no further one is possible they have
   settled, and both ends of a connection agreed on know each other.
   */
  lemma RunsSettle(cfg: Config, acts: seq<Act>)
    requires ValidConfig(cfg) && Exec(cfg, acts).Some?
    ensures |acts| <= MAX_ACTS
    ensures var s := Exec(cfg, acts).value;
            !CanGoOn(cfg, s) ==>
              && Quiet(s) && Settled(cfg, s)
              && forall c :: Agree(cfg, s) && Indexes(cfg, s, A) == Some(c) ==>
                   && c in Pool(s, A).ends && Pool(s, A).ends[c].peer == cfg.idB
                   && c in Pool(s, B).ends && Pool(s, B).ends[c].peer == cfg.idA
  {
    hide Exec, Rank, Inv, CanGoOn, Settled, Agree, Indexes;
    RunIsBounded(cfg, acts);
    ExecInv(cfg, acts);
    var s := Exec(cfg, acts).value;
    if !CanGoOn(cfg, s) {
      forall c: Conn ensures Seq0(c) !in s.net && Seq1(c) !in s.net && Login(c) !in s.net {
        if Seq0(c) in s.net || Seq1(c) in s.net || Login(c) in s.net {
          PacketGoesOn(cfg, s, c);
        }
      }
      Agreement(cfg, acts);
      forall c | Agree(cfg, s) && Indexes(cfg, s, A) == Some(c)
        ensures c in Pool(s, A).ends && Pool(s, A).ends[c].peer == cfg.idB
        ensures c in Pool(s, B).ends && Pool(s, B).ends[c].peer == cfg.idA
      {
        WinnerIsOpen(cfg, s, c, Dialer(c));
        if Ret(c) in s.net {
          AnswerGoesOn(cfg, s, c);
        }
        WinnerKnowsPeer(cfg, acts, c);
      }
    }
  }

  /** A run can always be brought to its end, and the connections that were up still are. */
  lemma {:induction false} BecomesQuiet(cfg: Config, acts: seq<Act>) returns (more: seq<Act>)
    requires ValidConfig(cfg) && Exec(cfg, acts).Some?
    ensures Exec(cfg, more).Some? && acts <= more && !CanGoOn(cfg, Exec(cfg, more).value)
    ensures StaysUp(Exec(cfg, acts).value, Exec(cfg, more).value)
    decreases Rank(Exec(cfg, acts).value)
  {
    hide Exec, Rank, Up, Enabled, Next, Inv;
    more := acts;
    if a :| Enabled(cfg, Exec(cfg, acts).value, a) {
      ExecInv(cfg, acts);
      StepShortens(cfg, Exec(cfg, acts).value, a);
      ExecMore(cfg, acts, a);
      more := BecomesQuiet(cfg, acts + [a]);
    }
  }

  /**
   Crossing dials do settle: for any two priorities there is a run with both connections up after which
   nothing is on its way, so if they differ the modules agree on the connection with the higher one.
   */
  lemma CrossingDialsSettle(cfg: Config) returns (acts: seq<Act>)
    requires ValidConfig(cfg)
    ensures Exec(cfg, acts).Some?
    ensures var s := Exec(cfg, acts).value;
            && Quiet(s) && Up(s, CA) && Up(s, CB)
            && (cfg.priorityA > cfg.priorityB ==> Agree(cfg, s) && Indexes(cfg, s, A) == Some(CA))
            && (cfg.priorityA < cfg.priorityB ==> Agree(cfg, s) && Indexes(cfg, s, A) == Some(CB))
  {
    hide Exec, Quiet, Agree, Indexes, CanGoOn;
    var crossing, s := CrossingDials(cfg);
    acts := BecomesQuiet(cfg, crossing);
    RunsSettle(cfg, acts);
  }
}
