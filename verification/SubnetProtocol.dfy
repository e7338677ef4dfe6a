/**
 Two modules that connect to each other, each at most once, over TCP or over the in-process channel
 handshake, with the steps of the subnet manager on each side. Messages in flight and the order in
 which the two sides act are arbitrary; the connection with the lower priority may break at either
 end at any time once both are up.
 */
module SubnetProtocol {
  import opened Basics
  import opened ServerPools
  import opened Subnet

  datatype Node = A | B
  /** A connection, named after the module that dials it. */
  datatype Conn = CA | CB

  function Peer(n: Node): Node { if n == A then B else A }
  function Own(n: Node): Conn { if n == A then CA else CB }
  function Dialer(c: Conn): Node { if c == CA then A else B }
  function Acceptor(c: Conn): Node { Peer(Dialer(c)) }
  function Other(c: Conn): Conn { if c == CA then CB else CA }

  /** The modules' ids and the priorities their connections draw. */
  datatype Config = Config(idA: string, idB: string, priorityA: int, priorityB: int)

  ghost predicate ValidConfig(cfg: Config) {
    cfg.idA != cfg.idB && cfg.idA != "" && cfg.idB != ""
  }

  function ID(cfg: Config, n: Node): string { if n == A then cfg.idA else cfg.idB }
  function Priority(cfg: Config, c: Conn): int { if c == CA then cfg.priorityA else cfg.priorityB }

  /** On its way: the two steps of the channel handshake, a login, and the answer to one. */
  datatype Packet = Seq0(c: Conn) | Seq1(c: Conn) | Login(c: Conn) | Ret(c: Conn)

  /**
   `used` holds the connections whose dial was begun, `done` and `accepted` those whose login the
   acceptor has processed and accepted, `closed` the ends that broke.
   */
  datatype State = State(poolA: PoolView<Conn>, poolB: PoolView<Conn>, net: set<Packet>,
                         used: set<Conn>, done: set<Conn>, accepted: set<Conn>, closed: set<(Node, Conn)>)

  function Pool(s: State, n: Node): PoolView<Conn> { if n == A then s.poolA else s.poolB }

  function SetPool(s: State, n: Node, v: PoolView<Conn>): State {
    if n == A then s.(poolA := v) else s.(poolB := v)
  }

  const INIT := State(PoolView(map[], map[]), PoolView(map[], map[]), {}, {}, {}, {}, {})

  /** Both ends of a connection exist one after the other, depending on the transport. */
  predicate Up(s: State, c: Conn) { c in Pool(s, Dialer(c)).ends }
  predicate In(s: State, c: Conn) { c in Pool(s, Acceptor(c)).ends }

  datatype Act =
    | DialTCP(c: Conn)
    | Accept(c: Conn, uid: string, priority: int)
    | Ask(c: Conn)
    | OnSeq0(c: Conn, uid: string, priority: int)
    | OnSeq1(c: Conn)
    | OnLogin(c: Conn, uid: string)
    | OnRet(c: Conn)
    | Close(n: Node, c: Conn)

  /** Unique ids are unique: they are not in use, and no module has one for its name. */
  predicate FreshID(cfg: Config, s: State, n: Node, uid: string) {
    uid !in Pool(s, n).index && uid != ID(cfg, Peer(n))
  }

  ghost predicate Enabled(cfg: Config, s: State, a: Act)
    requires ValidConfig(cfg)
  {
    match a
    case DialTCP(c) => c !in s.used && DialStep(Pool(s, Dialer(c)), c, ID(cfg, Acceptor(c)), Priority(cfg, c)).Some?
    case Accept(c, uid, _) => Login(c) in s.net && !In(s, c) && FreshID(cfg, s, Acceptor(c), uid)
    case Ask(c) => c !in s.used && ID(cfg, Acceptor(c)) !in Pool(s, Dialer(c)).index
    case OnSeq0(c, uid, _) => Seq0(c) in s.net && FreshID(cfg, s, Acceptor(c), uid)
    case OnSeq1(c) => Seq1(c) in s.net
    case OnLogin(c, uid) =>
      && Login(c) in s.net && In(s, c) && Indexed(Pool(s, Acceptor(c)))
      && UnuseID(ID(cfg, Dialer(c)), uid) !in Pool(s, Acceptor(c)).index
    case OnRet(c) => Ret(c) in s.net && Up(s, c) && (Dialer(c), c) !in s.closed
    case Close(n, c) =>
      && Up(s, CA) && Up(s, CB) && Priority(cfg, c) < Priority(cfg, Other(c))
      && c in Pool(s, n).ends && (n, c) !in s.closed && Indexed(Pool(s, n))
  }

  ghost function Next(cfg: Config, s: State, a: Act): State
    requires ValidConfig(cfg) && Enabled(cfg, s, a)
  {
    match a
    case DialTCP(c) =>
      var v := DialStep(Pool(s, Dialer(c)), c, ID(cfg, Acceptor(c)), Priority(cfg, c)).value;
      SetPool(s, Dialer(c), v).(used := s.used + {c}, net := s.net + {Login(c)})
    case Accept(c, uid, priority) =>
      SetPool(s, Acceptor(c), AcceptStep(Pool(s, Acceptor(c)), c, uid, priority))
    case Ask(c) => s.(used := s.used + {c}, net := s.net + {Seq0(c)})
    case OnSeq0(c, uid, priority) =>
      if ID(cfg, Dialer(c)) in Pool(s, Acceptor(c)).index then s.(net := s.net - {Seq0(c)})
      else
        var v := AcceptStep(Pool(s, Acceptor(c)), c, uid, priority);
        SetPool(s, Acceptor(c), v).(net := s.net - {Seq0(c)} + {Seq1(c)})
    case OnSeq1(c) =>
      var v := DialStep(Pool(s, Dialer(c)), c, ID(cfg, Acceptor(c)), Priority(cfg, c));
      if v.None? then s.(net := s.net - {Seq1(c)})
      else SetPool(s, Dialer(c), v.value).(net := s.net - {Seq1(c)} + {Login(c)})
    case OnLogin(c, uid) =>
      var (v, reply) := LoginStep(Pool(s, Acceptor(c)), c, ID(cfg, Dialer(c)), Priority(cfg, c), uid);
      var s1 := SetPool(s, Acceptor(c), v).(done := s.done + {c}, net := s.net - {Login(c)});
      if reply == Accepted then s1.(net := s1.net + {Ret(c)}, accepted := s.accepted + {c}) else s1
    case OnRet(c) =>
      SetPool(s, Dialer(c), LoginRetStep(Pool(s, Dialer(c)), c, 0, ID(cfg, Acceptor(c)))).(net := s.net - {Ret(c)})
    case Close(n, c) =>
      SetPool(s, n, CloseStep(Pool(s, n), c)).(closed := s.closed + {(n, c)},
        net := s.net - {if n == Dialer(c) then Ret(c) else Login(c)})
  }

  // ---------------------------------------------------------------------------------------
  // The invariant
  // ---------------------------------------------------------------------------------------

  /** The connection that a module has indexed under its peer's id. */
  ghost function Indexes(cfg: Config, s: State, n: Node): Option<Conn>
    requires ValidConfig(cfg)
  {
    var v := Pool(s, n);
    if ID(cfg, Peer(n)) in v.index then Some(v.index[ID(cfg, Peer(n))]) else None
  }

  /** Which one that is: the incoming one once its login has won or met nothing, else the module's own. */
  ghost function Expected(cfg: Config, s: State, n: Node): Option<Conn>
    requires ValidConfig(cfg)
  {
    var own := Own(n);
    if Other(own) in s.done && (!Up(s, own) || Priority(cfg, own) < Priority(cfg, Other(own))) then Some(Other(own))
    else if Up(s, own) && (n, own) !in s.closed then Some(own)
    else None
  }

  ghost predicate NodeInv(cfg: Config, s: State, n: Node)
    requires ValidConfig(cfg)
  {
    var v := Pool(s, n);
    var own := Own(n);
    && Indexed(v)
    && (forall c :: c in v.ends && (n, c) !in s.closed ==>
          v.ends[c].tempID in v.index && v.index[v.ends[c].tempID] == c)
    && (own in v.ends ==> v.ends[own].connectPriority == Priority(cfg, own))
    && (Other(own) in v.ends && Other(own) !in s.done ==> v.ends[Other(own)].tempID != ID(cfg, Peer(n)))
    && Indexes(cfg, s, n) == Expected(cfg, s, n)
  }

  ghost predicate ConnInv(cfg: Config, s: State, c: Conn)
    requires ValidConfig(cfg)
  {
    var (d, o, other) := (Dialer(c), Acceptor(c), Other(c));
    && (Up(s, c) || In(s, c) ==> c in s.used)
    && (Seq0(c) in s.net ==> c in s.used && !Up(s, c) && !In(s, c) && Seq1(c) !in s.net)
    && (Seq1(c) in s.net ==> c in s.used && !Up(s, c) && In(s, c))
    && (Login(c) in s.net ==> Up(s, c) && c !in s.done && (o, c) !in s.closed)
    && (Ret(c) in s.net ==> c in s.accepted)
    && (c in s.done ==> Up(s, c) && In(s, c))
    && (Up(s, c) && c !in s.done ==> Login(c) in s.net || (o, c) in s.closed)
    && (forall n :: (n, c) in s.closed ==> Up(s, c) && Up(s, other) && Priority(cfg, c) < Priority(cfg, other))
    && (c in s.done && c !in s.accepted ==> Up(s, other) && Priority(cfg, c) <= Priority(cfg, other))
    && (c in s.used && !Up(s, c) && Seq0(c) !in s.net && Seq1(c) !in s.net ==> Up(s, other))
    && (c in s.accepted ==>
          && c in s.done && Pool(s, o).ends[c].peer == ID(cfg, d)
          && (Ret(c) in s.net || (d, c) in s.closed || Pool(s, d).ends[c].peer == ID(cfg, o))
          && (Up(s, other) && (o, other) !in s.closed ==> Pool(s, o).ends[other].terminated))
  }

  ghost predicate NodesInv(cfg: Config, s: State)
    requires ValidConfig(cfg)
  {
    NodeInv(cfg, s, A) && NodeInv(cfg, s, B)
  }

  ghost predicate ConnsInv(cfg: Config, s: State)
    requires ValidConfig(cfg)
  {
    ConnInv(cfg, s, CA) && ConnInv(cfg, s, CB)
  }

  ghost predicate Inv(cfg: Config, s: State)
    requires ValidConfig(cfg)
  {
    NodesInv(cfg, s) && ConnsInv(cfg, s)
  }

  lemma InvParts(cfg: Config, s: State)
    requires ValidConfig(cfg) && Inv(cfg, s)
    ensures (forall n :: NodeInv(cfg, s, n)) && forall c :: ConnInv(cfg, s, c)
  {
  }

  /** What a module's invariant is about: its pool, and what has been processed and has broken. */
  lemma NodeKept(cfg: Config, s: State, t: State, m: Node)
    requires ValidConfig(cfg) && NodeInv(cfg, s, m)
    requires Pool(t, m) == Pool(s, m) && t.done == s.done && t.closed == s.closed
    ensures NodeInv(cfg, t, m)
  {
  }

  /** A module's own dial enters its connection under the peer's id. */
  lemma NodeDials(cfg: Config, s: State, t: State, m: Node)
    requires ValidConfig(cfg) && NodeInv(cfg, s, m) && t.done == s.done && t.closed == s.closed
    requires Own(m) !in Pool(s, m).ends && ID(cfg, Peer(m)) !in Pool(s, m).index && (m, Own(m)) !in s.closed
    requires Pool(t, m) == Added(Pool(s, m), Own(m), NewEnd(ID(cfg, Peer(m)), Priority(cfg, Own(m)), true))
    ensures NodeInv(cfg, t, m)
  {
    hide Indexed;
    IndexedKept(Pool(s, m), Own(m), NewEnd(ID(cfg, Peer(m)), Priority(cfg, Own(m)), true), "");
  }

  /** The peer's connection is entered under an unused id. */
  lemma NodeAccepts(cfg: Config, s: State, t: State, m: Node, uid: string, priority: int)
    requires ValidConfig(cfg) && NodeInv(cfg, s, m) && t.done == s.done && t.closed == s.closed
    requires Other(Own(m)) !in Pool(s, m).ends && FreshID(cfg, s, m, uid)
    requires Other(Own(m)) !in s.done && (m, Other(Own(m))) !in s.closed
    requires Pool(t, m) == Added(Pool(s, m), Other(Own(m)), NewEnd(uid, priority, false))
    ensures NodeInv(cfg, t, m)
  {
    hide Indexed;
    IndexedKept(Pool(s, m), Other(Own(m)), NewEnd(uid, priority, false), "");
  }

  lemma DialKeepsNode(cfg: Config, s: State, c: Conn, m: Node)
    requires ValidConfig(cfg) && NodeInv(cfg, s, m) && ConnInv(cfg, s, c) && Enabled(cfg, s, DialTCP(c))
    ensures NodeInv(cfg, Next(cfg, s, DialTCP(c)), m)
  {
    hide NodeInv, Added;
    if m == Dialer(c) {
      NodeDials(cfg, s, Next(cfg, s, DialTCP(c)), m);
    } else {
      NodeKept(cfg, s, Next(cfg, s, DialTCP(c)), m);
    }
  }

  lemma DialKeepsConn(cfg: Config, s: State, c: Conn, x: Conn)
    requires ValidConfig(cfg) && NodeInv(cfg, s, Dialer(c)) && ConnInv(cfg, s, c) && ConnInv(cfg, s, Other(c))
    requires Enabled(cfg, s, DialTCP(c))
    ensures ConnInv(cfg, Next(cfg, s, DialTCP(c)), x)
  {
  }

  lemma AcceptKeepsNode(cfg: Config, s: State, c: Conn, uid: string, priority: int, m: Node)
    requires ValidConfig(cfg) && NodeInv(cfg, s, m) && ConnInv(cfg, s, c) && Enabled(cfg, s, Accept(c, uid, priority))
    ensures NodeInv(cfg, Next(cfg, s, Accept(c, uid, priority)), m)
  {
    hide NodeInv, Added;
    if m == Acceptor(c) {
      NodeAccepts(cfg, s, Next(cfg, s, Accept(c, uid, priority)), m, uid, priority);
    } else {
      NodeKept(cfg, s, Next(cfg, s, Accept(c, uid, priority)), m);
    }
  }

  lemma AcceptKeepsConn(cfg: Config, s: State, c: Conn, uid: string, priority: int, x: Conn)
    requires ValidConfig(cfg) && ConnInv(cfg, s, c) && ConnInv(cfg, s, x) && Enabled(cfg, s, Accept(c, uid, priority))
    ensures ConnInv(cfg, Next(cfg, s, Accept(c, uid, priority)), x)
  {
  }

  lemma Seq0KeepsNode(cfg: Config, s: State, c: Conn, uid: string, priority: int, m: Node)
    requires ValidConfig(cfg) && NodeInv(cfg, s, m) && ConnInv(cfg, s, c) && Enabled(cfg, s, OnSeq0(c, uid, priority))
    ensures NodeInv(cfg, Next(cfg, s, OnSeq0(c, uid, priority)), m)
  {
    hide NodeInv, Added;
    if m == Acceptor(c) && ID(cfg, Dialer(c)) !in Pool(s, m).index {
      NodeAccepts(cfg, s, Next(cfg, s, OnSeq0(c, uid, priority)), m, uid, priority);
    } else {
      NodeKept(cfg, s, Next(cfg, s, OnSeq0(c, uid, priority)), m);
    }
  }

  lemma Seq0KeepsConn(cfg: Config, s: State, c: Conn, uid: string, priority: int, x: Conn)
    requires ValidConfig(cfg) && NodeInv(cfg, s, Acceptor(c)) && ConnInv(cfg, s, c) && ConnInv(cfg, s, Other(c))
    requires Enabled(cfg, s, OnSeq0(c, uid, priority))
    ensures ConnInv(cfg, Next(cfg, s, OnSeq0(c, uid, priority)), x)
  {
  }

  lemma Seq1KeepsNode(cfg: Config, s: State, c: Conn, m: Node)
    requires ValidConfig(cfg) && NodeInv(cfg, s, m) && ConnInv(cfg, s, c) && Enabled(cfg, s, OnSeq1(c))
    ensures NodeInv(cfg, Next(cfg, s, OnSeq1(c)), m)
  {
    hide NodeInv, Added;
    if m == Dialer(c) && ID(cfg, Acceptor(c)) !in Pool(s, m).index {
      NodeDials(cfg, s, Next(cfg, s, OnSeq1(c)), m);
    } else {
      NodeKept(cfg, s, Next(cfg, s, OnSeq1(c)), m);
    }
  }

  lemma Seq1KeepsConn(cfg: Config, s: State, c: Conn, x: Conn)
    requires ValidConfig(cfg) && NodeInv(cfg, s, Dialer(c)) && ConnInv(cfg, s, c) && ConnInv(cfg, s, Other(c))
    requires Enabled(cfg, s, OnSeq1(c))
    ensures ConnInv(cfg, Next(cfg, s, OnSeq1(c)), x)
  {
  }

  /** What a login does at the acceptor, whose own connection may be there, better or worse, or broken. */
  lemma LoginEffect(cfg: Config, s: State, c: Conn, uid: string)
    requires ValidConfig(cfg) && NodeInv(cfg, s, Acceptor(c)) && ConnInv(cfg, s, c) && ConnInv(cfg, s, Other(c))
    requires Enabled(cfg, s, OnLogin(c, uid))
    ensures var (o, own, id) := (Acceptor(c), Other(c), ID(cfg, Dialer(c)));
            var v := Pool(s, o);
            var (v', reply) := LoginStep(v, c, id, Priority(cfg, c), uid);
            if Up(s, own) && Priority(cfg, own) >= Priority(cfg, c) then v' == v && reply == Ignored
            else
              && reply == Accepted && Indexed(v') && v'.ends.Keys == v.ends.Keys
              && id in v'.index && v'.index[id] == c
              && v'.ends[c] == v.ends[c].(tempID := id, peer := id, verified := true)
              && (Up(s, own) && (o, own) in s.closed ==> v'.ends[own] == v.ends[own])
              && (Up(s, own) && (o, own) !in s.closed ==>
                    && UnuseID(id, uid) in v'.index && v'.index[UnuseID(id, uid)] == own
                    && v'.ends[own] ==
                        v.ends[own].(tempID := UnuseID(id, uid), terminated := true, normalDisconnect := true))
  {
    var (o, own, id) := (Acceptor(c), Other(c), ID(cfg, Dialer(c)));
    assert NodeInv(cfg, s, o) && ConnInv(cfg, s, c) && ConnInv(cfg, s, own);
    var v := Pool(s, o);
    hide LoginStep;
    if Indexes(cfg, s, o) == None {
      LoginAlone(v, c, id, Priority(cfg, c), uid);
    } else if Priority(cfg, own) >= Priority(cfg, c) {
      LoginLoses(v, c, id, Priority(cfg, c), uid);
    } else {
      LoginWins(v, c, own, id, Priority(cfg, c), uid);
    }
  }

  lemma LoginAlone(v: PoolView<Conn>, c: Conn, id: string, priority: int, uid: string)
    requires Indexed(v) && c in v.ends && id !in v.index && id != ""
    requires v.ends[c].tempID in v.index && v.index[v.ends[c].tempID] == c
    ensures var (v', reply) := LoginStep(v, c, id, priority, uid);
            && reply == Accepted && Indexed(v') && id in v'.index && v'.index[id] == c
            && v'.ends == v.ends[c := v.ends[c].(tempID := id, peer := id, verified := true)]
  {
  }

  lemma LoginLoses(v: PoolView<Conn>, c: Conn, id: string, priority: int, uid: string)
    requires Indexed(v) && c in v.ends && id in v.index && v.ends[v.index[id]].connectPriority >= priority
    ensures LoginStep(v, c, id, priority, uid) == (v, Ignored)
  {
  }

  lemma LoginWins(v: PoolView<Conn>, c: Conn, own: Conn, id: string, priority: int, uid: string)
    requires Indexed(v) && c in v.ends && own in v.ends && c != own && id != ""
    requires id in v.index && v.index[id] == own && v.ends[own].connectPriority < priority
    requires UnuseID(id, uid) !in v.index
    requires v.ends[c].tempID in v.index && v.index[v.ends[c].tempID] == c
    ensures var (v', reply) := LoginStep(v, c, id, priority, uid);
            && reply == Accepted && Indexed(v') && id in v'.index && v'.index[id] == c
            && UnuseID(id, uid) in v'.index && v'.index[UnuseID(id, uid)] == own
            && v'.ends ==
                 v.ends[own := v.ends[own].(tempID := UnuseID(id, uid), terminated := true, normalDisconnect := true)]
                            [c := v.ends[c].(tempID := id, peer := id, verified := true)]
  {
    var v1 := Displaced(v, own, uid);
    DisplacedEffect(v, own, id, uid);
    hide Displaced, UnuseID;
    LoginAlone(v1, c, id, priority, uid);
  }

  lemma DisplacedEffect(v: PoolView<Conn>, own: Conn, id: string, uid: string)
    requires Indexed(v) && own in v.ends && id in v.index && v.index[id] == own && UnuseID(id, uid) !in v.index
    ensures var v1 := Displaced(v, own, uid);
            && Indexed(v1) && id != UnuseID(id, uid)
            && v1.index == v.index[UnuseID(id, uid) := own] - {id}
            && v1.ends ==
                 v.ends[own := v.ends[own].(tempID := UnuseID(id, uid), terminated := true, normalDisconnect := true)]
  {
  }

  lemma LoginKeepsNode(cfg: Config, s: State, c: Conn, uid: string, m: Node)
    requires ValidConfig(cfg) && NodeInv(cfg, s, m) && NodeInv(cfg, s, Acceptor(c)) && ConnInv(cfg, s, c)
    requires ConnInv(cfg, s, Other(c)) && Enabled(cfg, s, OnLogin(c, uid))
    ensures NodeInv(cfg, Next(cfg, s, OnLogin(c, uid)), m)
  {
    hide LoginStep, Indexed, UnuseID;
    LoginEffect(cfg, s, c, uid);
  }

  lemma LoginKeepsConn(cfg: Config, s: State, c: Conn, uid: string, x: Conn)
    requires ValidConfig(cfg) && NodeInv(cfg, s, Acceptor(c)) && ConnInv(cfg, s, c) && ConnInv(cfg, s, Other(c))
    requires Enabled(cfg, s, OnLogin(c, uid))
    ensures ConnInv(cfg, Next(cfg, s, OnLogin(c, uid)), x)
  {
    hide LoginStep, Indexed, UnuseID;
    LoginEffect(cfg, s, c, uid);
  }

  lemma RetKeepsNode(cfg: Config, s: State, c: Conn, m: Node)
    requires ValidConfig(cfg) && NodeInv(cfg, s, m) && ConnInv(cfg, s, c) && Enabled(cfg, s, OnRet(c))
    ensures NodeInv(cfg, Next(cfg, s, OnRet(c)), m)
  {
    hide ConnInv;
    if m != Dialer(c) {
      NodeKept(cfg, s, Next(cfg, s, OnRet(c)), m);
    }
  }

  lemma RetKeepsConn(cfg: Config, s: State, c: Conn, x: Conn)
    requires ValidConfig(cfg) && ConnInv(cfg, s, c) && ConnInv(cfg, s, x) && Enabled(cfg, s, OnRet(c))
    ensures ConnInv(cfg, Next(cfg, s, OnRet(c)), x)
  {
  }

  lemma CloseIndex(v: PoolView<Conn>, c: Conn)
    requires Indexed(v) && c in v.ends && v.ends[c].tempID in v.index && v.index[v.ends[c].tempID] == c
    ensures Indexed(CloseStep(v, c)) && CloseStep(v, c).index == v.index - {v.ends[c].tempID}
    ensures CloseStep(v, c).ends == v.ends[c := v.ends[c].(shutdown := true)]
  {
  }

  lemma CloseKeepsNode(cfg: Config, s: State, n: Node, c: Conn, m: Node)
    requires ValidConfig(cfg) && NodeInv(cfg, s, m) && ConnInv(cfg, s, c) && Enabled(cfg, s, Close(n, c))
    ensures NodeInv(cfg, Next(cfg, s, Close(n, c)), m)
  {
    hide ConnInv, CloseStep, Indexed;
    assert NodeInv(cfg, s, m);
    if m == n {
      CloseIndex(Pool(s, n), c);
    } else {
      assert Pool(Next(cfg, s, Close(n, c)), m) == Pool(s, m);
    }
  }

  lemma CloseKeepsConn(cfg: Config, s: State, n: Node, c: Conn, x: Conn)
    requires ValidConfig(cfg) && ConnInv(cfg, s, c) && ConnInv(cfg, s, x) && Enabled(cfg, s, Close(n, c))
    ensures ConnInv(cfg, Next(cfg, s, Close(n, c)), x)
  {
  }

  lemma AskKeeps(cfg: Config, s: State, c: Conn)
    requires ValidConfig(cfg) && Inv(cfg, s) && Enabled(cfg, s, Ask(c))
    ensures Inv(cfg, Next(cfg, s, Ask(c)))
  {
  }

  lemma StepKeepsInv(cfg: Config, s: State, a: Act)
    requires ValidConfig(cfg) && Inv(cfg, s) && Enabled(cfg, s, a)
    ensures Inv(cfg, Next(cfg, s, a))
  {
    hide NodeInv, ConnInv, Enabled, Next;
    InvParts(cfg, s);
    match a
    case DialTCP(c) =>
      DialKeepsNode(cfg, s, c, A);
      DialKeepsNode(cfg, s, c, B);
      DialKeepsConn(cfg, s, c, CA);
      DialKeepsConn(cfg, s, c, CB);
    case Accept(c, uid, priority) =>
      AcceptKeepsNode(cfg, s, c, uid, priority, A);
      AcceptKeepsNode(cfg, s, c, uid, priority, B);
      AcceptKeepsConn(cfg, s, c, uid, priority, CA);
      AcceptKeepsConn(cfg, s, c, uid, priority, CB);
    case Ask(c) =>
      AskKeeps(cfg, s, c);
    case OnSeq0(c, uid, priority) =>
      Seq0KeepsNode(cfg, s, c, uid, priority, A);
      Seq0KeepsNode(cfg, s, c, uid, priority, B);
      Seq0KeepsConn(cfg, s, c, uid, priority, CA);
      Seq0KeepsConn(cfg, s, c, uid, priority, CB);
    case OnSeq1(c) =>
      Seq1KeepsNode(cfg, s, c, A);
      Seq1KeepsNode(cfg, s, c, B);
      Seq1KeepsConn(cfg, s, c, CA);
      Seq1KeepsConn(cfg, s, c, CB);
    case OnLogin(c, uid) =>
      LoginKeepsNode(cfg, s, c, uid, A);
      LoginKeepsNode(cfg, s, c, uid, B);
      LoginKeepsConn(cfg, s, c, uid, CA);
      LoginKeepsConn(cfg, s, c, uid, CB);
    case OnRet(c) =>
      RetKeepsNode(cfg, s, c, A);
      RetKeepsNode(cfg, s, c, B);
      RetKeepsConn(cfg, s, c, CA);
      RetKeepsConn(cfg, s, c, CB);
    case Close(n, c) =>
      CloseKeepsNode(cfg, s, n, c, A);
      CloseKeepsNode(cfg, s, n, c, B);
      CloseKeepsConn(cfg, s, n, c, CA);
      CloseKeepsConn(cfg, s, n, c, CB);
  }

  // ---------------------------------------------------------------------------------------
  // Agreement
  // ---------------------------------------------------------------------------------------

  /** The state behind a sequence of actions; None if one of them was not possible. */
  ghost function Exec(cfg: Config, acts: seq<Act>): Option<State>
    requires ValidConfig(cfg)
    decreases |acts|
  {
    if acts == [] then Some(INIT) else
    var s := Exec(cfg, acts[..|acts| - 1]);
    var a := acts[|acts| - 1];
    if s.Some? && Enabled(cfg, s.value, a) then Some(Next(cfg, s.value, a)) else None
  }

  lemma {:induction false} ExecInv(cfg: Config, acts: seq<Act>)
    requires ValidConfig(cfg) && Exec(cfg, acts).Some?
    ensures Inv(cfg, Exec(cfg, acts).value)
    decreases |acts|
  {
    if acts != [] {
      ExecInv(cfg, acts[..|acts| - 1]);
      StepKeepsInv(cfg, Exec(cfg, acts[..|acts| - 1]).value, acts[|acts| - 1]);
    }
  }

  /** No connection is being set up, and no login is on its way. */
  predicate Quiet(s: State) {
    forall c: Conn :: Seq0(c) !in s.net && Seq1(c) !in s.net && Login(c) !in s.net
  }

  /** The modules use the same connection, whichever it is. */
  ghost predicate Agree(cfg: Config, s: State)
    requires ValidConfig(cfg)
  {
    Indexes(cfg, s, A).Some? && Indexes(cfg, s, A) == Indexes(cfg, s, B)
  }

  /**
   What agreement means in a state: if both connections are up, the modules agree on one if and only if
   the priorities differ, and then it is the one with the higher priority; if one is up they agree on
   it; and if none is up, none was ever asked for.
   */
  ghost predicate Settled(cfg: Config, s: State)
    requires ValidConfig(cfg)
  {
    if Up(s, CA) && Up(s, CB) then
      && (Agree(cfg, s) <==> cfg.priorityA != cfg.priorityB)
      && (cfg.priorityA > cfg.priorityB ==> Indexes(cfg, s, A) == Some(CA))
      && (cfg.priorityA < cfg.priorityB ==> Indexes(cfg, s, A) == Some(CB))
    else if Up(s, CA) then Agree(cfg, s) && Indexes(cfg, s, A) == Some(CA)
    else if Up(s, CB) then Agree(cfg, s) && Indexes(cfg, s, A) == Some(CB)
    else CA !in s.used && CB !in s.used && Indexes(cfg, s, A) == None == Indexes(cfg, s, B)
  }

  lemma QuietSettles(cfg: Config, s: State)
    requires ValidConfig(cfg) && Inv(cfg, s) && Quiet(s)
    ensures Settled(cfg, s)
  {
  }

  /** In every state that any run reaches in which no login is on its way, the modules have settled. */
  lemma Agreement(cfg: Config, acts: seq<Act>)
    requires ValidConfig(cfg) && Exec(cfg, acts).Some? && Quiet(Exec(cfg, acts).value)
    ensures Settled(cfg, Exec(cfg, acts).value)
  {
    hide Settled, Inv, Quiet;
    ExecInv(cfg, acts);
    QuietSettles(cfg, Exec(cfg, acts).value);
  }

  /**
   Both ends of the connection agreed on are usable: once its login is answered, each end knows the
   other module's id; and a worse connection's dialing end is marked as finished unless it broke.
   */
  lemma WinnerKnowsPeer(cfg: Config, acts: seq<Act>, c: Conn)
    requires ValidConfig(cfg) && Exec(cfg, acts).Some? && Quiet(Exec(cfg, acts).value)
    requires var s := Exec(cfg, acts).value; Agree(cfg, s) && Indexes(cfg, s, A) == Some(c) && Ret(c) !in s.net
    ensures var s := Exec(cfg, acts).value;
            && c in Pool(s, A).ends && Pool(s, A).ends[c].peer == cfg.idB
            && c in Pool(s, B).ends && Pool(s, B).ends[c].peer == cfg.idA
            && (Up(s, Other(c)) && (Dialer(Other(c)), Other(c)) !in s.closed ==>
                  Pool(s, Dialer(Other(c))).ends[Other(c)].terminated)
  {
    ExecInv(cfg, acts);
    var s := Exec(cfg, acts).value;
    hide Exec;
    assert ConnInv(cfg, s, c) && NodeInv(cfg, s, Acceptor(c));
    assert c in s.done;
    assert c in s.accepted;
  }

  lemma ExecMore(cfg: Config, acts: seq<Act>, a: Act)
    requires ValidConfig(cfg) && Exec(cfg, acts).Some? && Enabled(cfg, Exec(cfg, acts).value, a)
    ensures Exec(cfg, acts + [a]) == Some(Next(cfg, Exec(cfg, acts).value, a))
  {
  }

  /** An unused id for both modules. */
  function UnusedID(cfg: Config): string {
    cfg.idA + cfg.idB
  }

  /** Two crossing dials, both accepted. */
  lemma CrossingDials(cfg: Config) returns (acts: seq<Act>, s: State)
    requires ValidConfig(cfg)
    ensures Exec(cfg, acts) == Some(s) && s.net == {Login(CA), Login(CB)}
    ensures s.poolA == PoolView(map[cfg.idB := CA, UnusedID(cfg) := CB],
                                map[CA := NewEnd(cfg.idB, cfg.priorityA, true), CB := NewEnd(UnusedID(cfg), 0, false)])
    ensures s.poolB == PoolView(map[cfg.idA := CB, UnusedID(cfg) := CA],
                                map[CB := NewEnd(cfg.idA, cfg.priorityB, true), CA := NewEnd(UnusedID(cfg), 0, false)])
  {
    hide Exec, UnusedID;
    LongID(cfg);
    ExecNone(cfg);
    acts := [];
    ExecMore(cfg, acts, DialTCP(CA));
    acts := acts + [DialTCP(CA)];
    ExecMore(cfg, acts, DialTCP(CB));
    acts := acts + [DialTCP(CB)];
    ExecMore(cfg, acts, Accept(CA, UnusedID(cfg), 0));
    acts := acts + [Accept(CA, UnusedID(cfg), 0)];
    ExecMore(cfg, acts, Accept(CB, UnusedID(cfg), 0));
    acts := acts + [Accept(CB, UnusedID(cfg), 0)];
    s := Exec(cfg, acts).value;
  }

  lemma ExecNone(cfg: Config)
    requires ValidConfig(cfg)
    ensures Exec(cfg, []) == Some(INIT)
  {
  }

  /** With equal priorities two crossing dials leave each module with its own one. */
  lemma EqualPrioritiesDisagree(cfg: Config) returns (acts: seq<Act>)
    requires ValidConfig(cfg) && cfg.priorityA == cfg.priorityB
    ensures Exec(cfg, acts).Some? && Quiet(Exec(cfg, acts).value)
    ensures Indexes(cfg, Exec(cfg, acts).value, A) == Some(CA) && Indexes(cfg, Exec(cfg, acts).value, B) == Some(CB)
  {
    hide Exec, UnusedID, UnuseID;
    var s;
    acts, s := CrossingDials(cfg);
    LongID(cfg);
    ExecMore(cfg, acts, OnLogin(CA, UnusedID(cfg)));
    acts := acts + [OnLogin(CA, UnusedID(cfg))];
    ExecMore(cfg, acts, OnLogin(CB, UnusedID(cfg)));
    acts := acts + [OnLogin(CB, UnusedID(cfg))];
  }

  lemma LongID(cfg: Config)
    requires ValidConfig(cfg)
    ensures UnusedID(cfg) !in {cfg.idA, cfg.idB}
    ensures UnuseID(cfg.idA, UnusedID(cfg)) !in {cfg.idA, cfg.idB, UnusedID(cfg)}
    ensures UnuseID(cfg.idB, UnusedID(cfg)) !in {cfg.idA, cfg.idB, UnusedID(cfg)}
  {
    assert |UnusedID(cfg)| > |cfg.idA| && |UnusedID(cfg)| > |cfg.idB|;
    forall id ensures |UnuseID(id, UnusedID(cfg))| > |UnusedID(cfg)| {
    }
  }
}
