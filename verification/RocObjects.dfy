/**
 The objects keep to the directory: what a module's server does when an object comes or goes, when a
 peer logs in or joins, and when a message arrives is the step of the directory of that name.
 */
module RocObjects {
  import opened Basics
  import opened RocCache
  import opened RocServer
  import opened RocDirectory

  /** The peers of a server, by the link from its module that each is the end of. */
  type Peers = map<LinkID, Peer>

  ghost predicate LinksAre(w: World, s: State, server: ROCServer, peers: Peers)
    reads server, peers.Values
  {
    && (forall l :: l in peers <==> l in s.links && s.links[l].from == server.moduleid)
    && (forall k, l :: k in peers && l in peers && peers[k] == peers[l] ==> k == l)
    && server.servers == peers.Values
    && forall l :: l in peers ==> peers[l].moduleID == if s.links[l].known then s.links[l].to else ""
  }

  /** The server and its peers are in the state that the directory has for the module. */
  ghost predicate Shows(w: World, s: State, server: ROCServer, peers: Peers)
    reads server, server.cache, peers.Values
  {
    && "" !in server.process && (forall n :: n in server.process <==> w.process(n) == w.process(server.moduleid))
    && server.cache.Valid() && server.cache.Hosts() == CacheOf(s, w.process(server.moduleid))
    && server.Local() == Local(s, server.moduleid)
    && LinksAre(w, s, server, peers)
  }

  /** The links are given these messages, and the others nothing. */
  ghost predicate Given(w: World, s: State, t: State, news: map<LinkID, seq<SROCBind>>) {
    && t.links.Keys == s.links.Keys && news.Keys <= s.links.Keys
    && forall l :: l in s.links ==> t.links[l] == if l in news then Sent(w, s.links[l], news[l]) else s.links[l]
  }

  /** A link posts exactly if its peer is not known to be in the process. */
  lemma PostsIfOutside(w: World, s: State, server: ROCServer, peers: Peers)
    requires Shows(w, s, server, peers)
    ensures forall l :: l in peers ==> (Posts(w, s.links[l]) <==> peers[l].moduleID !in server.process)
  {
  }

  /** What a change gives to the links of its module. */
  ghost function NewsOf(w: World, s: State, m: ModuleID, msg: SROCBind): map<LinkID, seq<SROCBind>> {
    map l | l in s.links && s.links[l].from == m :: if Posts(w, s.links[l]) then [msg] else []
  }

  lemma ChangeGives(w: World, s: State, m: ModuleID, x: Obj, isDelete: bool)
    requires w.owner(x) == m
    ensures Given(w, s, Next(w, s, Step.Change(m, x, isDelete)), NewsOf(w, s, m, SROCBind(m, isDelete, x.0, [x.1])))
  {
    hide Apply;
    forall link: Link ensures Sent(w, link, []) == link {
      assert link.early + [] == link.early && link.late + [] == link.late;
    }
  }

  /** Giving messages to links makes no link, and no login. */
  lemma LinksStay(w: World, s: State, t: State, server: ROCServer, peers: Peers, news: map<LinkID, seq<SROCBind>>)
    requires Given(w, s, t, news) && LinksAre(w, s, server, peers)
    ensures LinksAre(w, t, server, peers)
  {
  }

  /** What the server tells its peers, and what it keeps. */
  method Announce(w: World, ghost s: State, server: ROCServer, ghost peers: Peers, x: Obj, isDelete: bool)
    requires LinksAre(w, s, server, peers) && server.cache.Valid() && !server.asynchronous
    modifies server`localObj, server`rocAddCacheChan, server`rocDelCacheChan, server.cache, server.servers`sent
    ensures LinksAre(w, s, server, peers) && server.cache.Valid()
    ensures server.cache.Hosts() == Apply(old(server.cache.Hosts()),
              if isDelete then Op.DelM(x.0, [x.1], server.moduleid) else Op.SetM(x.0, [x.1], server.moduleid))
    ensures server.Local() == if isDelete then old(server.Local()) - {x} else old(server.Local()) + {x}
    ensures forall l :: l in peers && peers[l].moduleID !in server.process ==>
              peers[l].sent == old(peers[l].sent) + [SROCBind(server.moduleid, isDelete, x.0, [x.1])]
    ensures forall l :: l in peers && peers[l].moduleID in server.process ==> peers[l].sent == old(peers[l].sent)
    ensures forall l :: l in peers ==> peers[l].moduleID == old(peers[l].moduleID)
  {
    hide Apply, AsHosts, ObjsOf;
    assert x == (x.0, x.1);
    if isDelete {
      server.OnROCObjDel(x.0, x.1);
    } else {
      server.OnROCObjAdd(x.0, x.1);
    }
  }

  /** An object comes or goes: the server does the directory's change, and sends what that gives to its links. */
  method Change(w: World, ghost s: State, server: ROCServer, ghost peers: Peers, x: Obj, isDelete: bool)
      returns (ghost news: map<LinkID, seq<SROCBind>>)
    requires Shows(w, s, server, peers) && !server.asynchronous && w.owner(x) == server.moduleid
    modifies server`localObj, server`rocAddCacheChan, server`rocDelCacheChan, server.cache, server.servers`sent
    ensures var t := Next(w, s, Step.Change(server.moduleid, x, isDelete));
            Shows(w, t, server, peers) && Given(w, s, t, news)
    ensures news.Keys == peers.Keys && forall l :: l in peers ==> peers[l].sent == old(peers[l].sent) + news[l]
  {
    hide Apply, CacheOf, Local, Next, Posts, Given, LinksAre, AsHosts, ObjsOf;
    ghost var t := Next(w, s, Step.Change(server.moduleid, x, isDelete));
    news := NewsOf(w, s, server.moduleid, SROCBind(server.moduleid, isDelete, x.0, [x.1]));
    PostsIfOutside(w, s, server, peers);
    NewsFor(w, s, server, peers, SROCBind(server.moduleid, isDelete, x.0, [x.1]));
    ChangeGives(w, s, server.moduleid, x, isDelete);
    Owned(w, s, server.moduleid, x, isDelete);
    Announce(w, s, server, peers, x, isDelete);
    LinksStay(w, s, t, server, peers, news);
  }

  lemma NewsFor(w: World, s: State, server: ROCServer, peers: Peers, msg: SROCBind)
    requires LinksAre(w, s, server, peers)
    ensures var news := NewsOf(w, s, server.moduleid, msg);
            && news.Keys == peers.Keys
            && forall l :: l in peers ==> l in s.links && news[l] == if Posts(w, s.links[l]) then [msg] else []
  {
  }

  lemma Owned(w: World, s: State, m: ModuleID, x: Obj, isDelete: bool)
    requires w.owner(x) == m
    ensures var t := Next(w, s, Step.Change(m, x, isDelete));
            && Local(t, m) == (if isDelete then Local(s, m) - {x} else Local(s, m) + {x})
            && CacheOf(t, w.process(m)) ==
                 Apply(CacheOf(s, w.process(m)), if isDelete then Op.DelM(x.0, [x.1], m) else Op.SetM(x.0, [x.1], m))
  {
    hide Apply;
  }

  // ---------------------------------------------------------------------------------------
  // Connections
  // ---------------------------------------------------------------------------------------

  /** A connection enters the pool; the peer behind it is not known yet. */
  method Connect(w: World, ghost s: State, server: ROCServer, ghost peers: Peers, ghost l: LinkID, ghost r: ModuleID)
      returns (peer: Peer)
    requires Shows(w, s, server, peers) && Enabled(w, s, Step.Connect(l, server.moduleid, r))
    modifies server`servers
    ensures Shows(w, Next(w, s, Step.Connect(l, server.moduleid, r)), server, peers[l := peer])
  {
    hide AsHosts, ObjsOf;
    peer := new Peer();
    server.servers := server.servers + {peer};
    assert server.Local() == old(server.Local());
    OneMorePeer(peers, l, peer);
  }

  lemma OneMorePeer(peers: Peers, l: LinkID, peer: Peer)
    requires l !in peers
    ensures peers[l := peer].Values == peers.Values + {peer}
  {
    forall v | v in peers.Values ensures v in peers[l := peer].Values {
      var k :| k in peers && peers[k] == v;
      assert peers[l := peer][k] == v;
    }
    assert peers[l := peer][l] == peer;
  }

  /** The peer shows its id. */
  method Login(w: World, ghost s: State, server: ROCServer, ghost peers: Peers, ghost l: LinkID, peer: Peer,
      id: ModuleID)
    requires Shows(w, s, server, peers) && l in peers && peers[l] == peer && id == s.links[l].to
    modifies peer`moduleID
    ensures Shows(w, Next(w, s, Step.Login(l)), server, peers)
  {
    hide AsHosts, ObjsOf;
    peer.moduleID := id;
  }

  /** After the login a peer of another process is introduced to the module's objects. */
  method Join(w: World, ghost s: State, server: ROCServer, ghost peers: Peers, ghost l: LinkID, peer: Peer)
      returns (msgs: seq<SROCBind>)
    requires Shows(w, s, server, peers) && l in peers && peers[l] == peer && s.links[l].known && s.links[l].signed
    modifies peer`sent
    ensures peer.sent == old(peer.sent) + msgs
    ensures Inside(w, s.links[l]) ==> msgs == []
    ensures !Inside(w, s.links[l]) ==>
              Enabled(w, s, Step.Join(l, msgs)) && Shows(w, Next(w, s, Step.Join(l, msgs)), server, peers)
  {
    hide AsHosts, ObjsOf, Snapshot;
    msgs := server.OnServerJoinSubnet(peer);
  }

  /** A message arrives at a server of the process that its link leads to. */
  method Receive(w: World, ghost s: State, server: ROCServer, ghost peers: Peers, ghost k: Lane, msg: SROCBind)
    requires Shows(w, s, server, peers) && Enabled(w, s, Step.Deliver(k)) && msg == QueueOf(s, k)[0]
    requires w.process(s.links[k.link].to) == w.process(server.moduleid)
    modifies server.cache
    ensures Shows(w, Next(w, s, Step.Deliver(k)), server, peers)
  {
    hide Apply, AsHosts, ObjsOf, LinksAre, Next, CacheOf;
    DeliverIs(w, s, k);
    server.OnMsgROCBind(msg);
    DeliveredLinks(w, s, k, server, peers);
  }

  lemma DeliveredLinks(w: World, s: State, k: Lane, server: ROCServer, peers: Peers)
    requires Enabled(w, s, Step.Deliver(k)) && LinksAre(w, s, server, peers)
    ensures LinksAre(w, Next(w, s, Step.Deliver(k)), server, peers)
  {
    hide Apply;
  }
}
