// Every reachable state of the network keeps the invariant, and what follows for accepted replies.
module ExchangeSafety {
  import opened Words
  import opened Timestamps
  import opened Packets
  import opened Sockets
  import opened Accuracy
  import opened Network

  // ---- What more history and more time keep ----

  ghost predicate Grows(w: World, v: World) {
    w.now <= v.now && w.queries <= v.queries && w.handled <= v.handled
  }

  lemma FromQueryKept(cfg: Config, w: World, v: World, d: NetDatagram, t: int, u: int)
    requires Grows(w, v) && t <= u && FromQuery(cfg, w.queries, d, t)
    ensures FromQuery(cfg, v.queries, d, u)
  {
    var i :| 0 <= i < |w.queries| && IsDatagramOf(cfg, w.queries[i], d, t);
    assert IsDatagramOf(cfg, v.queries[i], d, u);
  }

  lemma ReplySentKept(w: World, v: World, d: NetDatagram, t: int, u: int)
    requires Grows(w, v) && t <= u && ReplySent(w.handled, d, t)
    ensures ReplySent(v.handled, d, u)
  {
    var i :| 0 <= i < |w.handled| && w.handled[i].reply == d && w.handled[i].t3 <= t;
    assert v.handled[i] == w.handled[i];
  }

  lemma NetWellKept(cfg: Config, w: World, v: World, d: NetDatagram)
    requires Grows(w, v) && NetWell(cfg, w.queries, w.handled, d, w.now)
    ensures NetWell(cfg, v.queries, v.handled, d, v.now)
  {
    if d.src in cfg.clients { FromQueryKept(cfg, w, v, d, w.now, v.now); }
    if d.dst in cfg.clients && d.src !in cfg.clients { ReplySentKept(w, v, d, w.now, v.now); }
  }

  lemma TakenWellKept(cfg: Config, w: World, v: World, server: Address, d: NetDatagram, t2: int)
    requires Grows(w, v) && TakenWell(cfg, w.queries, server, d, t2, w.now)
    ensures TakenWell(cfg, v.queries, server, d, t2, v.now)
  {
    if d.src in cfg.clients { FromQueryKept(cfg, w, v, d, t2, t2); }
  }

  lemma AcceptedWellKept(cfg: Config, w: World, v: World, a: Acceptance)
    requires Grows(w, v) && AcceptedWell(cfg, w.queries, w.handled, a, w.now)
    ensures AcceptedWell(cfg, v.queries, v.handled, a, v.now)
  {
    ReplySentKept(w, v, a.reply, a.t4, a.t4);
    assert v.queries[a.query] == w.queries[a.query];
  }

  lemma AllKept(cfg: Config, w: World, v: World)
    requires Grows(w, v) && Inv(cfg, w)
    ensures forall d :: d in w.net ==> NetWell(cfg, v.queries, v.handled, d, v.now)
    ensures forall c :: c in w.waiting ==> WaitingWell(cfg, v.queries, c, w.waiting[c], v.now)
    ensures forall s :: s in w.busy ==> TakenWell(cfg, v.queries, s, w.busy[s].request, w.busy[s].t2, v.now)
    ensures forall h :: h in w.handled ==> HandledWell(cfg, v.queries, h, v.now)
    ensures forall a :: a in w.accepted ==> AcceptedWell(cfg, v.queries, v.handled, a, v.now)
  {
    hide NetWell;
    hide TakenWell;
    hide AcceptedWell;
    hide ReplyDatagram;
    forall d | d in w.net ensures NetWell(cfg, v.queries, v.handled, d, v.now) { NetWellKept(cfg, w, v, d); }
    forall s | s in w.busy
      ensures TakenWell(cfg, v.queries, s, w.busy[s].request, w.busy[s].t2, v.now)
    {
      TakenWellKept(cfg, w, v, s, w.busy[s].request, w.busy[s].t2);
    }
    forall h | h in w.handled
      ensures HandledWell(cfg, v.queries, h, v.now)
    {
      HandledWellKept(cfg, w, v, h);
    }
    forall a | a in w.accepted
      ensures AcceptedWell(cfg, v.queries, v.handled, a, v.now)
    {
      AcceptedWellKept(cfg, w, v, a);
    }
  }

  lemma HandledWellKept(cfg: Config, w: World, v: World, h: Handling)
    requires Grows(w, v) && HandledWell(cfg, w.queries, h, w.now)
    ensures HandledWell(cfg, v.queries, h, v.now)
  {
    hide ReplyDatagram;
    TakenWellKept(cfg, w, v, h.server, h.request, h.t2);
  }

  // ---- The steps ----

  lemma AskKeeps(cfg: Config, w: World, a: Action)
    requires Inv(cfg, w) && Disjoint(cfg) && a.Ask? && Enabled(cfg, w, a)
    ensures Inv(cfg, Do(cfg, w, a))
  {
    hide QueryDatagram;
    hide ReplyDatagram;
    hide Accepts;
    var v := Do(cfg, w, a);
    AllKept(cfg, w, v);
    var q := Query(a.client, a.server, w.now, a.perturbation);
    assert v.queries[|w.queries|] == q;
    QueryAddresses(cfg, q);
    assert IsDatagramOf(cfg, v.queries[|w.queries|], QueryDatagram(cfg, q), v.now);
    assert FromQuery(cfg, v.queries, QueryDatagram(cfg, q), v.now);
  }

  lemma QueryAddresses(cfg: Config, q: Query)
    requires q.client in cfg.clients
    ensures QueryDatagram(cfg, q).src == q.client && QueryDatagram(cfg, q).dst == q.server
  {}

  lemma TakeKeeps(cfg: Config, w: World, a: Action)
    requires Inv(cfg, w) && a.Take? && Enabled(cfg, w, a)
    ensures Inv(cfg, Do(cfg, w, a))
  {
    hide ReplyDatagram;
    hide Accepts;
    var v := Do(cfg, w, a);
    AllKept(cfg, w, v);
    assert NetWell(cfg, w.queries, w.handled, a.d, w.now);
  }

  lemma AnswerKeeps(cfg: Config, w: World, a: Action)
    requires Inv(cfg, w) && Disjoint(cfg) && a.Answer? && Enabled(cfg, w, a)
    ensures Inv(cfg, Do(cfg, w, a))
  {
    hide ReplyDatagram;
    hide Accepts;
    var v := Do(cfg, w, a);
    AllKept(cfg, w, v);
    if a.sendOk {
      var p := w.busy[a.server];
      var h := v.handled[|w.handled|];
      ReplyAddresses(cfg.servers[a.server], a.server, p.request, p.t2, w.now);
      assert HandledWell(cfg, v.queries, h, v.now);
      assert ReplySent(v.handled, h.reply, v.now);
      assert NetWell(cfg, v.queries, v.handled, h.reply, v.now);
    }
  }

  lemma ReplyAddresses(c: Clock, server: Address, request: NetDatagram, t2: int, t3: int)
    requires |request.bytes| >= PACKET_SIZE
    ensures var r := ReplyDatagram(c, server, request, t2, t3);
            r.src == server && r.dst == request.src && |r.bytes| == PACKET_SIZE
  {}

  // A datagram accepted by a client came from outside the clients, as requests are not accepted.
  lemma AcceptedIsReply(cfg: Config, w: World, client: Address, d: NetDatagram)
    requires Inv(cfg, w) && Enabled(cfg, w, Hear(client, d))
    requires |d.bytes| >= PACKET_SIZE
    requires Accepts(Unpack(QueryStamp(cfg, w.queries[w.waiting[client]])), Head(d.bytes))
    ensures ReplySent(w.handled, d, w.now)
  {
    hide Accepts;
    hide QueryStamp;
    hide QueryDatagram;
    assert NetWell(cfg, w.queries, w.handled, d, w.now);
    assert WaitingWell(cfg, w.queries, client, w.waiting[client], w.now);
    if d.src in cfg.clients {
      var i :| 0 <= i < |w.queries| && IsDatagramOf(cfg, w.queries[i], d, w.now);
      QueryNotAccepted(cfg, w.queries[i], Unpack(QueryStamp(cfg, w.queries[w.waiting[client]])));
    }
  }

  lemma QueryNotAccepted(cfg: Config, q: Query, sent: Timestamp)
    requires q.client in cfg.clients
    ensures var bytes := QueryDatagram(cfg, q).bytes;
            |bytes| == PACKET_SIZE && !Accepts(sent, Head(bytes))
  {
    hide Accepts;
    hide QueryStamp;
    hide RequestBytes;
    var stamp := Unpack(QueryStamp(cfg, q));
    RequestFields(stamp, sent);
    assert Head(QueryDatagram(cfg, q).bytes) == RequestBytes(stamp);
  }

  lemma HearKeeps(cfg: Config, w: World, a: Action)
    requires Inv(cfg, w) && a.Hear? && Enabled(cfg, w, a)
    ensures Inv(cfg, Do(cfg, w, a))
  {
    hide ReplyDatagram;
    hide Accepts;
    hide QueryStamp;
    var v := Do(cfg, w, a);
    AllKept(cfg, w, v);
    if v.accepted != w.accepted {
      AcceptedIsReply(cfg, w, a.client, a.d);
      var last := v.accepted[|w.accepted|];
      assert WaitingWell(cfg, w.queries, a.client, w.waiting[a.client], w.now);
      assert AcceptedWell(cfg, v.queries, v.handled, last, v.now);
    }
  }

  lemma OthersKeep(cfg: Config, w: World, a: Action)
    requires Inv(cfg, w) && (a.Advance? || a.GiveUp? || a.Stray?) && Enabled(cfg, w, a)
    ensures Inv(cfg, Do(cfg, w, a))
  {
    hide ReplyDatagram;
    hide Accepts;
    hide FromQuery;
    hide ReplySent;
    AllKept(cfg, w, Do(cfg, w, a));
  }

  // The invariant holds in every reachable state.
  lemma {:induction false} Reachable(cfg: Config, now: int, actions: seq<Action>)
    requires Disjoint(cfg)
    ensures Inv(cfg, Run(cfg, Init(now), actions))
  {
    if actions != [] {
      hide Inv;
      hide Do;
      var w := Run(cfg, Init(now), actions[..|actions| - 1]);
      var a := actions[|actions| - 1];
      Reachable(cfg, now, actions[..|actions| - 1]);
      if Enabled(cfg, w, a) {
        match a
        case Ask(_, _, _, _) => AskKeeps(cfg, w, a);
        case Take(_, _) => TakeKeeps(cfg, w, a);
        case Answer(_, _) => AnswerKeeps(cfg, w, a);
        case Hear(_, _) => HearKeeps(cfg, w, a);
        case _ => OthersKeep(cfg, w, a);
      }
    }
  }

  // ---- Accepted replies ----

  // h is the server's handling of query j's own datagram, and made the accepted reply.
  ghost predicate Answers(cfg: Config, w: World, h: Handling, j: nat, a: Acceptance) {
    && j < |w.queries| && w.queries[j].client in cfg.clients
    && h in w.handled && h.server == w.queries[j].server && h.server in cfg.servers
    && h.request == QueryDatagram(cfg, w.queries[j])
    && h.reply == a.reply
    && w.queries[j].t1 <= h.t2 <= h.t3 <= a.t4
  }

  // Queries of one client with the same stamp are one query.
  ghost predicate DistinctStamps(cfg: Config, queries: seq<Query>) {
    forall i, j :: 0 <= i < j < |queries| && queries[i].client == queries[j].client && queries[i].client in cfg.clients ==>
      QueryStamp(cfg, queries[i]) != QueryStamp(cfg, queries[j])
  }

  // With no assumption on stamps: a server made the accepted reply out of a datagram of some query
  // of that same client with that same stamp, and its clock reads lie between that query and the
  // acceptance.
  lemma AcceptedReplyWasMade(cfg: Config, w: World, k: nat)
    requires Inv(cfg, w) && k < |w.accepted|
    ensures var a := w.accepted[k];
            a.query < |w.queries| && w.queries[a.query].client in cfg.clients
            && exists h, j: nat ::
                 j < |w.queries| && Answers(cfg, w, h, j, a) && w.queries[j].client == w.queries[a.query].client
                 && QueryStamp(cfg, w.queries[j]) == QueryStamp(cfg, w.queries[a.query])
  {
    hide QueryStamp;
    hide Accepts;
    hide ReplyDatagram;
    hide QueryDatagram;
    var a := w.accepted[k];
    assert AcceptedWell(cfg, w.queries, w.handled, a, w.now);
    var m :| 0 <= m < |w.handled| && w.handled[m].reply == a.reply && w.handled[m].t3 <= a.t4;
    var h := w.handled[m];
    assert HandledWell(cfg, w.queries, h, w.now);
    hide Inv;
    ReplyAddresses(cfg.servers[h.server], h.server, h.request, h.t2, h.t3);
    var j :| 0 <= j < |w.queries| && IsDatagramOf(cfg, w.queries[j], h.request, h.t2);
    QueryAddresses(cfg, w.queries[j]);
    EchoedStamp(cfg, w.queries[j], w.queries[a.query], h);
    assert Answers(cfg, w, h, j, a);
  }

  // The origin time of a reply made of q's datagram is q's stamp, so another query accepting it
  // has that stamp too.
  lemma EchoedStamp(cfg: Config, q: Query, other: Query, h: Handling)
    requires q.client in cfg.clients && other.client in cfg.clients && h.server in cfg.servers
    requires h.request == QueryDatagram(cfg, q) && |h.request.bytes| >= PACKET_SIZE
    requires h.reply == ReplyDatagram(cfg.servers[h.server], h.server, h.request, h.t2, h.t3)
    requires |h.reply.bytes| >= PACKET_SIZE && Accepts(Unpack(QueryStamp(cfg, other)), Head(h.reply.bytes))
    ensures QueryStamp(cfg, q) == QueryStamp(cfg, other)
  {
    hide Accepts;
    hide QueryStamp;
    hide ReplyBytes;
    hide RequestBytes;
    hide ReadClock;
    hide Parse;
    var c := cfg.servers[h.server];
    var sent := Unpack(QueryStamp(cfg, q));
    assert Head(h.request.bytes) == RequestBytes(sent);
    var r2, r3 := ReadClock(c.kind, h.t2 + c.ahead), ReadClock(c.kind, h.t3 + c.ahead);
    assert Head(h.reply.bytes) == ReplyBytes(RequestBytes(sent), r2, r3, SNTP_STRATUM);
    AcceptsReply(Unpack(QueryStamp(cfg, other)), RequestBytes(sent), r2, r3, SNTP_STRATUM);
    RequestFields(sent, sent);
    PackUnpack(ZERO_STAMP, QueryStamp(cfg, q));
    PackUnpack(ZERO_STAMP, QueryStamp(cfg, other));
  }

  // Exchange safety: in every reachable state where the stamps of each client's queries are
  // distinct, an accepted reply was made by the queried server out of a datagram of that very
  // query, and the server's clock reads lie between the client's.
  lemma ExchangeIsSafe(cfg: Config, now: int, actions: seq<Action>, k: nat)
    requires Disjoint(cfg)
    requires var w := Run(cfg, Init(now), actions);
             k < |w.accepted| && DistinctStamps(cfg, w.queries)
    ensures var w := Run(cfg, Init(now), actions);
            exists h :: Answers(cfg, w, h, w.accepted[k].query, w.accepted[k])
  {
    hide Run;
    hide Inv;
    hide QueryStamp;
    var w := Run(cfg, Init(now), actions);
    Reachable(cfg, now, actions);
    AcceptedReplyWasMade(cfg, w, k);
    var a := w.accepted[k];
    var h, j: nat :| j < |w.queries| && Answers(cfg, w, h, j, a) && w.queries[j].client == w.queries[a.query].client
                     && QueryStamp(cfg, w.queries[j]) == QueryStamp(cfg, w.queries[a.query]);
    assert j == a.query;
  }
}
