// When a client can be misled: the exact condition under which a reply made for one query can be
// accepted for the next.
module StaleReplies {
  import opened Words
  import opened Timestamps
  import opened Packets
  import opened Sockets
  import opened Accuracy
  import opened Network
  import opened ExchangeSafety
  import opened EndToEnd

  // Two queries were asked and the second accepted a reply that no server made of its datagram
  // between its two clock reads.
  ghost predicate Misled(cfg: Config, w: World, q1: Query, q2: Query) {
    && w.queries == [q1, q2] && |w.accepted| == 1 && w.accepted[0].query == 1
    && !exists h :: Answers(cfg, w, h, 1, w.accepted[0])
  }

  // A client asks s1 and, gap ns later, s2. Some behaviour of the network misleads it exactly when
  // the two queries have the same stamp on the wire and are not one and the same question.
  lemma StaleAcceptance(cfg: Config, c: Address, s1: Address, s2: Address, p1: int, p2: int, now: int, gap: nat)
    requires Disjoint(cfg) && c in cfg.clients && s1 in cfg.servers
    requires StampOf(ReadClock(cfg.servers[s1].kind, now + cfg.servers[s1].ahead)) != ZERO_STAMP
    ensures var q1, q2 := Query(c, s1, now, p1), Query(c, s2, now + gap, p2);
            (exists actions :: Misled(cfg, Run(cfg, Init(now), actions), q1, q2))
            <==> QueryStamp(cfg, q1) == QueryStamp(cfg, q2) && (gap > 0 || s1 != s2)
  {
    var q1, q2 := Query(c, s1, now, p1), Query(c, s2, now + gap, p2);
    forall actions | Misled(cfg, Run(cfg, Init(now), actions), q1, q2)
      ensures QueryStamp(cfg, q1) == QueryStamp(cfg, q2) && (gap > 0 || s1 != s2)
    {
      MisledOnlyBySameStamp(cfg, now, actions, q1, q2);
    }
    if QueryStamp(cfg, q1) == QueryStamp(cfg, q2) && (gap > 0 || s1 != s2) {
      hide Misled;
      hide QueryStamp;
      hide Run;
      StaleRunMisleads(cfg, q1, q2, gap);
    }
  }

  // The same in terms of the client's clock, when both transmit times are perturbed alike: the two
  // readings agree in what a stamp keeps of them. For a POSIX clock that is the millisecond.
  lemma StaleWithinMillisecond(cfg: Config, c: Address, s1: Address, s2: Address, p: int, now: int, gap: nat)
    requires Disjoint(cfg) && c in cfg.clients && s1 in cfg.servers
    requires StampOf(ReadClock(cfg.servers[s1].kind, now + cfg.servers[s1].ahead)) != ZERO_STAMP
    ensures var q1, q2 := Query(c, s1, now, p), Query(c, s2, now + gap, p);
            var clock := cfg.clients[c];
            (exists actions :: Misled(cfg, Run(cfg, Init(now), actions), q1, q2))
            <==> SameStampTime(clock.kind, now + clock.ahead, now + gap + clock.ahead) && (gap > 0 || s1 != s2)
  {
    hide Misled;
    hide Run;
    hide SameStampTime;
    hide PerturbedStampAt;
    StaleAcceptance(cfg, c, s1, s2, p, p, now, gap);
    PerturbedCollision(cfg.clients[c], now, p, now + gap, p);
  }

  // ---- Only queries of one stamp can be confused ----

  lemma MisledOnlyBySameStamp(cfg: Config, now: int, actions: seq<Action>, q1: Query, q2: Query)
    requires Disjoint(cfg) && q1.client == q2.client && q1.client in cfg.clients
    requires Misled(cfg, Run(cfg, Init(now), actions), q1, q2)
    ensures QueryStamp(cfg, q1) == QueryStamp(cfg, q2)
    ensures q1.t1 != q2.t1 || q1.server != q2.server
  {
    hide Run;
    hide Inv;
    hide QueryStamp;
    var w := Run(cfg, Init(now), actions);
    var a := w.accepted[0];
    Reachable(cfg, now, actions);
    AcceptedReplyWasMade(cfg, w, 0);
    var h, j: nat :| j < |w.queries| && Answers(cfg, w, h, j, a) && w.queries[j].client == w.queries[a.query].client
                     && QueryStamp(cfg, w.queries[j]) == QueryStamp(cfg, w.queries[a.query]);
    SameQuestion(cfg, w, h, a);
  }

  // Asked at the same instant, of the same server, with the same stamp, two queries are one.
  lemma SameQuestion(cfg: Config, w: World, h: Handling, a: Acceptance)
    requires |w.queries| == 2 && w.queries[0].client == w.queries[1].client && w.queries[0].client in cfg.clients
    ensures Answers(cfg, w, h, 0, a) && QueryStamp(cfg, w.queries[0]) == QueryStamp(cfg, w.queries[1])
            && w.queries[0].t1 == w.queries[1].t1 && w.queries[0].server == w.queries[1].server ==>
              Answers(cfg, w, h, 1, a)
  {
    hide QueryStamp;
  }

  // ---- And they can be ----

  function Reply1(cfg: Config, q1: Query): NetDatagram
    requires q1.client in cfg.clients && q1.server in cfg.servers
  {
    ReplyDatagram(cfg.servers[q1.server], q1.server, QueryDatagram(cfg, q1), q1.t1, q1.t1)
  }

  // The first query is answered at once, its client gives up before hearing the answer, asks the
  // second time, and hears the answer then.
  function StaleRun(cfg: Config, q1: Query, q2: Query, gap: nat): (actions: seq<Action>)
    requires q1.client in cfg.clients && q1.server in cfg.servers
    ensures |actions| == 7
  {
    [Ask(q1.client, q1.server, q1.perturbation, true), Take(q1.server, QueryDatagram(cfg, q1)),
     Answer(q1.server, true), GiveUp(q1.client), Advance(gap),
     Ask(q2.client, q2.server, q2.perturbation, true), Hear(q2.client, Reply1(cfg, q1))]
  }

  lemma StaleRunMisleads(cfg: Config, q1: Query, q2: Query, gap: nat)
    requires Disjoint(cfg) && q1.client in cfg.clients && q1.client == q2.client && q1.server in cfg.servers
    requires q2.t1 == q1.t1 + gap && (gap > 0 || q1.server != q2.server)
    requires QueryStamp(cfg, q1) == QueryStamp(cfg, q2)
    requires StampOf(ReadClock(cfg.servers[q1.server].kind, q1.t1 + cfg.servers[q1.server].ahead)) != ZERO_STAMP
    ensures Misled(cfg, Run(cfg, Init(q1.t1), StaleRun(cfg, q1, q2, gap)), q1, q2)
  {
    hide QueryStamp;
    hide Accepts;
    hide ReplyDatagram;
    hide QueryDatagram;
    hide ReadClock;
    hide StampOf;
    var request, reply := QueryDatagram(cfg, q1), Reply1(cfg, q1);
    QueryAddresses(cfg, q1);
    OwnReplyAccepted(cfg, q1, cfg.servers[q1.server], q1.t1, q1.t1);
    var actions := StaleRun(cfg, q1, q2, gap);
    var w1 := World(q1.t1, {request}, map[q1.client := 0], map[], [q1], [], []);
    var w2 := w1.(busy := map[q1.server := Pending(request, q1.t1)]);
    var w3 := w1.(net := {request, reply}, handled := [Handling(q1.server, request, q1.t1, q1.t1, reply)]);
    var w4 := w3.(waiting := map[]);
    var w5 := w4.(now := q2.t1);
    var w6 := Do(cfg, w5, actions[5]);
    FirstQuery(cfg, q1, request, reply, w1, w2, w3);
    SecondQuery(cfg, q1, q2, w3, w4, w5, reply);
    RunSeven(cfg, Init(q1.t1), actions, w1, w2, w3, w4, w5, w6);
    hide Run;
    hide Do;
    NothingAnswers(cfg, Run(cfg, Init(q1.t1), actions), q1, q2, request, reply);
  }

  lemma FirstQuery(cfg: Config, q1: Query, request: NetDatagram, reply: NetDatagram, w1: World, w2: World, w3: World)
    requires q1.client in cfg.clients && q1.server in cfg.servers
    requires request == QueryDatagram(cfg, q1) && request.dst == q1.server && |request.bytes| == PACKET_SIZE
    requires reply == Reply1(cfg, q1)
    requires w1 == World(q1.t1, {request}, map[q1.client := 0], map[], [q1], [], [])
    requires w2 == w1.(busy := map[q1.server := Pending(request, q1.t1)])
    requires w3 == w1.(net := {request, reply}, handled := [Handling(q1.server, request, q1.t1, q1.t1, reply)])
    ensures var a := Ask(q1.client, q1.server, q1.perturbation, true);
            Enabled(cfg, Init(q1.t1), a) && Do(cfg, Init(q1.t1), a) == w1
    ensures var a := Take(q1.server, request);
            Enabled(cfg, w1, a) && Do(cfg, w1, a) == w2
    ensures var a := Answer(q1.server, true);
            Enabled(cfg, w2, a) && Do(cfg, w2, a) == w3
  {
    hide QueryStamp;
    hide ReplyDatagram;
    hide QueryDatagram;
  }

  // A second query of the same stamp accepts the reply still under way.
  lemma SecondQuery(cfg: Config, q1: Query, q2: Query, w3: World, w4: World, w5: World, reply: NetDatagram)
    requires q1.client in cfg.clients && q2.client == q1.client && q2.t1 >= q1.t1
    requires w3.now == q1.t1 && w3.waiting == map[q1.client := 0] && w3.queries == [q1] && w3.accepted == []
    requires reply in w3.net && reply.dst == q1.client && |reply.bytes| == PACKET_SIZE
    requires w4 == w3.(waiting := map[]) && w5 == w4.(now := q2.t1)
    requires Accepts(Unpack(QueryStamp(cfg, q2)), Head(reply.bytes))
    ensures Enabled(cfg, w3, GiveUp(q1.client)) && Do(cfg, w3, GiveUp(q1.client)) == w4
    ensures Enabled(cfg, w4, Advance(q2.t1 - q1.t1)) && Do(cfg, w4, Advance(q2.t1 - q1.t1)) == w5
    ensures var ask, hear := Ask(q2.client, q2.server, q2.perturbation, true), Hear(q2.client, reply);
            Enabled(cfg, w5, ask)
            && var w6 := Do(cfg, w5, ask);
               Enabled(cfg, w6, hear)
               && Do(cfg, w6, hear).accepted == [Acceptance(1, reply, q2.t1)]
               && Do(cfg, w6, hear).handled == w3.handled
               && Do(cfg, w6, hear).queries == [q1, q2]
  {
    hide QueryStamp;
    hide Accepts;
    hide QueryDatagram;
  }

  lemma NothingAnswers(cfg: Config, w: World, q1: Query, q2: Query, request: NetDatagram, reply: NetDatagram)
    requires w.accepted == [Acceptance(1, reply, q2.t1)]
    requires w.handled == [Handling(q1.server, request, q1.t1, q1.t1, reply)]
    requires w.queries == [q1, q2] && (q1.t1 < q2.t1 || q1.server != q2.server)
    ensures Misled(cfg, w, q1, q2)
  {
    hide QueryDatagram;
  }

  lemma RunOne(cfg: Config, w: World, actions: seq<Action>, a: Action)
    ensures Run(cfg, w, actions + [a])
            == var v := Run(cfg, w, actions); if Enabled(cfg, v, a) then Do(cfg, v, a) else v
  {
    assert (actions + [a])[..|actions|] == actions;
  }

  lemma RunSeven(cfg: Config, w: World, actions: seq<Action>,
                 w1: World, w2: World, w3: World, w4: World, w5: World, w6: World)
    requires |actions| == 7
    requires Enabled(cfg, w, actions[0]) && w1 == Do(cfg, w, actions[0])
    requires Enabled(cfg, w1, actions[1]) && w2 == Do(cfg, w1, actions[1])
    requires Enabled(cfg, w2, actions[2]) && w3 == Do(cfg, w2, actions[2])
    requires Enabled(cfg, w3, actions[3]) && w4 == Do(cfg, w3, actions[3])
    requires Enabled(cfg, w4, actions[4]) && w5 == Do(cfg, w4, actions[4])
    requires Enabled(cfg, w5, actions[5]) && w6 == Do(cfg, w5, actions[5])
    requires Enabled(cfg, w6, actions[6])
    ensures Run(cfg, w, actions) == Do(cfg, w6, actions[6])
  {
    hide Do;
    hide Enabled;
    forall n | 0 <= n < 7
      ensures actions[..n + 1] == actions[..n] + [actions[n]]
    {}
    RunOne(cfg, w, [], actions[0]);
    RunOne(cfg, w, actions[..1], actions[1]);
    RunOne(cfg, w, actions[..2], actions[2]);
    RunOne(cfg, w, actions[..3], actions[3]);
    RunOne(cfg, w, actions[..4], actions[4]);
    RunOne(cfg, w, actions[..5], actions[5]);
    RunOne(cfg, w, actions[..6], actions[6]);
    assert actions[..0 + 1] == [actions[0]] && actions[..6 + 1] == actions;
  }

  // ---- An instance ----

  const CLIENT: Address := 1
  const SERVER: Address := 2
  const PAIR := Config(map[CLIENT := Clock(PosixClock, 0)], map[SERVER := Clock(PosixClock, 0)])

  // Unperturbed queries 1 ns apart fall into the same millisecond, so the second can accept the
  // reply to the first, which the server made before the second was asked.
  lemma StaleReplyAccepted()
    ensures Disjoint(PAIR)
    ensures exists actions ::
              Misled(PAIR, Run(PAIR, Init(0), actions), Query(CLIENT, SERVER, 0, 0), Query(CLIENT, SERVER, 1, 0))
  {
    hide Misled;
    hide Run;
    NonzeroStamp();
    hide StampOf;
    hide ReadClock;
    StaleWithinMillisecond(PAIR, CLIENT, SERVER, SERVER, 0, 0, 1);
  }

  lemma NonzeroStamp()
    ensures StampOf(ReadClock(PosixClock, 0)) != ZERO_STAMP
  {
    assert ReadClock(PosixClock, 0) == Posix(0, 0);
  }
}
