// How the steps of an exchange follow one another, over every run: what begins and ends a query and
// the handling of a datagram, and that nothing is forgotten meanwhile.
module Lifecycle {
  import opened Words
  import opened Timestamps
  import opened Packets
  import opened Sockets
  import opened Histories
  import opened Accuracy
  import opened ClientTool
  import opened Network
  import opened ExchangeSafety
  import opened EndToEnd
  import opened StaleReplies
  import opened Deployment

  // ---- Runs ----

  lemma {:induction false} RunConcat(cfg: Config, w: World, a: seq<Action>, b: seq<Action>)
    ensures Run(cfg, w, a + b) == Run(cfg, Run(cfg, w, a), b)
  {
    if b == [] {
      assert a + b == a;
    } else {
      hide Do;
      hide Enabled;
      RunConcat(cfg, w, a, Front(b));
      assert a + b == (a + Front(b)) + [Last(b)];
      RunOne(cfg, w, a + Front(b), Last(b));
    }
  }

  // The past is kept, and so is every datagram under way: it can still be delivered, once more or
  // for the first time.
  ghost predicate Remembers(w: World, v: World) {
    w.now <= v.now && w.net <= v.net && w.queries <= v.queries && w.handled <= v.handled && w.accepted <= v.accepted
  }

  lemma {:induction false} NothingForgotten(cfg: Config, w: World, actions: seq<Action>)
    ensures Remembers(w, Run(cfg, w, actions))
  {
    if actions != [] {
      hide Do;
      hide Enabled;
      hide Remembers;
      var v := Run(cfg, w, Front(actions));
      NothingForgotten(cfg, w, Front(actions));
      if Enabled(cfg, v, Last(actions)) {
        StepRemembers(cfg, v, Last(actions));
        RemembersAll(w, v, Do(cfg, v, Last(actions)));
      }
    } else {
      assert Remembers(w, w);
    }
  }

  lemma StepRemembers(cfg: Config, w: World, a: Action)
    requires Enabled(cfg, w, a)
    ensures Remembers(w, Do(cfg, w, a))
  {
    hide Accepts;
    hide QueryStamp;
    hide QueryDatagram;
    hide ReplyDatagram;
  }

  lemma RemembersAll(u: World, v: World, w: World)
    requires Remembers(u, v) && Remembers(v, w)
    ensures Remembers(u, w)
  {}

  // In every reachable state the steps are possible just when the programs can take them.
  lemma EnabledInReachable(cfg: Config, now: int, actions: seq<Action>, c: Address, s: Address, d: NetDatagram,
                           p: int, ok: bool, ns: nat)
    requires Disjoint(cfg)
    ensures var w := Run(cfg, Init(now), actions);
            (Enabled(cfg, w, Ask(c, s, p, ok)) <==> c in cfg.clients && c !in w.waiting)
            && (Enabled(cfg, w, Take(s, d)) <==>
                  s in cfg.servers && s !in w.busy && d in w.net && d.dst == s && |d.bytes| >= 48)
            && (Enabled(cfg, w, Answer(s, ok)) <==> s in w.busy)
            && (Enabled(cfg, w, Hear(c, d)) <==> c in w.waiting && d in w.net && d.dst == c)
            && (Enabled(cfg, w, GiveUp(c)) <==> c in w.waiting)
            && (Enabled(cfg, w, Stray(d)) <==> d.src !in cfg.clients && d.dst !in cfg.clients)
            && (Enabled(cfg, w, Stray(d)) ==> d in Do(cfg, w, Stray(d)).net)
            && Enabled(cfg, w, Advance(ns))
  {
    hide Run;
    Reachable(cfg, now, actions);
    var w := Run(cfg, Init(now), actions);
    assert c in w.waiting ==> WaitingWell(cfg, w.queries, c, w.waiting[c], w.now);
    assert s in w.busy ==> TakenWell(cfg, w.queries, s, w.busy[s].request, w.busy[s].t2, w.now);
  }

  // ---- Clients ----

  // Each client waits for a query of its own, not accepted before, and no query was accepted twice.
  ghost predicate OnceEach(w: World) {
    && (forall c :: c in w.waiting ==> w.waiting[c] < |w.queries| && w.queries[w.waiting[c]].client == c)
    && (forall k :: 0 <= k < |w.accepted| ==> w.accepted[k].query < |w.queries|)
    && (forall k, c :: 0 <= k < |w.accepted| && c in w.waiting ==> w.accepted[k].query != w.waiting[c])
    && (forall k, l :: 0 <= k < l < |w.accepted| ==> w.accepted[k].query != w.accepted[l].query)
  }

  lemma StepOnceEach(cfg: Config, w: World, a: Action)
    requires OnceEach(w) && Enabled(cfg, w, a)
    ensures OnceEach(Do(cfg, w, a))
  {
    hide QueryDatagram;
    hide AfterAnswer;
    match a
    case Hear(client, d) =>
      HearOnceEach(cfg, w, client, d);
    case Answer(server, sendOk) =>
      AnswerLeavesClients(cfg, w, server, sendOk);
      hide AfterHear;
    case _ =>
      hide AfterHear;
  }

  lemma HearOnceEach(cfg: Config, w: World, client: Address, d: NetDatagram)
    requires OnceEach(w) && Enabled(cfg, w, Hear(client, d))
    ensures OnceEach(AfterHear(cfg, w, client, d))
  {
    hide Accepts;
    hide QueryStamp;
  }

  lemma AnswerLeavesClients(cfg: Config, w: World, server: Address, sendOk: bool)
    requires Enabled(cfg, w, Answer(server, sendOk))
    ensures var v := AfterAnswer(cfg, w, server, sendOk);
            v.waiting == w.waiting && v.queries == w.queries && v.accepted == w.accepted
  {
    hide ReplyDatagram;
  }

  lemma {:induction false} RunOnceEach(cfg: Config, now: int, actions: seq<Action>)
    ensures OnceEach(Run(cfg, Init(now), actions))
  {
    if actions != [] {
      hide Do;
      hide Enabled;
      hide OnceEach;
      var w := Run(cfg, Init(now), Front(actions));
      RunOnceEach(cfg, now, Front(actions));
      if Enabled(cfg, w, Last(actions)) {
        StepOnceEach(cfg, w, Last(actions));
      }
    }
  }

  // Over every run, however often replies are duplicated and delivered, a query accepts at most one.
  lemma OneAcceptanceAQuery(cfg: Config, now: int, actions: seq<Action>, k: nat, l: nat)
    requires k < l < |Run(cfg, Init(now), actions).accepted|
    ensures var accepted := Run(cfg, Init(now), actions).accepted;
            accepted[k].query != accepted[l].query
  {
    hide Run;
    RunOnceEach(cfg, now, actions);
  }

  // The steps that end a query of client c, or never begin it: it receives something, good or bad,
  // its receive fails, or its send did.
  predicate Ends(a: Action, c: Address) {
    match a
    case Hear(client, _) => client == c
    case GiveUp(client) => client == c
    case Ask(client, _, _, sendOk) => client == c && !sendOk
    case _ => false
  }

  // From w to v, client c accepted nothing for its first n queries, and does not wait for them.
  ghost predicate OnlyLater(w: World, v: World, c: Address, n: nat) {
    && w.accepted <= v.accepted && n <= |v.queries|
    && (c in v.waiting ==> v.waiting[c] >= n)
    && (forall k :: |w.accepted| <= k < |v.accepted| && v.accepted[k].query < n ==>
          v.queries[v.accepted[k].query].client != c)
  }

  lemma StepOnlyLater(cfg: Config, w: World, v: World, a: Action, c: Address, n: nat)
    requires OnceEach(v) && OnlyLater(w, v, c, n) && Enabled(cfg, v, a)
    ensures OnlyLater(w, Do(cfg, v, a), c, n)
  {
    hide Accepts;
    hide QueryStamp;
    hide QueryDatagram;
    hide ReplyDatagram;
  }

  lemma {:induction false} RunOnlyLater(cfg: Config, w: World, actions: seq<Action>, c: Address)
    requires OnceEach(w) && c !in w.waiting
    ensures var v := Run(cfg, w, actions);
            OnceEach(v) && OnlyLater(w, v, c, |w.queries|)
  {
    if actions != [] {
      hide Do;
      hide Enabled;
      hide OnceEach;
      hide OnlyLater;
      var v := Run(cfg, w, Front(actions));
      RunOnlyLater(cfg, w, Front(actions), c);
      if Enabled(cfg, v, Last(actions)) {
        StepOnceEach(cfg, v, Last(actions));
        StepOnlyLater(cfg, w, v, Last(actions), c, |w.queries|);
      }
    }
  }

  // Over every run, a query is over once its client has received something, accepted or rejected,
  // or failed to receive or to send: nothing later is accepted for it or for an earlier one.
  lemma QueryEnds(cfg: Config, now: int, before: seq<Action>, a: Action, after: seq<Action>, c: Address, k: nat)
    requires Enabled(cfg, Run(cfg, Init(now), before), a) && Ends(a, c)
    requires var ended := Do(cfg, Run(cfg, Init(now), before), a);
             var v := Run(cfg, Init(now), before + [a] + after);
             |ended.accepted| <= k < |v.accepted| && v.accepted[k].query < |v.queries|
             && v.queries[v.accepted[k].query].client == c
    ensures var ended := Do(cfg, Run(cfg, Init(now), before), a);
            Run(cfg, Init(now), before + [a] + after).accepted[k].query >= |ended.queries|
  {
    var w := Run(cfg, Init(now), before);
    RunOne(cfg, Init(now), before, a);
    RunConcat(cfg, Init(now), before + [a], after);
    RunOnceEach(cfg, now, before);
    hide Run;
    StepOnceEach(cfg, w, a);
    NotWaiting(cfg, w, a, c);
    hide Do;
    hide OnceEach;
    RunOnlyLater(cfg, Do(cfg, w, a), after, c);
  }

  lemma NotWaiting(cfg: Config, w: World, a: Action, c: Address)
    requires Enabled(cfg, w, a) && Ends(a, c)
    ensures c !in Do(cfg, w, a).waiting
  {
    hide Accepts;
    hide QueryStamp;
    hide QueryDatagram;
  }

  // A query keeps the instant it was asked at, and is answered by the first datagram its client
  // hears, whatever happens between.
  lemma AskedThenHeard(cfg: Config, w: World, c: Address, s: Address, p: int, middle: seq<Action>, d: NetDatagram)
    requires Enabled(cfg, w, Ask(c, s, p, true))
    requires forall a :: a in middle ==> !Ends(a, c)
    requires d in Run(cfg, Do(cfg, w, Ask(c, s, p, true)), middle).net && d.dst == c
    ensures var v := Run(cfg, Do(cfg, w, Ask(c, s, p, true)), middle);
            Enabled(cfg, v, Hear(c, d))
            && var q := Query(c, s, w.now, p);
               var heard := Do(cfg, v, Hear(c, d));
               QueryDatagram(cfg, q) in v.net && w.queries + [q] <= v.queries
               && c !in heard.waiting && heard.queries == v.queries
               && heard.accepted == v.accepted + if OutcomeOf(cfg, q, d, v.now).Answered?
                                                 then [Acceptance(|w.queries|, d, v.now)] else []
  {
    var asked := Do(cfg, w, Ask(c, s, p, true));
    var v := Run(cfg, asked, middle);
    assert QueryDatagram(cfg, Query(c, s, w.now, p)) in asked.net;
    hide QueryDatagram;
    StillWaiting(cfg, asked, middle, c);
    NothingForgotten(cfg, asked, middle);
    hide Run;
    assert v.queries[|w.queries|] == Query(c, s, w.now, p);
    hide OutcomeOf;
    HearingIsAnswering(cfg, v, c, d);
    HearEnds(cfg, v, c, d);
  }

  lemma HearEnds(cfg: Config, v: World, c: Address, d: NetDatagram)
    requires Enabled(cfg, v, Hear(c, d))
    ensures var heard := Do(cfg, v, Hear(c, d));
            heard == AfterHear(cfg, v, c, d) && c !in heard.waiting && heard.queries == v.queries
  {
    hide Accepts;
    hide QueryStamp;
  }

  lemma {:induction false} StillWaiting(cfg: Config, w: World, actions: seq<Action>, c: Address)
    requires c in w.waiting
    requires forall a :: a in actions ==> !Ends(a, c)
    ensures var v := Run(cfg, w, actions);
            c in v.waiting && v.waiting[c] == w.waiting[c]
  {
    if actions != [] {
      hide Do;
      hide Enabled;
      hide Ends;
      var v := Run(cfg, w, Front(actions));
      assert Last(actions) in actions && forall a :: a in Front(actions) ==> a in actions;
      StillWaiting(cfg, w, Front(actions), c);
      if Enabled(cfg, v, Last(actions)) {
        StepStillWaiting(cfg, v, Last(actions), c);
      }
    }
  }

  lemma StepStillWaiting(cfg: Config, w: World, a: Action, c: Address)
    requires c in w.waiting && Enabled(cfg, w, a) && !Ends(a, c)
    ensures var v := Do(cfg, w, a);
            c in v.waiting && v.waiting[c] == w.waiting[c]
  {
    hide Accepts;
    hide QueryStamp;
    hide QueryDatagram;
    hide ReplyDatagram;
  }

  // ---- Servers ----

  predicate Answering(a: Action, s: Address) { a.Answer? && a.server == s }

  predicate Taking(a: Action, s: Address) { a.Take? && a.server == s }

  // A server's handling keeps the datagram and the instant it was taken at until the answer, whatever
  // happens between; the reply goes out with the readings of these two instants.
  lemma TakenThenAnswered(cfg: Config, w: World, s: Address, d: NetDatagram, middle: seq<Action>)
    requires Enabled(cfg, w, Take(s, d))
    requires forall a :: a in middle ==> !Answering(a, s)
    ensures var v := Run(cfg, Do(cfg, w, Take(s, d)), middle);
            Enabled(cfg, v, Answer(s, true))
            && var answered := Do(cfg, v, Answer(s, true));
               var reply := ReplyDatagram(cfg.servers[s], s, d, w.now, v.now);
               s !in answered.busy && reply in answered.net
               && answered.handled == v.handled + [Handling(s, d, w.now, v.now, reply)]
  {
    hide ReplyDatagram;
    var taken := Do(cfg, w, Take(s, d));
    StillBusy(cfg, taken, middle, s);
  }

  lemma {:induction false} StillBusy(cfg: Config, w: World, actions: seq<Action>, s: Address)
    requires s in w.busy
    requires forall a :: a in actions ==> !Answering(a, s)
    ensures var v := Run(cfg, w, actions);
            s in v.busy && v.busy[s] == w.busy[s]
  {
    if actions != [] {
      hide Do;
      hide Enabled;
      var v := Run(cfg, w, Front(actions));
      assert Last(actions) in actions && forall a :: a in Front(actions) ==> a in actions;
      StillBusy(cfg, w, Front(actions), s);
      if Enabled(cfg, v, Last(actions)) {
        StepStillBusy(cfg, v, Last(actions), s);
      }
    }
  }

  lemma StepStillBusy(cfg: Config, w: World, a: Action, s: Address)
    requires s in w.busy && Enabled(cfg, w, a) && !Answering(a, s)
    ensures var v := Do(cfg, w, a);
            s in v.busy && v.busy[s] == w.busy[s]
  {
    hide Accepts;
    hide QueryStamp;
    hide QueryDatagram;
    hide ReplyDatagram;
  }

  // Once a server has answered, whether or not the reply could be sent, it handles nothing until it
  // takes another datagram: in particular a request whose reply failed is never answered.
  lemma AnswerEndsHandling(cfg: Config, w: World, s: Address, sendOk: bool, after: seq<Action>, k: nat)
    requires Enabled(cfg, w, Answer(s, sendOk))
    requires forall a :: a in after ==> !Taking(a, s)
    requires |Do(cfg, w, Answer(s, sendOk)).handled| <= k < |Run(cfg, Do(cfg, w, Answer(s, sendOk)), after).handled|
    ensures Run(cfg, Do(cfg, w, Answer(s, sendOk)), after).handled[k].server != s
    ensures |Do(cfg, w, Answer(s, sendOk)).handled| == |w.handled| + if sendOk then 1 else 0
  {
    hide ReplyDatagram;
    assert s !in Do(cfg, w, Answer(s, sendOk)).busy;
    HandlesNothing(cfg, Do(cfg, w, Answer(s, sendOk)), after, s);
  }

  lemma {:induction false} HandlesNothing(cfg: Config, w: World, actions: seq<Action>, s: Address)
    requires s !in w.busy
    requires forall a :: a in actions ==> !Taking(a, s)
    ensures var v := Run(cfg, w, actions);
            s !in v.busy && w.handled <= v.handled
            && forall k :: |w.handled| <= k < |v.handled| ==> v.handled[k].server != s
  {
    if actions != [] {
      hide Do;
      hide Enabled;
      var v := Run(cfg, w, Front(actions));
      assert Last(actions) in actions && forall a :: a in Front(actions) ==> a in actions;
      HandlesNothing(cfg, w, Front(actions), s);
      if Enabled(cfg, v, Last(actions)) {
        StepHandlesNothing(cfg, v, Last(actions), s);
      }
    }
  }

  lemma StepHandlesNothing(cfg: Config, w: World, a: Action, s: Address)
    requires s !in w.busy && Enabled(cfg, w, a) && !Taking(a, s)
    ensures var v := Do(cfg, w, a);
            s !in v.busy && w.handled <= v.handled
            && forall k :: |w.handled| <= k < |v.handled| ==> v.handled[k].server != s
  {
    hide Accepts;
    hide QueryStamp;
    hide QueryDatagram;
    hide ReplyDatagram;
  }

  // ---- A whole exchange ----

  // The exchange of one query in which the request, the server and the reply take the given times.
  function WholeExchange(cfg: Config, q: Query, d1: nat, d2: nat, d3: nat): (actions: seq<Action>)
    requires q.client in cfg.clients && q.server in cfg.servers
    ensures |actions| == 7
  {
    [Ask(q.client, q.server, q.perturbation, true), Advance(d1), Take(q.server, QueryDatagram(cfg, q)), Advance(d2),
     Answer(q.server, true), Advance(d3), Hear(q.client, AnswerTo(cfg, q, d1, d2))]
  }

  function AnswerTo(cfg: Config, q: Query, d1: nat, d2: nat): NetDatagram
    requires q.client in cfg.clients && q.server in cfg.servers
  {
    ReplyDatagram(cfg.servers[q.server], q.server, QueryDatagram(cfg, q), q.t1 + d1, q.t1 + d1 + d2)
  }

  // The server handled the query between t2 and t3, and the client heard the reply at t4; it accepted
  // it exactly when the server's clock did not read as zero on departure.
  ghost predicate Completed(cfg: Config, w: World, q: Query, t2: int, t3: int, t4: int, reply: NetDatagram)
    requires q.client in cfg.clients && q.server in cfg.servers
  {
    && w.now == t4 && w.queries == [q] && w.waiting == map[] && w.busy == map[]
    && w.handled == [Handling(q.server, QueryDatagram(cfg, q), t2, t3, reply)]
    && w.accepted == if StampOf(ReadClock(cfg.servers[q.server].kind, t3 + cfg.servers[q.server].ahead)) != ZERO_STAMP
                     then [Acceptance(0, reply, t4)] else []
  }

  // Every such exchange happens, whatever the clocks, the perturbation and the three times.
  lemma EveryExchangeHappens(cfg: Config, q: Query, d1: nat, d2: nat, d3: nat)
    requires q.client in cfg.clients && q.server in cfg.servers
    ensures Completed(cfg, Run(cfg, Init(q.t1), WholeExchange(cfg, q, d1, d2, d3)), q, q.t1 + d1, q.t1 + d1 + d2,
                      q.t1 + d1 + d2 + d3, AnswerTo(cfg, q, d1, d2))
  {
    hide QueryStamp;
    hide Accepts;
    hide ReplyDatagram;
    hide QueryDatagram;
    hide ReadClock;
    hide StampOf;
    hide Run;
    hide Do;
    hide Enabled;
    OwnReplyAccepted(cfg, q, cfg.servers[q.server], q.t1 + d1, q.t1 + d1 + d2);
    var w6 := UpToReply(cfg, q, d1, d2, d3);
    Heard(cfg, q, AnswerTo(cfg, q, d1, d2), w6);
  }

  // All but the last step of the exchange.
  lemma UpToReply(cfg: Config, q: Query, d1: nat, d2: nat, d3: nat) returns (w6: World)
    requires q.client in cfg.clients && q.server in cfg.servers
    ensures var (request, reply) := (QueryDatagram(cfg, q), AnswerTo(cfg, q, d1, d2));
            w6 == World(q.t1 + d1 + d2 + d3, {request, reply}, map[q.client := 0], map[], [q],
                        [Handling(q.server, request, q.t1 + d1, q.t1 + d1 + d2, reply)], [])
    ensures Enabled(cfg, w6, Hear(q.client, AnswerTo(cfg, q, d1, d2))) ==>
              Run(cfg, Init(q.t1), WholeExchange(cfg, q, d1, d2, d3))
              == Do(cfg, w6, Hear(q.client, AnswerTo(cfg, q, d1, d2)))
  {
    hide QueryStamp;
    hide ReplyDatagram;
    hide QueryDatagram;
    hide Run;
    hide Do;
    hide Enabled;
    var t2, t3 := q.t1 + d1, q.t1 + d1 + d2;
    var request, reply := QueryDatagram(cfg, q), AnswerTo(cfg, q, d1, d2);
    QueryAddresses(cfg, q);
    OwnReplyAccepted(cfg, q, cfg.servers[q.server], t2, t3);
    var w1 := World(q.t1, {request}, map[q.client := 0], map[], [q], [], []);
    var w2 := w1.(now := t2);
    var w3 := w2.(busy := map[q.server := Pending(request, t2)]);
    var w4 := w3.(now := t3);
    var w5 := w1.(now := t3, net := {request, reply}, handled := [Handling(q.server, request, t2, t3, reply)]);
    w6 := w5.(now := t3 + d3);
    Asked(cfg, q, request, w1);
    Handled(cfg, q, d1, d2, request, reply, w2, w3, w4, w5);
    Waits(cfg, w1, d1);
    Waits(cfg, w3, d2);
    Waits(cfg, w5, d3);
    hide AnswerTo;
    if Enabled(cfg, w6, Hear(q.client, reply)) {
      RunSeven(cfg, Init(q.t1), WholeExchange(cfg, q, d1, d2, d3), w1, w2, w3, w4, w5, w6);
    }
  }

  lemma Waits(cfg: Config, w: World, ns: nat)
    ensures Enabled(cfg, w, Advance(ns)) && Do(cfg, w, Advance(ns)) == w.(now := w.now + ns)
  {}

  lemma Asked(cfg: Config, q: Query, request: NetDatagram, w1: World)
    requires q.client in cfg.clients && request == QueryDatagram(cfg, q)
    requires w1 == World(q.t1, {request}, map[q.client := 0], map[], [q], [], [])
    ensures var a := Ask(q.client, q.server, q.perturbation, true);
            Enabled(cfg, Init(q.t1), a) && Do(cfg, Init(q.t1), a) == w1
  {
    hide QueryDatagram;
  }

  lemma Handled(cfg: Config, q: Query, d1: nat, d2: nat, request: NetDatagram, reply: NetDatagram,
                w2: World, w3: World, w4: World, w5: World)
    requires q.client in cfg.clients && q.server in cfg.servers
    requires request == QueryDatagram(cfg, q) && request.dst == q.server && |request.bytes| == PACKET_SIZE
    requires reply == AnswerTo(cfg, q, d1, d2)
    requires w2.net == {request} && w2.busy == map[] && w2.handled == [] && w2.now == q.t1 + d1
    requires w3 == w2.(busy := map[q.server := Pending(request, q.t1 + d1)]) && w4 == w3.(now := q.t1 + d1 + d2)
    requires w5 == w4.(busy := map[], net := {request, reply},
                       handled := [Handling(q.server, request, q.t1 + d1, q.t1 + d1 + d2, reply)])
    ensures Enabled(cfg, w2, Take(q.server, request)) && Do(cfg, w2, Take(q.server, request)) == w3
    ensures Enabled(cfg, w4, Answer(q.server, true)) && Do(cfg, w4, Answer(q.server, true)) == w5
  {
    hide QueryDatagram;
    hide ReplyDatagram;
  }

  lemma Heard(cfg: Config, q: Query, reply: NetDatagram, w6: World)
    requires q.client in cfg.clients && reply.dst == q.client && |reply.bytes| == PACKET_SIZE
    requires reply in w6.net && w6.waiting == map[q.client := 0] && w6.queries == [q] && w6.accepted == []
    ensures Enabled(cfg, w6, Hear(q.client, reply))
    ensures var w := Do(cfg, w6, Hear(q.client, reply));
            w == w6.(waiting := map[], accepted := w.accepted)
            && w.accepted == if Accepts(Unpack(QueryStamp(cfg, q)), Head(reply.bytes))
                             then [Acceptance(0, reply, w6.now)] else []
  {
    hide Accepts;
    hide QueryStamp;
  }
}
