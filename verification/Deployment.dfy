// The step system of the network speaks of the programs: over whole runs its servers send what the
// application's run loop sends, and its clients accept what the client program answers.
module Deployment {
  import opened Words
  import opened Timestamps
  import opened Packets
  import opened Sockets
  import opened Histories
  import opened Accuracy
  import opened ClientTool
  import opened Network
  import opened ExchangeSafety
  import opened AppRefinement
  import opened AppProperties
  import AppSpec

  // ---- Servers ----

  // The turn of the run loop in which a server with clock c handled h: no bus traffic, h's datagram
  // from the socket, and c's readings at the two instants.
  function TurnFor(c: Clock, h: Handling): AppSpec.Turn {
    AppSpec.Turn([], false, Datagram(h.request.src, h.request.bytes), ReadClock(c.kind, h.t2 + c.ahead),
                 ReadClock(c.kind, h.t3 + c.ahead), true)
  }

  function TurnAt(c: Clock, server: Address): Handling -> Option<AppSpec.Turn> {
    (h: Handling) => if h.server == server then Some(TurnFor(c, h)) else None
  }

  function ReplyFrom(server: Address): Handling -> Option<Sent> {
    (h: Handling) => if h.server == server then Some((h.reply.dst, h.reply.bytes)) else None
  }

  // The turns of one server, and the replies it sent, in order.
  function TurnsOf(c: Clock, server: Address, handled: seq<Handling>): seq<AppSpec.Turn> {
    Collect(TurnAt(c, server), handled)
  }

  function RepliesFrom(server: Address, handled: seq<Handling>): seq<Sent> { Collect(ReplyFrom(server), handled) }

  lemma {:induction false} TurnsAnswered(cfg: Config, queries: seq<Query>, server: Address, handled: seq<Handling>,
                                         now: int)
    requires server in cfg.servers
    requires forall h :: h in handled ==> HandledWell(cfg, queries, h, now)
    ensures Collect(TurnAnswer(SNTP_STRATUM), TurnsOf(cfg.servers[server], server, handled)) == RepliesFrom(server, handled)
  {
    hide TurnAnswer;
    hide HandledWell;
    hide TurnFor;
    if handled != [] {
      var h := Last(handled);
      var c := cfg.servers[server];
      assert h in handled;
      TurnsAnswered(cfg, queries, server, Front(handled), now);
      if h.server == server {
        TurnAnswered(cfg, queries, h, now);
        CollectSnoc(TurnAnswer(SNTP_STRATUM), TurnsOf(c, server, Front(handled)), TurnFor(c, h));
      }
    }
  }

  lemma TurnAnswered(cfg: Config, queries: seq<Query>, h: Handling, now: int)
    requires HandledWell(cfg, queries, h, now)
    ensures TurnAnswer(SNTP_STRATUM)(TurnFor(cfg.servers[h.server], h)) == Some((h.reply.dst, h.reply.bytes))
  {
    hide ReadClock;
    hide ReplyBytes;
  }

  // A server handles one datagram after the other.
  ghost predicate InSequence(w: World) {
    && (forall i, j :: 0 <= i < j < |w.handled| && w.handled[i].server == w.handled[j].server ==>
          w.handled[i].t3 <= w.handled[j].t2)
    && (forall i :: 0 <= i < |w.handled| ==> w.handled[i].t2 <= w.handled[i].t3 <= w.now)
    && (forall i :: 0 <= i < |w.handled| && w.handled[i].server in w.busy ==>
          w.handled[i].t3 <= w.busy[w.handled[i].server].t2)
    && (forall s :: s in w.busy ==> w.busy[s].t2 <= w.now)
  }

  lemma StepInSequence(cfg: Config, w: World, a: Action)
    requires InSequence(w) && Enabled(cfg, w, a)
    ensures InSequence(Do(cfg, w, a))
  {
    match a
    case Answer(_, _) => AnswerInSequence(cfg, w, a);
    case Hear(client, d) =>
      hide AfterHear;
      HearLeavesServers(cfg, w, client, d);
    case _ =>
      hide AfterHear;
      hide AfterAnswer;
      hide QueryDatagram;
  }

  lemma HearLeavesServers(cfg: Config, w: World, client: Address, d: NetDatagram)
    requires Enabled(cfg, w, Hear(client, d))
    ensures var v := AfterHear(cfg, w, client, d);
            v.handled == w.handled && v.busy == w.busy && v.now == w.now
  {
    hide Accepts;
    hide QueryStamp;
  }

  lemma AnswerInSequence(cfg: Config, w: World, a: Action)
    requires InSequence(w) && a.Answer? && Enabled(cfg, w, a)
    ensures InSequence(Do(cfg, w, a))
  {
    hide ReplyDatagram;
  }

  lemma {:induction false} RunInSequence(cfg: Config, now: int, actions: seq<Action>)
    ensures InSequence(Run(cfg, Init(now), actions))
  {
    if actions != [] {
      hide Do;
      hide InSequence;
      var w := Run(cfg, Init(now), Front(actions));
      RunInSequence(cfg, now, Front(actions));
      if Enabled(cfg, w, Last(actions)) {
        StepInSequence(cfg, w, Last(actions));
      }
    }
  }

  // A server's clock reads without wrapping over what it handled: a POSIX clock always, a cFE clock
  // while its seconds stay in one run of 2^32.
  ghost predicate InEra(c: Clock, server: Address, handled: seq<Handling>, era: int) {
    c.kind.CfeClock? ==>
      forall h :: h in handled && h.server == server ==> EraOf(c, h.t2) == EraOf(c, h.t3) == era
  }

  function EraOf(c: Clock, t: int): int { (t + c.ahead) / NS_PER_S / TWO32 }

  lemma {:induction false} ClockAdvancesOver(c: Clock, server: Address, handled: seq<Handling>, era: int)
    requires InEra(c, server, handled, era)
    requires forall i :: 0 <= i < |handled| ==> handled[i].t2 <= handled[i].t3
    requires forall i, j :: 0 <= i < j < |handled| && handled[i].server == handled[j].server ==>
               handled[i].t3 <= handled[j].t2
    ensures ClockAdvances(TurnsOf(c, server, handled))
  {
    if handled != [] {
      hide TurnFor;
      hide NotAfter;
      assert Last(handled) in handled && forall h :: h in Front(handled) ==> h in handled;
      ClockAdvancesOver(c, server, Front(handled), era);
      if Last(handled).server == server {
        LastAdvances(c, server, handled, era);
      }
    }
  }

  lemma LastAdvances(c: Clock, server: Address, handled: seq<Handling>, era: int)
    requires handled != [] && Last(handled).server == server && InEra(c, server, handled, era)
    requires Last(handled).t2 <= Last(handled).t3
    requires forall i :: 0 <= i < |handled| - 1 && handled[i].server == server ==> handled[i].t3 <= Last(handled).t2
    ensures var before, t := TurnsOf(c, server, Front(handled)), TurnFor(c, Last(handled));
            NotAfter(t.arrive, t.depart) && forall k :: 0 <= k < |before| ==> NotAfter(before[k].depart, t.arrive)
  {
    hide ReadClock;
    hide NotAfter;
    hide Collect;
    var h := Last(handled);
    var before := TurnsOf(c, server, Front(handled));
    assert h in handled;
    ReadingsInOrder(c.kind, h.t2 + c.ahead, h.t3 + c.ahead);
    forall k | 0 <= k < |before|
      ensures NotAfter(before[k].depart, TurnFor(c, h).arrive)
    {
      CollectFrom(TurnAt(c, server), Front(handled), k);
      var i :| 0 <= i < |Front(handled)| && TurnAt(c, server)(Front(handled)[i]) == Some(before[k]);
      assert handled[i] in handled && Front(handled)[i] == handled[i];
      ReadingsInOrder(c.kind, handled[i].t3 + c.ahead, h.t2 + c.ahead);
    }
  }

  // Over every run of the network, the replies a server sent are those of the application run on
  // the datagrams it handled and its clock's readings then; and those readings never run backwards
  // over that run, so its stamps are in order on the wire.
  lemma ServerRunsApplication(cfg: Config, now: int, actions: seq<Action>, server: Address, buf: seq<byte>)
    requires Disjoint(cfg) && server in cfg.servers && |buf| == PACKET_SIZE
    ensures var w := Run(cfg, Init(now), actions);
            var turns := TurnsOf(cfg.servers[server], server, w.handled);
            AppSpec.Replies(AppSpec.Run(AppSpec.Booted(buf), turns).out) == RepliesFrom(server, w.handled)
            && ((exists era :: InEra(cfg.servers[server], server, w.handled, era)) ==> ClockAdvances(turns))
  {
    var w := Run(cfg, Init(now), actions);
    hide Run;
    Reachable(cfg, now, actions);
    RunInSequence(cfg, now, actions);
    TurnsAnswered(cfg, w.queries, server, w.handled, w.now);
    hide Inv;
    hide TurnsOf;
    hide RepliesFrom;
    ReplyLog(buf, TurnsOf(cfg.servers[server], server, w.handled));
    if era :| InEra(cfg.servers[server], server, w.handled, era) {
      ClockAdvancesOver(cfg.servers[server], server, w.handled, era);
    }
  }

  // ---- Clients ----

  // What the client program makes of a datagram heard at t4 for query q.
  function OutcomeOf(cfg: Config, q: Query, d: NetDatagram, t4: int): QueryResult
    requires q.client in cfg.clients
  {
    var c := cfg.clients[q.client];
    QueryOutcome(ReadClock(c.kind, q.t1 + c.ahead), q.perturbation, true, Datagram(d.src, d.bytes),
                 ReadClock(c.kind, t4 + c.ahead))
  }

  // Hearing a datagram is accepting it exactly when the client program answers its query with it.
  lemma HearingIsAnswering(cfg: Config, w: World, client: Address, d: NetDatagram)
    requires Enabled(cfg, w, Hear(client, d))
    ensures var i := w.waiting[client];
            AfterHear(cfg, w, client, d).accepted
            == w.accepted + if OutcomeOf(cfg, w.queries[i], d, w.now).Answered? then [Acceptance(i, d, w.now)] else []
  {
    hide Accepts;
    hide ReadClock;
    hide Stamp;
    hide Parse;
    hide TwiceOffset;
  }

  // Over every run, each acceptance is an answer of the client program to the query it put on the
  // network, with the request bytes it serializes.
  lemma ClientRunsProgram(cfg: Config, now: int, actions: seq<Action>, k: nat)
    requires Disjoint(cfg) && k < |Run(cfg, Init(now), actions).accepted|
    ensures var w := Run(cfg, Init(now), actions);
            var a := w.accepted[k];
            a.query < |w.queries| && w.queries[a.query].client in cfg.clients
            && var q := w.queries[a.query];
               var c := cfg.clients[q.client];
               OutcomeOf(cfg, q, a.reply, a.t4).Answered?
               && QueryDatagram(cfg, q).bytes
                  == RequestBytes(QueryTime(ReadClock(c.kind, q.t1 + c.ahead), q.perturbation))
  {
    hide Run;
    hide Accepts;
    hide ReadClock;
    hide Stamp;
    hide Parse;
    hide TwiceOffset;
    hide RequestBytes;
    Reachable(cfg, now, actions);
    var w := Run(cfg, Init(now), actions);
    assert AcceptedWell(cfg, w.queries, w.handled, w.accepted[k], w.now);
  }
}
