// The end-to-end result: what a client computes from an accepted reply measures the true offset of
// the two clocks.
module EndToEnd {
  import opened Words
  import opened Timestamps
  import opened Packets
  import opened Sockets
  import opened Accuracy
  import opened ClientTool
  import opened Network
  import opened ExchangeSafety

  // The reply to a query's own datagram comes back to its client, which accepts it unless the
  // server's clock read as zero on departure.
  lemma OwnReplyAccepted(cfg: Config, q: Query, server: Clock, t2: int, t3: int)
    requires q.client in cfg.clients
    ensures |QueryDatagram(cfg, q).bytes| == PACKET_SIZE
    ensures var reply := ReplyDatagram(server, q.server, QueryDatagram(cfg, q), t2, t3);
            reply.src == q.server && reply.dst == q.client && |reply.bytes| == PACKET_SIZE
            && (Accepts(Unpack(QueryStamp(cfg, q)), Head(reply.bytes))
                <==> StampOf(ReadClock(server.kind, t3 + server.ahead)) != ZERO_STAMP)
  {
    hide QueryStamp;
    hide Accepts;
    hide ReplyBytes;
    hide RequestBytes;
    hide ReadClock;
    hide StampOf;
    hide Unpack;
    hide Parse;
    var sent := Unpack(QueryStamp(cfg, q));
    var r2, r3 := ReadClock(server.kind, t2 + server.ahead), ReadClock(server.kind, t3 + server.ahead);
    assert Head(QueryDatagram(cfg, q).bytes) == RequestBytes(sent);
    assert Head(ReplyDatagram(server, q.server, QueryDatagram(cfg, q), t2, t3).bytes)
        == ReplyBytes(RequestBytes(sent), r2, r3, SNTP_STRATUM);
    RequestFields(sent, sent);
    AcceptsReply(sent, RequestBytes(sent), r2, r3, SNTP_STRATUM);
  }

  // The exchange in true time behind an accepted reply.
  function ExchangeOf(cfg: Config, q: Query, h: Handling, a: Acceptance): Exchange
    requires q.client in cfg.clients && h.server in cfg.servers
  {
    Exchange(cfg.clients[q.client], cfg.servers[h.server], q.t1, h.t2, h.t3, a.t4, q.perturbation)
  }

  // What the client makes of the accepted reply, reading its clock at that moment.
  function ClientResult(cfg: Config, q: Query, a: Acceptance): QueryResult
    requires q.client in cfg.clients && |a.reply.bytes| >= PACKET_SIZE
  {
    var c := cfg.clients[q.client];
    Interpretation(Unpack(QueryStamp(cfg, q)), Head(a.reply.bytes), ReadClock(c.kind, a.t4 + c.ahead))
  }

  // The client's result is the server's stamp on departure and the offset of the exchange in true
  // time that h completed.
  ghost predicate Measures(cfg: Config, q: Query, h: Handling, a: Acceptance) {
    q.client in cfg.clients && h.server in cfg.servers && |a.reply.bytes| >= PACKET_SIZE
    && ClientResult(cfg, q, a).Answered?
    && ClientResult(cfg, q, a).serverTime == Unpack(StampAt(cfg.servers[h.server], h.t3))
    && ClientResult(cfg, q, a).offset2 == ExchangeOf(cfg, q, h, a).Offset2()
  }

  // A result within half the network time, the rounding of the two kinds of clock and half the
  // perturbation (doubled, in units of 2^-32 ns).
  ghost predicate Accurate(x: Exchange, offset2: int) {
    Abs(NS_PER_S * offset2 - 2 * TWO32 * x.TrueOffset())
    < TWO32 * x.NetworkTime() + 2 * Rounding(x.server.kind, x.client.kind) + NS_PER_S * Abs(x.perturbation)
  }

  // The stamps a reply carries are those of the server's clock at t2 and t3.
  lemma ReplyStamps(c: Clock, server: Address, request: NetDatagram, t2: int, t3: int)
    requires |request.bytes| >= PACKET_SIZE
    ensures var bytes := ReplyDatagram(c, server, request, t2, t3).bytes;
            |bytes| == PACKET_SIZE
            && Pack(Parse(Head(bytes)).receiveTime) == StampAt(c, t2)
            && Pack(Parse(Head(bytes)).transmitTime) == StampAt(c, t3)
  {
    hide ReadClock;
    hide ReplyBytes;
    hide Parse;
    var r2, r3 := ReadClock(c.kind, t2 + c.ahead), ReadClock(c.kind, t3 + c.ahead);
    var bytes := ReplyDatagram(c, server, request, t2, t3).bytes;
    assert Head(bytes) == ReplyBytes(Head(request.bytes), r2, r3, SNTP_STRATUM);
    ReplyFields(Head(request.bytes), r2, r3, SNTP_STRATUM);
  }

  lemma ResultIsOffset(cfg: Config, w: World, h: Handling, a: Acceptance)
    ensures Inv(cfg, w) && a in w.accepted && Answers(cfg, w, h, a.query, a) ==>
              Measures(cfg, w.queries[a.query], h, a)
  {
    hide ReplyDatagram;
    hide QueryDatagram;
    hide QueryStamp;
    hide Accepts;
    hide Measures;
    if Inv(cfg, w) && a in w.accepted && Answers(cfg, w, h, a.query, a) {
      assert AcceptedWell(cfg, w.queries, w.handled, a, w.now);
      assert HandledWell(cfg, w.queries, h, w.now);
      CompletedExchange(cfg, w.queries[a.query], h, a);
    }
  }

  lemma CompletedExchange(cfg: Config, q: Query, h: Handling, a: Acceptance)
    requires q.client in cfg.clients && h.server in cfg.servers
    requires |h.request.bytes| >= PACKET_SIZE && |a.reply.bytes| >= PACKET_SIZE
    requires a.reply == ReplyDatagram(cfg.servers[h.server], h.server, h.request, h.t2, h.t3)
    requires Accepts(Unpack(QueryStamp(cfg, q)), Head(a.reply.bytes))
    ensures Measures(cfg, q, h, a)
  {
    hide ReplyDatagram;
    hide Accepts;
    hide ReadClock;
    hide Stamp;
    hide Parse;
    hide Pack;
    hide Unpack;
    hide TwiceOffset;
    hide PerturbedStampAt;
    ReplyStamps(cfg.servers[h.server], h.server, h.request, h.t2, h.t3);
    PackUnpack(Parse(Head(a.reply.bytes)).transmitTime, QueryStamp(cfg, q));
  }

  // A time shown for a server's clock at an instant: its seconds since 1900 modulo 2^32, decoded
  // correctly within the window of 1968-2104, and the millisecond of a POSIX clock.
  ghost predicate Shows(shown: Timestamp, c: Clock, t: int) {
    var sec, nsec := (t + c.ahead) / 1_000_000_000, (t + c.ahead) % 1_000_000_000;
    && shown.seconds == (sec + SEVENTY_YEARS) % 0x1_0000_0000
    && (UnixSeconds(shown.seconds) == sec <==> -61505152 <= sec < 4233462144)
    && (c.kind.PosixClock? ==> FractionsToMs(4295, shown.fractions) == nsec / 1_000_000)
    && (c.kind.CfeClock? ==> shown.fractions == nsec * 0x1_0000_0000 / 1_000_000_000)
  }

  lemma StampShows(c: Clock, t: int)
    ensures Shows(Unpack(StampAt(c, t)), c, t)
  {
    var x := t + c.ahead;
    var r := ReadClock(c.kind, x);
    PackUnpack(StampOf(r), 0);
    StampReading(r);
    StampSeconds(c.kind, x);
    EraRollover(x / NS_PER_S);
    hide StampOf;
  }

  // The time a client shows, over every run and with no assumption on stamps: that of the clock of
  // the server that made the reply, at the instant it did.
  lemma ServerTimeIsDeparture(cfg: Config, now: int, actions: seq<Action>, k: nat)
    requires Disjoint(cfg) && k < |Run(cfg, Init(now), actions).accepted|
    ensures var w := Run(cfg, Init(now), actions);
            var a := w.accepted[k];
            a.query < |w.queries| && w.queries[a.query].client in cfg.clients && |a.reply.bytes| >= PACKET_SIZE
            && exists h, j: nat ::
              Answers(cfg, w, h, j, a) && w.queries[j].client == w.queries[a.query].client
              && ClientResult(cfg, w.queries[a.query], a).Answered?
              && Shows(ClientResult(cfg, w.queries[a.query], a).serverTime, cfg.servers[h.server], h.t3)
  {
    hide Run;
    hide QueryStamp;
    hide QueryDatagram;
    hide ReplyDatagram;
    hide Accepts;
    hide Shows;
    hide ClientResult;
    var w := Run(cfg, Init(now), actions);
    var a := w.accepted[k];
    Reachable(cfg, now, actions);
    AcceptedReplyWasMade(cfg, w, k);
    var h, j: nat :| j < |w.queries| && Answers(cfg, w, h, j, a) && w.queries[j].client == w.queries[a.query].client
                     && QueryStamp(cfg, w.queries[j]) == QueryStamp(cfg, w.queries[a.query]);
    assert AcceptedWell(cfg, w.queries, w.handled, a, w.now);
    assert HandledWell(cfg, w.queries, h, w.now);
    CompletedExchange(cfg, w.queries[a.query], h, a);
    StampShows(cfg.servers[h.server], h.t3);
  }

  // End-to-end accuracy, over every run: loss, duplication, delay and reordering of datagrams,
  // any clock offsets, any interleaving, third parties sending to the servers. Whenever a client
  // accepts a reply, the queried server made it of that query's datagram between the client's two
  // clock reads, and the offset the client computes is that of the exchange; it is accurate as
  // long as everything stays within 68 years.
  lemma EndToEndAccuracy(cfg: Config, now: int, actions: seq<Action>, k: nat)
    requires Disjoint(cfg)
    requires var w := Run(cfg, Init(now), actions);
             k < |w.accepted| && DistinctStamps(cfg, w.queries)
    ensures var w := Run(cfg, Init(now), actions);
            var a := w.accepted[k];
            exists h ::
              Answers(cfg, w, h, a.query, a)
              && Measures(cfg, w.queries[a.query], h, a)
              && (ExchangeOf(cfg, w.queries[a.query], h, a).InRange() ==>
                    Accurate(ExchangeOf(cfg, w.queries[a.query], h, a),
                             ClientResult(cfg, w.queries[a.query], a).offset2))
  {
    hide Run;
    hide Inv;
    hide DistinctStamps;
    hide ClientResult;
    hide Accurate;
    var w := Run(cfg, Init(now), actions);
    var a := w.accepted[k];
    Reachable(cfg, now, actions);
    ExchangeIsSafe(cfg, now, actions, k);
    var h :| Answers(cfg, w, h, a.query, a);
    ResultIsOffset(cfg, w, h, a);
    OffsetIsAccurate(ExchangeOf(cfg, w.queries[a.query], h, a));
  }

  lemma OffsetIsAccurate(x: Exchange)
    ensures x.InRange() ==> Accurate(x, x.Offset2())
  {
    hide Rounding;
    hide TwiceOffset;
    if x.InRange() {
      OffsetAccuracy(x);
    }
  }
}
