// Clients and servers exchanging datagrams over a network that may lose, duplicate, delay and
// reorder them, as a step system in true time.
module Network {
  import opened Words
  import opened Timestamps
  import opened Packets
  import opened Sockets
  import opened Accuracy

  datatype Config = Config(clients: map<Address, Clock>, servers: map<Address, Clock>)

  ghost predicate Disjoint(cfg: Config) { cfg.clients.Keys !! cfg.servers.Keys }

  datatype NetDatagram = NetDatagram(src: Address, dst: Address, bytes: seq<byte>)

  // A query records when its client read the clock for it and how the stamp was perturbed.
  datatype Query = Query(client: Address, server: Address, t1: int, perturbation: int)

  // A server's handling of a datagram: the two clock reads and the reply made of it.
  datatype Handling = Handling(server: Address, request: NetDatagram, t2: int, t3: int, reply: NetDatagram)

  // A reply accepted for a query, and when the client read its clock on receiving it.
  datatype Acceptance = Acceptance(query: nat, reply: NetDatagram, t4: int)

  datatype Pending = Pending(request: NetDatagram, t2: int)

  // net holds every datagram ever sent: delivering one leaves it there, to be delivered again or
  // never. waiting and busy are the clients and servers in the middle of an exchange; the rest is
  // the record of the past.
  datatype World = World(now: int, net: set<NetDatagram>, waiting: map<Address, nat>, busy: map<Address, Pending>,
                         queries: seq<Query>, handled: seq<Handling>, accepted: seq<Acceptance>)

  datatype Action =
    | Advance(ns: nat)
    | Ask(client: Address, server: Address, perturbation: int, sendOk: bool)
    | Take(server: Address, d: NetDatagram)
    | Answer(server: Address, sendOk: bool)
    | Hear(client: Address, d: NetDatagram)
    | GiveUp(client: Address)
    | Stray(d: NetDatagram)

  function Init(now: int): World { World(now, {}, map[], map[], [], [], []) }

  function QueryStamp(cfg: Config, q: Query): uint64
    requires q.client in cfg.clients
  {
    PerturbedStampAt(cfg.clients[q.client], q.t1, q.perturbation)
  }

  function QueryDatagram(cfg: Config, q: Query): NetDatagram
    requires q.client in cfg.clients
  {
    NetDatagram(q.client, q.server, RequestBytes(Unpack(QueryStamp(cfg, q))))
  }

  function Head(bytes: seq<byte>): seq<byte>
    requires |bytes| >= PACKET_SIZE
  {
    bytes[..PACKET_SIZE]
  }

  // What a server sends back for a datagram, having read its clock at t2 and t3.
  function ReplyDatagram(c: Clock, server: Address, request: NetDatagram, t2: int, t3: int): NetDatagram
    requires |request.bytes| >= PACKET_SIZE
  {
    NetDatagram(server, request.src, ReplyBytes(Head(request.bytes), ReadClock(c.kind, t2 + c.ahead),
                                             ReadClock(c.kind, t3 + c.ahead), SNTP_STRATUM))
  }

  predicate Enabled(cfg: Config, w: World, a: Action) {
    match a
    case Advance(_) => true
    // A client runs one query at a time.
    case Ask(client, _, _, _) => client in cfg.clients && client !in w.waiting
    // A server takes any datagram that fills its buffer, whoever sent it and whatever it says.
    case Take(server, d) =>
      server in cfg.servers && server !in w.busy && d in w.net && d.dst == server && |d.bytes| >= PACKET_SIZE
    case Answer(server, _) => server in cfg.servers && server in w.busy && |w.busy[server].request.bytes| >= PACKET_SIZE
    case Hear(client, d) => client in w.waiting && w.waiting[client] < |w.queries|
                            && w.queries[w.waiting[client]].client in cfg.clients
                            && d in w.net && d.dst == client
    case GiveUp(client) => client in w.waiting
    // Others may send anything to anyone but the clients, though not in a client's name.
    case Stray(d) => d.src !in cfg.clients && d.dst !in cfg.clients
  }

  function AfterHear(cfg: Config, w: World, client: Address, d: NetDatagram): World
    requires Enabled(cfg, w, Hear(client, d))
  {
    var i := w.waiting[client];
    var done := w.(waiting := w.waiting - {client});
    if |d.bytes| >= PACKET_SIZE && Accepts(Unpack(QueryStamp(cfg, w.queries[i])), Head(d.bytes))
    then done.(accepted := w.accepted + [Acceptance(i, d, w.now)])
    else done
  }

  function AfterAnswer(cfg: Config, w: World, server: Address, sendOk: bool): World
    requires Enabled(cfg, w, Answer(server, sendOk))
  {
    var p := w.busy[server];
    var reply := ReplyDatagram(cfg.servers[server], server, p.request, p.t2, w.now);
    var done := w.(busy := w.busy - {server});
    if sendOk then
      done.(net := w.net + {reply}, handled := w.handled + [Handling(server, p.request, p.t2, w.now, reply)])
    else done
  }

  function Do(cfg: Config, w: World, a: Action): World
    requires Enabled(cfg, w, a)
  {
    match a
    case Advance(ns) => w.(now := w.now + ns)
    case Ask(client, server, perturbation, sendOk) =>
      var q := Query(client, server, w.now, perturbation);
      var asked := w.(queries := w.queries + [q]);
      if sendOk then asked.(net := w.net + {QueryDatagram(cfg, q)}, waiting := w.waiting[client := |w.queries|])
      else asked
    case Take(server, d) => w.(busy := w.busy[server := Pending(d, w.now)])
    case Answer(server, sendOk) => AfterAnswer(cfg, w, server, sendOk)
    case Hear(client, d) => AfterHear(cfg, w, client, d)
    case GiveUp(client) => w.(waiting := w.waiting - {client})
    case Stray(d) => w.(net := w.net + {d})
  }

  // Any sequence of actions; one that is not enabled does nothing.
  function Run(cfg: Config, w: World, actions: seq<Action>): World {
    if actions == [] then w else
    var before := Run(cfg, w, actions[..|actions| - 1]);
    var a := actions[|actions| - 1];
    if Enabled(cfg, before, a) then Do(cfg, before, a) else before
  }

  // ---- The invariant ----

  // d is some query's datagram, asked no later than t.
  ghost predicate FromQuery(cfg: Config, queries: seq<Query>, d: NetDatagram, t: int) {
    exists i :: 0 <= i < |queries| && IsDatagramOf(cfg, queries[i], d, t)
  }

  ghost predicate IsDatagramOf(cfg: Config, q: Query, d: NetDatagram, t: int) {
    q.client in cfg.clients && d == QueryDatagram(cfg, q) && q.t1 <= t
  }

  ghost predicate ReplySent(handled: seq<Handling>, d: NetDatagram, t: int) {
    exists i :: 0 <= i < |handled| && handled[i].reply == d && handled[i].t3 <= t
  }

  // What holds of one pending or handled datagram.
  ghost predicate TakenWell(cfg: Config, queries: seq<Query>, server: Address, d: NetDatagram, t2: int, now: int) {
    && server in cfg.servers && d.dst == server && |d.bytes| >= PACKET_SIZE && t2 <= now
    && (d.src in cfg.clients ==> FromQuery(cfg, queries, d, t2))
  }

  ghost predicate HandledWell(cfg: Config, queries: seq<Query>, h: Handling, now: int) {
    && TakenWell(cfg, queries, h.server, h.request, h.t2, now)
    && h.t2 <= h.t3 <= now
    && h.reply == ReplyDatagram(cfg.servers[h.server], h.server, h.request, h.t2, h.t3)
  }

  ghost predicate AcceptedWell(cfg: Config, queries: seq<Query>, handled: seq<Handling>, a: Acceptance, now: int) {
    && a.query < |queries| && queries[a.query].client in cfg.clients
    && queries[a.query].t1 <= a.t4 <= now
    && a.reply.dst == queries[a.query].client && |a.reply.bytes| >= PACKET_SIZE
    && Accepts(Unpack(QueryStamp(cfg, queries[a.query])), Head(a.reply.bytes))
    && ReplySent(handled, a.reply, a.t4)
  }

  ghost predicate WaitingWell(cfg: Config, queries: seq<Query>, client: Address, i: nat, now: int) {
    client in cfg.clients && i < |queries| && queries[i].client == client && queries[i].t1 <= now
  }

  ghost predicate NetWell(cfg: Config, queries: seq<Query>, handled: seq<Handling>, d: NetDatagram, now: int) {
    && (d.src in cfg.clients ==> FromQuery(cfg, queries, d, now))
    && (d.dst in cfg.clients && d.src !in cfg.clients ==> ReplySent(handled, d, now))
  }

  ghost predicate Inv(cfg: Config, w: World) {
    && (forall d :: d in w.net ==> NetWell(cfg, w.queries, w.handled, d, w.now))
    && (forall c :: c in w.waiting ==> WaitingWell(cfg, w.queries, c, w.waiting[c], w.now))
    && (forall s :: s in w.busy ==> TakenWell(cfg, w.queries, s, w.busy[s].request, w.busy[s].t2, w.now))
    && (forall h :: h in w.handled ==> HandledWell(cfg, w.queries, h, w.now))
    && (forall a :: a in w.accepted ==> AcceptedWell(cfg, w.queries, w.handled, a, w.now))
  }
}
