// The application as its operators and clients meet it: over every run, its events, counters and
// replies told from the raw messages and datagrams, in the numbers of its interface.
module AppInterface {
  import opened Words
  import opened Timestamps
  import opened Packets
  import opened Sockets
  import opened Histories
  import opened AppSpec
  import opened AppRefinement
  import opened AppProperties

  // ---- Messages ----

  predicate IsNoopMessage(m: Message) { m == Message(0x1830, 0, 8) }

  predicate IsResetMessage(m: Message) { m == Message(0x1830, 1, 8) }

  predicate IsWrongLength(m: Message) { m.mid == 0x1830 && m.code <= 1 && m.size != 8 }

  // The event a message raises.
  function EventFor(m: Message): Option<nat> {
    if m.mid == 0x1831 then None
    else if m.mid != 0x1830 then Some(5)
    else if m.code >= 2 then Some(2)
    else if m.size != 8 then Some(6)
    else if m.code == 0 then Some(3) else Some(4)
  }

  // What a message of any id, code and size does to any state.
  lemma MessageDispatch(s: AppState, m: Message)
    ensures AfterCommandPacket(s, m)
            == s.(out := s.out + (if EventFor(m).Some? then [Event(EventFor(m).value)] else [Telemetry(s.cnts)]),
                  hk := if m.mid == 0x1831 then s.cnts else s.hk,
                  cnts := if IsNoopMessage(m) then s.cnts.(command := (s.cnts.command + 1) % 256)
                          else if IsResetMessage(m) then Counters(0, 0, 0, 0, 0)
                          else if IsWrongLength(m) then s.cnts.(commandError := (s.cnts.commandError + 1) % 256)
                          else s.cnts)
  {}

  // A turn handles the message that has waited longest, if there is one and the poll succeeds.
  lemma TakesOldest(pipe: seq<Message>, t: Turn)
    ensures Taken(pipe, t) == if t.pollOk && pipe + t.arrivals != [] then [(pipe + t.arrivals)[0]] else []
  {}

  // The event log of every run: the startup event, and then those of the messages taken from the
  // pipe, in order.
  lemma EventLog(buf: seq<byte>, turns: seq<Turn>)
    requires |buf| == PACKET_SIZE
    ensures Eids(Run(Booted(buf), turns).out) == [1] + Collect(EventFor, AllTaken([], turns))
  {
    hide Run;
    hide Eids;
    RunRefinesTrace(buf, turns);
    EventsOfMessages(turns);
  }

  lemma {:induction false} EventsOfMessages(turns: seq<Turn>)
    ensures Collect(EventOf, Trace([], turns)) == Collect(EventFor, AllTaken([], turns))
  {
    if turns != [] {
      hide PipeAfter;
      hide Taken;
      var p, t := PipeAfter([], Front(turns)), Last(turns);
      EventsOfMessages(Front(turns));
      CollectConcat(EventOf, Trace([], Front(turns)), TurnTrace(p, t));
      CollectConcat(EventFor, AllTaken([], Front(turns)), Taken(p, t));
      AtMostOneTaken(p, t);
      EventsOfTurn(p, t);
    }
  }

  lemma AtMostOneTaken(pipe: seq<Message>, t: Turn)
    ensures Taken(pipe, t) == [] || Taken(pipe, t) == [Taken(pipe, t)[0]]
  {}

  lemma EventsOfTurn(pipe: seq<Message>, t: Turn)
    ensures Collect(EventOf, TurnTrace(pipe, t)) == Collect(EventFor, Taken(pipe, t))
  {
    AtMostOneTaken(pipe, t);
    hide Taken;
    hide Collect;
    var commands, taken := Commands(pipe, t), Taken(pipe, t);
    CollectSnoc(EventOf, commands, ReceiveOccurrence(t));
    NoEvents();
    if taken != [] {
      assert commands == [] + [commands[0]] && taken == [] + [taken[0]];
      CollectSnoc(EventOf, [], commands[0]);
      CollectSnoc(EventFor, [], taken[0]);
    }
  }

  lemma NoEvents()
    ensures Collect(EventOf, []) == [] && Collect(EventFor, []) == []
  {}

  // ---- Datagrams ----

  predicate BringsRequest(t: Turn) { t.received.Datagram? && |t.received.bytes| >= 48 }

  predicate BringsUnsent(t: Turn) { BringsRequest(t) && !t.sendOk }

  predicate BringsInvalid(t: Turn) {
    match t.received
    case Datagram(_, bytes) => 0 < |bytes| < 48
    case Failed(errno) => errno != TimedOut && errno != TryAgain
  }

  // The turns from the last one that took a reset on, that one included: its datagram is received
  // after the reset.
  function TurnsSinceReset(pipe: seq<Message>, turns: seq<Turn>): seq<Turn> {
    if turns == [] then [] else
    var before := if exists m :: m in Taken(PipeAfter(pipe, Front(turns)), Last(turns)) && IsResetMessage(m) then []
                  else TurnsSinceReset(pipe, Front(turns));
    before + [Last(turns)]
  }

  ghost predicate Agree(tr: seq<Occurrence>, ms: seq<Message>, ts: seq<Turn>) {
    && Count(IsNoop, tr) == Count(IsNoopMessage, ms)
    && Count(IsLengthError, tr) == Count(IsWrongLength, ms)
    && Count(IsFull, tr) == Count(BringsRequest, ts)
    && Count(IsUnsent, tr) == Count(BringsUnsent, ts)
    && Count(IsInvalid, tr) == Count(BringsInvalid, ts)
  }

  // All five counters of every run: commands are counted over the messages taken since the last
  // reset among them, requests over the turns since the last that took one.
  lemma CountersFromInputs(buf: seq<byte>, turns: seq<Turn>)
    requires |buf| == PACKET_SIZE
    ensures var c := Run(Booted(buf), turns).cnts;
            var ms, ts := After(IsResetMessage, AllTaken([], turns)), TurnsSinceReset([], turns);
            c == Counters(Count(IsWrongLength, ms) % 256, Count(IsNoopMessage, ms) % 256,
                          Count(BringsRequest, ts) % 65536, Count(BringsUnsent, ts) % 65536,
                          Count(BringsInvalid, ts) % 65536)
  {
    hide Run;
    hide Trace;
    hide TurnsSinceReset;
    hide AllTaken;
    CounterRefinement(buf, turns);
    RunRefinesTrace(buf, turns);
    TraceAgrees(turns);
  }

  lemma {:induction false} TraceAgrees(turns: seq<Turn>)
    ensures Agree(SinceReset(Trace([], turns)), After(IsResetMessage, AllTaken([], turns)), TurnsSinceReset([], turns))
  {
    if turns != [] {
      hide PipeAfter;
      hide Taken;
      hide TurnTrace;
      hide Agree;
      hide After;
      hide IsResetMessage;
      var front := Front(turns);
      TraceAgrees(front);
      TurnAgrees(Trace([], front), AllTaken([], front), TurnsSinceReset([], front), PipeAfter([], front), Last(turns));
    } else {
      NothingAgrees();
    }
  }

  lemma TurnAgrees(tr: seq<Occurrence>, ms: seq<Message>, ts: seq<Turn>, pipe: seq<Message>, t: Turn)
    requires Agree(SinceReset(tr), After(IsResetMessage, ms), ts)
    ensures var reset := exists m :: m in Taken(pipe, t) && IsResetMessage(m);
            Agree(SinceReset(tr + TurnTrace(pipe, t)), After(IsResetMessage, ms + Taken(pipe, t)),
                  (if reset then [] else ts) + [t])
  {
    AtMostOneTaken(pipe, t);
    hide Taken;
    hide Agree;
    hide After;
    hide IsResetMessage;
    hide ReceiveOccurrence;
    hide CommandOccurrence;
    assert tr + TurnTrace(pipe, t) == tr + Commands(pipe, t) + [ReceiveOccurrence(t)];
    if Taken(pipe, t) == [] {
      assert tr + Commands(pipe, t) == tr && ms + Taken(pipe, t) == ms;
      DatagramAgrees(tr, ms, ts, t);
    } else {
      var m := Taken(pipe, t)[0];
      MessageAgrees(tr, ms, ts, m);
      DatagramAgrees(tr + [CommandOccurrence(m)], ms + [m], if IsResetMessage(m) then [] else ts, t);
    }
  }

  lemma NothingAgrees()
    ensures Agree([], [], [])
    ensures SinceReset([]) == [] && After(IsResetMessage, []) == []
  {}

  lemma MessageAgrees(tr: seq<Occurrence>, ms: seq<Message>, ts: seq<Turn>, m: Message)
    requires Agree(SinceReset(tr), After(IsResetMessage, ms), ts)
    ensures Agree(SinceReset(tr + [CommandOccurrence(m)]), After(IsResetMessage, ms + [m]),
                  if IsResetMessage(m) then [] else ts)
  {
    hide After;
    hide Count;
    var o := CommandOccurrence(m);
    AfterSnoc(IsReset, tr, o);
    AfterSnoc(IsResetMessage, ms, m);
    NothingAgrees();
    CountSnoc(IsNoop, SinceReset(tr), o);
    CountSnoc(IsLengthError, SinceReset(tr), o);
    CountSnoc(IsFull, SinceReset(tr), o);
    CountSnoc(IsUnsent, SinceReset(tr), o);
    CountSnoc(IsInvalid, SinceReset(tr), o);
    CountSnoc(IsNoopMessage, After(IsResetMessage, ms), m);
    CountSnoc(IsWrongLength, After(IsResetMessage, ms), m);
  }

  lemma DatagramAgrees(tr: seq<Occurrence>, ms: seq<Message>, ts: seq<Turn>, t: Turn)
    requires Agree(SinceReset(tr), After(IsResetMessage, ms), ts)
    ensures Agree(SinceReset(tr + [ReceiveOccurrence(t)]), After(IsResetMessage, ms), ts + [t])
  {
    hide After;
    hide Count;
    var o := ReceiveOccurrence(t);
    AfterSnoc(IsReset, tr, o);
    CountSnoc(IsNoop, SinceReset(tr), o);
    CountSnoc(IsLengthError, SinceReset(tr), o);
    CountSnoc(IsFull, SinceReset(tr), o);
    CountSnoc(IsUnsent, SinceReset(tr), o);
    CountSnoc(IsInvalid, SinceReset(tr), o);
    CountSnoc(BringsRequest, ts, t);
    CountSnoc(BringsUnsent, ts, t);
    CountSnoc(BringsInvalid, ts, t);
  }

  // ---- Replies ----

  function StampOnWire(r: ClockReading): seq<byte> {
    Store(Big, StampOf(r).seconds) + Store(Big, StampOf(r).fractions)
  }

  // The answer to a turn's datagram, as bytes on the wire.
  function WireAnswer(t: Turn): Option<Sent> {
    if BringsRequest(t) && t.sendOk then
      Some((t.received.sender, [0x24, 15] + Zeros(22) + t.received.bytes[40..48] + StampOnWire(t.arrive)
                               + StampOnWire(t.depart)))
    else None
  }

  // What every run puts on the wire: to the sender of each full-size datagram, if the send succeeds,
  // version 4, mode 4 and stratum 15, zeros, the datagram's transmit bytes and the two stamps.
  lemma RepliesOnWire(buf: seq<byte>, turns: seq<Turn>)
    requires |buf| == PACKET_SIZE
    ensures Replies(Run(Booted(buf), turns).out) == Collect(WireAnswer, turns)
  {
    hide Run;
    ReplyLog(buf, turns);
    AnswersOnWire(turns);
  }

  lemma {:induction false} AnswersOnWire(turns: seq<Turn>)
    ensures Collect(TurnAnswer(SNTP_STRATUM), turns) == Collect(WireAnswer, turns)
  {
    if turns != [] {
      hide TurnAnswer;
      hide WireAnswer;
      AnswersOnWire(Front(turns));
      AnswerOnWire(Last(turns));
    }
  }

  lemma AnswerOnWire(t: Turn)
    ensures TurnAnswer(SNTP_STRATUM)(t) == WireAnswer(t)
  {
    hide ReplyBytes;
    hide Store;
    hide StampOf;
    if BringsRequest(t) {
      var head := t.received.bytes[..PACKET_SIZE];
      assert head[40..48] == t.received.bytes[40..48];
      ReplyLayout(head, t.arrive, t.depart, SNTP_STRATUM);
      var a, d := StampOf(t.arrive), StampOf(t.depart);
      Regrouped([0x24, 15] + Zeros(22) + head[40..48], Store(Big, a.seconds), Store(Big, a.fractions),
                Store(Big, d.seconds), Store(Big, d.fractions));
    }
  }

  lemma Regrouped<T>(s: seq<T>, a: seq<T>, b: seq<T>, c: seq<T>, d: seq<T>)
    ensures s + a + b + c + d == s + (a + b) + (c + d)
  {}
}
