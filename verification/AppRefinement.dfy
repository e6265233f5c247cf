// Every run of the application agrees with the reference trace of its inputs.
module AppRefinement {
  import opened Words
  import opened Packets
  import opened Sockets
  import opened Histories
  import opened AppSpec

  // ---- The invariant: counters, telemetry, replies and events against the trace so far ----

  ghost predicate Refines(c: Counters, out: seq<Output>, tr: seq<Occurrence>) {
    && c == Tally(SinceReset(tr))
    && Payloads(out) == TelemetryOf(tr)
    && Replies(out) == Collect(AnswerTo, tr)
    && Eids(out) == [STARTUP_INF_EID] + Collect(EventOf, tr)
    && SinceResetAgrees(After(IsResetEvent, out), SinceReset(tr))
  }

  // Outputs since the last reset event against occurrences since the last reset.
  ghost predicate SinceResetAgrees(out: seq<Output>, tr: seq<Occurrence>) {
    && Count(IsReplyOutput, out) == Count(IsSent, tr)
    && Count(IsNoopEvent, out) == Count(IsNoop, tr)
    && Count(IsLengthEvent, out) == Count(IsLengthError, tr)
  }

  lemma TallySnoc(tr: seq<Occurrence>, o: Occurrence)
    ensures var c := Tally(tr);
            Tally(tr + [o]) == Counters(
              if o.LengthError? then Inc8(c.commandError) else c.commandError,
              if o.NoopDone? then Inc8(c.command) else c.command,
              if o.FullRequest? then Inc16(c.reqRcv) else c.reqRcv,
              if IsUnsent(o) then Inc16(c.badRequests) else c.badRequests,
              if IsInvalid(o) then Inc16(c.invalidRequests) else c.invalidRequests)
  {
    CountMod(IsLengthError, tr, o);
    CountMod(IsNoop, tr, o);
    CountMod(IsFull, tr, o);
    CountMod(IsUnsent, tr, o);
    CountMod(IsInvalid, tr, o);
  }

  lemma CountMod<T>(p: T -> bool, s: seq<T>, x: T)
    ensures Count(p, s + [x]) % TWO8 == if p(x) then Inc8(Count(p, s) % TWO8) else Count(p, s) % TWO8
    ensures Count(p, s + [x]) % TWO16 == if p(x) then Inc16(Count(p, s) % TWO16) else Count(p, s) % TWO16
  {
    CountSnoc(p, s, x);
    IncMod(Count(p, s));
  }

  lemma IncMod(n: nat)
    ensures (n + 1) % TWO8 == Inc8(n % TWO8)
    ensures (n + 1) % TWO16 == Inc16(n % TWO16)
  {
    NextRemainder8(n, n / TWO8, n % TWO8);
    NextRemainder16(n, n / TWO16, n % TWO16);
  }

  lemma NextRemainder8(n: nat, q: nat, r: nat)
    requires r < TWO8 && n == q * TWO8 + r
    ensures (n + 1) % TWO8 == if r + 1 == TWO8 then 0 else r + 1
  {
    if r + 1 == TWO8 {
      assert n + 1 == (q + 1) * TWO8;
    }
  }

  lemma NextRemainder16(n: nat, q: nat, r: nat)
    requires r < TWO16 && n == q * TWO16 + r
    ensures (n + 1) % TWO16 == if r + 1 == TWO16 then 0 else r + 1
  {
    if r + 1 == TWO16 {
      assert n + 1 == (q + 1) * TWO16;
    }
  }

  // All projections of a trace one occurrence longer.
  lemma TraceSnoc(tr: seq<Occurrence>, o: Occurrence)
    ensures SinceReset(tr + [o]) == if IsReset(o) then [] else SinceReset(tr) + [o]
    ensures Collect(AnswerTo, tr + [o]) == Collect(AnswerTo, tr) + if AnswerTo(o).Some? then [AnswerTo(o).value] else []
    ensures Collect(EventOf, tr + [o]) == Collect(EventOf, tr) + if EventOf(o).Some? then [EventOf(o).value] else []
    ensures TelemetryOf(tr + [o])
            == TelemetryOf(tr) + if o.HousekeepingSent? then [Tally(SinceReset(tr))] else []
    ensures Count(IsSent, SinceReset(tr) + [o]) == Count(IsSent, SinceReset(tr)) + if IsSent(o) then 1 else 0
    ensures Count(IsNoop, SinceReset(tr) + [o]) == Count(IsNoop, SinceReset(tr)) + if IsNoop(o) then 1 else 0
    ensures Count(IsLengthError, SinceReset(tr) + [o])
            == Count(IsLengthError, SinceReset(tr)) + if IsLengthError(o) then 1 else 0
  {
    AfterSnoc(IsReset, tr, o);
    CollectSnoc(AnswerTo, tr, o);
    CollectSnoc(EventOf, tr, o);
    Snoc(tr, o);
    CountSnoc(IsSent, SinceReset(tr), o);
    CountSnoc(IsNoop, SinceReset(tr), o);
    CountSnoc(IsLengthError, SinceReset(tr), o);
  }

  // All projections of a log one output longer.
  lemma OutputSnoc(out: seq<Output>, o: Output)
    ensures Payloads(out + [o]) == Payloads(out) + if o.Telemetry? then [o.payload] else []
    ensures Replies(out + [o]) == Replies(out) + if o.Reply? then [(o.dst, o.bytes)] else []
    ensures Eids(out + [o]) == Eids(out) + if o.Event? then [o.eid] else []
    ensures var a, b := After(IsResetEvent, out), After(IsResetEvent, out + [o]);
            if IsResetEvent(o) then b == [] else
            Count(IsReplyOutput, b) == Count(IsReplyOutput, a) + (if o.Reply? then 1 else 0)
            && Count(IsNoopEvent, b) == Count(IsNoopEvent, a) + (if IsNoopEvent(o) then 1 else 0)
            && Count(IsLengthEvent, b) == Count(IsLengthEvent, a) + (if IsLengthEvent(o) then 1 else 0)
  {
    CollectSnoc(PayloadOf, out, o);
    CollectSnoc(ReplyOf, out, o);
    CollectSnoc(EidOf, out, o);
    AfterSnoc(IsResetEvent, out, o);
    var a := After(IsResetEvent, out);
    CountSnoc(IsReplyOutput, a, o);
    CountSnoc(IsNoopEvent, a, o);
    CountSnoc(IsLengthEvent, a, o);
  }

  // ---- The effect of one occurrence ----

  function CountersAfter(c: Counters, o: Occurrence): Counters {
    match o
    case NoopDone => c.(command := Inc8(c.command))
    case ResetDone => ZERO_COUNTERS
    case LengthError => c.(commandError := Inc8(c.commandError))
    case FullRequest(_, _, _, _, sent) =>
      c.(reqRcv := Inc16(c.reqRcv), badRequests := if sent then c.badRequests else Inc16(c.badRequests))
    case ShortRequest => c.(invalidRequests := Inc16(c.invalidRequests))
    case ReceiveError => c.(invalidRequests := Inc16(c.invalidRequests))
    case _ => c
  }

  function OutputsOf(c: Counters, o: Occurrence): seq<Output> {
    if o.HousekeepingSent? then [Telemetry(c)]
    else if AnswerTo(o).Some? then [Reply(AnswerTo(o).value.0, AnswerTo(o).value.1)]
    else if EventOf(o).Some? then [Event(EventOf(o).value)]
    else []
  }

  lemma CommandEffect(s: AppState, m: Message)
    ensures var after, o := AfterCommandPacket(s, m), CommandOccurrence(m);
            after.cnts == CountersAfter(s.cnts, o) && after.out == s.out + OutputsOf(s.cnts, o) && after.buf == s.buf
            && after.hk == if o.HousekeepingSent? then s.cnts else s.hk
  {}

  lemma ReceiveEffect(s: AppState, t: Turn)
    requires |s.buf| == PACKET_SIZE
    ensures var after, o := AfterReceive(s, t), ReceiveOccurrence(t);
            after.cnts == CountersAfter(s.cnts, o) && after.out == s.out + OutputsOf(s.cnts, o) && after.hk == s.hk
  {
    if FillsBuffer(t.received) {
      assert BufferAfter(s.buf, t.received) == t.received.bytes[..PACKET_SIZE];
    }
  }

  ghost predicate HasHead(o: Occurrence) { o.FullRequest? ==> |o.head| == PACKET_SIZE }

  lemma TallyEffect(tr: seq<Occurrence>, o: Occurrence)
    ensures Tally(SinceReset(tr + [o])) == CountersAfter(Tally(SinceReset(tr)), o)
  {
    hide After;
    hide Tally;
    hide Count;
    AfterSnoc(IsReset, tr, o);
    TallySnoc(SinceReset(tr), o);
    NothingSince();
  }

  lemma NothingSince()
    ensures Tally([]) == ZERO_COUNTERS && SinceResetAgrees([], [])
  {}

  lemma SinceResetEffect(out: seq<Output>, tr: seq<Occurrence>, c: Counters, o: Occurrence)
    requires HasHead(o)
    requires SinceResetAgrees(After(IsResetEvent, out), SinceReset(tr))
    ensures SinceResetAgrees(After(IsResetEvent, out + OutputsOf(c, o)), SinceReset(tr + [o]))
  {
    hide After;
    hide Collect;
    hide TelemetryOf;
    hide Tally;
    hide Count;
    NothingSince();
    TraceSnoc(tr, o);
    var outs := OutputsOf(c, o);
    if outs != [] {
      assert outs == [outs[0]];
      OutputSnoc(out, outs[0]);
    } else {
      assert out + outs == out;
    }
  }

  lemma OutputEffect(out: seq<Output>, c: Counters, o: Occurrence)
    requires HasHead(o)
    ensures var outs := out + OutputsOf(c, o);
            Payloads(outs) == Payloads(out) + (if o.HousekeepingSent? then [c] else [])
            && Replies(outs) == Replies(out) + (if AnswerTo(o).Some? then [AnswerTo(o).value] else [])
            && Eids(outs) == Eids(out) + (if EventOf(o).Some? then [EventOf(o).value] else [])
  {
    hide Payloads;
    hide Replies;
    hide Eids;
    hide After;
    hide Count;
    hide ReplyBytes;
    var outs := OutputsOf(c, o);
    if outs != [] {
      assert outs == [outs[0]];
      OutputSnoc(out, outs[0]);
    } else {
      assert out + outs == out;
    }
  }

  lemma Extend(c: Counters, out: seq<Output>, tr: seq<Occurrence>, o: Occurrence)
    requires Refines(c, out, tr) && HasHead(o)
    ensures Refines(CountersAfter(c, o), out + OutputsOf(c, o), tr + [o])
  {
    hide After;
    hide Count;
    hide Collect;
    hide TelemetryOf;
    hide Tally;
    hide CountersAfter;
    hide OutputsOf;
    hide SinceResetAgrees;
    hide AnswerTo;
    hide EventOf;
    TallyEffect(tr, o);
    TraceSnoc(tr, o);
    OutputEffect(out, c, o);
    SinceResetEffect(out, tr, c, o);
  }

  lemma PollRefines(s: AppState, tr: seq<Occurrence>, t: Turn)
    requires Refines(s.cnts, s.out, tr)
    ensures var polled := AfterPoll(Queued(s, t), t.pollOk);
            Refines(polled.cnts, polled.out, tr + Commands(s.pipe, t))
            && polled.pipe == PipeAfterTurn(s.pipe, t) && polled.buf == s.buf
  {
    hide Refines;
    var queued := Queued(s, t);
    if queued.pipe != [] && t.pollOk {
      CommandEffect(queued.(pipe := queued.pipe[1..]), queued.pipe[0]);
      Extend(s.cnts, s.out, tr, CommandOccurrence(queued.pipe[0]));
    } else {
      assert tr + Commands(s.pipe, t) == tr;
    }
  }

  lemma ReceiveRefines(s: AppState, tr: seq<Occurrence>, t: Turn)
    requires |s.buf| == PACKET_SIZE && Refines(s.cnts, s.out, tr)
    ensures var after := AfterReceive(s, t);
            Refines(after.cnts, after.out, tr + [ReceiveOccurrence(t)])
  {
    hide Refines;
    ReceiveEffect(s, t);
    Extend(s.cnts, s.out, tr, ReceiveOccurrence(t));
  }

  lemma StepRefines(s: AppState, tr: seq<Occurrence>, t: Turn)
    requires |s.buf| == PACKET_SIZE && Refines(s.cnts, s.out, tr)
    ensures var after := Step(s, t);
            Refines(after.cnts, after.out, tr + TurnTrace(s.pipe, t)) && after.pipe == PipeAfterTurn(s.pipe, t)
  {
    hide Refines;
    PollRefines(s, tr, t);
    ReceiveRefines(AfterPoll(Queued(s, t), t.pollOk), tr + Commands(s.pipe, t), t);
    assert tr + Commands(s.pipe, t) + [ReceiveOccurrence(t)] == tr + TurnTrace(s.pipe, t);
  }

  // The main refinement, over every run from initialisation: each counter is the count of its
  // class since the last accepted reset modulo its width, each housekeeping payload is the tally
  // of exactly what came before it, the replies are the in-order answers to the full-size
  // datagrams whose send succeeded, and the events are those of the commands.
  lemma {:induction false} RunRefinesTrace(buf: seq<byte>, turns: seq<Turn>)
    requires |buf| == PACKET_SIZE
    ensures var s := Run(Booted(buf), turns);
            Refines(s.cnts, s.out, Trace([], turns)) && s.pipe == PipeAfter([], turns)
  {
    if turns == [] {
      OutputSnoc([], Event(STARTUP_INF_EID));
      assert [Event(STARTUP_INF_EID)] == [] + [Event(STARTUP_INF_EID)];
    } else {
      hide Refines;
      RunRefinesTrace(buf, Front(turns));
      StepRefines(Run(Booted(buf), Front(turns)), Trace([], Front(turns)), Last(turns));
    }
  }

  // ---- Counters ----

  lemma CounterRefinement(buf: seq<byte>, turns: seq<Turn>)
    requires |buf| == PACKET_SIZE
    ensures var c, tr := Run(Booted(buf), turns).cnts, SinceReset(Trace([], turns));
            c.reqRcv == Count(IsFull, tr) % TWO16
            && c.badRequests == Count(IsUnsent, tr) % TWO16
            && c.invalidRequests == Count(IsInvalid, tr) % TWO16
            && c.command == Count(IsNoop, tr) % TWO8
            && c.commandError == Count(IsLengthError, tr) % TWO8
  {
    RunRefinesTrace(buf, turns);
  }

  lemma {:induction false} FullSplits(tr: seq<Occurrence>)
    ensures Count(IsFull, tr) == Count(IsSent, tr) + Count(IsUnsent, tr)
  {
    if tr != [] { FullSplits(Front(tr)); }
  }

  // Conservation: the replies seen since the last reset event are what the two counters leave,
  // modulo 2^16; and exactly as long as both have wrapped around equally often.
  lemma ReplyConservation(buf: seq<byte>, turns: seq<Turn>)
    requires |buf| == PACKET_SIZE
    ensures var s := Run(Booted(buf), turns);
            var replies := Count(IsReplyOutput, After(IsResetEvent, s.out));
            var since := SinceReset(Trace([], turns));
            (s.cnts.reqRcv - s.cnts.badRequests) % TWO16 == replies % TWO16
            && (replies == s.cnts.reqRcv - s.cnts.badRequests
                <==> Count(IsFull, since) / TWO16 == Count(IsUnsent, since) / TWO16)
            && (Count(IsFull, since) < TWO16 ==> replies == s.cnts.reqRcv - s.cnts.badRequests)
  {
    hide Refines;
    hide Run;
    hide Trace;
    RunRefinesTrace(buf, turns);
    var s := Run(Booted(buf), turns);
    ConservationAt(s.cnts, s.out, Trace([], turns));
  }

  lemma ConservationAt(c: Counters, out: seq<Output>, tr: seq<Occurrence>)
    requires Refines(c, out, tr)
    ensures var replies := Count(IsReplyOutput, After(IsResetEvent, out));
            var since := SinceReset(tr);
            (c.reqRcv - c.badRequests) % TWO16 == replies % TWO16
            && (replies == c.reqRcv - c.badRequests
                <==> Count(IsFull, since) / TWO16 == Count(IsUnsent, since) / TWO16)
            && (Count(IsFull, since) < TWO16 ==> replies == c.reqRcv - c.badRequests)
  {
    hide Count;
    hide After;
    hide Collect;
    hide TelemetryOf;
    hide Payloads;
    hide Replies;
    hide Eids;
    var since := SinceReset(tr);
    FullSplits(since);
    CountersConserve(Count(IsFull, since), Count(IsUnsent, since));
  }

  lemma CountersConserve(full: nat, unsent: nat)
    requires unsent <= full
    ensures (full % TWO16 - unsent % TWO16) % TWO16 == (full - unsent) % TWO16
    ensures full % TWO16 - unsent % TWO16 == full - unsent <==> full / TWO16 == unsent / TWO16
    ensures full < TWO16 ==> full / TWO16 == unsent / TWO16
  {
    var a, b := full / TWO16, unsent / TWO16;
    assert full - unsent == (full % TWO16 - unsent % TWO16) + (a - b) * TWO16;
  }

  // The counters of commands against the events: an observer of the event log alone can tell
  // both counters.
  lemma CommandEventAgreement(buf: seq<byte>, turns: seq<Turn>)
    requires |buf| == PACKET_SIZE
    ensures var s := Run(Booted(buf), turns);
            var since := After(IsResetEvent, s.out);
            s.cnts.command == Count(IsNoopEvent, since) % TWO8
            && s.cnts.commandError == Count(IsLengthEvent, since) % TWO8
  {
    RunRefinesTrace(buf, turns);
  }

  // A message has no effect on the counters exactly when it asks for housekeeping, is of an
  // unknown id or code, or resets counters that are zero already.
  lemma CountersUnchanged(s: AppState, m: Message)
    ensures AfterCommandPacket(s, m).cnts == s.cnts
            <==> CommandOccurrence(m) in {HousekeepingSent, UnknownMid, UnknownCode}
                 || (CommandOccurrence(m) == ResetDone && s.cnts == ZERO_COUNTERS)
  {
    assert Inc8(s.cnts.command) != s.cnts.command && Inc8(s.cnts.commandError) != s.cnts.commandError;
  }

  // ---- Replies ----

  lemma ReplyLog(buf: seq<byte>, turns: seq<Turn>)
    requires |buf| == PACKET_SIZE
    ensures Replies(Run(Booted(buf), turns).out) == Collect(TurnAnswer(SNTP_STRATUM), turns)
  {
    RunRefinesTrace(buf, turns);
    AnswersOfTurns([], turns);
  }

  type Sent = (Address, seq<byte>)

  // The answer a turn owes a server of the given stratum: to the sender of a full-size datagram,
  // if the send succeeds.
  function TurnAnswer(stratum: byte): Turn -> Option<Sent> {
    (t: Turn) =>
      if FillsBuffer(t.received) && t.sendOk
      then Some((t.received.sender, ReplyBytes(t.received.bytes[..PACKET_SIZE], t.arrive, t.depart, stratum)))
      else None
  }

  lemma {:induction false} AnswersOfTurns(pipe: seq<Message>, turns: seq<Turn>)
    ensures Collect(AnswerTo, Trace(pipe, turns)) == Collect(TurnAnswer(SNTP_STRATUM), turns)
  {
    if turns != [] {
      var p := PipeAfter(pipe, Front(turns));
      AnswersOfTurns(pipe, Front(turns));
      CollectConcat(AnswerTo, Trace(pipe, Front(turns)), TurnTrace(p, Last(turns)));
      AnswersOfTurn(p, Last(turns));
    }
  }

  lemma AnswersOfTurn(pipe: seq<Message>, t: Turn)
    ensures Collect(AnswerTo, TurnTrace(pipe, t)) == if TurnAnswer(SNTP_STRATUM)(t).Some? then [TurnAnswer(SNTP_STRATUM)(t).value] else []
  {
    var commands := Commands(pipe, t);
    if commands != [] {
      assert commands == [] + [commands[0]];
      CollectSnoc(AnswerTo, [], commands[0]);
    }
    CollectSnoc(AnswerTo, commands, ReceiveOccurrence(t));
  }

  // What socket and clocks do in a turn, without the bus.
  function Traffic(t: Turn): Turn { t.(arrivals := [], pollOk := false) }

  function AllTraffic(turns: seq<Turn>): seq<Turn> { seq(|turns|, i requires 0 <= i < |turns| => Traffic(turns[i])) }

  // History independence over whole runs: from any two states and under any bus traffic, equal
  // socket traffic draws equal replies.
  lemma {:induction false} RepliesIgnoreHistory(s1: AppState, turns1: seq<Turn>, s2: AppState, turns2: seq<Turn>)
    requires |s1.buf| == PACKET_SIZE && |s2.buf| == PACKET_SIZE
    requires AllTraffic(turns1) == AllTraffic(turns2)
    ensures exists answers ::
              Replies(Run(s1, turns1).out) == Replies(s1.out) + answers
              && Replies(Run(s2, turns2).out) == Replies(s2.out) + answers
  {
    RepliesOfRun(s1, turns1);
    RepliesOfRun(s2, turns2);
    AnswersOfTraffic(turns1);
    AnswersOfTraffic(turns2);
  }

  lemma {:induction false} RepliesOfRun(s: AppState, turns: seq<Turn>)
    requires |s.buf| == PACKET_SIZE
    ensures Replies(Run(s, turns).out) == Replies(s.out) + Collect(TurnAnswer(SNTP_STRATUM), turns)
  {
    hide Step;
    hide TurnAnswer;
    hide Replies;
    if turns != [] {
      RepliesOfRun(s, Front(turns));
      RepliesOfStep(Run(s, Front(turns)), Last(turns));
      assert turns == Front(turns) + [Last(turns)];
    } else {
      assert Replies(s.out) + [] == Replies(s.out);
    }
  }

  // The same for one iteration: the reply depends on the first 48 bytes received, the clock
  // readings and the outcome of the send, and on nothing of the state.
  lemma RepliesOfStep(s: AppState, t: Turn)
    requires |s.buf| == PACKET_SIZE
    ensures Replies(Step(s, t).out)
            == Replies(s.out) + if TurnAnswer(SNTP_STRATUM)(t).Some? then [TurnAnswer(SNTP_STRATUM)(t).value] else []
  {
    hide AfterPoll;
    hide AfterReceive;
    hide OutputsOf;
    hide Replies;
    hide AnswerTo;
    hide TurnAnswer;
    RepliesOfPoll(s, t);
    var polled := AfterPoll(Queued(s, t), t.pollOk);
    ReceiveEffect(polled, t);
    OutputEffect(polled.out, polled.cnts, ReceiveOccurrence(t));
    AnswerToReceive(t);
  }

  lemma AnswerToReceive(t: Turn)
    ensures AnswerTo(ReceiveOccurrence(t)) == TurnAnswer(SNTP_STRATUM)(t)
  {}

  lemma RepliesOfPoll(s: AppState, t: Turn)
    ensures var polled := AfterPoll(Queued(s, t), t.pollOk);
            Replies(polled.out) == Replies(s.out) && polled.buf == s.buf
  {
    var queued := Queued(s, t);
    if queued.pipe != [] && t.pollOk {
      CommandEffect(queued.(pipe := queued.pipe[1..]), queued.pipe[0]);
      OutputEffect(s.out, s.cnts, CommandOccurrence(queued.pipe[0]));
    }
  }

  lemma {:induction false} AnswersOfTraffic(turns: seq<Turn>)
    ensures Collect(TurnAnswer(SNTP_STRATUM), turns) == Collect(TurnAnswer(SNTP_STRATUM), AllTraffic(turns))
  {
    hide ReplyBytes;
    if turns != [] {
      AnswersOfTraffic(Front(turns));
      assert AllTraffic(turns) == AllTraffic(Front(turns)) + [Traffic(Last(turns))];
      CollectSnoc(TurnAnswer(SNTP_STRATUM), AllTraffic(Front(turns)), Traffic(Last(turns)));
    }
  }
}
