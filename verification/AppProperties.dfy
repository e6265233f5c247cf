// What the refinement gives an observer: telemetry, resets, command order and clock order.
module AppProperties {
  import opened Words
  import opened Timestamps
  import opened Packets
  import opened Sockets
  import opened Histories
  import opened AppSpec
  import opened AppRefinement

  // ---- Telemetry ----

  predicate IsHousekeeping(o: Occurrence) { o.HousekeepingSent? }

  lemma {:induction false} TelemetryAt(tr: seq<Occurrence>, i: nat)
    requires i < |tr| && tr[i].HousekeepingSent?
    ensures |TelemetryOf(tr)| == Count(IsHousekeeping, tr)
    ensures Count(IsHousekeeping, tr[..i]) < |TelemetryOf(tr)|
    ensures TelemetryOf(tr)[Count(IsHousekeeping, tr[..i])] == Tally(SinceReset(tr[..i]))
  {
    TelemetryCount(tr);
    TelemetryCount(Front(tr));
    if i == |tr| - 1 {
      assert tr[..i] == Front(tr);
    } else {
      TelemetryAt(Front(tr), i);
      assert Front(tr)[..i] == tr[..i];
    }
  }

  lemma {:induction false} TelemetryCount(tr: seq<Occurrence>)
    ensures |TelemetryOf(tr)| == Count(IsHousekeeping, tr)
  {
    if tr != [] { TelemetryCount(Front(tr)); }
  }

  // Each payload sent over a run is the tally of exactly the occurrences before its request. A
  // datagram of the same iteration comes after it in the trace.
  lemma TelemetryReconstruction(buf: seq<byte>, turns: seq<Turn>, i: nat)
    requires |buf| == PACKET_SIZE
    requires i < |Trace([], turns)| && Trace([], turns)[i].HousekeepingSent?
    ensures var tr, payloads := Trace([], turns), Payloads(Run(Booted(buf), turns).out);
            var k := Count(IsHousekeeping, tr[..i]);
            k < |payloads| == Count(IsHousekeeping, tr) && payloads[k] == Tally(SinceReset(tr[..i]))
  {
    hide Run;
    hide Trace;
    hide Tally;
    RunRefinesTrace(buf, turns);
    TelemetryAt(Trace([], turns), i);
  }

  // What separates two payloads with no reset between them: modulo the widths, the differences
  // are the numbers of occurrences between the two requests, hence exactly those while they fit.
  lemma TelemetryDifference(buf: seq<byte>, turns: seq<Turn>, i: nat, j: nat)
    requires |buf| == PACKET_SIZE
    requires i < j < |Trace([], turns)| && Trace([], turns)[i].HousekeepingSent? && Trace([], turns)[j].HousekeepingSent?
    requires Count(IsReset, Trace([], turns)[i..j]) == 0
    ensures var tr, payloads := Trace([], turns), Payloads(Run(Booted(buf), turns).out);
            var k, l := Count(IsHousekeeping, tr[..i]), Count(IsHousekeeping, tr[..j]);
            k < |payloads| && l < |payloads| && Separated(payloads[k], payloads[l], tr[i..j])
  {
    hide Run;
    hide Trace;
    hide Tally;
    hide Separated;
    var tr := Trace([], turns);
    TelemetryReconstruction(buf, turns, i);
    TelemetryReconstruction(buf, turns, j);
    TallyDifference(tr[..i], tr[i..j]);
    assert tr[..i] + tr[i..j] == tr[..j];
  }

  ghost predicate Separated(a: Counters, b: Counters, between: seq<Occurrence>) {
    && DifferenceIs(TWO16, a.reqRcv, b.reqRcv, Count(IsFull, between))
    && DifferenceIs(TWO16, a.badRequests, b.badRequests, Count(IsUnsent, between))
    && DifferenceIs(TWO16, a.invalidRequests, b.invalidRequests, Count(IsInvalid, between))
    && DifferenceIs(TWO8, a.command, b.command, Count(IsNoop, between))
    && DifferenceIs(TWO8, a.commandError, b.commandError, Count(IsLengthError, between))
  }

  ghost predicate DifferenceIs(width: nat, a: nat, b: nat, n: nat)
    requires width > 0
  {
    (b - a) % width == n % width
  }

  lemma TallyDifference(before: seq<Occurrence>, between: seq<Occurrence>)
    requires Count(IsReset, between) == 0
    ensures Separated(Tally(SinceReset(before)), Tally(SinceReset(before + between)), between)
  {
    var since := SinceReset(before);
    AfterConcat(IsReset, before, between);
    CountDifference(IsFull, since, between);
    CountDifference(IsUnsent, since, between);
    CountDifference(IsInvalid, since, between);
    CountDifference(IsNoop, since, between);
    CountDifference(IsLengthError, since, between);
  }

  lemma CountDifference<T>(p: T -> bool, a: seq<T>, b: seq<T>)
    ensures DifferenceIs(TWO8, Count(p, a) % TWO8, Count(p, a + b) % TWO8, Count(p, b))
    ensures DifferenceIs(TWO16, Count(p, a) % TWO16, Count(p, a + b) % TWO16, Count(p, b))
  {
    CountConcat(p, a, b);
    SumDifference(Count(p, a), Count(p, b));
  }

  lemma SumDifference(m: nat, n: nat)
    ensures DifferenceIs(TWO8, m % TWO8, (m + n) % TWO8, n)
    ensures DifferenceIs(TWO16, m % TWO16, (m + n) % TWO16, n)
  {
    var k8, k16 := m / TWO8 - (m + n) / TWO8, m / TWO16 - (m + n) / TWO16;
    assert (m + n) % TWO8 - m % TWO8 == n + k8 * TWO8;
    assert (m + n) % TWO16 - m % TWO16 == n + k16 * TWO16;
    WholeWidths(n, k8, k16);
  }

  lemma WholeWidths(n: nat, k8: int, k16: int)
    ensures (n + k8 * TWO8) % TWO8 == n % TWO8
    ensures (n + k16 * TWO16) % TWO16 == n % TWO16
  {
    var q8, q16 := n / TWO8, n / TWO16;
    assert n + k8 * TWO8 == (q8 + k8) * TWO8 + n % TWO8;
    assert n + k16 * TWO16 == (q16 + k16) * TWO16 + n % TWO16;
    Remainder(n + k8 * TWO8, q8 + k8, n % TWO8, TWO8);
    Remainder(n + k16 * TWO16, q16 + k16, n % TWO16, TWO16);
  }

  lemma Remainder(n: int, q: int, r: int, width: int)
    requires 0 <= r < width && n == q * width + r && (width == TWO8 || width == TWO16)
    ensures n % width == r
  {}

  // The housekeeping packet keeps the last payload sent, or what it held before the run.
  lemma {:induction false} PacketHoldsLastPayload(s: AppState, turns: seq<Turn>)
    requires |s.buf| == PACKET_SIZE && s.hk == LastOr(Payloads(s.out), s.hk)
    ensures Run(s, turns).hk == LastOr(Payloads(Run(s, turns).out), s.hk)
  {
    if turns != [] {
      hide Step;
      hide Payloads;
      PacketHoldsLastPayload(s, Front(turns));
      StepPacket(Run(s, Front(turns)), s.hk, Last(turns));
    }
  }

  function LastOr<T>(s: seq<T>, none: T): T { if s == [] then none else Last(s) }

  lemma StepPacket(s: AppState, none: Counters, t: Turn)
    requires |s.buf| == PACKET_SIZE && s.hk == LastOr(Payloads(s.out), none)
    ensures Step(s, t).hk == LastOr(Payloads(Step(s, t).out), none)
  {
    hide Payloads;
    PollPacket(s, none, t);
    var polled := AfterPoll(Queued(s, t), t.pollOk);
    hide AfterPoll;
    ReceiveEffect(polled, t);
    hide AfterReceive;
    hide OutputsOf;
    OutputEffect(polled.out, polled.cnts, ReceiveOccurrence(t));
  }

  lemma PollPacket(s: AppState, none: Counters, t: Turn)
    requires s.hk == LastOr(Payloads(s.out), none)
    ensures var polled := AfterPoll(Queued(s, t), t.pollOk);
            polled.hk == LastOr(Payloads(polled.out), none) && polled.buf == s.buf
  {
    hide Payloads;
    hide AfterCommandPacket;
    hide OutputsOf;
    var queued := Queued(s, t);
    if queued.pipe != [] && t.pollOk {
      CommandEffect(queued.(pipe := queued.pipe[1..]), queued.pipe[0]);
      OutputEffect(s.out, s.cnts, CommandOccurrence(queued.pipe[0]));
    }
  }

  // ---- Reset ----

  // An accepted reset erases history: two runs, whatever came before the reset in each, agree
  // afterwards on the counters and on every later payload.
  lemma ResetErasesHistory(buf1: seq<byte>, turns1: seq<Turn>, before1: seq<Occurrence>,
                           buf2: seq<byte>, turns2: seq<Turn>, before2: seq<Occurrence>,
                           rest: seq<Occurrence>)
    requires |buf1| == PACKET_SIZE && |buf2| == PACKET_SIZE
    requires Trace([], turns1) == before1 + [ResetDone] + rest
    requires Trace([], turns2) == before2 + [ResetDone] + rest
    ensures var s1, s2 := Run(Booted(buf1), turns1), Run(Booted(buf2), turns2);
            var later := TelemetryOf([ResetDone] + rest);
            s1.cnts == s2.cnts == Tally(SinceReset(rest))
            && Payloads(s1.out) == TelemetryOf(before1) + later
            && Payloads(s2.out) == TelemetryOf(before2) + later
  {
    RunAfterReset(buf1, turns1, before1, rest);
    RunAfterReset(buf2, turns2, before2, rest);
  }

  lemma RunAfterReset(buf: seq<byte>, turns: seq<Turn>, before: seq<Occurrence>, rest: seq<Occurrence>)
    requires |buf| == PACKET_SIZE
    requires Trace([], turns) == before + [ResetDone] + rest
    ensures var s := Run(Booted(buf), turns);
            s.cnts == Tally(SinceReset(rest))
            && Payloads(s.out) == TelemetryOf(before) + TelemetryOf([ResetDone] + rest)
  {
    hide Run;
    hide Trace;
    hide Tally;
    hide TelemetryOf;
    hide SinceReset;
    hide Collect;
    RunRefinesTrace(buf, turns);
    ResetCuts(before, rest);
    assert before + [ResetDone] + rest == before + ([ResetDone] + rest);
  }

  lemma ResetCuts(before: seq<Occurrence>, rest: seq<Occurrence>)
    ensures SinceReset(before + ([ResetDone] + rest)) == SinceReset(rest)
    ensures TelemetryOf(before + ([ResetDone] + rest)) == TelemetryOf(before) + TelemetryOf([ResetDone] + rest)
  {
    ResetCutsHistory(before, rest);
    ResetCutsTelemetry(before, rest);
  }

  lemma ResetCutsHistory(before: seq<Occurrence>, rest: seq<Occurrence>)
    ensures SinceReset(before + ([ResetDone] + rest)) == SinceReset([ResetDone] + rest) == SinceReset(rest)
  {
    hide After;
    ResetCounted(rest);
    AfterConcat(IsReset, before, [ResetDone] + rest);
    AfterConcat(IsReset, [ResetDone], rest);
    if Count(IsReset, rest) == 0 {
      AfterConcat(IsReset, [], rest);
      AfterEmpty(IsReset);
      assert [] + rest == rest;
    }
  }

  lemma AfterEmpty<T>(p: T -> bool)
    ensures After(p, []) == []
  {}

  lemma TelemetrySnoc(tr: seq<Occurrence>, o: Occurrence)
    ensures TelemetryOf(tr + [o])
            == TelemetryOf(tr) + if o.HousekeepingSent? then [Tally(SinceReset(tr))] else []
  {
    Snoc(tr, o);
  }

  lemma {:induction false} ResetCutsTelemetry(before: seq<Occurrence>, rest: seq<Occurrence>)
    ensures TelemetryOf(before + ([ResetDone] + rest)) == TelemetryOf(before) + TelemetryOf([ResetDone] + rest)
  {
    hide SinceReset;
    hide Tally;
    hide TelemetryOf;
    var tail := [ResetDone] + rest;
    if rest == [] {
      assert tail == [] + [ResetDone] && before + tail == before + [ResetDone];
      TelemetrySnoc([], ResetDone);
      TelemetrySnoc(before, ResetDone);
      TelemetryEmpty();
    } else {
      var front := [ResetDone] + Front(rest);
      ResetCutsTelemetry(before, Front(rest));
      ResetCutsHistory(before, Front(rest));
      TelemetrySnoc(before + front, Last(rest));
      TelemetrySnoc(front, Last(rest));
      assert before + tail == (before + front) + [Last(rest)];
      assert tail == front + [Last(rest)];
    }
  }

  lemma TelemetryEmpty()
    ensures TelemetryOf([]) == []
  {}

  lemma ResetCounted(rest: seq<Occurrence>)
    ensures Count(IsReset, [ResetDone] + rest) > 0
    ensures After(IsReset, [ResetDone]) == []
  {
    CountConcat(IsReset, [ResetDone], rest);
    assert [ResetDone] == [] + [ResetDone];
    CountSnoc(IsReset, [], ResetDone);
    AfterSnoc(IsReset, [], ResetDone);
  }

  // No other message erases anything; in particular a reset of the wrong length is kept in the
  // history, where it counts as a command error.
  lemma OnlyAcceptedResetErases(tr: seq<Occurrence>, m: Message)
    ensures SinceReset(tr + [CommandOccurrence(m)]) == []
            <==> m == Message(CMD_MID, RESET_COUNTERS_CC, NO_ARGS_SIZE)
    ensures m.mid == CMD_MID && m.code == RESET_COUNTERS_CC && m.size != NO_ARGS_SIZE ==>
              Tally(SinceReset(tr + [CommandOccurrence(m)])).commandError == Inc8(Tally(SinceReset(tr)).commandError)
  {
    hide After;
    hide Tally;
    AfterSnoc(IsReset, tr, CommandOccurrence(m));
    TallyEffect(tr, CommandOccurrence(m));
  }

  // ---- The command pipe ----

  // What the pipe accepted over some turns, and what was taken from it, in order.
  function Admitted(pipe: seq<Message>, turns: seq<Turn>): seq<Message> {
    if turns == [] then [] else
    var p := PipeAfter(pipe, Front(turns));
    Admitted(pipe, Front(turns)) + Enqueue(p, Last(turns).arrivals)[|p|..]
  }

  function AllTaken(pipe: seq<Message>, turns: seq<Turn>): seq<Message> {
    if turns == [] then [] else
    AllTaken(pipe, Front(turns)) + Taken(PipeAfter(pipe, Front(turns)), Last(turns))
  }

  function CommandIn(o: Occurrence): Option<Occurrence> { if IsReceive(o) then None else Some(o) }

  function Occurrences(ms: seq<Message>): seq<Occurrence> {
    seq(|ms|, i requires 0 <= i < |ms| => CommandOccurrence(ms[i]))
  }

  // First in, first out, and nothing lost: what was taken and what is left are what was there
  // and what was accepted. Exactly the messages taken are handled, each once, and every turn
  // receives from the socket once.
  lemma CommandsFifo(pipe: seq<Message>, turns: seq<Turn>)
    ensures AllTaken(pipe, turns) + PipeAfter(pipe, turns) == pipe + Admitted(pipe, turns)
    ensures |AllTaken(pipe, turns)| <= |turns|
    ensures |pipe| <= PIPE_DEPTH ==> |PipeAfter(pipe, turns)| <= PIPE_DEPTH
    ensures Collect(CommandIn, Trace(pipe, turns)) == Occurrences(AllTaken(pipe, turns))
    ensures Count(IsReceive, Trace(pipe, turns)) == |turns|
  {
    PipeConserves(pipe, turns);
    TraceParts(pipe, turns);
  }

  lemma {:induction false} PipeConserves(pipe: seq<Message>, turns: seq<Turn>)
    ensures AllTaken(pipe, turns) + PipeAfter(pipe, turns) == pipe + Admitted(pipe, turns)
    ensures |AllTaken(pipe, turns)| <= |turns|
    ensures |pipe| <= PIPE_DEPTH ==> |PipeAfter(pipe, turns)| <= PIPE_DEPTH
  {
    if turns != [] {
      hide Enqueue;
      var t := Last(turns);
      var p := PipeAfter(pipe, Front(turns));
      var q := Enqueue(p, t.arrivals);
      hide Taken;
      hide PipeAfterTurn;
      PipeConserves(pipe, Front(turns));
      TakenFromQueue(p, t);
      Associate(AllTaken(pipe, Front(turns)), Taken(p, t), PipeAfter(pipe, turns), p, q[|p|..]);
    }
  }

  lemma TakenFromQueue(p: seq<Message>, t: Turn)
    ensures p <= Enqueue(p, t.arrivals)
    ensures Taken(p, t) + PipeAfterTurn(p, t) == p + Enqueue(p, t.arrivals)[|p|..]
    ensures |Taken(p, t)| <= 1
    ensures |p| <= PIPE_DEPTH ==> |PipeAfterTurn(p, t)| <= PIPE_DEPTH
  {
    QueueGrows(p, t.arrivals);
    hide Enqueue;
    var q := Enqueue(p, t.arrivals);
    assert q == p + q[|p|..];
  }

  lemma QueueGrows(p: seq<Message>, arrivals: seq<Message>)
    ensures p <= Enqueue(p, arrivals)
    ensures |p| <= PIPE_DEPTH ==> |Enqueue(p, arrivals)| <= PIPE_DEPTH
  {}

  // The pipe accepts arrivals in order, as many as it has room for.
  lemma PipeAccepts(pipe: seq<Message>, arrivals: seq<Message>)
    requires |pipe| <= 32
    ensures var room := 32 - |pipe|;
            Enqueue(pipe, arrivals) == pipe + if |arrivals| <= room then arrivals else arrivals[..room]
  {
    var all := pipe + arrivals;
    if |all| > PIPE_DEPTH {
      assert all[..PIPE_DEPTH] == pipe + arrivals[..PIPE_DEPTH - |pipe|];
    }
  }

  lemma Associate<T>(a: seq<T>, b: seq<T>, c: seq<T>, p: seq<T>, q: seq<T>)
    requires b + c == p + q
    ensures (a + b) + c == (a + p) + q
  {
    assert (a + b) + c == a + (b + c);
    assert (a + p) + q == a + (p + q);
  }

  lemma {:induction false} TraceParts(pipe: seq<Message>, turns: seq<Turn>)
    ensures Collect(CommandIn, Trace(pipe, turns)) == Occurrences(AllTaken(pipe, turns))
    ensures Count(IsReceive, Trace(pipe, turns)) == |turns|
  {
    hide Collect;
    hide Count;
    if turns != [] {
      hide PipeAfter;
      hide TurnTrace;
      hide Taken;
      var t := Last(turns);
      var p := PipeAfter(pipe, Front(turns));
      TraceParts(pipe, Front(turns));
      CollectConcat(CommandIn, Trace(pipe, Front(turns)), TurnTrace(p, t));
      CountConcat(IsReceive, Trace(pipe, Front(turns)), TurnTrace(p, t));
      TurnParts(p, t);
      assert Occurrences(AllTaken(pipe, turns)) == Occurrences(AllTaken(pipe, Front(turns))) + Occurrences(Taken(p, t));
    } else {
      NoTrace();
    }
  }

  lemma NoTrace()
    ensures Collect<Occurrence, Occurrence>(CommandIn, []) == [] && Count(IsReceive, []) == 0
  {}

  lemma TurnParts(pipe: seq<Message>, t: Turn)
    ensures Collect(CommandIn, TurnTrace(pipe, t)) == Occurrences(Taken(pipe, t))
    ensures Count(IsReceive, TurnTrace(pipe, t)) == 1
  {
    hide Collect;
    hide Count;
    hide Enqueue;
    NoTrace();
    var commands := Commands(pipe, t);
    CollectSnoc(CommandIn, commands, ReceiveOccurrence(t));
    CountSnoc(IsReceive, commands, ReceiveOccurrence(t));
    if commands != [] {
      assert commands == [] + [commands[0]];
      CollectSnoc(CommandIn, [], commands[0]);
      CountSnoc(IsReceive, [], commands[0]);
    }
  }

  lemma {:induction false} RunPipe(s: AppState, turns: seq<Turn>)
    requires |s.buf| == PACKET_SIZE
    ensures Run(s, turns).pipe == PipeAfter(s.pipe, turns)
  {
    if turns != [] {
      RunPipe(s, Front(turns));
      PollPipe(Run(s, Front(turns)), Last(turns));
    }
  }

  lemma PollPipe(s: AppState, t: Turn)
    requires |s.buf| == PACKET_SIZE
    ensures Step(s, t).pipe == PipeAfterTurn(s.pipe, t)
  {}

  // With no new arrivals and successful polls, the pending commands are handled in order, one a
  // turn, and the pipe is empty just when there were as many turns as commands.
  lemma {:induction false} BoundedDrain(s: AppState, turns: seq<Turn>)
    requires |s.buf| == PACKET_SIZE && |s.pipe| <= PIPE_DEPTH
    requires forall t :: t in turns ==> t.arrivals == [] && t.pollOk
    ensures var n := if |turns| < |s.pipe| then |turns| else |s.pipe|;
            Run(s, turns).pipe == s.pipe[n..]
            && Collect(CommandIn, Trace(s.pipe, turns)) == Occurrences(s.pipe[..n])
    ensures Run(s, turns).pipe == [] <==> |turns| >= |s.pipe|
  {
    RunPipe(s, turns);
    CommandsFifo(s.pipe, turns);
    DrainedPipe(s.pipe, turns);
  }

  lemma DrainedPipe(pipe: seq<Message>, turns: seq<Turn>)
    requires |pipe| <= PIPE_DEPTH
    requires forall t :: t in turns ==> t.arrivals == [] && t.pollOk
    ensures var n := if |turns| < |pipe| then |turns| else |pipe|;
            PipeAfter(pipe, turns) == pipe[n..] && AllTaken(pipe, turns) == pipe[..n]
  {
    hide PipeAfter;
    hide AllTaken;
    hide Admitted;
    PipeConserves(pipe, turns);
    DrainedCount(pipe, turns);
    SplitAt(AllTaken(pipe, turns), PipeAfter(pipe, turns), pipe);
    assert pipe + [] == pipe;
  }

  lemma SplitAt<T>(a: seq<T>, b: seq<T>, s: seq<T>)
    requires a + b == s
    ensures a == s[..|a|] && b == s[|a|..]
  {}

  lemma {:induction false} DrainedCount(pipe: seq<Message>, turns: seq<Turn>)
    requires |pipe| <= PIPE_DEPTH
    requires forall t :: t in turns ==> t.arrivals == [] && t.pollOk
    ensures Admitted(pipe, turns) == []
    ensures |AllTaken(pipe, turns)| == if |turns| < |pipe| then |turns| else |pipe|
  {
    if turns != [] {
      hide Enqueue;
      hide PipeAfter;
      hide Taken;
      var front, t := Front(turns), Last(turns);
      var p := PipeAfter(pipe, front);
      assert t in turns && forall u :: u in front ==> u in turns;
      DrainedCount(pipe, front);
      PipeConserves(pipe, front);
      OneDrained(p, t);
      assert |AllTaken(pipe, front) + p| == |pipe|;
      assert |AllTaken(pipe, turns)| == |AllTaken(pipe, front)| + |Taken(p, t)|;
    }
  }

  lemma OneDrained(p: seq<Message>, t: Turn)
    requires |p| <= PIPE_DEPTH && t.arrivals == [] && t.pollOk
    ensures Enqueue(p, t.arrivals)[|p|..] == []
    ensures |Taken(p, t)| == if p == [] then 0 else 1
  {
    assert p + [] == p;
  }

  // ---- Clock order ----

  // The unbounded values of the two stamps of an answer.
  function AnswerUnits(t: Turn): Option<(int, int)> {
    if FillsBuffer(t.received) && t.sendOk then Some((Units(t.arrive), Units(t.depart))) else None
  }

  // The clock never runs backwards between the readings actually made.
  ghost predicate ClockAdvances(turns: seq<Turn>) {
    && (forall i :: 0 <= i < |turns| && FillsBuffer(turns[i].received) ==> NotAfter(turns[i].arrive, turns[i].depart))
    && (forall i, j :: 0 <= i < j < |turns| && FillsBuffer(turns[i].received) && FillsBuffer(turns[j].received) ==>
          NotAfter(turns[i].depart, turns[j].arrive))
  }

  ghost predicate InOrder(us: seq<(int, int)>) {
    && (forall k :: 0 <= k < |us| ==> us[k].0 <= us[k].1)
    && (forall k, l :: 0 <= k < l < |us| ==> us[k].1 <= us[l].0)
  }

  // A reply's receive and transmit stamps on the wire.
  function ReceiveStamp(bytes: seq<byte>): uint64
    requires |bytes| == PACKET_SIZE
  {
    Pack(Parse(bytes).receiveTime)
  }

  function TransmitStamp(bytes: seq<byte>): uint64
    requires |bytes| == PACKET_SIZE
  {
    Pack(Parse(bytes).transmitTime)
  }

  lemma {:induction false} CollectFrom<T, U>(f: T -> Option<U>, s: seq<T>, k: nat)
    requires k < |Collect(f, s)|
    ensures exists i :: 0 <= i < |s| && f(s[i]) == Some(Collect(f, s)[k])
  {
    if k < |Collect(f, Front(s))| {
      CollectFrom(f, Front(s), k);
      var i :| 0 <= i < |Front(s)| && f(Front(s)[i]) == Some(Collect(f, Front(s))[k]);
      assert f(s[i]) == Some(Collect(f, s)[k]);
    } else {
      assert f(s[|s| - 1]) == Some(Collect(f, s)[k]);
    }
  }

  lemma {:induction false} UnitsInOrder(turns: seq<Turn>)
    requires ClockAdvances(turns)
    ensures InOrder(Collect(AnswerUnits, turns))
  {
    if turns != [] {
      var t := Last(turns);
      var us := Collect(AnswerUnits, Front(turns));
      UnitsInOrder(Front(turns));
      if AnswerUnits(t).Some? {
        UnitsMonotone(t.arrive, t.depart);
        forall k | 0 <= k < |us|
          ensures us[k].1 <= Units(t.arrive)
        {
          CollectFrom(AnswerUnits, Front(turns), k);
          var i :| 0 <= i < |Front(turns)| && AnswerUnits(Front(turns)[i]) == Some(us[k]);
          assert Front(turns)[i] == turns[i];
          UnitsMonotone(turns[i].depart, t.arrive);
        }
      }
    }
  }

  lemma {:induction false} AnswerStamps(turns: seq<Turn>)
    ensures var us, answers := Collect(AnswerUnits, turns), Collect(TurnAnswer(SNTP_STRATUM), turns);
            |us| == |answers|
            && forall k :: 0 <= k < |us| ==>
                 |answers[k].1| == PACKET_SIZE
                 && ReceiveStamp(answers[k].1) == Wrap(us[k].0) && TransmitStamp(answers[k].1) == Wrap(us[k].1)
  {
    hide ReplyBytes;
    if turns != [] {
      var t := Last(turns);
      AnswerStamps(Front(turns));
      if TurnAnswer(SNTP_STRATUM)(t).Some? {
        ReplyFields(t.received.bytes[..PACKET_SIZE], t.arrive, t.depart, SNTP_STRATUM);
        StampIsUnits(t.arrive);
        StampIsUnits(t.depart);
      }
    }
  }

  // Over every run with a clock that does not run backwards, the stamps of the replies, read off
  // the wire, stand for instants in order; and the signed 64-bit difference of any two of them
  // shows it as long as they are less than 2^31 s apart, across seconds and eras.
  lemma ClockOrder(buf: seq<byte>, turns: seq<Turn>)
    requires |buf| == PACKET_SIZE && ClockAdvances(turns)
    ensures var rs, us := Replies(Run(Booted(buf), turns).out), Collect(AnswerUnits, turns);
            |rs| == |us| && InOrder(us)
            && (forall k :: 0 <= k < |us| ==> |rs[k].1| == PACKET_SIZE)
            && (forall k :: 0 <= k < |us| && us[k].1 - us[k].0 < TWO63 ==>
                  SignedDifference(TransmitStamp(rs[k].1), ReceiveStamp(rs[k].1)) == us[k].1 - us[k].0)
            && (forall k, l :: 0 <= k < l < |us| && us[l].0 - us[k].1 < TWO63 ==>
                  SignedDifference(ReceiveStamp(rs[l].1), TransmitStamp(rs[k].1)) == us[l].0 - us[k].1)
  {
    hide Run;
    hide TurnAnswer;
    hide AnswerUnits;
    hide ReceiveStamp;
    hide TransmitStamp;
    hide SignedDifference;
    hide Wrap;
    ReplyLog(buf, turns);
    UnitsInOrder(turns);
    AnswerStamps(turns);
    var us := Collect(AnswerUnits, turns);
    forall k | 0 <= k < |us| {
      ModularDifference(us[k].1, us[k].0);
    }
    forall k, l | 0 <= k < l < |us| {
      ModularDifference(us[l].0, us[k].1);
    }
  }
}
