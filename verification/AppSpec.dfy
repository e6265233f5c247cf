// The server application as a function from its inputs to its state and outputs.
module AppSpec {
  import opened Words
  import opened Timestamps
  import opened Packets
  import opened Sockets
  import opened Histories

  const PIPE_DEPTH := 32
  // cFE's default base for command message ids; only the difference of the two ids matters.
  const CMD_MID_BASE := 0x1800
  const CMD_MID := CMD_MID_BASE + 0x30
  const SEND_HK_MID := CMD_MID_BASE + 0x31
  const NOOP_CC := 0
  const RESET_COUNTERS_CC := 1
  // The size of a command header: both known commands have no arguments.
  const NO_ARGS_SIZE := 8

  const STARTUP_INF_EID := 1
  const COMMAND_ERR_EID := 2
  const COMMANDNOP_INF_EID := 3
  const COMMANDRST_INF_EID := 4
  const INVALID_MSGID_ERR_EID := 5
  const LEN_ERR_EID := 6

  datatype Message = Message(mid: nat, code: nat, size: nat)

  datatype Counters = Counters(
    commandError: byte, command: byte,
    reqRcv: uint16, badRequests: uint16, invalidRequests: uint16)

  const ZERO_COUNTERS := Counters(0, 0, 0, 0, 0)

  // Everything an observer of the application sees, in order.
  datatype Output = Event(eid: nat) | Telemetry(payload: Counters) | Reply(dst: Address, bytes: seq<byte>)

  // What the environment does in one iteration of the run loop: messages arriving on the bus,
  // whether the poll of a nonempty pipe succeeds, what the socket delivers, the two clock
  // readings a request needs and whether the reply can be sent.
  datatype Turn = Turn(arrivals: seq<Message>, pollOk: bool, received: Received,
                       arrive: ClockReading, depart: ClockReading, sendOk: bool)

  datatype AppState = AppState(cnts: Counters, hk: Counters, buf: seq<byte>, pipe: seq<Message>, out: seq<Output>)

  // A full pipe drops what arrives.
  function Enqueue(pipe: seq<Message>, arrivals: seq<Message>): seq<Message> {
    var all := pipe + arrivals;
    if |pipe| >= PIPE_DEPTH then pipe else if |all| <= PIPE_DEPTH then all else all[..PIPE_DEPTH]
  }

  function Emit(s: AppState, o: Output): AppState { s.(out := s.out + [o]) }

  function AfterLengthError(s: AppState): AppState {
    Emit(s, Event(LEN_ERR_EID)).(cnts := s.cnts.(commandError := Inc8(s.cnts.commandError)))
  }

  function AfterNoop(s: AppState): AppState {
    Emit(s, Event(COMMANDNOP_INF_EID)).(cnts := s.cnts.(command := Inc8(s.cnts.command)))
  }

  function AfterReset(s: AppState): AppState { Emit(s, Event(COMMANDRST_INF_EID)).(cnts := ZERO_COUNTERS) }

  function AfterHousekeeping(s: AppState): AppState { Emit(s, Telemetry(s.cnts)).(hk := s.cnts) }

  function AfterGroundCommand(s: AppState, m: Message): AppState {
    if m.code == NOOP_CC then
      if m.size == NO_ARGS_SIZE then AfterNoop(s) else AfterLengthError(s)
    else if m.code == RESET_COUNTERS_CC then
      if m.size == NO_ARGS_SIZE then AfterReset(s) else AfterLengthError(s)
    else Emit(s, Event(COMMAND_ERR_EID))
  }

  function AfterCommandPacket(s: AppState, m: Message): AppState {
    if m.mid == CMD_MID then AfterGroundCommand(s, m)
    else if m.mid == SEND_HK_MID then AfterHousekeeping(s)
    else Emit(s, Event(INVALID_MSGID_ERR_EID))
  }

  function AfterPoll(s: AppState, pollOk: bool): AppState {
    if s.pipe != [] && pollOk then AfterCommandPacket(s.(pipe := s.pipe[1..]), s.pipe[0]) else s
  }

  // A request filling the buffer is counted, answered to its sender, and counted again if the
  // answer could not be sent.
  function AfterRequest(s: AppState, dst: Address, t: Turn): AppState
    requires |s.buf| == PACKET_SIZE
  {
    var counted := s.(cnts := s.cnts.(reqRcv := Inc16(s.cnts.reqRcv)));
    if t.sendOk then Emit(counted, Reply(dst, ReplyBytes(s.buf, t.arrive, t.depart, SNTP_STRATUM)))
    else counted.(cnts := counted.cnts.(badRequests := Inc16(counted.cnts.badRequests)))
  }

  function AfterInvalid(s: AppState): AppState {
    s.(cnts := s.cnts.(invalidRequests := Inc16(s.cnts.invalidRequests)))
  }

  function AfterReceive(s: AppState, t: Turn): (after: AppState)
    requires |s.buf| == PACKET_SIZE
    ensures |after.buf| == PACKET_SIZE && after.pipe == s.pipe
  {
    var n := ReceivedBytes(t.received);
    var filled := s.(buf := BufferAfter(s.buf, t.received));
    if n == PACKET_SIZE then AfterRequest(filled, t.received.sender, t)
    else if n > 0 then AfterInvalid(filled)
    else if n < 0 && !IsTimeout(t.received) then AfterInvalid(filled)
    else filled
  }

  function Queued(s: AppState, t: Turn): AppState { s.(pipe := Enqueue(s.pipe, t.arrivals)) }

  function Step(s: AppState, t: Turn): (after: AppState)
    requires |s.buf| == PACKET_SIZE
    ensures |after.buf| == PACKET_SIZE
  {
    AfterReceive(AfterPoll(Queued(s, t), t.pollOk), t)
  }

  function Run(s: AppState, turns: seq<Turn>): (after: AppState)
    requires |s.buf| == PACKET_SIZE
    ensures |after.buf| == PACKET_SIZE
  {
    if turns == [] then s else Step(Run(s, Front(turns)), Last(turns))
  }

  // The state initialisation leaves, whatever was in the buffer.
  function Booted(buf: seq<byte>): AppState {
    AppState(ZERO_COUNTERS, ZERO_COUNTERS, buf, [], [Event(STARTUP_INF_EID)])
  }

  // ---- The reference: what happened, told from the inputs alone ----

  datatype Occurrence =
    | NoopDone | ResetDone | HousekeepingSent | LengthError | UnknownCode | UnknownMid
    | FullRequest(sender: Address, head: seq<byte>, arrive: ClockReading, depart: ClockReading, sent: bool)
    | ShortRequest | ReceiveError | NothingReceived

  function CommandOccurrence(m: Message): Occurrence {
    match m
    case Message(mid, code, size) =>
      if mid == SEND_HK_MID then HousekeepingSent
      else if mid != CMD_MID then UnknownMid
      else if code !in {NOOP_CC, RESET_COUNTERS_CC} then UnknownCode
      else if size != NO_ARGS_SIZE then LengthError
      else if code == NOOP_CC then NoopDone else ResetDone
  }

  function ReceiveOccurrence(t: Turn): Occurrence {
    match t.received
    case Failed(errno) => if errno == OtherError then ReceiveError else NothingReceived
    case Datagram(sender, bytes) =>
      if |bytes| >= PACKET_SIZE then FullRequest(sender, bytes[..PACKET_SIZE], t.arrive, t.depart, t.sendOk)
      else if bytes != [] then ShortRequest else NothingReceived
  }

  // What a turn leaves in the pipe.
  function PipeAfterTurn(pipe: seq<Message>, t: Turn): seq<Message> {
    var p := Enqueue(pipe, t.arrivals);
    if p != [] && t.pollOk then p[1..] else p
  }

  function PipeAfter(pipe: seq<Message>, turns: seq<Turn>): seq<Message> {
    if turns == [] then pipe else PipeAfterTurn(PipeAfter(pipe, Front(turns)), Last(turns))
  }

  // The message a turn takes from the pipe, if any.
  function Taken(pipe: seq<Message>, t: Turn): seq<Message> {
    var p := Enqueue(pipe, t.arrivals);
    if p != [] && t.pollOk then [p[0]] else []
  }

  function Commands(pipe: seq<Message>, t: Turn): seq<Occurrence> {
    var taken := Taken(pipe, t);
    if taken == [] then [] else [CommandOccurrence(taken[0])]
  }

  // The command of a turn, if any, comes before its receive.
  function TurnTrace(pipe: seq<Message>, t: Turn): seq<Occurrence> { Commands(pipe, t) + [ReceiveOccurrence(t)] }

  function Trace(pipe: seq<Message>, turns: seq<Turn>): seq<Occurrence> {
    if turns == [] then [] else
    Trace(pipe, Front(turns)) + TurnTrace(PipeAfter(pipe, Front(turns)), Last(turns))
  }

  predicate IsNoop(o: Occurrence) { o.NoopDone? }

  predicate IsReset(o: Occurrence) { o.ResetDone? }

  predicate IsLengthError(o: Occurrence) { o.LengthError? }

  predicate IsFull(o: Occurrence) { o.FullRequest? }

  predicate IsSent(o: Occurrence) { o.FullRequest? && o.sent }

  predicate IsUnsent(o: Occurrence) { o.FullRequest? && !o.sent }

  predicate IsInvalid(o: Occurrence) { o.ShortRequest? || o.ReceiveError? }

  predicate IsReceive(o: Occurrence) {
    o.FullRequest? || o.ShortRequest? || o.ReceiveError? || o.NothingReceived?
  }

  function SinceReset(tr: seq<Occurrence>): seq<Occurrence> { After(IsReset, tr) }

  // The unbounded counts of the five classes, modulo the widths of the counters.
  function Tally(tr: seq<Occurrence>): Counters {
    Counters(Count(IsLengthError, tr) % TWO8, Count(IsNoop, tr) % TWO8,
             Count(IsFull, tr) % TWO16, Count(IsUnsent, tr) % TWO16, Count(IsInvalid, tr) % TWO16)
  }

  // The payloads housekeeping should carry: the tally of what came before each request for it.
  function TelemetryOf(tr: seq<Occurrence>): seq<Counters> {
    if tr == [] then [] else
    TelemetryOf(Front(tr)) + if Last(tr).HousekeepingSent? then [Tally(SinceReset(Front(tr)))] else []
  }

  function AnswerTo(o: Occurrence): Option<(Address, seq<byte>)> {
    if o.FullRequest? && o.sent && |o.head| == PACKET_SIZE
    then Some((o.sender, ReplyBytes(o.head, o.arrive, o.depart, SNTP_STRATUM))) else None
  }

  function EventOf(o: Occurrence): Option<nat> {
    match o
    case NoopDone => Some(COMMANDNOP_INF_EID)
    case ResetDone => Some(COMMANDRST_INF_EID)
    case LengthError => Some(LEN_ERR_EID)
    case UnknownCode => Some(COMMAND_ERR_EID)
    case UnknownMid => Some(INVALID_MSGID_ERR_EID)
    case _ => None
  }

  // ---- Projections of the outputs ----

  function ReplyOf(o: Output): Option<(Address, seq<byte>)> { if o.Reply? then Some((o.dst, o.bytes)) else None }

  function PayloadOf(o: Output): Option<Counters> { if o.Telemetry? then Some(o.payload) else None }

  function EidOf(o: Output): Option<nat> { if o.Event? then Some(o.eid) else None }

  function Replies(out: seq<Output>): seq<(Address, seq<byte>)> { Collect(ReplyOf, out) }

  function Payloads(out: seq<Output>): seq<Counters> { Collect(PayloadOf, out) }

  function Eids(out: seq<Output>): seq<nat> { Collect(EidOf, out) }

  predicate IsResetEvent(o: Output) { o == Event(COMMANDRST_INF_EID) }

  predicate IsNoopEvent(o: Output) { o == Event(COMMANDNOP_INF_EID) }

  predicate IsLengthEvent(o: Output) { o == Event(LEN_ERR_EID) }

  predicate IsReplyOutput(o: Output) { o.Reply? }
}
