// The test client: one query, from reading the clock to accepting or rejecting what came back.
module ClientTool {
  import opened Words
  import opened Timestamps
  import opened Packets
  import opened Sockets
  import opened Histories
  import opened SntpUtils
  import opened Accuracy

  // The result of a query; a successful one carries the server's time and twice the clock offset
  // of section 5 of RFC 4330.
  datatype QueryResult = Answered(serverTime: Timestamp, offset2: int) | Unanswered(status: Status)

  // What the client makes of the bytes of a response received when its clock read as given.
  function Interpretation(sent: Timestamp, bytes: seq<byte>, received: ClockReading): QueryResult
    requires |bytes| == PACKET_SIZE
  {
    if Accepts(sent, bytes) then
      var p := Parse(bytes);
      Answered(p.transmitTime, TwiceOffset(Pack(sent), Pack(p.receiveTime), Pack(p.transmitTime), Stamp(received)))
    else Unanswered(InvalidResponse)
  }

  // The transmit time of a query: the clock's stamp moved by the random number.
  function QueryTime(clock: ClockReading, perturbation: int): Timestamp {
    Unpack(Wrap(Stamp(clock) + perturbation))
  }

  // The result of a whole query: only a datagram filling the buffer is interpreted.
  function QueryOutcome(requestClock: ClockReading, perturbation: int, sendOk: bool, received: Received,
                        responseClock: ClockReading): QueryResult
  {
    if sendOk && FillsBuffer(received) then
      Interpretation(QueryTime(requestClock, perturbation), received.bytes[..PACKET_SIZE], responseClock)
    else if sendOk && received.Datagram? && received.bytes == [] then Unanswered(NoResponseReceived)
    else Unanswered(NetworkFailure)
  }

  // Each result of a query against the outcome of sendto, the number recvfrom returned and the
  // acceptance check.
  lemma OutcomeSays(requestClock: ClockReading, perturbation: int, sendOk: bool, received: Received,
                    responseClock: ClockReading)
    ensures var result := QueryOutcome(requestClock, perturbation, sendOk, received, responseClock);
            var n, sent := ReceivedBytes(received), QueryTime(requestClock, perturbation);
            (result.Answered? <==> sendOk && n == 48 && Accepts(sent, received.bytes[..48]))
            && (result == Unanswered(InvalidResponse) <==> sendOk && n == 48 && !Accepts(sent, received.bytes[..48]))
            && (result == Unanswered(NoResponseReceived) <==> sendOk && n == 0)
            && (result == Unanswered(NetworkFailure) <==> !sendOk || n < 0 || 0 < n < 48)
  {
    hide Accepts;
  }

  // Eight bytes as one number, most significant byte first.
  function BigEndian64(bytes: seq<byte>): uint64
    requires |bytes| == 8
  {
    Load(Big, bytes[..4]) * TWO32 + Load(Big, bytes[4..])
  }

  // An answer shows what bytes 40-47 of the response say as the server's time, and the offset of
  // the request's time, bytes 32-39, bytes 40-47 and the clock's reading.
  lemma AnswerReadsWire(sent: Timestamp, bytes: seq<byte>, received: ClockReading)
    requires |bytes| == PACKET_SIZE && Interpretation(sent, bytes, received).Answered?
    ensures var a := Interpretation(sent, bytes, received);
            var t2, t3 := BigEndian64(bytes[32..40]), BigEndian64(bytes[40..48]);
            Pack(a.serverTime) == t3
            && a.offset2 == SignedDifference(t2, Pack(sent)) + SignedDifference(t3, Stamp(received))
  {
    hide Stamp;
    hide Accepts;
    hide SignedDifference;
    var p := Parse(bytes);
    PrintParse(p, bytes);
    StampPositions(p);
    hide Parse;
    BigEndianStamp(p.receiveTime, bytes[32..40]);
    BigEndianStamp(p.transmitTime, bytes[40..48]);
  }

  lemma BigEndianStamp(t: Timestamp, bytes: seq<byte>)
    requires bytes == Store(Big, t.seconds) + Store(Big, t.fractions)
    ensures BigEndian64(bytes) == Pack(t)
  {
    assert bytes[..4] == Store(Big, t.seconds) && bytes[4..] == Store(Big, t.fractions);
    StoreLoad(Big, t.seconds, bytes[..4]);
    StoreLoad(Big, t.fractions, bytes[4..]);
  }

  class Client {
    const netBuf: array<byte>
    ghost var sent: seq<seq<byte>>

    ghost predicate Valid() { netBuf.Length == PACKET_SIZE }

    constructor (buf: array<byte>)
      requires buf.Length == PACKET_SIZE
      ensures Valid() && netBuf == buf && sent == []
    {
      netBuf := buf;
      sent := [];
    }

    // The contract of Sntp_SerializeRequest: the request time is randomised in place and written
    // into an otherwise empty request.
    method SerializeRequest(requestTime: SntpTimestamp, perturbation: int)
      requires Valid()
      modifies requestTime, netBuf
      ensures requestTime.Value() == Unpack(Wrap(Pack(old(requestTime.Value())) + perturbation))
      ensures netBuf[..] == RequestBytes(requestTime.Value())
    {
      var u := Unpack(Wrap(Pack(requestTime.Value()) + perturbation));
      requestTime.seconds, requestTime.fractions := u.seconds, u.fractions;
      var bytes := RequestBytes(u);
      forall i | 0 <= i < PACKET_SIZE {
        netBuf[i] := bytes[i];
      }
      assert netBuf[..] == bytes;
    }

    // run_sntp_query. The buffer is used for the request and then for the response; still the
    // result depends only on the response, never on what the buffer held.
    method RunSntpQuery(requestClock: ClockReading, perturbation: int, sendOk: bool, received: Received,
                        responseClock: ClockReading)
      returns (result: QueryResult)
      requires Valid()
      modifies netBuf, this`sent
      ensures sent == if sendOk then old(sent) + [RequestBytes(QueryTime(requestClock, perturbation))] else old(sent)
      ensures sendOk ==> var t := QueryTime(requestClock, perturbation);
                         sent == old(sent) + [[0x23] + Zeros(39) + Store(Big, t.seconds) + Store(Big, t.fractions)]
      ensures result == QueryOutcome(requestClock, perturbation, sendOk, received, responseClock)
    {
      hide Pack;
      hide Unpack;
      hide Units;
      hide Wrap;
      hide RequestBytes;
      hide Interpretation;
      hide StampOf;
      var requestTime := new SntpTimestamp();
      var responseTime := new SntpTimestamp();
      GetCurrentSntpTime(Some(requestClock), requestTime);
      SerializeRequest(requestTime, perturbation);
      if !sendOk {
        return Unanswered(NetworkFailure);
      }
      sent := sent + [netBuf[..]];
      RequestLayout(QueryTime(requestClock, perturbation));
      var receivedBytes := RecvFrom(netBuf, received);
      if receivedBytes < 0 {
        return Unanswered(NetworkFailure);
      } else if receivedBytes == 0 {
        return Unanswered(NoResponseReceived);
      } else if receivedBytes != PACKET_SIZE {
        return Unanswered(NetworkFailure);
      }
      assert netBuf[..] == received.bytes[..PACKET_SIZE];
      GetCurrentSntpTime(Some(responseClock), responseTime);
      result := Interpret(requestTime, responseTime, responseClock);
    }

    // The contract of Sntp_DeserializeResponse: the checks and the offset of section 5 of RFC 4330.
    method Interpret(requestTime: SntpTimestamp, responseTime: SntpTimestamp, ghost responseClock: ClockReading)
      returns (result: QueryResult)
      requires Valid() && responseTime.Value() == StampOf(responseClock)
      ensures result == Interpretation(requestTime.Value(), netBuf[..], responseClock)
    {
      if !Accepts(requestTime.Value(), netBuf[..]) {
        return Unanswered(InvalidResponse);
      }
      var p := Parse(netBuf[..]);
      var offset2 := TwiceOffset(Pack(requestTime.Value()), Pack(p.receiveTime), Pack(p.transmitTime),
                                 Pack(responseTime.Value()));
      return Answered(p.transmitTime, offset2);
    }
  }
}
