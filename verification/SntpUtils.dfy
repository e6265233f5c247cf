// The utilities shared by both servers and the client. They write through pointers to structs.
module SntpUtils {
  import opened Words
  import opened Timestamps
  import opened Packets
  import opened Histories

  datatype Status = Success | BadParameter | InvalidResponse | NetworkFailure | NoResponseReceived

  class SntpTimestamp {
    var seconds: uint32
    var fractions: uint32

    constructor ()
      ensures Value() == ZERO_STAMP
    {
      seconds, fractions := 0, 0;
    }

    function Value(): Timestamp
      reads this
    {
      Timestamp(seconds, fractions)
    }
  }

  class SntpPacket {
    var leapVersionMode: byte
    var stratum: byte
    var poll: byte
    var precision: byte
    var rootDelay: uint32
    var rootDispersion: uint32
    var refId: uint32
    const refTime: SntpTimestamp
    const originTime: SntpTimestamp
    const receiveTime: SntpTimestamp
    const transmitTime: SntpTimestamp

    ghost predicate Valid() {
      && refTime != originTime && refTime != receiveTime && refTime != transmitTime
      && originTime != receiveTime && originTime != transmitTime && receiveTime != transmitTime
    }

    ghost function Repr(): set<object> { {this, refTime, originTime, receiveTime, transmitTime} }

    // A packet filled with zeros.
    constructor Zeroed()
      ensures Valid() && fresh(Repr()) && Value() == ZERO_PACKET
    {
      leapVersionMode, stratum, poll, precision := 0, 0, 0, 0;
      rootDelay, rootDispersion, refId := 0, 0, 0;
      refTime := new SntpTimestamp();
      originTime := new SntpTimestamp();
      receiveTime := new SntpTimestamp();
      transmitTime := new SntpTimestamp();
    }

    function Value(): Packet
      reads this, refTime, originTime, receiveTime, transmitTime
    {
      Packet(leapVersionMode, stratum, poll, precision, rootDelay, rootDispersion, refId,
             refTime.Value(), originTime.Value(), receiveTime.Value(), transmitTime.Value())
    }
  }

  // Both variants: what the clock call returned is the argument, and the fields are assigned one
  // by one. A clock that cannot be read leaves the timestamp as it was.
  method GetCurrentSntpTime(clock: Option<ClockReading>, sntp: SntpTimestamp)
    modifies sntp
    ensures sntp.Value() == if clock.Some? then StampOf(clock.value) else old(sntp.Value())
    ensures clock.Some? ==> Pack(sntp.Value()) == Wrap(Units(clock.value))
  {
    match clock
    case None =>
      return;
    case Some(Posix(sec, nsec)) =>
      sntp.seconds := (sec + EPOCH_SHIFT) % TWO32;
      sntp.fractions := MsToFractions(FRACTIONS_PER_US, nsec / NS_PER_MS);
    case Some(Cfe(second, subseconds)) =>
      sntp.seconds := (second + EPOCH_SHIFT) % TWO32;
      sntp.fractions := subseconds;
    StampIsUnits(clock.value);
  }

  // Host to network order. The two pointers may be equal.
  method EncodeTime(e: Endian, input: SntpTimestamp, output: SntpTimestamp)
    modifies output
    ensures output.Value() == HtonTime(e, old(input.Value()))
    ensures Store(e, output.seconds) == Store(Big, old(input.seconds))
    ensures Store(e, output.fractions) == Store(Big, old(input.fractions))
  {
    NetworkOrder(e, input.seconds, [0, 0, 0, 0]);
    NetworkOrder(e, input.fractions, [0, 0, 0, 0]);
    output.seconds := Htonl(e, input.seconds);
    output.fractions := Htonl(e, input.fractions);
  }

  // Reads the mode and the transmit time; no other field of the request is touched.
  method DeserializeRequest(e: Endian, buf: array<byte>, request: SntpPacket?) returns (status: Status)
    requires buf.Length == PACKET_SIZE
    modifies if request == null then {} else {request, request.transmitTime}
    ensures status == if request == null then BadParameter else Success
    ensures request != null && request.Valid() ==>
              request.Value() == old(request.Value()).(leapVersionMode := buf[0],
                                                       transmitTime := Parse(buf[..]).transmitTime)
  {
    var input := Overlay(e, buf[..]);
    if request == null {
      return BadParameter;
    }
    OverlayTransmitTime(e, buf[..]);
    request.leapVersionMode := input.leapVersionMode;
    request.transmitTime.seconds := Ntohl(e, input.transmitTime.seconds);
    request.transmitTime.fractions := Ntohl(e, input.transmitTime.fractions);
    return Success;
  }

  // Decodes the request into a local struct and echoes its transmit time.
  method EchoRequest(e: Endian, buf: array<byte>, origin: SntpTimestamp) returns (status: Status)
    requires buf.Length == PACKET_SIZE
    modifies origin
    ensures status == Success
    ensures origin.Value() == HtonTime(e, Parse(buf[..]).transmitTime)
  {
    var request := new SntpPacket.Zeroed();
    status := DeserializeRequest(e, buf, request);
    if status != Success {
      return;
    }
    EncodeTime(e, request.transmitTime, origin);
  }

  // What both servers do between receiving a request and sending the reply: stamp the arrival,
  // decode the request, echo its transmit time, set the details, stamp the departure.
  method FillResponse(e: Endian, buf: array<byte>, arrive: ClockReading, depart: ClockReading, stratum: byte,
                      response: SntpPacket)
    returns (status: Status)
    requires buf.Length == PACKET_SIZE
    requires response.Valid() && response.Value() == ZERO_PACKET
    modifies response.Repr()
    ensures status == Success
    ensures Image(e, response.Value()) == ReplyBytes(buf[..], arrive, depart, stratum)
  {
    hide StampOf;
    hide Units;
    hide Pack;
    hide Wrap;
    hide Htonl;
    hide HtonTime;
    hide Store;
    hide Parse;
    hide Image;
    hide ReplyBytes;
    var time := new SntpTimestamp();
    GetCurrentSntpTime(Some(arrive), time);
    EncodeTime(e, time, response.receiveTime);

    status := EchoRequest(e, buf, response.originTime);
    if status != Success {
      return;
    }

    response.leapVersionMode := LeapVersionMode(SNTP_VERSION, MODE_SERVER);
    response.stratum := stratum;
    response.refId := Htonl(e, KISS_OF_DEATH_NONE);
    GetCurrentSntpTime(Some(depart), time);
    EncodeTime(e, time, response.transmitTime);

    ghost var origin := Parse(buf[..]).transmitTime;
    assert response.Value() == FilledResponse(e, origin, StampOf(arrive), StampOf(depart), stratum);
    ReplyImage(e, buf[..], arrive, depart, stratum);
  }
}
