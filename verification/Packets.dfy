// The 48-byte SNTP packet: as the fields of the C struct, as bytes in the memory of a host,
// and in the format of section 4 of RFC 4330.
module Packets {
  import opened Words
  import opened Timestamps

  const PACKET_SIZE := 48
  const MODE_CLIENT: byte := 3
  const MODE_SERVER: byte := 4
  const SNTP_VERSION: byte := 4
  const SNTP_STRATUM: byte := 15
  const KISS_OF_DEATH_NONE: uint32 := 0

  // The version number sits above the three mode bits, the leap indicator above that.
  function LeapVersionMode(version: byte, mode: byte): byte
    requires version < 8 && mode < 8
  {
    version * 8 + mode
  }

  function ModeOf(leapVersionMode: byte): byte { leapVersionMode % 8 }

  datatype Packet = Packet(
    leapVersionMode: byte, stratum: byte, poll: byte, precision: byte,
    rootDelay: uint32, rootDispersion: uint32, refId: uint32,
    refTime: Timestamp, originTime: Timestamp, receiveTime: Timestamp, transmitTime: Timestamp)

  const ZERO_STAMP := Timestamp(0, 0)
  const ZERO_PACKET := Packet(0, 0, 0, 0, 0, 0, 0, ZERO_STAMP, ZERO_STAMP, ZERO_STAMP, ZERO_STAMP)

  function WordsOf(p: Packet): (ws: seq<uint32>)
    ensures |ws| == 11
  {
    [p.rootDelay, p.rootDispersion, p.refId,
     p.refTime.seconds, p.refTime.fractions, p.originTime.seconds, p.originTime.fractions,
     p.receiveTime.seconds, p.receiveTime.fractions, p.transmitTime.seconds, p.transmitTime.fractions]
  }

  // The bytes of the struct in the memory of a host: what sendto puts on the wire.
  function Image(e: Endian, p: Packet): (bytes: seq<byte>)
    ensures |bytes| == PACKET_SIZE
  {
    [p.leapVersionMode, p.stratum, p.poll, p.precision] + StoreAll(e, WordsOf(p))
  }

  // The struct seen through a pointer to bytes: the cast of Sntp_DeserializeRequest.
  function Overlay(e: Endian, bytes: seq<byte>): Packet
    requires |bytes| == PACKET_SIZE
  {
    var w := LoadAll(e, bytes[4..]);
    Packet(bytes[0], bytes[1], bytes[2], bytes[3], w[0], w[1], w[2],
           Timestamp(w[3], w[4]), Timestamp(w[5], w[6]), Timestamp(w[7], w[8]), Timestamp(w[9], w[10]))
  }

  // The wire format has every word most significant byte first.
  function Print(p: Packet): (bytes: seq<byte>)
    ensures |bytes| == PACKET_SIZE
  {
    Image(Big, p)
  }

  function Parse(bytes: seq<byte>): Packet
    requires |bytes| == PACKET_SIZE
  {
    Overlay(Big, bytes)
  }

  // Memory images and structs determine each other on either host; with e := Big this says that
  // the wire format's printer and parser undo each other.
  lemma ImageOverlay(e: Endian, p: Packet, bytes: seq<byte>)
    requires |bytes| == PACKET_SIZE
    ensures Overlay(e, Image(e, p)) == p
    ensures Image(e, Overlay(e, bytes)) == bytes
  {
    assert Image(e, p)[4..] == StoreAll(e, WordsOf(p));
    StoreAllLoadAll(e, WordsOf(p));
    assert WordsOf(Overlay(e, bytes)) == LoadAll(e, bytes[4..]);
    LoadAllStoreAll(e, bytes[4..]);
    assert bytes == bytes[..4] + bytes[4..];
  }

  lemma PrintParse(p: Packet, bytes: seq<byte>)
    requires |bytes| == PACKET_SIZE
    ensures Parse(Print(p)) == p
    ensures Print(Parse(bytes)) == bytes
  {
    ImageOverlay(Big, p, bytes);
  }

  function HtonTime(e: Endian, t: Timestamp): Timestamp {
    Timestamp(Htonl(e, t.seconds), Htonl(e, t.fractions))
  }

  // A packet with all its words in network order, as the fields of the struct should hold them.
  function HtonPacket(e: Endian, p: Packet): Packet {
    p.(rootDelay := Htonl(e, p.rootDelay), rootDispersion := Htonl(e, p.rootDispersion), refId := Htonl(e, p.refId),
    refTime := HtonTime(e, p.refTime), originTime := HtonTime(e, p.originTime),
    receiveTime := HtonTime(e, p.receiveTime), transmitTime := HtonTime(e, p.transmitTime))
  }

  // Fields in network order make the host's memory the wire format, whatever the host.
  lemma ImageIsPrint(e: Endian, p: Packet)
    ensures Image(e, HtonPacket(e, p)) == Print(p)
  {
    hide Htonl;
    hide StoreAll;
    assert WordsOf(HtonPacket(e, p)) == HtonlAll(e, WordsOf(p));
    StoreAllNetworkOrder(e, WordsOf(p));
  }

  // ntohl of the transmit words of the overlaid struct reads the wire's transmit time.
  lemma OverlayTransmitTime(e: Endian, bytes: seq<byte>)
    requires |bytes| == PACKET_SIZE
    ensures var t := Overlay(e, bytes).transmitTime;
            Timestamp(Ntohl(e, t.seconds), Ntohl(e, t.fractions)) == Parse(bytes).transmitTime
  {
    var words := bytes[4..];
    forall k | 9 <= k <= 10
      ensures Ntohl(e, LoadAll(e, words)[k]) == LoadAll(Big, words)[k]
    {
      LoadAllAt(e, words, k);
      LoadAllAt(Big, words, k);
      NetworkOrder(e, 0, words[4 * k..4 * k + 4]);
    }
  }

  // Where the other fields lie on the wire.
  lemma FieldPositions(p: Packet)
    ensures var b := Print(p);
            b[..4] == [p.leapVersionMode, p.stratum, p.poll, p.precision]
            && b[4..8] == Store(Big, p.rootDelay)
            && b[8..12] == Store(Big, p.rootDispersion)
            && b[12..16] == Store(Big, p.refId)
            && b[16..24] == Store(Big, p.refTime.seconds) + Store(Big, p.refTime.fractions)
  {
    WordPosition(p, 0);
    WordPosition(p, 1);
    WordPosition(p, 2);
    WordPosition(p, 3);
    WordPosition(p, 4);
    var b := Print(p);
    assert b[16..24] == b[16..20] + b[20..24];
  }

  // Where the timestamps lie on the wire.
  lemma StampPositions(p: Packet)
    ensures var b := Print(p);
            b[24..32] == Store(Big, p.originTime.seconds) + Store(Big, p.originTime.fractions)
            && b[32..40] == Store(Big, p.receiveTime.seconds) + Store(Big, p.receiveTime.fractions)
            && b[40..48] == Store(Big, p.transmitTime.seconds) + Store(Big, p.transmitTime.fractions)
  {
    WordPosition(p, 5);
    WordPosition(p, 6);
    WordPosition(p, 7);
    WordPosition(p, 8);
    WordPosition(p, 9);
    WordPosition(p, 10);
    var b := Print(p);
    assert b[24..32] == b[24..28] + b[28..32];
    assert b[32..40] == b[32..36] + b[36..40];
    assert b[40..48] == b[40..44] + b[44..48];
  }

  lemma WordPosition(p: Packet, k: nat)
    requires k < 11
    ensures Print(p)[4 * k + 4..4 * k + 8] == Store(Big, WordsOf(p)[k])
  {
    var ws := WordsOf(p);
    var b := Print(p);
    assert b[4..] == StoreAll(Big, ws);
    StoreAllAt(Big, ws, k);
    assert b[4 * k + 4..4 * k + 8] == b[4..][4 * k..4 * k + 4];
  }

  // ---- The server's reply ----

  // What a reply says, in the terms of section 6 of RFC 4330.
  function ReplyPacket(origin: Timestamp, arrive: Timestamp, depart: Timestamp, stratum: byte): Packet {
    ZERO_PACKET.(leapVersionMode := LeapVersionMode(SNTP_VERSION, MODE_SERVER), stratum := stratum,
    refId := KISS_OF_DEATH_NONE, originTime := origin, receiveTime := arrive, transmitTime := depart)
  }

  function ReplyBytes(request: seq<byte>, arrive: ClockReading, depart: ClockReading, stratum: byte): (r: seq<byte>)
    requires |request| == PACKET_SIZE
    ensures |r| == PACKET_SIZE
  {
    Print(ReplyPacket(Parse(request).transmitTime, StampOf(arrive), StampOf(depart), stratum))
  }

  // The struct as the servers fill it, field by field: stored times pass through encodeTime, and
  // the fields not assigned keep the zeros of memset.
  function FilledResponse(e: Endian, origin: Timestamp, arrive: Timestamp, depart: Timestamp, stratum: byte): Packet {
    Packet(LeapVersionMode(SNTP_VERSION, MODE_SERVER), stratum, 0, 0, 0, 0, Htonl(e, KISS_OF_DEATH_NONE),
           ZERO_STAMP, HtonTime(e, origin), HtonTime(e, arrive), HtonTime(e, depart))
  }

  // The reply image is the same on big- and little-endian hosts: the one RFC 4330 asks for.
  lemma ReplyImage(e: Endian, request: seq<byte>, arrive: ClockReading, depart: ClockReading, stratum: byte)
    requires |request| == PACKET_SIZE
    ensures Image(e, FilledResponse(e, Parse(request).transmitTime, StampOf(arrive), StampOf(depart), stratum))
            == ReplyBytes(request, arrive, depart, stratum)
  {
    var origin := Parse(request).transmitTime;
    var meant := ReplyPacket(origin, StampOf(arrive), StampOf(depart), stratum);
    assert FilledResponse(e, origin, StampOf(arrive), StampOf(depart), stratum) == HtonPacket(e, meant);
    ImageIsPrint(e, meant);
  }

  // A reply carries the request's transmit bytes, unread, as its origin bytes.
  lemma WireEcho(request: seq<byte>, arrive: ClockReading, depart: ClockReading, stratum: byte)
    requires |request| == PACKET_SIZE
    ensures ReplyBytes(request, arrive, depart, stratum)[24..32] == request[40..48]
  {
    var q := Parse(request);
    PrintParse(q, request);
    StampPositions(q);
    StampPositions(ReplyPacket(q.transmitTime, StampOf(arrive), StampOf(depart), stratum));
  }

  // The whole reply, byte for byte: version 4 and mode 4 with no leap warning, the stratum, 22
  // zeros, the request's transmit bytes, and the two stamps most significant byte first.
  lemma ReplyLayout(request: seq<byte>, arrive: ClockReading, depart: ClockReading, stratum: byte)
    requires |request| == PACKET_SIZE
    ensures ReplyBytes(request, arrive, depart, stratum)
            == [0x24, stratum] + Zeros(22) + request[40..48]
               + Store(Big, StampOf(arrive).seconds) + Store(Big, StampOf(arrive).fractions)
               + Store(Big, StampOf(depart).seconds) + Store(Big, StampOf(depart).fractions)
  {
    hide StampOf;
    hide ReplyBytes;
    var p := ReplyPacket(Parse(request).transmitTime, StampOf(arrive), StampOf(depart), stratum);
    var b := ReplyBytes(request, arrive, depart, stratum);
    ReplyIsPrint(request, arrive, depart, stratum);
    WireEcho(request, arrive, depart, stratum);
    hide Parse;
    StampPositions(p);
    ZeroWords(p);
    assert b[..24] == b[..4] + b[4..24];
    assert b[..24] == [0x24, stratum] + Zeros(22);
    assert b == b[..24] + b[24..32] + b[32..40] + b[40..48];
  }

  function Zeros(n: nat): seq<byte> { seq(n, _ => 0) }

  lemma ReplyIsPrint(request: seq<byte>, arrive: ClockReading, depart: ClockReading, stratum: byte)
    requires |request| == PACKET_SIZE
    ensures ReplyBytes(request, arrive, depart, stratum)
            == Print(ReplyPacket(Parse(request).transmitTime, StampOf(arrive), StampOf(depart), stratum))
  {}

  lemma ZeroWords(p: Packet)
    requires p.rootDelay == 0 && p.rootDispersion == 0 && p.refId == 0 && p.refTime == ZERO_STAMP
    ensures Print(p)[..4] == [p.leapVersionMode, p.stratum, p.poll, p.precision]
    ensures Print(p)[4..24] == Zeros(20)
  {
    var b := Print(p);
    forall i | 4 <= i < 24
      ensures b[i] == 0
    {
      var k := i / 4 - 1;
      WordPosition(p, k);
      assert WordsOf(p)[k] == 0;
      assert b[i] == b[4 * k + 4..4 * k + 8][i - (4 * k + 4)];
    }
  }

  // What a receiver reads in a reply.
  lemma ReplyFields(request: seq<byte>, arrive: ClockReading, depart: ClockReading, stratum: byte)
    requires |request| == PACKET_SIZE
    ensures Parse(ReplyBytes(request, arrive, depart, stratum))
            == ReplyPacket(Parse(request).transmitTime, StampOf(arrive), StampOf(depart), stratum)
  {
    PrintParse(ReplyPacket(Parse(request).transmitTime, StampOf(arrive), StampOf(depart), stratum), request);
  }

  // ---- The client's request and its acceptance check (section 5 of RFC 4330) ----

  function RequestPacket(transmit: Timestamp): Packet {
    ZERO_PACKET.(leapVersionMode := LeapVersionMode(SNTP_VERSION, MODE_CLIENT), transmitTime := transmit)
  }

  function RequestBytes(transmit: Timestamp): (r: seq<byte>)
    ensures |r| == PACKET_SIZE
  {
    Print(RequestPacket(transmit))
  }

  // The whole request, byte for byte: version 4 and mode 3 with no leap warning, 39 zeros, and the
  // transmit time most significant byte first.
  lemma RequestLayout(transmit: Timestamp)
    ensures RequestBytes(transmit)
            == [0x23] + Zeros(39) + Store(Big, transmit.seconds) + Store(Big, transmit.fractions)
  {
    hide Store;
    var p := RequestPacket(transmit);
    StampPositions(p);
    ZeroWords(p);
    ZeroStampBytes();
    hide Print;
    FirstByteAndZeros(Print(p), Store(Big, transmit.seconds), Store(Big, transmit.fractions));
  }

  lemma ZeroStampBytes()
    ensures Store(Big, ZERO_STAMP.seconds) + Store(Big, ZERO_STAMP.fractions) == Zeros(8)
  {}

  lemma FirstByteAndZeros(b: seq<byte>, x: seq<byte>, y: seq<byte>)
    requires |b| == PACKET_SIZE && b[..4] == [0x23, 0, 0, 0] && b[4..24] == Zeros(20)
    requires b[24..32] == b[32..40] == Zeros(8) && b[40..48] == x + y
    ensures b == [0x23] + Zeros(39) + x + y
  {
    assert b == b[..4] + b[4..24] + b[24..32] + b[32..40] + b[40..48];
    assert b[..4] + b[4..24] + b[24..32] + b[32..40] == [0x23] + Zeros(39);
  }

  predicate Accepts(sent: Timestamp, bytes: seq<byte>)
    requires |bytes| == PACKET_SIZE
  {
    var p := Parse(bytes);
    ModeOf(p.leapVersionMode) == MODE_SERVER && p.stratum != 0 && p.transmitTime != ZERO_STAMP && p.originTime == sent
  }

  // Acceptance of any 48 bytes, read off them: mode 4 in the low three bits, a stratum other than 0,
  // a transmit time other than zero, and the client's transmit time echoed as origin. Nothing else
  // of a packet matters.
  lemma AcceptsBytes(sent: Timestamp, bytes: seq<byte>)
    requires |bytes| == PACKET_SIZE
    ensures Accepts(sent, bytes)
            <==> bytes[0] % 8 == 4 && bytes[1] != 0 && bytes[40..48] != Zeros(8)
                 && bytes[24..32] == Store(Big, sent.seconds) + Store(Big, sent.fractions)
  {
    var p := Parse(bytes);
    PrintParse(p, bytes);
    StampPositions(p);
    FieldPositions(p);
    hide Parse;
    hide Store;
    StampBytes(p.originTime, sent);
    StampBytes(p.transmitTime, ZERO_STAMP);
    ZeroStampBytes();
    assert bytes[..4][0] == bytes[0] && bytes[..4][1] == bytes[1];
  }

  lemma StampBytes(a: Timestamp, b: Timestamp)
    ensures Store(Big, a.seconds) + Store(Big, a.fractions) == Store(Big, b.seconds) + Store(Big, b.fractions)
            <==> a == b
  {
    var x, y := Store(Big, a.seconds) + Store(Big, a.fractions), Store(Big, b.seconds) + Store(Big, b.fractions);
    assert x[..4] == Store(Big, a.seconds) && x[4..] == Store(Big, a.fractions);
    assert y[..4] == Store(Big, b.seconds) && y[4..] == Store(Big, b.fractions);
    StoreLoad(Big, a.seconds, x[..4]);
    StoreLoad(Big, a.fractions, x[4..]);
    StoreLoad(Big, b.seconds, y[..4]);
    StoreLoad(Big, b.fractions, y[4..]);
  }

  // A client accepts what a server made of a request exactly when that request carried the
  // client's transmit time, the stratum is not 0 and the server's clock did not read as zero.
  lemma AcceptsReply(sent: Timestamp, request: seq<byte>, arrive: ClockReading, depart: ClockReading, stratum: byte)
    requires |request| == PACKET_SIZE
    ensures Accepts(sent, ReplyBytes(request, arrive, depart, stratum))
            <==> Parse(request).transmitTime == sent && stratum != 0 && StampOf(depart) != ZERO_STAMP
  {
    ReplyFields(request, arrive, depart, stratum);
  }

  // Requests carry the transmit time and are not mistaken for replies.
  lemma RequestFields(transmit: Timestamp, sent: Timestamp)
    ensures Parse(RequestBytes(transmit)).transmitTime == transmit
    ensures !Accepts(sent, RequestBytes(transmit))
  {
    PrintParse(RequestPacket(transmit), RequestBytes(transmit));
  }
}
