// The standalone test server, and its agreement with the application's server.
module ServerTool {
  import opened Words
  import opened Timestamps
  import opened Packets
  import opened Sockets
  import opened Histories
  import opened SntpUtils
  import opened AppSpec
  import opened AppRefinement

  function ToolStatus(received: Received, sendOk: bool): Status {
    match received
    case Failed(_) => NetworkFailure
    case Datagram(_, bytes) =>
      if bytes == [] then NoResponseReceived
      else if |bytes| >= PACKET_SIZE && sendOk then Success else NetworkFailure
  }

  // Each status against the number recvfrom returned and the outcome of sendto.
  lemma ToolStatusSays(received: Received, sendOk: bool)
    ensures var status, n := ToolStatus(received, sendOk), ReceivedBytes(received);
            (status == Success <==> n == 48 && sendOk)
            && (status == NoResponseReceived <==> n == 0)
            && (status == NetworkFailure <==> n < 0 || 0 < n < 48 || (n == 48 && !sendOk))
  {}

  class Tool {
    const host: Endian
    const netBuf: array<byte>
    const stratum: byte
    ghost var sent: seq<Sent>

    ghost predicate Valid() { netBuf.Length == PACKET_SIZE }

    constructor (host: Endian, buf: array<byte>, stratum: byte)
      requires buf.Length == PACKET_SIZE
      ensures Valid() && this.host == host && netBuf == buf && this.stratum == stratum && sent == []
    {
      this.host := host;
      netBuf := buf;
      this.stratum := stratum;
      sent := [];
    }

    // run_sntp_server: what is sent does not depend on what the buffer held.
    method RunSntpServer(t: Turn) returns (status: Status)
      requires Valid()
      modifies this`sent, netBuf
      ensures status == ToolStatus(t.received, t.sendOk)
      ensures sent == old(sent) + if TurnAnswer(stratum)(t).Some? then [TurnAnswer(stratum)(t).value] else []
      ensures status == Success <==> |sent| > |old(sent)|
    {
      hide ReplyBytes;
      hide Image;
      var response := new SntpPacket.Zeroed();
      var receivedBytes := RecvFrom(netBuf, t.received);
      if receivedBytes < 0 {
        return NetworkFailure;
      } else if receivedBytes == 0 {
        return NoResponseReceived;
      } else if receivedBytes != PACKET_SIZE {
        return NetworkFailure;
      }
      assert netBuf[..] == t.received.bytes[..PACKET_SIZE];
      status := FillResponse(host, netBuf, t.arrive, t.depart, stratum, response);
      if status != Success {
        return;
      }
      if !t.sendOk {
        return NetworkFailure;
      }
      sent := sent + [(t.received.sender, Image(host, response.Value()))];
      return Success;
    }

    // The endless loop of main, over any finite run of its environment.
    method Serve(turns: seq<Turn>)
      requires Valid() && sent == []
      modifies this`sent, netBuf
      ensures sent == Collect(TurnAnswer(stratum), turns)
    {
      var i := 0;
      while i < |turns|
        invariant 0 <= i <= |turns|
        invariant sent == Collect(TurnAnswer(stratum), turns[..i])
      {
        var _ := RunSntpServer(turns[i]);
        CollectSnoc(TurnAnswer(stratum), turns[..i], turns[i]);
        assert turns[..i + 1] == turns[..i] + [turns[i]];
        i := i + 1;
      }
      assert turns[..i] == turns;
    }
  }

  // The turns as the tool would see them: its socket has no timeout.
  function WithoutTimeouts(turns: seq<Turn>): seq<Turn> {
    if turns == [] then [] else
    WithoutTimeouts(Front(turns)) + if IsTimeout(Last(turns).received) then [] else [Last(turns)]
  }

  lemma {:induction false} TimeoutsDrawNothing(stratum: byte, turns: seq<Turn>)
    ensures Collect(TurnAnswer(stratum), WithoutTimeouts(turns)) == Collect(TurnAnswer(stratum), turns)
  {
    hide ReplyBytes;
    if turns != [] {
      TimeoutsDrawNothing(stratum, Front(turns));
      if IsTimeout(Last(turns).received) {
        assert WithoutTimeouts(turns) == WithoutTimeouts(Front(turns));
      } else {
        CollectSnoc(TurnAnswer(stratum), WithoutTimeouts(Front(turns)), Last(turns));
      }
    }
  }

  // Every answer shows the stratum it was made with.
  lemma {:induction false} AnswersShowStratum(stratum: byte, turns: seq<Turn>)
    ensures forall a :: a in Collect(TurnAnswer(stratum), turns) ==> |a.1| == PACKET_SIZE && Parse(a.1).stratum == stratum
  {
    hide ReplyBytes;
    hide Parse;
    if turns != [] {
      AnswersShowStratum(stratum, Front(turns));
      var t := Last(turns);
      if FillsBuffer(t.received) {
        ReplyFields(t.received.bytes[..PACKET_SIZE], t.arrive, t.depart, stratum);
      }
    }
  }

  lemma {:induction false} SameNumberOfAnswers(s1: byte, s2: byte, turns: seq<Turn>)
    ensures |Collect(TurnAnswer(s1), turns)| == |Collect(TurnAnswer(s2), turns)|
  {
    hide ReplyBytes;
    if turns != [] { SameNumberOfAnswers(s1, s2, Front(turns)); }
  }

  // On the same datagrams, clock readings and send outcomes the two servers send the same
  // replies, byte for byte, exactly when the tool runs at the application's stratum (its default)
  // or there is nothing to reply to. The application's commands and timeouts make no difference.
  lemma TwoServersAgree(buf: seq<byte>, turns: seq<Turn>, stratum: byte)
    requires |buf| == PACKET_SIZE
    ensures var app, tool := Replies(Run(Booted(buf), turns).out), Collect(TurnAnswer(stratum), WithoutTimeouts(turns));
            |app| == |tool| && (app == tool <==> stratum == 15 || app == [])
  {
    hide Run;
    hide Collect;
    hide Replies;
    hide Parse;
    hide TurnAnswer;
    ReplyLog(buf, turns);
    TimeoutsDrawNothing(stratum, turns);
    SameNumberOfAnswers(stratum, SNTP_STRATUM, turns);
    AnswersShowStratum(stratum, turns);
    AnswersShowStratum(SNTP_STRATUM, turns);
    var app, tool := Replies(Run(Booted(buf), turns).out), Collect(TurnAnswer(stratum), turns);
    if app == tool && app != [] {
      assert app[0] in Collect(TurnAnswer(SNTP_STRATUM), turns) && app[0] in tool;
    }
  }
}
