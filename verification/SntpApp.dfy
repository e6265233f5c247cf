// The server application: its global data, updated in place, and the functions that do it.
module SntpApp {
  import opened Words
  import opened Timestamps
  import opened Packets
  import opened Sockets
  import opened Histories
  import opened SntpUtils
  import opened AppSpec

  datatype RunStatus = AppRun | AppError

  // The steps of initialisation, in order.
  datatype InitStep = RegisterEvents | CreatePipe | SubscribeHousekeeping | SubscribeCommands | OpenSocket

  const INIT_ORDER := [RegisterEvents, CreatePipe, SubscribeHousekeeping, SubscribeCommands, OpenSocket]

  // The first n steps were attempted: all but the last of them succeeded, and the last one did
  // only if there were no more to attempt.
  ghost predicate StoppedAfter(n: nat, failing: set<InitStep>) {
    && 1 <= n <= |INIT_ORDER|
    && (forall k :: 0 <= k < n - 1 ==> INIT_ORDER[k] !in failing)
    && (n < |INIT_ORDER| ==> INIT_ORDER[n - 1] in failing)
  }

  lemma FirstFailure(failing: set<InitStep>)
    ensures (forall step :: step in INIT_ORDER ==> step !in failing)
            <==> RegisterEvents !in failing && CreatePipe !in failing && SubscribeHousekeeping !in failing
                 && SubscribeCommands !in failing && OpenSocket !in failing
    ensures StoppedAfter(if RegisterEvents in failing then 1 else if CreatePipe in failing then 2
                         else if SubscribeHousekeeping in failing then 3
                         else if SubscribeCommands in failing then 4 else 5, failing)
  {
    assert INIT_ORDER[0] == RegisterEvents && INIT_ORDER[1] == CreatePipe && INIT_ORDER[2] == SubscribeHousekeeping
        && INIT_ORDER[3] == SubscribeCommands && INIT_ORDER[4] == OpenSocket;
  }

  lemma RunNone(s: AppState, turns: seq<Turn>)
    requires |s.buf| == PACKET_SIZE
    ensures Run(s, turns[..0]) == s
  {}

  lemma RunNext(s: AppState, turns: seq<Turn>, i: nat)
    requires |s.buf| == PACKET_SIZE && i < |turns|
    ensures Run(s, turns[..i + 1]) == Step(Run(s, turns[..i]), turns[i])
  {
    hide Step;
    Snoc(turns[..i], turns[i]);
    assert turns[..i + 1] == turns[..i] + [turns[i]];
  }

  class App {
    const host: Endian
    const netBuf: array<byte>
    var cnts: Counters
    var hkPayload: Counters
    var runStatus: RunStatus
    var pipe: seq<Message>
    ghost var out: seq<Output>
    ghost var attempted: seq<InitStep>

    ghost predicate Valid() { netBuf.Length == PACKET_SIZE }

    // The abstract state the specification speaks of.
    ghost function State(): (s: AppState)
      reads this, netBuf
      requires Valid()
      ensures |s.buf| == PACKET_SIZE
    {
      AppState(cnts, hkPayload, netBuf[..], pipe, out)
    }

    // Global data before SNTP_Main runs; the host's byte order is fixed.
    constructor (host: Endian, buf: array<byte>)
      requires buf.Length == PACKET_SIZE
      ensures Valid() && this.host == host && netBuf == buf && out == [] && attempted == []
    {
      this.host := host;
      netBuf := buf;
      cnts, hkPayload, runStatus, pipe := ZERO_COUNTERS, ZERO_COUNTERS, AppError, [];
      out, attempted := [], [];
    }

    // ---- One datagram ----

    method ProcessSntpRequest(clientAddr: Address, arrive: ClockReading, depart: ClockReading, sendOk: bool)
      returns (status: Status)
      requires Valid()
      modifies this`out
      ensures status == if sendOk then Success else NetworkFailure
      ensures sendOk ==> out == old(out) + [Reply(clientAddr, ReplyBytes(netBuf[..], arrive, depart, SNTP_STRATUM))]
      ensures !sendOk ==> out == old(out)
    {
      var response := new SntpPacket.Zeroed();
      status := FillResponse(host, netBuf, arrive, depart, SNTP_STRATUM, response);
      if status != Success {
        return;
      }
      if !sendOk {
        return NetworkFailure;
      }
      out := out + [Reply(clientAddr, Image(host, response.Value()))];
      return Success;
    }

    // ---- Commands ----

    method VerifyCmdLength(m: Message, expectedLength: nat) returns (ok: bool)
      requires Valid()
      modifies this`cnts, this`out
      ensures ok == (m.size == expectedLength)
      ensures State() == if ok then old(State()) else AfterLengthError(old(State()))
    {
      ok := true;
      if expectedLength != m.size {
        out := out + [Event(LEN_ERR_EID)];
        ok := false;
        cnts := cnts.(commandError := Inc8(cnts.commandError));
      }
    }

    method Noop()
      requires Valid()
      modifies this`cnts, this`out
      ensures State() == AfterNoop(old(State()))
    {
      cnts := cnts.(command := Inc8(cnts.command));
      out := out + [Event(COMMANDNOP_INF_EID)];
    }

    method ResetCounters()
      requires Valid()
      modifies this`cnts, this`out
      ensures State() == AfterReset(old(State()))
    {
      cnts := ZERO_COUNTERS;
      out := out + [Event(COMMANDRST_INF_EID)];
    }

    method ReportHousekeeping()
      requires Valid()
      modifies this`hkPayload, this`out
      ensures State() == AfterHousekeeping(old(State()))
    {
      hkPayload := cnts;
      out := out + [Telemetry(hkPayload)];
    }

    method ProcessGroundCommand(m: Message)
      requires Valid()
      modifies this`cnts, this`out
      ensures State() == AfterGroundCommand(old(State()), m)
    {
      if m.code == NOOP_CC {
        var ok := VerifyCmdLength(m, NO_ARGS_SIZE);
        if ok {
          Noop();
        }
      } else if m.code == RESET_COUNTERS_CC {
        var ok := VerifyCmdLength(m, NO_ARGS_SIZE);
        if ok {
          ResetCounters();
        }
      } else {
        out := out + [Event(COMMAND_ERR_EID)];
      }
    }

    method ProcessCommandPacket(m: Message)
      requires Valid()
      modifies this`cnts, this`hkPayload, this`out
      ensures State() == AfterCommandPacket(old(State()), m)
    {
      if m.mid == CMD_MID {
        ProcessGroundCommand(m);
      } else if m.mid == SEND_HK_MID {
        ReportHousekeeping();
      } else {
        out := out + [Event(INVALID_MSGID_ERR_EID)];
      }
    }

    // The bus delivers to the pipe between two polls.
    method Deliver(arrivals: seq<Message>)
      requires Valid()
      modifies this`pipe
      ensures pipe == Enqueue(old(pipe), arrivals)
    {
      pipe := Enqueue(pipe, arrivals);
    }

    // One poll of the command pipe.
    method ReceiveBuffer(pollOk: bool) returns (m: Option<Message>)
      requires Valid()
      modifies this`pipe
      ensures m == if old(pipe) != [] && pollOk then Some(old(pipe)[0]) else None
      ensures pipe == if m.Some? then old(pipe)[1..] else old(pipe)
    {
      if pipe != [] && pollOk {
        m := Some(pipe[0]);
        pipe := pipe[1..];
      } else {
        m := None;
      }
    }

    // ---- The run loop ----

    method Iterate(t: Turn)
      requires Valid()
      modifies this`cnts, this`hkPayload, this`pipe, this`out, netBuf
      ensures State() == Step(old(State()), t)
    {
      Deliver(t.arrivals);
      var command := ReceiveBuffer(t.pollOk);
      if command.Some? {
        ProcessCommandPacket(command.value);
      }
      assert State() == AfterPoll(Queued(old(State()), t), t.pollOk);

      var receivedBytes := RecvFrom(netBuf, t.received);
      if receivedBytes == PACKET_SIZE {
        cnts := cnts.(reqRcv := Inc16(cnts.reqRcv));
        var status := ProcessSntpRequest(t.received.sender, t.arrive, t.depart, t.sendOk);
        if status != Success {
          cnts := cnts.(badRequests := Inc16(cnts.badRequests));
        }
      } else if receivedBytes > 0 {
        cnts := cnts.(invalidRequests := Inc16(cnts.invalidRequests));
      } else if receivedBytes < 0 && !IsTimeout(t.received) {
        cnts := cnts.(invalidRequests := Inc16(cnts.invalidRequests));
      }
    }

    // Initialisation stops at the first step that fails, and announces itself only after all of
    // them have succeeded.
    method Init(failing: set<InitStep>) returns (ok: bool)
      requires Valid()
      modifies this
      ensures runStatus == AppRun && cnts == ZERO_COUNTERS
      ensures hkPayload == if RegisterEvents in failing then old(hkPayload) else ZERO_COUNTERS
      ensures ok <==> forall step :: step in INIT_ORDER ==> step !in failing
      ensures ok ==> pipe == []
      ensures exists n: nat :: StoppedAfter(n, failing) && attempted == old(attempted) + INIT_ORDER[..n]
      ensures out == if ok then old(out) + [Event(STARTUP_INF_EID)] else old(out)
    {
      runStatus := AppRun;
      cnts := ZERO_COUNTERS;
      ghost var before := attempted;
      FirstFailure(failing);
      hide StoppedAfter;

      attempted := attempted + [RegisterEvents];
      assert attempted == before + INIT_ORDER[..1];
      if RegisterEvents in failing {
        return false;
      }
      hkPayload := ZERO_COUNTERS;
      attempted := attempted + [CreatePipe];
      assert attempted == before + INIT_ORDER[..2];
      if CreatePipe in failing {
        return false;
      }
      pipe := [];
      attempted := attempted + [SubscribeHousekeeping];
      assert attempted == before + INIT_ORDER[..3];
      if SubscribeHousekeeping in failing {
        return false;
      }
      attempted := attempted + [SubscribeCommands];
      assert attempted == before + INIT_ORDER[..4];
      if SubscribeCommands in failing {
        return false;
      }
      attempted := attempted + [OpenSocket];
      assert attempted == before + INIT_ORDER[..5];
      if OpenSocket in failing {
        return false;
      }
      out := out + [Event(STARTUP_INF_EID)];
      return true;
    }

    // SNTP_Main, over any finite run of its environment. If initialisation fails the loop is never
    // entered: no datagram is received, no command is taken and nothing is sent. Otherwise the
    // application does exactly what the specification says of every turn.
    method RunApp(failing: set<InitStep>, turns: seq<Turn>)
      requires Valid() && out == []
      modifies this, netBuf
      ensures (runStatus == AppRun) == (forall step :: step in INIT_ORDER ==> step !in failing)
      ensures runStatus == AppRun ==> State() == Run(Booted(old(netBuf[..])), turns)
      ensures runStatus == AppError ==> out == [] && netBuf[..] == old(netBuf[..]) && cnts == ZERO_COUNTERS
    {
      hide Step;
      hide Run;
      hide StoppedAfter;
      var ok := Init(failing);
      if !ok {
        runStatus := AppError;
      }
      ghost var booted := Booted(netBuf[..]);
      var i := 0;
      RunNone(booted, turns);
      while runStatus == AppRun && i < |turns|
        modifies this`cnts, this`hkPayload, this`pipe, this`out, netBuf
        invariant 0 <= i <= |turns|
        invariant ok ==> State() == Run(booted, turns[..i])
        invariant !ok ==> i == 0 && out == [] && netBuf[..] == old(netBuf[..]) && cnts == ZERO_COUNTERS
      {
        RunNext(booted, turns, i);
        Iterate(turns[i]);
        i := i + 1;
      }
      assert i == |turns| ==> turns[..i] == turns;
    }
  }
}
