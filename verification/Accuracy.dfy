// The clock offset and round-trip delay of section 5 of RFC 4330, and how well they measure the
// true ones when the stamps come from getCurrentSntpTime.
module Accuracy {
  import opened Words
  import opened Timestamps

  // Twice the offset ((T2 - T1) + (T3 - T4)) / 2, in units of 2^-32 s.
  function TwiceOffset(t1: uint64, t2: uint64, t3: uint64, t4: uint64): int {
    SignedDifference(t2, t1) + SignedDifference(t3, t4)
  }

  // The delay (T4 - T1) - (T3 - T2), in units of 2^-32 s.
  function Delay(t1: uint64, t2: uint64, t3: uint64, t4: uint64): int {
    SignedDifference(t4, t1) - SignedDifference(t3, t2)
  }

  // A node's clock: its kind and how far it is ahead of true time, in ns. It does not drift.
  datatype Clock = Clock(kind: ClockKind, ahead: int)

  function StampAt(c: Clock, t: int): uint64 { Stamp(ReadClock(c.kind, t + c.ahead)) }

  // What a client puts on the wire for its transmit time: its stamp, moved by the random number.
  function PerturbedStampAt(c: Clock, t: int, perturbation: int): uint64 { Wrap(StampAt(c, t) + perturbation) }

  function UnitsAt(c: Clock, t: int): int { InstantUnits(c.kind, t + c.ahead) }

  function ErrorAt(c: Clock, t: int): int { StampError(c.kind, t + c.ahead) }

  function Abs(x: int): int { if x < 0 then -x else x }

  // An exchange in true time: the client reads its clock at t1 and t4, the server at t2 and t3.
  datatype Exchange = Exchange(client: Clock, server: Clock, t1: int, t2: int, t3: int, t4: int, perturbation: int)
  {
    function Stamp1(): uint64 { PerturbedStampAt(client, t1, perturbation) }

    function Stamp2(): uint64 { StampAt(server, t2) }

    function Stamp3(): uint64 { StampAt(server, t3) }

    function Stamp4(): uint64 { StampAt(client, t4) }

    function TrueOffset(): int { server.ahead - client.ahead }

    // The time the two datagrams were under way, whatever their shares of it.
    function NetworkTime(): int { (t2 - t1) + (t4 - t3) }

    function Offset2(): int { TwiceOffset(Stamp1(), Stamp2(), Stamp3(), Stamp4()) }

    function MeasuredDelay(): int { Delay(Stamp1(), Stamp2(), Stamp3(), Stamp4()) }

    // The steps are in order, and the clocks, the exchange and the perturbation stay within what
    // signed 64-bit differences can hold (68 years; the perturbation, half a second).
    ghost predicate InRange() {
      && t1 <= t2 <= t3 <= t4
      && Abs(TrueOffset()) + (t4 - t1) <= 0x7FFF_FFFF * NS_PER_S
      && Abs(perturbation) <= 0x8000_0000
    }
  }

  // Differences of stamps are differences of clock readings, up to the stamps' errors.
  lemma StampDifference(a: Clock, ta: int, pa: int, b: Clock, tb: int, pb: int)
    requires Abs((ta + a.ahead) - (tb + b.ahead)) <= 0x7FFF_FFFF * NS_PER_S
    requires Abs(pa - pb) <= 0x8000_0000
    ensures NS_PER_S * SignedDifference(PerturbedStampAt(a, ta, pa), PerturbedStampAt(b, tb, pb))
            == TWO32 * ((ta + a.ahead) - (tb + b.ahead)) + ErrorAt(a, ta) - ErrorAt(b, tb) + NS_PER_S * (pa - pb)
  {
    var ua, ub := UnitsAt(a, ta) + pa, UnitsAt(b, tb) + pb;
    PerturbedUnits(a, ta, pa);
    PerturbedUnits(b, tb, pb);
    StampErrorBound(a.kind, ta + a.ahead);
    StampErrorBound(b.kind, tb + b.ahead);
    hide InstantUnits;
    hide SignedDifference;
    hide PerturbedStampAt;
    assert NS_PER_S * (ua - ub)
        == TWO32 * ((ta + a.ahead) - (tb + b.ahead)) + ErrorAt(a, ta) - ErrorAt(b, tb) + NS_PER_S * (pa - pb);
    ModularDifference(ua, ub);
  }

  lemma PerturbedUnits(c: Clock, t: int, p: int)
    ensures PerturbedStampAt(c, t, p) == Wrap(UnitsAt(c, t) + p)
    ensures PerturbedStampAt(c, t, 0) == StampAt(c, t)
  {
    hide InstantUnits;
    hide Stamp;
    StampIsInstantUnits(c.kind, t + c.ahead);
    var u := UnitsAt(c, t);
    assert u == (u / TWO64) * TWO64 + Wrap(u);
    ModShift(Wrap(u) + p, u / TWO64);
  }

  // Two transmit times collide on the wire exactly when the perturbations make up for the
  // difference of the stamps; with equal perturbations, exactly when the stamps do.
  lemma PerturbedCollision(c: Clock, t: int, p: int, u: int, q: int)
    ensures PerturbedStampAt(c, t, p) == PerturbedStampAt(c, u, q)
            <==> (StampAt(c, t) + p - StampAt(c, u) - q) % TWO64 == 0
    ensures p == q ==>
              (PerturbedStampAt(c, t, p) == PerturbedStampAt(c, u, q)
               <==> SameStampTime(c.kind, t + c.ahead, u + c.ahead))
  {
    StampCollision(c.kind, t + c.ahead, u + c.ahead);
    hide Stamp;
    hide SameStampTime;
    EqualRemainders(StampAt(c, t) + p, StampAt(c, u) + q);
    if p == q {
      EqualRemainders(StampAt(c, t), StampAt(c, u));
    }
  }

  lemma EqualRemainders(a: int, b: int)
    ensures a % TWO64 == b % TWO64 <==> (a - b) % TWO64 == 0
  {
    ModShift(a % TWO64 - b % TWO64, a / TWO64 - b / TWO64);
    assert a - b == (a % TWO64 - b % TWO64) + (a / TWO64 - b / TWO64) * TWO64;
  }

  // The offset errs by half the asymmetry of the two network delays, by the random perturbation,
  // and by rounding, whose part is bounded for every pair of clock kinds.
  lemma OffsetError(x: Exchange)
    requires x.InRange()
    ensures var rounding := NS_PER_S * x.Offset2() + NS_PER_S * x.perturbation
                            - TWO32 * (2 * x.TrueOffset() + (x.t2 - x.t1) - (x.t4 - x.t3));
            -2 * (Earliness(x.server.kind) + Lateness(x.client.kind)) < rounding
            < 2 * (Lateness(x.server.kind) + Earliness(x.client.kind))
  {
    hide SignedDifference;
    hide StampError;
    hide StampAt;
    hide PerturbedStampAt;
    ExchangeDifferences(x);
    ErrorsBounded(x);
  }

  lemma ExchangeDifferences(x: Exchange)
    requires x.InRange()
    ensures NS_PER_S * SignedDifference(x.Stamp2(), x.Stamp1())
            == TWO32 * (x.t2 - x.t1 + x.TrueOffset()) + ErrorAt(x.server, x.t2) - ErrorAt(x.client, x.t1)
               - NS_PER_S * x.perturbation
    ensures NS_PER_S * SignedDifference(x.Stamp3(), x.Stamp4())
            == TWO32 * (x.t3 - x.t4 + x.TrueOffset()) + ErrorAt(x.server, x.t3) - ErrorAt(x.client, x.t4)
    ensures NS_PER_S * SignedDifference(x.Stamp4(), x.Stamp1())
            == TWO32 * (x.t4 - x.t1) + ErrorAt(x.client, x.t4) - ErrorAt(x.client, x.t1) - NS_PER_S * x.perturbation
    ensures NS_PER_S * SignedDifference(x.Stamp3(), x.Stamp2())
            == TWO32 * (x.t3 - x.t2) + ErrorAt(x.server, x.t3) - ErrorAt(x.server, x.t2)
  {
    hide SignedDifference;
    hide StampError;
    hide StampAt;
    hide PerturbedStampAt;
    PerturbedUnits(x.server, x.t2, 0);
    PerturbedUnits(x.server, x.t3, 0);
    PerturbedUnits(x.client, x.t4, 0);
    StampDifference(x.server, x.t2, 0, x.client, x.t1, x.perturbation);
    StampDifference(x.server, x.t3, 0, x.client, x.t4, 0);
    StampDifference(x.client, x.t4, 0, x.client, x.t1, x.perturbation);
    StampDifference(x.server, x.t3, 0, x.server, x.t2, 0);
  }

  lemma ErrorsBounded(x: Exchange)
    ensures -Earliness(x.client.kind) < ErrorAt(x.client, x.t1) <= Lateness(x.client.kind)
    ensures -Earliness(x.client.kind) < ErrorAt(x.client, x.t4) <= Lateness(x.client.kind)
    ensures -Earliness(x.server.kind) < ErrorAt(x.server, x.t2) <= Lateness(x.server.kind)
    ensures -Earliness(x.server.kind) < ErrorAt(x.server, x.t3) <= Lateness(x.server.kind)
  {
    hide StampError;
    hide Earliness;
    hide Lateness;
    StampErrorBound(x.client.kind, x.t1 + x.client.ahead);
    StampErrorBound(x.client.kind, x.t4 + x.client.ahead);
    StampErrorBound(x.server.kind, x.t2 + x.server.ahead);
    StampErrorBound(x.server.kind, x.t3 + x.server.ahead);
  }

  // The sum of how early and how late the stamps of two clocks can be, in units of 2^-32 ns.
  function Rounding(a: ClockKind, b: ClockKind): int {
    var up, down := Lateness(a) + Earliness(b), Earliness(a) + Lateness(b);
    if up < down then down else up
  }

  // The offset is accurate up to half the true network time, the rounding and half the
  // perturbation (all doubled here, in units of 2^-32 ns).
  lemma OffsetAccuracy(x: Exchange)
    requires x.InRange()
    ensures Abs(NS_PER_S * x.Offset2() - 2 * TWO32 * x.TrueOffset())
            < TWO32 * x.NetworkTime() + 2 * Rounding(x.server.kind, x.client.kind) + NS_PER_S * Abs(x.perturbation)
  {
    OffsetError(x);
    var e, p, r := NS_PER_S * x.Offset2(), x.perturbation, Rounding(x.server.kind, x.client.kind);
    CombineErrors(e, p, x.t2 - x.t1, x.t4 - x.t3, x.TrueOffset(), r);
  }

  lemma CombineErrors(e: int, p: int, there: int, back: int, offset: int, r: int)
    requires there >= 0 && back >= 0
    requires -2 * r < e + NS_PER_S * p - TWO32 * (2 * offset + there - back) < 2 * r
    ensures Abs(e - 2 * TWO32 * offset) < TWO32 * (there + back) + 2 * r + NS_PER_S * Abs(p)
  {
    assert Abs(NS_PER_S * p) == NS_PER_S * Abs(p);
  }

  // With POSIX clocks on both sides the rounding is less than 1 ms + 7.607 us.
  lemma PosixRounding()
    ensures 1_000_000 * TWO32 < Rounding(PosixClock, PosixClock) < 1_007_607 * TWO32
  {}

  // An exchange taking no time at all: the client's clock reads a full 999 ms, the server's the
  // last nanosecond of a millisecond.
  const INSTANT := Exchange(Clock(PosixClock, 999_000_000), Clock(PosixClock, 1_000_999_999), 0, 0, 0, 0, 0)

  // The rounding cannot be improved on: the offset computed from that exchange is wrong by all of
  // it but one nanosecond (doubled, in units of 2^-32 ns).
  lemma PosixRoundingIsSharp()
    ensures INSTANT.InRange() && INSTANT.NetworkTime() == 0
    ensures NS_PER_S * INSTANT.Offset2() - 2 * TWO32 * INSTANT.TrueOffset()
            == -2 * (Rounding(PosixClock, PosixClock) - TWO32)
  {
    InstantInRange();
    InstantOffset();
  }

  lemma InstantInRange()
    ensures INSTANT.InRange() && INSTANT.NetworkTime() == 0 && INSTANT.TrueOffset() == 1_999_999
  {}

  // The offset it shows: the server a full second, the client 999 scaled milliseconds.
  const SHOWN := TWO32 - 999 * 1000 * FRACTIONS_PER_US

  lemma InstantOffset()
    ensures INSTANT.Offset2() == 2 * SHOWN
  {
    hide TwiceOffset;
    hide PerturbedStampAt;
    hide StampAt;
    InstantStamps();
    PerturbedUnits(Clock(PosixClock, 999_000_000), 0, 0);
    ShownTwice(StampAt(Clock(PosixClock, 999_000_000), 0), StampAt(Clock(PosixClock, 1_000_999_999), 0));
  }

  lemma InstantStamps()
    ensures StampAt(Clock(PosixClock, 1_000_999_999), 0) == StampAt(Clock(PosixClock, 999_000_000), 0) + SHOWN
  {
    assert ReadClock(PosixClock, 999_000_000) == Posix(0, 999_000_000);
    assert ReadClock(PosixClock, 1_000_999_999) == Posix(1, 999_999);
    assert MsToFractions(FRACTIONS_PER_US, 999_000_000 / NS_PER_MS) == 999 * 1000 * FRACTIONS_PER_US;
    assert MsToFractions(FRACTIONS_PER_US, 999_999 / NS_PER_MS) == 0;
  }

  lemma ShownTwice(client: uint64, server: uint64)
    requires server == client + SHOWN
    ensures TwiceOffset(client, server, server, client) == 2 * SHOWN
  {}

  // With cFE time on the server it is 1 ms, and with cFE time on both sides one unit
  // of 2^-32 s.
  lemma CfeServerRounding()
    ensures Rounding(CfeClock, PosixClock) == 1_000_000 * TWO32
    ensures Rounding(CfeClock, CfeClock) == NS_PER_S
  {}

  // The bound a client can compute: half the delay it measured instead of the true one.
  lemma OffsetWithinMeasuredDelay(x: Exchange)
    requires x.InRange()
    ensures Abs(NS_PER_S * x.Offset2() - 2 * TWO32 * x.TrueOffset())
            < NS_PER_S * x.MeasuredDelay() + 2 * NS_PER_S * Abs(x.perturbation)
              + 2 * Rounding(x.server.kind, x.client.kind)
              + Earliness(x.client.kind) + Lateness(x.client.kind)
              + Earliness(x.server.kind) + Lateness(x.server.kind)
  {
    OffsetAccuracy(x);
    NetworkTimeIsMeasured(x);
    assert Abs(NS_PER_S * x.perturbation) == NS_PER_S * Abs(x.perturbation);
  }

  // The delay a client measures is the network time, up to the perturbation and the errors of the
  // four stamps, on either side.
  lemma NetworkTimeIsMeasured(x: Exchange)
    requires x.InRange()
    ensures Abs(NS_PER_S * x.MeasuredDelay() + NS_PER_S * x.perturbation - TWO32 * x.NetworkTime())
            < Earliness(x.client.kind) + Lateness(x.client.kind) + Earliness(x.server.kind) + Lateness(x.server.kind)
  {
    hide SignedDifference;
    hide StampError;
    hide StampAt;
    hide PerturbedStampAt;
    hide Earliness;
    hide Lateness;
    ExchangeDifferences(x);
    ErrorsBounded(x);
  }
}
