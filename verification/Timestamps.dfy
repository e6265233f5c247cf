// SNTP timestamps: their arithmetic on 32-bit words, and what instant they stand for.
module Timestamps {
  import opened Words

  // Seconds from the NTP epoch (1900) to the Unix epoch (1970): section 6 of RFC 5905.
  const EPOCH_SHIFT := 2208988800
  // Fraction units (2^-32 s) per microsecond, 2^32 / 10^6 rounded up.
  const FRACTIONS_PER_US := 4295
  const NS_PER_S := 1_000_000_000
  const NS_PER_MS := 1_000_000

  type Nanos = n: int | 0 <= n < NS_PER_S

  datatype Timestamp = Timestamp(seconds: uint32, fractions: uint32)

  // ---- The conversion macros, for any scale k ----

  // The scales for which they work: 999 ms fit in 32 bits and a full second does not.
  predicate GoodScale(k: int) { k * 999000 < TWO32 <= k * 1000000 }

  // The product is assigned to a 32-bit word.
  function MsToFractions(k: nat, ms: nat): uint32 { (ms * 1000 * k) % TWO32 }

  function FractionsToMs(k: nat, f: uint32): int
    requires k > 0
  {
    f / (k * 1000)
  }

  lemma MsFit(k: nat, ms: nat)
    requires GoodScale(k) && ms <= 999
    ensures MsToFractions(k, ms) == ms * (1000 * k)
  {
    MulBound(ms, 1000 * k);
    MulThree(ms, 1000, k);
  }

  lemma MulBound(m: nat, e: nat)
    requires m <= 999
    ensures 0 <= m * e <= 999 * e
  {}

  lemma MulThree(a: nat, b: nat, c: nat)
    ensures a * b * c == a * (b * c)
  {}

  lemma MsRange(k: nat, f: uint32)
    requires GoodScale(k)
    ensures 0 <= FractionsToMs(k, f) <= 999
  {
    DivAdjoint(k * 1000, 1000, f);
    DivAdjoint(k * 1000, 0, f);
  }

  // FRACTIONS_TO_MS is the upper adjoint of MILLISECONDS_TO_SNTP_FRACTIONS on 0..999: the
  // millisecond values at or below a fraction are those up to FRACTIONS_TO_MS of it.
  lemma FractionAdjunction(k: nat, ms: nat, f: uint32)
    requires GoodScale(k) && ms <= 999
    ensures MsToFractions(k, ms) <= f <==> ms <= FractionsToMs(k, f)
    ensures 0 <= FractionsToMs(k, f) <= 999
    ensures FractionsToMs(k, MsToFractions(k, ms)) == ms
  {
    var u := 1000 * k;
    MsRange(k, f);
    MsFit(k, ms);
    DivAdjoint(u, ms, f);
    DivAdjoint(u, ms, ms * u);
    DivAdjoint(u, ms + 1, ms * u);
  }

  lemma DivAdjoint(u: nat, m: nat, f: nat)
    requires u > 0
    ensures m * u <= f <==> m <= f / u
    ensures (m + 1) * u > m * u
  {
    var q := f / u;
    assert f == u * q + f % u;
    if m <= q {
      assert m * u <= q * u;
    } else {
      assert m * u >= (q + 1) * u;
    }
  }

  // Converting a fraction to milliseconds and back gives the greatest representable fraction
  // not above it.
  lemma RoundDownToMs(k: nat, f: uint32, ms: nat)
    requires GoodScale(k)
    ensures 0 <= FractionsToMs(k, f) <= 999
    ensures MsToFractions(k, FractionsToMs(k, f)) <= f
    ensures ms <= 999 && MsToFractions(k, ms) <= f
            ==> MsToFractions(k, ms) <= MsToFractions(k, FractionsToMs(k, f))
  {
    MsRange(k, f);
    hide MsToFractions;
    hide FractionsToMs;
    var m := FractionsToMs(k, f);
    FractionAdjunction(k, m, f);
    if ms <= 999 && MsToFractions(k, ms) <= f {
      FractionAdjunction(k, ms, f);
      if ms < m {
        MsIncreasing(k, ms, m);
      }
    }
  }

  // The documented limit "less than 1000" is exact: the macro is injective and increasing on a
  // set of milliseconds 0..limit just when limit stays below 1000.
  lemma MsLimitIsExact(k: nat, limit: nat)
    requires GoodScale(k)
    ensures (forall a: nat, b: nat :: a < b <= limit ==> MsToFractions(k, a) < MsToFractions(k, b))
            <==> limit <= 999
  {
    hide MsToFractions;
    if limit <= 999 {
      forall a: nat, b: nat | a < b <= limit
        ensures MsToFractions(k, a) < MsToFractions(k, b)
      {
        MsIncreasing(k, a, b);
      }
    } else {
      MsWraps(k);
      assert !(MsToFractions(k, 999) < MsToFractions(k, 1000));
    }
  }

  lemma MsIncreasing(k: nat, a: nat, b: nat)
    requires GoodScale(k) && a < b <= 999
    ensures MsToFractions(k, a) < MsToFractions(k, b)
  {
    MsFit(k, a);
    MsFit(k, b);
    hide MsToFractions;
    MulLess(a, b, 1000 * k);
  }

  lemma MulLess(a: nat, b: nat, u: nat)
    requires a < b && u > 0
    ensures a * u < b * u
  {}

  // A thousand milliseconds wrap around to almost nothing.
  lemma MsWraps(k: nat)
    requires GoodScale(k)
    ensures MsToFractions(k, 1000) == k * 1000000 - TWO32 < MsToFractions(k, 999)
  {
    MsFit(k, 999);
    assert 1000 * 1000 * k == k * 1000000;
  }

  // How far a fraction is from the nanoseconds it was made of, in units of 2^-32 ns: less than
  // a millisecond early, and late by the excess of the rounded scale.
  lemma QuantisationBound(k: nat, n: Nanos)
    requires GoodScale(k)
    ensures var f := MsToFractions(k, n / NS_PER_MS);
            -NS_PER_MS * TWO32 < NS_PER_S * f - n * TWO32 <= 999 * NS_PER_MS * (k * 1000000 - TWO32)
  {
    var m := n / NS_PER_MS;
    MsFit(k, m);
    ScaledExcess(m, k);
  }

  lemma ScaledExcess(m: nat, k: nat)
    requires m <= 999 && TWO32 <= k * 1000000
    ensures 0 <= NS_PER_S * (m * (1000 * k)) - m * NS_PER_MS * TWO32 <= 999 * NS_PER_MS * (k * 1000000 - TWO32)
  {
    ScaledProducts(m, k);
    MulBound(m, k * 1000000 - TWO32);
  }

  lemma ScaledProducts(m: nat, k: nat)
    ensures m * (1000 * k) == 1000 * (m * k)
    ensures m * (k * 1000000 - TWO32) == 1000000 * (m * k) - m * TWO32
  {}

  // ---- Seconds: the 32-bit sum and the era rollover of 2036 ----

  function NtpSeconds(unix: int): uint32 { (unix + EPOCH_SHIFT) % TWO32 }

  // Section 3 of RFC 4330: the top bit tells the years 1968-2036 from 2036-2104.
  function UnixSeconds(ntp: uint32): int {
    if ntp >= 0x8000_0000 then ntp - EPOCH_SHIFT else ntp + TWO32 - EPOCH_SHIFT
  }

  // The 32-bit sum loses nothing over exactly the window from 1968-01-20 03:14:08 to 2104-02-26
  // 09:42:23, both UTC.
  lemma EraRollover(unix: int)
    ensures UnixSeconds(NtpSeconds(unix)) == unix <==> -61505152 <= unix < 4233462144
  {
    var s := unix + EPOCH_SHIFT;
    var q := s / TWO32;
    assert s == q * TWO32 + s % TWO32;
  }

  // ---- 64-bit stamps ----

  // A timestamp as one count of 2^-32 s.
  function Pack(t: Timestamp): uint64 { t.seconds * TWO32 + t.fractions }

  function Unpack(u: uint64): Timestamp { Timestamp(u / TWO32, u % TWO32) }

  lemma PackUnpack(t: Timestamp, u: uint64)
    ensures Unpack(Pack(t)) == t
    ensures Pack(Unpack(u)) == u
  {}

  // a - b as a signed 64-bit number.
  function SignedDifference(a: uint64, b: uint64): int {
    var d := (a - b) % TWO64;
    if d < TWO63 then d else d - TWO64
  }

  function Wrap(a: int): uint64 { a % TWO64 }

  // The modular difference is the true one exactly while that difference fits 64 signed bits,
  // that is, for instants less than 2^31 seconds apart, in whichever eras they lie.
  lemma ModularDifference(a: int, b: int)
    ensures SignedDifference(Wrap(a), Wrap(b)) == a - b <==> -TWO63 <= a - b < TWO63
  {
    var qa, qb := a / TWO64, b / TWO64;
    assert Wrap(a) == a - qa * TWO64 && Wrap(b) == b - qb * TWO64;
    var d := a - b;
    assert Wrap(a) - Wrap(b) == d + (qb - qa) * TWO64;
    ModShift(d, qb - qa);
    var r := (Wrap(a) - Wrap(b)) % TWO64;
    assert r == d % TWO64;
    assert d == (d / TWO64) * TWO64 + r;
  }

  lemma ModShift(d: int, k: int)
    ensures (d + k * TWO64) % TWO64 == d % TWO64
  {
    var q, r := d / TWO64, d % TWO64;
    assert d + k * TWO64 == (q + k) * TWO64 + r;
  }

  // ---- Clocks ----

  // What a clock returns: clock_gettime's seconds and nanoseconds, or cFE's seconds and
  // subseconds (units of 2^-32 s).
  datatype ClockReading = Posix(sec: int, nsec: Nanos) | Cfe(second: uint32, subseconds: uint32)

  // The value getCurrentSntpTime stores for a reading.
  function StampOf(r: ClockReading): Timestamp {
    match r
    case Posix(sec, nsec) => Timestamp(NtpSeconds(sec), MsToFractions(FRACTIONS_PER_US, nsec / NS_PER_MS))
    case Cfe(second, subseconds) => Timestamp(NtpSeconds(second), subseconds)
  }

  function Stamp(r: ClockReading): uint64 { Pack(StampOf(r)) }

  // The same value without the truncation to 32 bits of seconds: a count of 2^-32 s since 1900.
  function Units(r: ClockReading): int {
    match r
    case Posix(sec, nsec) => (sec + EPOCH_SHIFT) * TWO32 + StampOf(r).fractions
    case Cfe(second, subseconds) => (second + EPOCH_SHIFT) * TWO32 + subseconds
  }

  lemma StampIsUnits(r: ClockReading)
    ensures Stamp(r) == Wrap(Units(r))
  {
    var s := (if r.Posix? then r.sec else r.second) + EPOCH_SHIFT;
    var f := StampOf(r).fractions;
    var q, m := s / TWO32, s % TWO32;
    assert s == q * TWO32 + m;
    assert Units(r) == (m * TWO32 + f) + q * TWO64;
    ModShift(m * TWO32 + f, q);
  }

  // The years from 1900 to 1970 and their leap days, 1900 being none, in seconds.
  const SEVENTY_YEARS := (70 * 365 + 17) * 86400

  // What a reading is on the wire, in numbers: seconds since 1900 modulo 2^32, and as fraction the
  // milliseconds scaled by 4295000, from which FRACTIONS_TO_MS gets them back; or cFE's subseconds.
  lemma StampReading(r: ClockReading)
    ensures var (s, t) := (if r.Posix? then r.sec else r.second, StampOf(r));
            t.seconds == (s + SEVENTY_YEARS) % 0x1_0000_0000
            && Units(r) == (s + SEVENTY_YEARS) * 0x1_0000_0000 + t.fractions
            && (UnixSeconds(t.seconds) == s <==> -61505152 <= s < 4233462144)
    ensures r.Posix? ==> StampOf(r).fractions == r.nsec / 1_000_000 * 4295000
                         && FractionsToMs(4295, StampOf(r).fractions) == r.nsec / 1_000_000
    ensures r.Cfe? ==> StampOf(r).fractions == r.subseconds
  {
    EraRollover(if r.Posix? then r.sec else r.second);
    if r.Posix? {
      MsFit(FRACTIONS_PER_US, r.nsec / NS_PER_MS);
      FractionAdjunction(FRACTIONS_PER_US, r.nsec / NS_PER_MS, 0);
    }
  }

  // FRACTIONS_TO_MS of a cFE time: the millisecond of the instant, or the one before it when the
  // subseconds fall short of that millisecond's scaled fraction, as they do at a full 1 ms.
  lemma CfeMilliseconds(nsec: Nanos)
    ensures var (f, ms) := (nsec * TWO32 / NS_PER_S, nsec / 1_000_000);
            FractionsToMs(4295, f) == if f >= ms * 4295000 then ms else ms - 1
    ensures FractionsToMs(4295, 1_000_000 * TWO32 / NS_PER_S) == 0
  {}

  predicate NotAfter(r: ClockReading, s: ClockReading) {
    match (r, s)
    case (Posix(a, m), Posix(b, n)) => a < b || (a == b && m <= n)
    case (Cfe(a, m), Cfe(b, n)) => a < b || (a == b && m <= n)
    case _ => false
  }

  // Truncation and scaling keep the order of readings, across second boundaries too.
  lemma UnitsMonotone(r: ClockReading, s: ClockReading)
    requires NotAfter(r, s)
    ensures Units(r) <= Units(s)
  {
    if r.Posix? {
      var m, n := r.nsec / NS_PER_MS, s.nsec / NS_PER_MS;
      MsFit(FRACTIONS_PER_US, m);
      MsFit(FRACTIONS_PER_US, n);
    }
  }

  datatype ClockKind = PosixClock | CfeClock

  // What a clock of either kind reads x ns after the Unix epoch.
  function ReadClock(kind: ClockKind, x: int): ClockReading {
    var sec, nsec: Nanos := x / NS_PER_S, x % NS_PER_S;
    match kind
    case PosixClock => Posix(sec, nsec)
    case CfeClock => Cfe(sec % TWO32, nsec * TWO32 / NS_PER_S)
  }

  // Readings are in order exactly when the instants are, as long as a cFE clock's seconds do not
  // wrap between them.
  lemma ReadingsInOrder(kind: ClockKind, x: int, y: int)
    requires kind.CfeClock? ==> x / NS_PER_S / TWO32 == y / NS_PER_S / TWO32
    ensures NotAfter(ReadClock(kind, x), ReadClock(kind, y)) <==> x <= y
  {
    var m: Nanos, n: Nanos := x % NS_PER_S, y % NS_PER_S;
    if kind.CfeClock? {
      if m < n { SubsecondsIncrease(m, n); }
      if n < m { SubsecondsIncrease(n, m); }
    }
  }

  function InstantUnits(kind: ClockKind, x: int): int {
    var r := ReadClock(kind, x);
    (x / NS_PER_S + EPOCH_SHIFT) * TWO32 + StampOf(r).fractions
  }

  lemma StampIsInstantUnits(kind: ClockKind, x: int)
    ensures Stamp(ReadClock(kind, x)) == Wrap(InstantUnits(kind, x))
  {
    var r := ReadClock(kind, x);
    StampIsUnits(r);
    if kind.CfeClock? {
      var sec := x / NS_PER_S;
      var q := sec / TWO32;
      assert sec == q * TWO32 + sec % TWO32;
      assert InstantUnits(kind, x) == Units(r) + q * TWO64;
      ModShift(Units(r), q);
    }
  }

  // ---- When two instants get the same stamp ----

  // What the stamp of an instant keeps of its nanoseconds: the millisecond, or all of them.
  function Kept(kind: ClockKind, nsec: Nanos): int {
    match kind
    case PosixClock => nsec / NS_PER_MS
    case CfeClock => nsec
  }

  ghost predicate SameStampTime(kind: ClockKind, x: int, y: int) {
    && (x / NS_PER_S) % TWO32 == (y / NS_PER_S) % TWO32
    && Kept(kind, x % NS_PER_S) == Kept(kind, y % NS_PER_S)
  }

  // Two instants get the same stamp exactly when their seconds agree modulo 2^32 and, within the
  // second, a POSIX clock shows the same millisecond, a cFE clock the same nanosecond.
  lemma StampCollision(kind: ClockKind, x: int, y: int)
    ensures Stamp(ReadClock(kind, x)) == Stamp(ReadClock(kind, y)) <==> SameStampTime(kind, x, y)
  {
    var a, b := StampOf(ReadClock(kind, x)), StampOf(ReadClock(kind, y));
    PackUnpack(a, 0);
    PackUnpack(b, 0);
    SameSeconds(x / NS_PER_S, y / NS_PER_S);
    SameFractions(kind, x, y);
    StampSeconds(kind, x);
    StampSeconds(kind, y);
  }

  lemma StampSeconds(kind: ClockKind, x: int)
    ensures StampOf(ReadClock(kind, x)).seconds == NtpSeconds(x / NS_PER_S)
  {
    SameSeconds(x / NS_PER_S, (x / NS_PER_S) % TWO32);
  }

  lemma SameSeconds(s: int, t: int)
    ensures NtpSeconds(s) == NtpSeconds(t) <==> s % TWO32 == t % TWO32
  {
    EqualRemainders32(s, t);
    EqualRemainders32(s + EPOCH_SHIFT, t + EPOCH_SHIFT);
  }

  lemma EqualRemainders32(a: int, b: int)
    ensures a % TWO32 == b % TWO32 <==> (a - b) % TWO32 == 0
  {
    var qa, qb := a / TWO32, b / TWO32;
    var d := a % TWO32 - b % TWO32;
    assert a - b == d + (qa - qb) * TWO32;
    ModShift32(d, qa - qb);
  }

  lemma ModShift32(d: int, k: int)
    ensures (d + k * TWO32) % TWO32 == d % TWO32
  {
    var q, r := d / TWO32, d % TWO32;
    assert d + k * TWO32 == (q + k) * TWO32 + r;
  }

  lemma SameFractions(kind: ClockKind, x: int, y: int)
    ensures StampOf(ReadClock(kind, x)).fractions == StampOf(ReadClock(kind, y)).fractions
            <==> Kept(kind, x % NS_PER_S) == Kept(kind, y % NS_PER_S)
  {
    var m: Nanos, n: Nanos := x % NS_PER_S, y % NS_PER_S;
    match kind
    case PosixClock =>
      var a, b := m / NS_PER_MS, n / NS_PER_MS;
      if a < b { MsIncreasing(FRACTIONS_PER_US, a, b); }
      if b < a { MsIncreasing(FRACTIONS_PER_US, b, a); }
    case CfeClock =>
      if m < n { SubsecondsIncrease(m, n); }
      if n < m { SubsecondsIncrease(n, m); }
  }

  lemma SubsecondsIncrease(m: Nanos, n: Nanos)
    requires m < n
    ensures m * TWO32 / NS_PER_S < n * TWO32 / NS_PER_S
  {}

  // The most by which a stamp can precede and follow its instant, in units of 2^-32 ns.
  function Earliness(kind: ClockKind): int {
    match kind
    case PosixClock => NS_PER_MS * TWO32
    case CfeClock => NS_PER_S
  }

  function Lateness(kind: ClockKind): int {
    match kind
    case PosixClock => 999 * NS_PER_MS * 32704
    case CfeClock => 0
  }

  // The distance of a stamp from the instant it was taken at, in units of 2^-32 ns.
  function StampError(kind: ClockKind, x: int): int {
    NS_PER_S * InstantUnits(kind, x) - TWO32 * (x + EPOCH_SHIFT * NS_PER_S)
  }

  lemma StampErrorBound(kind: ClockKind, x: int)
    ensures -Earliness(kind) < StampError(kind, x) <= Lateness(kind)
  {
    var sec, nsec: Nanos := x / NS_PER_S, x % NS_PER_S;
    var f := StampOf(ReadClock(kind, x)).fractions;
    assert x == sec * NS_PER_S + nsec;
    assert StampError(kind, x) == NS_PER_S * f - nsec * TWO32;
    match kind
    case PosixClock => QuantisationBound(FRACTIONS_PER_US, nsec);
    case CfeClock =>
  }
}
