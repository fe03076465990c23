/** `NetworkHelper` (Helper.kt): the throughput estimator, the speed labels and the Wi-Fi
    signal query. The platform reads (`TrafficStats`, `System.currentTimeMillis`,
    `ConnectivityManager`, `WifiManager`) are parameters. */
module Helper {
  import opened Kotlin
  import opened Decimal

  // ---------------------------------------------------------------------------
  // Speed labels (formatSpeed)
  // ---------------------------------------------------------------------------

  /** The three units `formatSpeed` chooses between. */
  datatype SpeedUnit = BytesPerSecond | KiloBytesPerSecond | MegaBytesPerSecond {
    /** The text after the number. */
    function Suffix(): string {
      match this
      case BytesPerSecond => " B/s"
      case KiloBytesPerSecond => " KB/s"
      case MegaBytesPerSecond => " MB/s"
    }
  }

  const Kilo: int := 1024
  const Mega: int := 1024 * 1024

  /** `formatSpeed`: below 1024 the value itself in B/s, below 1024 * 1024 the whole
      kilobytes, otherwise the whole megabytes. A negative value is below 1024. */
  function FormatSpeed(speedInBytes: int): string {
    if speedInBytes < Kilo then IntToString(speedInBytes) + BytesPerSecond.Suffix()
    else if speedInBytes < Mega then IntToString(Div(speedInBytes, Kilo)) + KiloBytesPerSecond.Suffix()
    else IntToString(Div(speedInBytes, Mega)) + MegaBytesPerSecond.Suffix()
  }

  predicate EndsWith(s: string, suffix: string) {
    |suffix| <= |s| && s[|s| - |suffix|..] == suffix
  }

  /** Reads a label back into its number and unit. */
  function ParseSpeedLabel(text: string): Option<(int, SpeedUnit)> {
    if EndsWith(text, BytesPerSecond.Suffix()) then ParseAmount(text, BytesPerSecond)
    else if EndsWith(text, KiloBytesPerSecond.Suffix()) then ParseAmount(text, KiloBytesPerSecond)
    else if EndsWith(text, MegaBytesPerSecond.Suffix()) then ParseAmount(text, MegaBytesPerSecond)
    else None
  }

  function ParseAmount(text: string, u: SpeedUnit): Option<(int, SpeedUnit)>
    requires EndsWith(text, u.Suffix())
  {
    match ParseInt(text[..|text| - |u.Suffix()|])
    case None => None
    case Some(v) => Some((v, u))
  }

  /** What a label showing `amount` in unit `u` says about the speed: the unit is the
      largest one the speed reaches (bytes for anything below a kilobyte, negative
      speeds included), and the amount is the speed in that unit, rounded down. */
  ghost predicate Displays(speed: int, amount: int, u: SpeedUnit) {
    match u
    case BytesPerSecond =>
      speed < 1024 && amount == speed
    case KiloBytesPerSecond =>
      1024 <= speed < 1048576 && 1 <= amount < 1024 && amount * 1024 <= speed < amount * 1024 + 1024
    case MegaBytesPerSecond =>
      1048576 <= speed && 1 <= amount && amount * 1048576 <= speed < amount * 1048576 + 1048576
  }

  /** Every label `formatSpeed` produces reads back as a number and a unit that describe the speed. */
  lemma FormatSpeedReadsBack(speed: int)
    ensures var r := ParseSpeedLabel(FormatSpeed(speed));
            r.Some? && Displays(speed, r.value.0, r.value.1)
  {
    var text := FormatSpeed(speed);
    var u := if speed < Kilo then BytesPerSecond else if speed < Mega then KiloBytesPerSecond else MegaBytesPerSecond;
    var amount := if speed < Kilo then speed else if speed < Mega then Div(speed, Kilo) else Div(speed, Mega);
    var digits := IntToString(amount);
    assert text == digits + u.Suffix();
    assert text[..|text| - |u.Suffix()|] == digits;
    IntToStringRoundTrip(amount);
    if u != BytesPerSecond {
      assert text[|text| - 4] != ' ';
      assert !EndsWith(text, BytesPerSecond.Suffix());
    }
    if u == MegaBytesPerSecond {
      assert text[|text| - 4] == 'M';
      assert !EndsWith(text, KiloBytesPerSecond.Suffix());
    }
    assert EndsWith(text, u.Suffix());
    assert ParseSpeedLabel(text) == Some((amount, u));
  }

  lemma Digits1023()
    ensures NatToString(1023) == "1023"
  {
  }

  /** Below a kilobyte the speed is shown in bytes: 1023 gives "1023 B/s". */
  lemma FormatSpeedBytesBoundary()
    ensures FormatSpeed(1023) == "1023 B/s"
  {
    Digits1023();
  }

  /** 1024 is the first kilobyte speed and 1048575 the last. */
  lemma FormatSpeedKiloBoundaries()
    ensures FormatSpeed(1024) == "1 KB/s"
    ensures FormatSpeed(1048575) == "1023 KB/s"
  {
    assert Div(1024, Kilo) == 1;
    assert Div(1048575, Kilo) == 1023;
    assert NatToString(1) == "1";
    Digits1023();
  }

  /** 1048576 is the first megabyte speed. */
  lemma FormatSpeedMegaBoundary()
    ensures FormatSpeed(1048576) == "1 MB/s"
  {
    assert Div(1048576, Mega) == 1;
    assert NatToString(1) == "1";
  }

  /** A negative speed is printed as it is, in bytes. */
  lemma FormatSpeedNegative()
    ensures FormatSpeed(-5) == "-5 B/s"
    ensures FormatSpeed(0) == "0 B/s"
  {
    assert IntToString(-5) == "-" + NatToString(5);
    assert NatToString(5) == "5";
    assert NatToString(0) == "0";
  }

  // ---------------------------------------------------------------------------
  // The estimator (calculateNetworkSpeed)
  // ---------------------------------------------------------------------------

  /** One reading of the platform: total received and transmitted bytes and the wall clock in ms. */
  datatype Sample = Sample(rxBytes: int, txBytes: int, timeMillis: int)

  /** The three fields of `NetworkHelper`. */
  datatype Baseline = Baseline(previousRxBytes: int, previousTxBytes: int, lastUpdateTime: int)

  /** The fields as the constructor leaves them: zero totals, the clock at construction. */
  function InitialBaseline(now: int): Baseline {
    Baseline(0, 0, now)
  }

  /** The pair returned when less than a whole second has passed. */
  const ZeroLabels: (string, string) := ("0 B/s", "0 B/s")

  /** `timeElapsed`: whole seconds since the last update, truncated toward zero. */
  function ElapsedSeconds(b: Baseline, s: Sample): int {
    Div(s.timeMillis - b.lastUpdateTime, 1000)
  }

  /** The elapsed count is the number of whole seconds in the millisecond difference,
      and it is positive exactly when at least 1000 ms have passed. */
  lemma ElapsedSecondsCountsWholeSeconds(b: Baseline, s: Sample)
    ensures var ms, e := s.timeMillis - b.lastUpdateTime, ElapsedSeconds(b, s);
            && (ms >= 0 ==> e * 1000 <= ms < e * 1000 + 1000)
            && (ms < 0 ==> e * 1000 - 1000 < ms <= e * 1000)
            && (e > 0 <==> ms >= 1000)
  {
  }

  /** Per-second download and upload. */
  datatype Speeds = Speeds(download: int, upload: int)

  /** The two speeds, or `None` when the guard `timeElapsed <= 0` returns early. */
  function MeasuredSpeeds(b: Baseline, s: Sample): (r: Option<Speeds>)
    ensures r.Some? <==> s.timeMillis - b.lastUpdateTime >= 1000
    ensures r.Some? ==> && TruncatedQuotient(s.rxBytes - b.previousRxBytes, ElapsedSeconds(b, s), r.value.download)
                        && TruncatedQuotient(s.txBytes - b.previousTxBytes, ElapsedSeconds(b, s), r.value.upload)
  {
    ElapsedSecondsCountsWholeSeconds(b, s);
    var timeElapsed := ElapsedSeconds(b, s);
    if timeElapsed <= 0 then None
    else Some(Speeds(Div(s.rxBytes - b.previousRxBytes, timeElapsed), Div(s.txBytes - b.previousTxBytes, timeElapsed)))
  }

  /** One call of `calculateNetworkSpeed`: the fields afterwards and the returned labels. */
  function SpeedStep(b: Baseline, s: Sample): (Baseline, (string, string)) {
    match MeasuredSpeeds(b, s)
    case None => (b, ZeroLabels)
    case Some(sp) => (Baseline(s.rxBytes, s.txBytes, s.timeMillis), (FormatSpeed(sp.download), FormatSpeed(sp.upload)))
  }

  /** Under a second: the literal zero pair, and all three fields keep their values.
      Otherwise the fields become the sample, and the labels show the speeds. */
  lemma SpeedStepState(b: Baseline, s: Sample)
    ensures s.timeMillis - b.lastUpdateTime < 1000 ==> SpeedStep(b, s) == (b, ("0 B/s", "0 B/s"))
    ensures s.timeMillis - b.lastUpdateTime >= 1000 ==>
              && SpeedStep(b, s).0 == Baseline(s.rxBytes, s.txBytes, s.timeMillis)
              && SpeedStep(b, s).1 == (FormatSpeed(MeasuredSpeeds(b, s).value.download),
                                       FormatSpeed(MeasuredSpeeds(b, s).value.upload))
  {
  }

  /** Two calls within a second of the baseline leave it where it was. */
  lemma SpeedStepWithinSecondKeepsBaseline(b: Baseline, s1: Sample, s2: Sample)
    requires s1.timeMillis - b.lastUpdateTime < 1000 && s2.timeMillis - b.lastUpdateTime < 1000
    ensures SpeedStep(b, s1) == (b, ZeroLabels)
    ensures SpeedStep(SpeedStep(b, s1).0, s2) == (b, ZeroLabels)
  {
  }

  /** With counters that did not go down, each speed is the byte delta divided by the
      elapsed seconds and rounded down, so it is never negative. */
  lemma SpeedsOfMonotoneCounters(b: Baseline, s: Sample)
    requires s.timeMillis - b.lastUpdateTime >= 1000
    requires s.rxBytes >= b.previousRxBytes && s.txBytes >= b.previousTxBytes
    ensures var sp, e := MeasuredSpeeds(b, s).value, ElapsedSeconds(b, s);
            && 0 <= sp.download && sp.download * e <= s.rxBytes - b.previousRxBytes < sp.download * e + e
            && 0 <= sp.upload && sp.upload * e <= s.txBytes - b.previousTxBytes < sp.upload * e + e
  {
  }

  /** A received counter that went down is not clamped: the download speed is at most
      zero, and it is negative as soon as the drop is at least one byte per elapsed second. */
  lemma CounterRegressionNotClamped(b: Baseline, s: Sample)
    requires s.timeMillis - b.lastUpdateTime >= 1000
    requires s.rxBytes < b.previousRxBytes
    ensures var d, e := MeasuredSpeeds(b, s).value.download, ElapsedSeconds(b, s);
            d <= 0 && (d < 0 <==> b.previousRxBytes - s.rxBytes >= e)
  {
    ElapsedSecondsCountsWholeSeconds(b, s);
    DivNegativeByPositive(s.rxBytes - b.previousRxBytes, ElapsedSeconds(b, s));
  }

  /** The same for the transmitted counter and the upload speed. */
  lemma UploadRegressionNotClamped(b: Baseline, s: Sample)
    requires s.timeMillis - b.lastUpdateTime >= 1000
    requires s.txBytes < b.previousTxBytes
    ensures var d, e := MeasuredSpeeds(b, s).value.upload, ElapsedSeconds(b, s);
            d <= 0 && (d < 0 <==> b.previousTxBytes - s.txBytes >= e)
  {
    ElapsedSecondsCountsWholeSeconds(b, s);
    DivNegativeByPositive(s.txBytes - b.previousTxBytes, ElapsedSeconds(b, s));
  }

  /** A drop of five bytes within one second is shown as "-5 B/s". */
  lemma CounterRegressionExample()
    ensures SpeedStep(Baseline(100, 0, 0), Sample(95, 0, 1000)) == (Baseline(95, 0, 1000), ("-5 B/s", "0 B/s"))
  {
    assert ElapsedSeconds(Baseline(100, 0, 0), Sample(95, 0, 1000)) == 1;
    assert Div(-5, 1) == -5;
    FormatSpeedNegative();
  }

  /** No warm-up: the first call measures from zero totals at construction time, so it
      reports the whole totals divided by the seconds since construction. */
  lemma FirstCallReportsTotals(createdAt: int, s: Sample)
    requires s.timeMillis - createdAt >= 1000
    ensures var e := Div(s.timeMillis - createdAt, 1000);
            e > 0 && MeasuredSpeeds(InitialBaseline(createdAt), s) == Some(Speeds(Div(s.rxBytes, e), Div(s.txBytes, e)))
  {
    ElapsedSecondsCountsWholeSeconds(InitialBaseline(createdAt), s);
  }

  lemma FirstCallExampleSpeeds()
    ensures MeasuredSpeeds(InitialBaseline(0), Sample(2048, 0, 1000)) == Some(Speeds(2048, 0))
  {
    assert ElapsedSeconds(InitialBaseline(0), Sample(2048, 0, 1000)) == 1 by { assert Div(1000, 1000) == 1; }
    assert Div(2048, 1) == 2048;
    assert Div(0, 1) == 0;
  }

  lemma FormatSpeedTwoKilo()
    ensures FormatSpeed(2048) == "2 KB/s"
  {
    assert Div(2048, Kilo) == 2;
    assert NatToString(2) == "2";
  }

  /** A sample of 2048 received bytes one second after construction at time 0 shows "2 KB/s". */
  lemma FirstCallExample()
    ensures SpeedStep(InitialBaseline(0), Sample(2048, 0, 1000)) == (Baseline(2048, 0, 1000), ("2 KB/s", "0 B/s"))
  {
    var b, s := InitialBaseline(0), Sample(2048, 0, 1000);
    FirstCallExampleSpeeds();
    FormatSpeedTwoKilo();
    FormatSpeedNegative();
    assert SpeedStep(b, s) == (Baseline(2048, 0, 1000), (FormatSpeed(2048), FormatSpeed(0)));
  }

  // ---------------------------------------------------------------------------
  // Wi-Fi signal (getWifiSignalStrengthPercentage)
  // ---------------------------------------------------------------------------

  /** `null` unless the Wi-Fi probe is positive; then the level the platform computes for
      the link's RSSI on a scale of 100 buckets (`signalLevel`). */
  function WifiSignalStrengthPercentage(onWifi: bool, signalLevel: int): (r: Option<int>)
    ensures r.Some? <==> onWifi
    ensures r.Some? ==> r.value == signalLevel
  {
    if onWifi then Some(signalLevel) else None
  }

  // ---------------------------------------------------------------------------
  // The estimator object
  // ---------------------------------------------------------------------------

  class NetworkHelper {
    var previousRxBytes: int
    var previousTxBytes: int
    var lastUpdateTime: int

    function State(): Baseline
      reads this
    {
      Baseline(previousRxBytes, previousTxBytes, lastUpdateTime)
    }

    /** The field initialisers; `now` is `System.currentTimeMillis()` at construction. */
    constructor(now: int)
      ensures State() == InitialBaseline(now)
    {
      previousRxBytes := 0;
      previousTxBytes := 0;
      lastUpdateTime := now;
    }

    /** `calculateNetworkSpeed`, with the two `TrafficStats` totals and the clock passed in. */
    method CalculateNetworkSpeed(currentRxBytes: int, currentTxBytes: int, currentTime: int)
      returns (speed: (string, string))
      modifies this
      ensures (State(), speed) == SpeedStep(old(State()), Sample(currentRxBytes, currentTxBytes, currentTime))
      ensures currentTime - old(lastUpdateTime) < 1000 ==> State() == old(State()) && speed == ("0 B/s", "0 B/s")
      ensures currentTime - old(lastUpdateTime) >= 1000 ==>
                State() == Baseline(currentRxBytes, currentTxBytes, currentTime)
    {
      ghost var sample := Sample(currentRxBytes, currentTxBytes, currentTime);
      ghost var before := State();
      ElapsedSecondsCountsWholeSeconds(before, sample);
      var timeElapsed := Div(currentTime - lastUpdateTime, 1000);
      if timeElapsed <= 0 {
        return ZeroLabels;
      }
      var downloadSpeed := Div(currentRxBytes - previousRxBytes, timeElapsed);
      var uploadSpeed := Div(currentTxBytes - previousTxBytes, timeElapsed);
      previousRxBytes := currentRxBytes;
      previousTxBytes := currentTxBytes;
      lastUpdateTime := currentTime;
      speed := (FormatSpeed(downloadSpeed), FormatSpeed(uploadSpeed));
    }
  }
}
