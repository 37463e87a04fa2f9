/** The test-file generator: one binding that fires `uowCount` units of work
    spread evenly over the interval, each with `namesCount` metrics of
    `samplesCount` Gaussian samples, plus a canary binding that fires once,
    after the interval, all drained through the fast-forward executor. */
module TestFile {
  import opened JavaTime
  import opened Schedule
  import opened WorkQueue
  import opened Client
  import opened Firing
  import opened Interval

  /** The name of the canary's metric. */
  const Canary: string := "endCanary"

  /** The builder's settings. The interval's ends are epoch milliseconds; the
      random source and the output file are not modelled. */
  datatype Config = Config(uowCount: int, namesCount: int, samplesCount: int,
                           startMillis: int, endMillis: int,
                           clusterName: string, serviceName: string)

  /** What the builder's field annotations declare: the three counts are
      `Integer`s of at least one (`@Min(1)`), the cluster and service names are
      not empty (`@NotEmpty`). */
  predicate ValidConfig(c: Config) {
    1 <= c.uowCount <= IntMax && 1 <= c.namesCount <= IntMax && 1 <= c.samplesCount <= IntMax &&
    c.clusterName != [] && c.serviceName != []
  }

  /** Neither end of the interval nor its length saturates when converted to
      nanoseconds. */
  predicate Unsaturated(c: Config) {
    -MaxMillis <= c.startMillis <= MaxMillis && -MaxMillis <= c.endMillis <= MaxMillis &&
    -MaxMillis <= c.endMillis - c.startMillis <= MaxMillis
  }

  /** The logged sample count: `uowCount * namesCount * samplesCount` in `long`
      arithmetic, wrapping around past `Long.MAX_VALUE`. */
  function ExpectedSamples(c: Config): (r: int)
    requires ValidConfig(c)
    ensures InLong(r)
    ensures (c.uowCount * c.namesCount * c.samplesCount - r) % TwoTo64 == 0
    ensures c.uowCount * c.namesCount * c.samplesCount <= LongMax ==> r == c.uowCount * c.namesCount * c.samplesCount
  {
    ProductFits(c.uowCount, c.namesCount);
    Wrap64(Wrap64(c.uowCount * c.namesCount) * c.samplesCount)
  }

  lemma ProductFits(a: int, b: int)
    requires 1 <= a <= IntMax && 1 <= b <= IntMax
    ensures 1 <= a * b <= LongMax
  {
    assert a * b <= IntMax * b <= IntMax * IntMax;
  }

  /** The generator of one metric: `samplesCount` Gaussian samples of mean 50
      and deviation 8 under one random name. */
  function SampleGenerator(c: Config): MetricGenerator {
    ConstantCount(c.samplesCount, Gaussian(50.0, 8.0, SingleName))
  }

  /** The main unit of work: `namesCount` sample generators. */
  function MainUnit(c: Config): (r: UnitOfWork)
    requires ValidConfig(c)
    ensures |r.metrics| == c.namesCount
    ensures forall j :: 0 <= j < |r.metrics| ==> r.metrics[j] == ConstantCount(c.samplesCount, Gaussian(50.0, 8.0, SingleName))
  {
    UnitOfWork(seq(c.namesCount, _ => SampleGenerator(c)))
  }

  /** The canary's unit of work: the constant 5 under the canary's name. */
  function CanaryUnit(): (r: UnitOfWork)
    ensures |r.metrics| == 1 && r.metrics[0].Constant?
  {
    UnitOfWork([Constant(5, Specified(Canary))])
  }

  /** The interval's length in nanoseconds, converted from whole milliseconds. */
  function DurationNanos(c: Config): int {
    ToNanos(c.endMillis - c.startMillis)
  }

  /** The main binding's period: the length divided by the unit-of-work count. */
  function MainPeriod(c: Config): (r: int)
    requires ValidConfig(c)
    ensures DurationNanos(c) >= 0 ==> 0 <= r * c.uowCount <= DurationNanos(c) < r * c.uowCount + c.uowCount
    ensures DurationNanos(c) < 0 ==> DurationNanos(c) <= r * c.uowCount <= 0
  {
    JavaDiv(DurationNanos(c), c.uowCount)
  }

  /** The canary's period: the length plus the main period, as a `long` sum. */
  function CanaryPeriod(c: Config): (r: int)
    requires ValidConfig(c)
    ensures InLong(r)
    ensures InLong(DurationNanos(c) + MainPeriod(c)) ==> r == DurationNanos(c) + MainPeriod(c)
  {
    Wrap64(DurationNanos(c) + MainPeriod(c))
  }

  /** The main binding: the main unit of work every main period. */
  function MainSchedule(c: Config): UnitOfWorkSchedule
    requires ValidConfig(c)
  {
    UnitOfWorkSchedule(MainUnit(c), ConstantTimeScheduler(MainPeriod(c)))
  }

  /** The canary binding: the canary's unit of work every canary period. */
  function CanarySchedule(c: Config): UnitOfWorkSchedule
    requires ValidConfig(c)
  {
    UnitOfWorkSchedule(CanaryUnit(), ConstantTimeScheduler(CanaryPeriod(c)))
  }

  /** The two bindings handed to the executor: the main one, then the canary. */
  function Schedules(c: Config): (r: seq<UnitOfWorkSchedule>)
    requires ValidConfig(c)
    ensures |r| == 2 && r[0].generator == MainUnit(c) && r[1].generator == CanaryUnit()
    ensures MainPeriod(c) > 0 ==> Progressing(r[0].next)
    ensures CanaryPeriod(c) > 0 ==> Progressing(r[1].next)
  {
    [MainSchedule(c), CanarySchedule(c)]
  }

  /** How many samples one call of a metric generator produces; a repeating
      generator calls its inner one `count` times. */
  function Samples(g: MetricGenerator): nat {
    match g
    case Gaussian(_, _, _) => 1
    case Constant(_, _) => 1
    case ConstantCount(count, inner) => if count > 0 then count * Samples(inner) else 0
  }

  /** How many samples one firing of a unit of work records. */
  function UnitSamples(metrics: seq<MetricGenerator>): nat {
    if metrics == [] then 0 else UnitSamples(metrics[..|metrics| - 1]) + Samples(metrics[|metrics| - 1])
  }

  lemma {:induction false} UnitSamplesUniform(g: MetricGenerator, n: nat)
    ensures UnitSamples(seq(n, _ => g)) == n * Samples(g)
  {
    if n > 0 {
      assert seq(n, _ => g)[..n - 1] == seq(n - 1, _ => g);
      UnitSamplesUniform(g, n - 1);
      assert (n - 1) * Samples(g) + Samples(g) == n * Samples(g);
    }
  }

  /** Every main firing records `namesCount * samplesCount` samples and the
      canary's firing records one. */
  lemma SamplesPerFiring(c: Config)
    requires ValidConfig(c)
    ensures UnitSamples(MainUnit(c).metrics) == c.namesCount * c.samplesCount
    ensures UnitSamples(CanaryUnit().metrics) == 1
  {
    UnitSamplesUniform(SampleGenerator(c), c.namesCount);
    assert CanaryUnit().metrics[..0] == [];
  }

  lemma MulNonneg(a: int, b: int)
    requires a >= 0 && b >= 0
    ensures a * b >= 0
  {
  }

  lemma MulAssoc(a: int, b: int, c: int)
    ensures a * b * c == a * (b * c)
  {
  }

  lemma MulSucc(a: int, b: int)
    ensures (a + 1) * b == a * b + b
  {
  }

  /** Dividing `x == q * p` by `p` gives back `q`. */
  lemma DivExact(x: int, p: int, q: int)
    requires p > 0 && x == q * p
    ensures x / p == q
  {
    var q', r := x / p, x % p;
    assert x == q' * p + r && 0 <= r < p;
    var e := q - q';
    assert e * p == r by {
      assert q * p == q' * p + e * p;
    }
    MulAwayFromZero(e, p);
  }

  /** A non-zero multiple of `p > 0` is at least `p` away from zero. */
  lemma MulAwayFromZero(e: int, p: int)
    requires p > 0
    ensures e >= 1 ==> e * p >= p
    ensures e <= -1 ==> e * p <= -p
  {
    if e >= 1 {
      MulNonneg(e - 1, p);
      assert e * p == (e - 1) * p + p;
    } else if e <= -1 {
      MulNonneg(-e - 1, p);
      assert -(e * p) == (-e - 1) * p + p;
    }
  }

  /** Java's division of a window of `d >= u` nanoseconds into `u` periods:
      the period is at least one nanosecond, at most the window, and `u`
      periods fall short of the window by less than `u` nanoseconds. */
  lemma PeriodBounds(d: int, u: int)
    requires 1 <= u <= d
    ensures 1 <= JavaDiv(d, u) <= d
    ensures JavaDiv(d, u) * u <= d < JavaDiv(d, u) * u + u
    ensures d % u == 0 ==> JavaDiv(d, u) * u == d
  {
    var p := JavaDiv(d, u);
    assert p * u <= d < p * u + u;
    if p < 1 {
      MulNonneg(-p, u);
      assert false;
    }
    MulNonneg(p, u - 1);
    assert p * u == p * (u - 1) + p;
    assert p == d / u;
    if d % u == 0 {
      assert d == d / u * u + d % u;
    }
  }

  /** A constant-period binding first due one period after `start`, where the
      window is `d` long and the period at most `d`, fires `d / p + 1` times. */
  lemma RunCount(p: int, d: int, start: int, end: int)
    requires 0 < p <= d && end - start == d
    ensures |Run(ConstantTimeScheduler(p), start + p, end)| == d / p + 1
  {
    ConstantRunLength(p, start + p, end);
    assert |Run(ConstantTimeScheduler(p), start + p, end)| == (d - p) / p + 2;
    DivStep(d, p);
  }

  /** The window is `DurationNanos` long in the executor's nanoseconds too. */
  lemma WindowLength(c: Config)
    requires Unsaturated(c)
    ensures ToNanos(c.endMillis) - ToNanos(c.startMillis) == DurationNanos(c)
  {
  }

  /** A positive main period means a window of at least `uowCount`
      nanoseconds, of which the period is at most the whole. */
  lemma MainPeriodBounds(c: Config)
    requires ValidConfig(c) && MainPeriod(c) > 0
    ensures c.uowCount <= DurationNanos(c)
    ensures MainPeriod(c) <= DurationNanos(c)
    ensures DurationNanos(c) % c.uowCount == 0 ==> MainPeriod(c) * c.uowCount == DurationNanos(c)
  {
    var d, u := DurationNanos(c), c.uowCount;
    var p := JavaDiv(d, u);
    MulNonneg(p - 1, u);
    assert p * u == (p - 1) * u + u;
    PeriodBounds(d, u);
  }

  /** The main period is positive exactly when the window is at least
      `uowCount` nanoseconds long. */
  lemma MainPeriodPositive(c: Config)
    requires ValidConfig(c)
    ensures MainPeriod(c) > 0 <==> DurationNanos(c) >= c.uowCount
  {
    if MainPeriod(c) > 0 {
      MainPeriodBounds(c);
    }
    if DurationNanos(c) >= c.uowCount {
      PeriodBounds(DurationNanos(c), c.uowCount);
    }
  }

  /** A window of 0 to `uowCount - 1` nanoseconds gives a main period of zero:
      the main binding is queued again at the very time it fired, forever. */
  lemma ShortWindowStalls(c: Config)
    requires ValidConfig(c) && 0 <= DurationNanos(c) < c.uowCount
    ensures MainPeriod(c) == 0
    ensures forall t :: MainSchedule(c).next(t) == t
  {
    MulAwayFromZero(MainPeriod(c), c.uowCount);
  }

  /** An end before the start gives a main period of zero or less and, unless
      the `long` sum wraps, a negative canary period: the canary is queued
      again before the time it fired, so it never passes the end. */
  lemma BackwardWindowRecedes(c: Config)
    requires ValidConfig(c) && DurationNanos(c) < 0
    requires InLong(DurationNanos(c) + MainPeriod(c))
    ensures MainPeriod(c) <= 0 && CanaryPeriod(c) < 0
    ensures forall t :: CanarySchedule(c).next(t) < t
  {
  }

  /** The main binding, first due one period after the start, fires
      `DurationNanos / MainPeriod + 1` times, the last of them past the end;
      when the count divides the window that is `uowCount + 1` times. */
  lemma MainFiringCount(c: Config)
    requires ValidConfig(c) && Unsaturated(c) && MainPeriod(c) > 0
    ensures var p := MainPeriod(c);
            |Run(ConstantTimeScheduler(p), ToNanos(c.startMillis) + p, ToNanos(c.endMillis))| == DurationNanos(c) / p + 1
    ensures DurationNanos(c) % c.uowCount == 0 ==> DurationNanos(c) / MainPeriod(c) == c.uowCount
  {
    WindowLength(c);
    MainPeriodBounds(c);
    RunCount(MainPeriod(c), DurationNanos(c), ToNanos(c.startMillis), ToNanos(c.endMillis));
    if DurationNanos(c) % c.uowCount == 0 {
      DivExact(DurationNanos(c), MainPeriod(c), c.uowCount);
    }
  }

  /** The canary, first due `CanaryPeriod` after the start, fires exactly
      once, past the end. */
  lemma CanaryFiresOnce(c: Config)
    requires ValidConfig(c) && Unsaturated(c) && MainPeriod(c) > 0 && CanaryPeriod(c) > 0
    ensures var r := Run(ConstantTimeScheduler(CanaryPeriod(c)), ToNanos(c.startMillis) + CanaryPeriod(c), ToNanos(c.endMillis));
            |r| == 1 && r[0] > ToNanos(c.endMillis)
  {
    WindowLength(c);
    MainPeriodBounds(c);
    Wrap64Positive(DurationNanos(c) + MainPeriod(c));
  }

  /** A window of 150 years with one unit of work makes the canary's period
      wrap around to a negative value, so the canary is never past the end. */
  lemma CanaryPeriodOverflows()
    ensures var c := Config(1, 1, 1, 0, 4_733_640_000_000, "cluster", "service");
            ValidConfig(c) && Unsaturated(c) && MainPeriod(c) > 0 && CanaryPeriod(c) < 0
  {
    var c := Config(1, 1, 1, 0, 4_733_640_000_000, "cluster", "service");
    assert DurationNanos(c) == 4_733_640_000_000_000_000;
    assert MainPeriod(c) == DurationNanos(c);
  }

  /** The main binding's firing times over the window. */
  ghost function MainRun(c: Config): seq<int>
    requires ValidConfig(c) && MainPeriod(c) > 0
  {
    Run(MainSchedule(c).next, MainSchedule(c).next(ToNanos(c.startMillis)), ToNanos(c.endMillis))
  }

  /** The canary's firing times over the window. */
  ghost function CanaryRun(c: Config): seq<int>
    requires ValidConfig(c) && CanaryPeriod(c) > 0
  {
    Run(CanarySchedule(c).next, CanarySchedule(c).next(ToNanos(c.startMillis)), ToNanos(c.endMillis))
  }

  /** Both runs start one period after the start. */
  lemma RunsFromStart(c: Config)
    requires ValidConfig(c) && MainPeriod(c) > 0 && CanaryPeriod(c) > 0
    ensures MainRun(c) == Run(ConstantTimeScheduler(MainPeriod(c)), ToNanos(c.startMillis) + MainPeriod(c), ToNanos(c.endMillis))
    ensures CanaryRun(c) == Run(ConstantTimeScheduler(CanaryPeriod(c)), ToNanos(c.startMillis) + CanaryPeriod(c), ToNanos(c.endMillis))
  {
    assert MainSchedule(c).next(ToNanos(c.startMillis)) == ToNanos(c.startMillis) + MainPeriod(c);
    assert CanarySchedule(c).next(ToNanos(c.startMillis)) == ToNanos(c.startMillis) + CanaryPeriod(c);
  }

  /** `fired` holds the main binding's firings and the canary's, and nothing else. */
  ghost predicate Drains(c: Config, fired: seq<WorkEntry>)
    requires ValidConfig(c) && MainPeriod(c) > 0 && CanaryPeriod(c) > 0
  {
    WellFormed(fired, 2) && Times(fired, 0) == MainRun(c) && Times(fired, 1) == CanaryRun(c)
  }

  /** The executor's promise for each binding of `Schedules(c)` is `Drains`. */
  lemma DrainsSchedules(c: Config, fired: seq<WorkEntry>, start: int, end: int)
    requires ValidConfig(c) && MainPeriod(c) > 0 && CanaryPeriod(c) > 0
    requires start == ToNanos(c.startMillis) && end == ToNanos(c.endMillis)
    requires WellFormed(fired, 2)
    requires forall i :: 0 <= i < |Schedules(c)| ==>
               Times(fired, i) == Run(Schedules(c)[i].next, Schedules(c)[i].next(start), end)
    ensures Drains(c, fired)
  {
    var s := Schedules(c);
    assert s[0] == MainSchedule(c) && s[1] == CanarySchedule(c);
    assert Times(fired, 0) == Run(s[0].next, s[0].next(start), end);
    assert Times(fired, 1) == Run(s[1].next, s[1].next(start), end);
  }

  /** A drained run records `DurationNanos / MainPeriod + 2` events: the main
      binding's firings and the canary's one. */
  lemma GeneratedEventCount(c: Config, fired: seq<WorkEntry>)
    requires ValidConfig(c) && Unsaturated(c) && MainPeriod(c) > 0 && CanaryPeriod(c) > 0
    requires Drains(c, fired)
    ensures |fired| == DurationNanos(c) / MainPeriod(c) + 2
    ensures |Times(fired, 0)| == DurationNanos(c) / MainPeriod(c) + 1 && |Times(fired, 1)| == 1
  {
    RunsFromStart(c);
    MainFiringCount(c);
    CanaryFiresOnce(c);
    CountTwo(fired);
  }

  /** When the count divides the window, the file holds `uowCount + 1` main
      events and the canary, so `namesCount * samplesCount + 1` samples more
      than the logged count. */
  lemma RecordedSamples(c: Config, fired: seq<WorkEntry>)
    requires ValidConfig(c) && Unsaturated(c) && MainPeriod(c) > 0 && CanaryPeriod(c) > 0
    requires Drains(c, fired) && DurationNanos(c) % c.uowCount == 0
    requires c.uowCount * c.namesCount * c.samplesCount <= LongMax
    ensures |Times(fired, 0)| == c.uowCount + 1
    ensures |Times(fired, 0)| * UnitSamples(MainUnit(c).metrics) + |Times(fired, 1)| * UnitSamples(CanaryUnit().metrics)
            == ExpectedSamples(c) + c.namesCount * c.samplesCount + 1
  {
    GeneratedEventCount(c, fired);
    MainFiringCount(c);
    SamplesPerFiring(c);
    var u, n, k := c.uowCount, c.namesCount, c.samplesCount;
    MulAssoc(u, n, k);
    MulSucc(u, n * k);
  }

  /** A constant-period binding due exactly at the end fires there and once
      more, one period later. */
  lemma RunFromEnd(p: int, end: int)
    requires p > 0
    ensures Run(ConstantTimeScheduler(p), end, end) == [end, end + p]
  {
    assert ConstantTimeScheduler(p)(end) == end + p;
  }

  /** A binding first due past the end fires once. */
  lemma RunPastEnd(next: int -> int, t: int, end: int)
    requires Progressing(next) && t > end
    ensures Run(next, t, end) == [t]
  {
  }

  /** The ten-minute configuration of the source's test: one unit of work,
      one metric of ten samples. */
  function TenMinutes(start: int): Config {
    Config(1, 1, 10, start, start + 600_000, "test_cluster", "test_service")
  }

  /** Over ten minutes the main binding fires at the end and one period later,
      and the canary one period after the end. */
  lemma TenMinuteRuns(start: int)
    requires -MaxMillis <= start && start + 600_000 <= MaxMillis
    ensures ValidConfig(TenMinutes(start)) && MainPeriod(TenMinutes(start)) == 600_000_000_000
    ensures CanaryPeriod(TenMinutes(start)) == 1_200_000_000_000
    ensures var end := (start + 600_000) * NanosPerMilli;
            MainRun(TenMinutes(start)) == [end, end + 600_000_000_000] &&
            CanaryRun(TenMinutes(start)) == [end + 600_000_000_000]
  {
    var c, p := TenMinutes(start), 600_000_000_000;
    assert DurationNanos(c) == p;
    var end := ToNanos(c.endMillis);
    assert ToNanos(c.startMillis) + p == end && end == (start + 600_000) * NanosPerMilli;
    RunsFromStart(c);
    RunFromEnd(p, end);
    RunPastEnd(ConstantTimeScheduler(2 * p), end + p, end);
  }

  /** A ten-minute window with one unit of work gives three events: the main
      binding at the end and one period later, and the canary one period
      after the end. */
  lemma TenMinuteWindow(start: int, fired: seq<WorkEntry>)
    requires -MaxMillis <= start && start + 600_000 <= MaxMillis
    requires ValidConfig(TenMinutes(start)) && MainPeriod(TenMinutes(start)) > 0 && CanaryPeriod(TenMinutes(start)) > 0
    requires Drains(TenMinutes(start), fired)
    ensures |fired| == 3
    ensures var end := (start + 600_000) * NanosPerMilli;
            Times(fired, 0) == [end, end + 600_000_000_000] && Times(fired, 1) == [end + 600_000_000_000]
  {
    TenMinuteRuns(start);
    CountTwo(fired);
  }

  /** Builds the two bindings, drains them through a fast-forward executor over
      the configured interval, and gives back the logged sample count and the
      executor. */
  method Generate(c: Config, metricsFactory: (UnitOfWork, nat) -> Event, render: int -> string)
      returns (totalSampleCount: int, executor: IntervalExecutor)
    requires ValidConfig(c) && MainPeriod(c) > 0 && CanaryPeriod(c) > 0
    ensures totalSampleCount == ExpectedSamples(c)
    ensures fresh(executor) && fresh(executor.sink)
    ensures executor.schedules == Schedules(c) && executor.metricsFactory == metricsFactory
    ensures executor.workEntries == [] && Drains(c, executor.fired) && Sorted(executor.fired)
    ensures executor.sink.output == Emitted(Schedules(c), metricsFactory, render, executor.fired, 0) + [Flushed]
    ensures Unsaturated(c) ==> |executor.fired| == DurationNanos(c) / MainPeriod(c) + 2
  {
    ProductFits(c.uowCount, c.namesCount);
    totalSampleCount := Wrap64(Wrap64(c.uowCount * c.namesCount) * c.samplesCount);
    var metricGenerators := [];
    for x := 0 to c.namesCount
      invariant metricGenerators == seq(x, _ => SampleGenerator(c))
    {
      metricGenerators := metricGenerators + [ConstantCount(c.samplesCount, Gaussian(50.0, 8.0, SingleName))];
    }
    var uowGenerator := UnitOfWork(metricGenerators);
    var durationInNanos := ToNanos(c.endMillis - c.startMillis);
    var periodInNanos := JavaDiv(durationInNanos, c.uowCount);
    var schedules := [UnitOfWorkSchedule(uowGenerator, ConstantTimeScheduler(periodInNanos))];
    var canary := Constant(5, Specified(Canary));
    var canaryUnit := UnitOfWork([canary]);
    schedules := schedules + [UnitOfWorkSchedule(canaryUnit, ConstantTimeScheduler(Wrap64(durationInNanos + periodInNanos)))];
    assert uowGenerator == MainUnit(c) && canaryUnit == CanaryUnit();
    assert schedules == Schedules(c);
    executor := new IntervalExecutor(c.startMillis, c.endMillis, schedules, metricsFactory, render);
    ghost var output0 := executor.sink.output;
    executor.Execute();
    assert executor.fired[0..] == executor.fired;
    assert executor.sink.output == output0 + Emitted(schedules, metricsFactory, render, executor.fired, 0) + [Flushed];
    assert output0 + Emitted(schedules, metricsFactory, render, executor.fired, 0) == Emitted(schedules, metricsFactory, render, executor.fired, 0);
    DrainsSchedules(c, executor.fired, executor.nanoStart, executor.nanoEnd);
    if Unsaturated(c) {
      GeneratedEventCount(c, executor.fired);
    }
  }
}
