/** Units of work, the schedulers that say when they fire, and the bindings
    and queue entries the executors work on. */
module Schedule {

  /** How a metric generator names its samples. */
  datatype NameGenerator =
    | SingleName               // one name drawn from the seeded random source
    | Specified(name: string)  // always the given name

  /** A generator of metric samples; the sample values themselves (random or
      constant) are opaque here. */
  datatype MetricGenerator =
    | Gaussian(mean: real, deviation: real, names: NameGenerator)
    | Constant(value: int, names: NameGenerator)
    | ConstantCount(count: int, inner: MetricGenerator)  // `inner` invoked `count` times per call

  /** A unit of work: one recorded event made of the samples of its metric generators. */
  datatype UnitOfWork = UnitOfWork(metrics: seq<MetricGenerator>)

  /** A unit of work bound to its scheduler. `next` maps the time of a firing
      (epoch nanoseconds) to the time of the following one. */
  datatype UnitOfWorkSchedule = UnitOfWorkSchedule(generator: UnitOfWork, next: int -> int)

  /** A queued firing: the index of its binding in the executor's list and its
      scheduled time in epoch nanoseconds. */
  datatype WorkEntry = WorkEntry(schedule: nat, time: int)

  /** A scheduler that never goes back in time and never stands still. The
      scheduler interface itself promises neither. */
  ghost predicate Progressing(next: int -> int) {
    forall t :: next(t) > t
  }

  /** A scheduler that never goes back in time. */
  ghost predicate NonRegressing(next: int -> int) {
    forall t :: next(t) >= t
  }

  ghost predicate AllProgressing(schedules: seq<UnitOfWorkSchedule>) {
    forall i :: 0 <= i < |schedules| ==> Progressing(schedules[i].next)
  }

  ghost predicate AllNonRegressing(schedules: seq<UnitOfWorkSchedule>) {
    forall i :: 0 <= i < |schedules| ==> NonRegressing(schedules[i].next)
  }

  /** The constant-period scheduler: each firing is `period` nanoseconds after
      the previous one. */
  function ConstantTimeScheduler(period: int): (next: int -> int)
    ensures period > 0 ==> Progressing(next)
    ensures period >= 0 ==> NonRegressing(next)
  {
    t => t + period
  }

  /** Every time in `s` but the last is at most `end` and is followed by its
      `next`. */
  ghost predicate StepsUntil(next: int -> int, s: seq<int>, end: int) {
    forall j :: 0 <= j < |s| - 1 ==> s[j] <= end && s[j + 1] == next(s[j])
  }

  /** The firings of one binding in the fast-forward executor once it is due at
      `t`: it fires at `t`; while the time just fired is at most `end` it is
      due again at `next` of that time; the first firing past `end` is its last. */
  function Run(next: int -> int, t: int, end: int): (r: seq<int>)
    requires Progressing(next)
    ensures r != [] && r[0] == t
    ensures r[|r| - 1] > end
    ensures StepsUntil(next, r, end)
    decreases if t <= end then end - t + 1 else 0
  {
    if t <= end then [t] + Run(next, next(t), end) else [t]
  }

  /** Run's contract pins it down: any sequence that starts at `t`, steps by
      `next` while at most `end` and ends past `end` is Run itself. */
  lemma {:induction false} RunUnique(next: int -> int, t: int, end: int, s: seq<int>)
    requires Progressing(next)
    requires s != [] && s[0] == t && s[|s| - 1] > end
    requires StepsUntil(next, s, end)
    ensures s == Run(next, t, end)
    decreases |s|
  {
    if |s| > 1 {
      RunUnique(next, next(t), end, s[1..]);
    }
  }

  lemma DivStep(x: int, p: int)
    requires p > 0 && x >= p
    ensures (x - p) / p == x / p - 1
  {
    var q, r := x / p, x % p;
    var q', r' := (x - p) / p, (x - p) % p;
    assert x == q * p + r && 0 <= r < p;
    assert x - p == q' * p + r' && 0 <= r' < p;
    var d := q' - (q - 1);
    assert d * p == r - r' by {
      assert q' * p == (q - 1) * p + d * p;
      assert (q - 1) * p == q * p - p;
    }
  }

  lemma DivSmall(x: int, p: int)
    requires 0 <= x < p
    ensures x / p == 0
  {
  }

  /** With a constant period `p`, a binding due at `t <= end` fires
      `(end - t) / p + 1` times at or before `end`, plus the closing firing. */
  lemma {:induction false} ConstantRunLength(p: int, t: int, end: int)
    requires p > 0
    ensures |Run(ConstantTimeScheduler(p), t, end)| == if t <= end then (end - t) / p + 2 else 1
    decreases if t <= end then end - t + 1 else 0
  {
    var next := ConstantTimeScheduler(p);
    if t <= end {
      assert next(t) == t + p;
      var rest := Run(next, t + p, end);
      assert |Run(next, t, end)| == 1 + |rest|;
      ConstantRunLength(p, t + p, end);
      if t + p <= end {
        assert |rest| == (end - t - p) / p + 2;
        DivStep(end - t, p);
      } else {
        assert |rest| == 1;
        DivSmall(end - t, p);
      }
    }
  }
}
