/** The real-time executor: it primes one entry per binding from the clock, then
    paces the queue against the clock, firing the earliest entry once it is due
    and always queueing that binding again. The clock and the interruption of
    its sleep are inputs: each pass of the loop is given one `Tick`. */
module RealTime {
  import opened JavaTime
  import opened Schedule
  import opened WorkQueue
  import opened Client
  import opened Firing

  /** One pass's view of the world: the wall-clock reading (epoch nanoseconds)
      and whether a sleep on this pass would be interrupted. */
  datatype Tick = Tick(now: int, interrupted: bool)

  /** What one pass of the loop did. */
  datatype Pass =
    | Empty                      // the queue was empty: `execute` returns
    | NotDue(entry: WorkEntry)   // the earliest entry is not yet due; slept
    | Stopped(entry: WorkEntry)  // not yet due, and the sleep was interrupted: `execute` returns
    | Fired(entry: WorkEntry)    // the earliest entry fired and was queued again

  /** Why `execute` stopped: the sleep of pass `at` was interrupted. Running
      out of ticks stands for the loop going on. The source also leaves the
      loop when the queue is empty, but once primed the queue of an executor
      with at least one binding never empties. */
  datatype Exit = Interrupted(at: nat) | OutOfTicks

  /** Whether an entry scheduled at `t` (epoch nanoseconds) may fire at `now`:
      its time, truncated to whole milliseconds, is not after `now`; that is,
      its millisecond is not after the clock's current millisecond. */
  function IsDue(t: int, now: int): (r: bool)
    ensures r <==> ToMillis(t) <= EpochMillis(now)
  {
    !(ToMillis(t) * NanosPerMilli > now)
  }

  /** An entry never fires a whole millisecond or more ahead of its time. */
  lemma DueNeverEarly(t: int, now: int)
    requires IsDue(t, now)
    ensures t < now + NanosPerMilli
    ensures t < 0 ==> t <= now
  {
  }

  /** From 1970 on, an entry whose time has come is due. */
  lemma DueOnceReached(t: int, now: int)
    requires 0 <= t <= now
    ensures IsDue(t, now)
  {
  }

  /** Before 1970 the truncation rounds up, so an entry can still wait after
      its time has come. */
  lemma DueLagsBeforeEpoch()
    ensures !IsDue(-1, -1)
  {
    assert ToMillis(-1) == 0;
  }

  /** Whether an entry fires at `now` only depends on the millisecond it falls in. */
  lemma DueByMillisecond(t: int, u: int, now: int)
    requires ToMillis(t) == ToMillis(u)
    ensures IsDue(t, now) == IsDue(u, now)
  {
  }

  /** The entry that replaces fired entry `e`: always at `next` of its time. */
  function Requeue(s: seq<UnitOfWorkSchedule>, e: WorkEntry): (r: WorkEntry)
    requires e.schedule < |s|
    ensures r.schedule == e.schedule
  {
    WorkEntry(e.schedule, s[e.schedule].next(e.time))
  }

  /** The entries `execute` primes: binding `j` at `next` of clock reading
      `clock[j]`, taken in whole milliseconds and converted to nanoseconds. */
  function Primes(s: seq<UnitOfWorkSchedule>, clock: seq<int>): (r: seq<WorkEntry>)
    requires |clock| == |s|
    ensures |r| == |s|
    decreases |s|
  {
    if s == [] then []
    else Primes(s[..|s| - 1], clock[..|s| - 1]) +
         [WorkEntry(|s| - 1, s[|s| - 1].next(ToNanos(EpochMillis(clock[|s| - 1]))))]
  }

  /** Binding `j`'s primed entry is the `j`th, at `next` of its clock reading. */
  lemma {:induction false} PrimesIndexed(s: seq<UnitOfWorkSchedule>, clock: seq<int>)
    requires |clock| == |s|
    ensures forall j :: 0 <= j < |s| ==> Primes(s, clock)[j] == WorkEntry(j, s[j].next(ToNanos(EpochMillis(clock[j]))))
    decreases |s|
  {
    if s != [] {
      var n := |s| - 1;
      PrimesIndexed(s[..n], clock[..n]);
      forall j | 0 <= j < n
        ensures Primes(s, clock)[j] == WorkEntry(j, s[j].next(ToNanos(EpochMillis(clock[j]))))
      {
        assert s[..n][j] == s[j] && clock[..n][j] == clock[j];
      }
    }
  }

  /** Priming puts exactly one entry per binding in the queue. */
  lemma PrimesOnePerSchedule(s: seq<UnitOfWorkSchedule>, clock: seq<int>)
    requires |clock| == |s|
    ensures OnePerSchedule(Primes(s, clock), |s|)
  {
    var q := Primes(s, clock);
    PrimesIndexed(s, clock);
    forall i | 0 <= i < |s|
      ensures |Times(q, i)| == 1
    {
      TimesIndexed(q, |q|, i);
      assert q[..|q|] == q;
    }
  }

  /** The pacing loop's invariant over the entries fired since `execute`
      began (`newly`, fired at clock readings `at`) and the queue `q`: every
      firing was due at its reading; a queue primed from empty keeps one entry
      per binding; and for schedulers that never go back, the firings are in
      time order and none is later than anything queued. */
  ghost predicate Paced(s: seq<UnitOfWorkSchedule>, fromEmpty: bool, newly: seq<WorkEntry>, at: seq<int>, q: seq<WorkEntry>) {
    WellFormed(q, |s|) && WellFormed(newly, |s|) && |at| == |newly| &&
    (forall j {:trigger IsDue(newly[j].time, at[j])} :: 0 <= j < |newly| ==> IsDue(newly[j].time, at[j])) &&
    (fromEmpty ==> OnePerSchedule(q, |s|)) &&
    (AllNonRegressing(s) ==> Sorted(newly) && NotAfter(newly, q))
  }

  /** Firing the earliest entry when it is due and queueing its replacement
      keeps the invariant. */
  lemma PacedFire(s: seq<UnitOfWorkSchedule>, fromEmpty: bool, newly: seq<WorkEntry>, at: seq<int>, q: seq<WorkEntry>, k: int, now: int)
    requires Paced(s, fromEmpty, newly, at, q) && IsEarliest(q, k) && IsDue(q[k].time, now)
    ensures Paced(s, fromEmpty, newly + [q[k]], at + [now], RemoveAt(q, k) + [Requeue(s, q[k])])
  {
    var e := q[k];
    var q' := RemoveAt(q, k) + [Requeue(s, e)];
    assert WellFormed(q', |s|) by {
      forall j | 0 <= j < |q'|
        ensures q'[j].schedule < |s|
      {
        if j < |q| - 1 {
          assert q'[j] == (if j < k then q[j] else q[j + 1]);
        }
      }
    }
    assert WellFormed(newly + [e], |s|);
    if fromEmpty {
      ReplaceKeepsOnePerSchedule(q, |s|, k, s[e.schedule].next(e.time));
    }
    if AllNonRegressing(s) {
      assert NonRegressing(s[e.schedule].next);
      FireKeepsOrder(newly, q, k, [Requeue(s, e)]);
    }
  }

  /** `PacedFire` for the entries fired since the `|fired0|`th. */
  lemma PacedFireSince(s: seq<UnitOfWorkSchedule>, fromEmpty: bool, fired0: seq<WorkEntry>, fired: seq<WorkEntry>, at: seq<int>,
                       q: seq<WorkEntry>, k: int, now: int)
    requires |fired0| <= |fired| == |at|
    requires Paced(s, fromEmpty, fired[|fired0|..], at[|fired0|..], q) && IsEarliest(q, k) && IsDue(q[k].time, now)
    ensures Paced(s, fromEmpty, (fired + [q[k]])[|fired0|..], (at + [now])[|fired0|..], RemoveAt(q, k) + [Requeue(s, q[k])])
  {
    SliceSnoc(fired, q[k], |fired0|);
    SliceSnoc(at, now, |fired0|);
    PacedFire(s, fromEmpty, fired[|fired0|..], at[|fired0|..], q, k, now);
  }

  /** `ts` starts at `t`, and each later time is `next` of the one before. */
  ghost predicate Chained(next: int -> int, t: int, ts: seq<int>) {
    ts != [] && ts[0] == t && forall j :: 0 < j < |ts| ==> ts[j] == next(ts[j - 1])
  }

  /** A chain goes on with `next` of its last time. */
  lemma ChainedSnoc(next: int -> int, t: int, ts: seq<int>)
    requires Chained(next, t, ts)
    ensures Chained(next, t, ts + [next(ts[|ts| - 1])])
  {
  }

  /** For a queue primed from empty at clock readings `clock`: each binding's
      firings since then (`newly`), followed by its queued entry, are its
      primed time and the successive `next`s of it. */
  ghost predicate Tracked(s: seq<UnitOfWorkSchedule>, clock: seq<int>, newly: seq<WorkEntry>, q: seq<WorkEntry>) {
    |clock| == |s| &&
    forall i :: 0 <= i < |s| ==> Chained(s[i].next, s[i].next(ToNanos(EpochMillis(clock[i]))), Times(newly, i) + Times(q, i))
  }

  /** Priming an empty queue starts every binding's chain at its primed time. */
  lemma PrimedTracked(s: seq<UnitOfWorkSchedule>, clock: seq<int>)
    requires |clock| == |s|
    ensures Tracked(s, clock, [], Primes(s, clock))
  {
    var q := Primes(s, clock);
    PrimesIndexed(s, clock);
    forall i | 0 <= i < |s|
      ensures Chained(s[i].next, s[i].next(ToNanos(EpochMillis(clock[i]))), Times([], i) + Times(q, i))
    {
      TimesIndexed(q, |q|, i);
      assert q[..|q|] == q;
      assert Times([], i) + Times(q, i) == [q[i].time];
    }
  }

  /** Firing entry `k` and queueing its binding again at `next` of its time
      extends that binding's chain by one step and leaves the others alone. */
  lemma TrackedFire(s: seq<UnitOfWorkSchedule>, clock: seq<int>, newly: seq<WorkEntry>, q: seq<WorkEntry>, k: int)
    requires Tracked(s, clock, newly, q) && OnePerSchedule(q, |s|) && 0 <= k < |q|
    ensures Tracked(s, clock, newly + [q[k]], RemoveAt(q, k) + [Requeue(s, q[k])])
  {
    forall i | 0 <= i < |s|
      ensures Chained(s[i].next, s[i].next(ToNanos(EpochMillis(clock[i]))), Times(newly + [q[k]], i) + Times(RemoveAt(q, k) + [Requeue(s, q[k])], i))
    {
      TrackedFireBinding(s, s[i].next(ToNanos(EpochMillis(clock[i]))), newly, q, k, i);
    }
  }

  /** `TrackedFire` for one binding `i` whose chain starts at `t`. */
  lemma TrackedFireBinding(s: seq<UnitOfWorkSchedule>, t: int, newly: seq<WorkEntry>, q: seq<WorkEntry>, k: int, i: nat)
    requires OnePerSchedule(q, |s|) && 0 <= k < |q| && i < |s|
    requires Chained(s[i].next, t, Times(newly, i) + Times(q, i))
    ensures Chained(s[i].next, t, Times(newly + [q[k]], i) + Times(RemoveAt(q, k) + [Requeue(s, q[k])], i))
  {
    var e := q[k];
    var x := s[e.schedule].next(e.time);
    assert Requeue(s, e) == WorkEntry(e.schedule, x);
    ReplaceTimes(q, |s|, k, x, i);
    TimesSnoc(newly, e, i);
    if i == e.schedule {
      var ts := Times(newly, i) + Times(q, i);
      assert ts[|ts| - 1] == e.time;
      ChainedSnoc(s[i].next, t, ts);
      assert Times(newly + [e], i) + Times(RemoveAt(q, k) + [Requeue(s, e)], i) == ts + [x];
    } else {
      assert Times(newly + [e], i) == Times(newly, i) + [];
      assert Times(newly + [e], i) + Times(RemoveAt(q, k) + [Requeue(s, e)], i) == Times(newly, i) + Times(q, i);
    }
  }

  /** What one pass of the loop does at `tick` with the queue `q` it finds,
      leaving `q'`: an empty queue ends the loop; an earliest entry that is not
      yet due is left in place while the pass sleeps, or returns when the sleep
      is interrupted; a due earliest entry is polled, fired and queued again. */
  ghost predicate Passed(s: seq<UnitOfWorkSchedule>, q: seq<WorkEntry>, tick: Tick, p: Pass, q': seq<WorkEntry>) {
    match p
    case Empty => q == [] && q' == q
    case NotDue(e) =>
      (exists k :: IsEarliest(q, k) && q[k] == e) && !IsDue(e.time, tick.now) && !tick.interrupted && q' == q
    case Stopped(e) =>
      (exists k :: IsEarliest(q, k) && q[k] == e) && !IsDue(e.time, tick.now) && tick.interrupted && q' == q
    case Fired(e) =>
      e.schedule < |s| && IsDue(e.time, tick.now) &&
      exists k :: IsEarliest(q, k) && q[k] == e && q' == RemoveAt(q, k) + [Requeue(s, e)]
  }

  /** Pass `i` took `ticks[i]` on `queues[i]` and left `queues[i + 1]`. */
  ghost predicate Trace(s: seq<UnitOfWorkSchedule>, ticks: seq<Tick>, passes: seq<Pass>, queues: seq<seq<WorkEntry>>) {
    |queues| == |passes| + 1 && |passes| <= |ticks| &&
    forall i {:trigger passes[i]} :: 0 <= i < |passes| ==> Passed(s, queues[i], ticks[i], passes[i], queues[i + 1])
  }

  /** The entries the `Fired` passes fired, in order. */
  function FiredEntries(passes: seq<Pass>): (r: seq<WorkEntry>)
    ensures |r| <= |passes|
  {
    if passes == [] then []
    else FiredEntries(passes[..|passes| - 1]) + (if passes[|passes| - 1].Fired? then [passes[|passes| - 1].entry] else [])
  }

  /** The clock readings of the `Fired` passes, pass `i` reading `ticks[i]`. */
  function FiredReadings(passes: seq<Pass>, ticks: seq<Tick>): (r: seq<int>)
    requires |passes| <= |ticks|
  {
    if passes == [] then []
    else FiredReadings(passes[..|passes| - 1], ticks) + (if passes[|passes| - 1].Fired? then [ticks[|passes| - 1].now] else [])
  }

  /** One more pass extends the trace. */
  lemma TraceSnoc(s: seq<UnitOfWorkSchedule>, ticks: seq<Tick>, passes: seq<Pass>, queues: seq<seq<WorkEntry>>, p: Pass, q': seq<WorkEntry>)
    requires Trace(s, ticks, passes, queues) && |passes| < |ticks|
    requires Passed(s, queues[|passes|], ticks[|passes|], p, q')
    ensures Trace(s, ticks, passes + [p], queues + [q'])
    ensures (queues + [q'])[0] == queues[0] && (queues + [q'])[|passes| + 1] == q'
  {
    var passes', queues' := passes + [p], queues + [q'];
    forall i | 0 <= i < |passes'|
      ensures Passed(s, queues'[i], ticks[i], passes'[i], queues'[i + 1])
    {
      if i < |passes| {
        assert passes'[i] == passes[i] && queues'[i] == queues[i] && queues'[i + 1] == queues[i + 1];
      }
    }
  }

  /** One more pass adds its entry and reading to the firings when it fired. */
  lemma FiredSnoc(passes: seq<Pass>, ticks: seq<Tick>, p: Pass)
    requires |passes| < |ticks|
    ensures FiredEntries(passes + [p]) == FiredEntries(passes) + (if p.Fired? then [p.entry] else [])
    ensures FiredReadings(passes + [p], ticks) == FiredReadings(passes, ticks) + (if p.Fired? then [ticks[|passes|].now] else [])
  {
    assert (passes + [p])[..|passes|] == passes;
  }

  class RealTimeExecutor {
    const generators: seq<UnitOfWorkSchedule>
    const sink: GeneratorSink
    /** Builds the event a unit of work records as the `n`th event (the
        metrics library's part, drawing on the shared random source). */
    const metricsFactory: (UnitOfWork, nat) -> Event
    /** The priority queue of work entries. */
    var workEntries: seq<WorkEntry>
    /** How many events this executor has built so far. */
    var built: nat
    /** Every entry fired so far, in firing order. */
    ghost var fired: seq<WorkEntry>
    /** The clock reading of the pass that fired each entry of `fired`. */
    ghost var firedAt: seq<int>

    ghost predicate Valid()
      reads this
    {
      |generators| >= 1 &&
      WellFormed(workEntries, |generators|) && WellFormed(fired, |generators|) && |firedAt| == |fired| &&
      built == |fired|
    }

    /** An executor with an empty queue whose sink starts at the clock reading
        `now`, in whole milliseconds. The source's priority queue refuses an
        initial capacity of zero, so there must be at least one binding. */
    constructor(generators: seq<UnitOfWorkSchedule>, metricsFactory: (UnitOfWork, nat) -> Event, render: int -> string, now: int)
      requires |generators| >= 1
      ensures Valid()
      ensures this.generators == generators && this.metricsFactory == metricsFactory
      ensures workEntries == [] && fired == [] && firedAt == []
      ensures fresh(sink) && sink.time == EpochMillis(now) && sink.output == [] && sink.render == render
    {
      this.generators := generators;
      this.metricsFactory := metricsFactory;
      workEntries := [];
      fired := [];
      firedAt := [];
      built := 0;
      sink := new GeneratorSink(EpochMillis(now), render);
    }

    /** Queues every binding at `next` of its own clock reading. */
    method Prime(clock: seq<int>)
      requires Valid() && |clock| == |generators|
      modifies this`workEntries
      ensures Valid()
      ensures workEntries == old(workEntries) + Primes(generators, clock)
    {
      ghost var q0 := workEntries;
      PrimesIndexed(generators, clock);
      for j := 0 to |generators|
        invariant workEntries == q0 + Primes(generators, clock)[..j]
      {
        var unitStart := generators[j].next(ToNanos(EpochMillis(clock[j])));
        assert Primes(generators, clock)[..j + 1] == Primes(generators, clock)[..j] + [WorkEntry(j, unitStart)];
        workEntries := workEntries + [WorkEntry(j, unitStart)];
      }
      assert Primes(generators, clock)[..|generators|] == Primes(generators, clock);
      assert WellFormed(Primes(generators, clock), |generators|);
    }

    /** One pass of the loop at clock reading `tick.now`: returns if the queue
        is empty; sleeps (or returns, when interrupted) if the earliest entry is
        not yet due; otherwise fires it with the sink's time set to the entry's
        scheduled time and queues the binding again at `next` of that time.
        `fromEmpty`, `fired0` and `output0` describe the state when pacing began. */
    method Step(tick: Tick, ghost fromEmpty: bool, ghost fired0: seq<WorkEntry>, ghost output0: seq<Output>) returns (pass: Pass)
      requires Valid() && |fired0| <= |fired| && fired[..|fired0|] == fired0
      requires Paced(generators, fromEmpty, fired[|fired0|..], firedAt[|fired0|..], workEntries)
      requires sink.output == output0 + Emitted(generators, metricsFactory, sink.render, fired[|fired0|..], |fired0|)
      modifies this, sink
      ensures Valid() && |fired0| <= |fired| && fired[..|fired0|] == fired0
      ensures Paced(generators, fromEmpty, fired[|fired0|..], firedAt[|fired0|..], workEntries)
      ensures sink.output == output0 + Emitted(generators, metricsFactory, sink.render, fired[|fired0|..], |fired0|)
      ensures |workEntries| == old(|workEntries|)
      ensures pass == Empty <==> old(workEntries) == []
      ensures !pass.Empty? ==> exists k :: IsEarliest(old(workEntries), k) && old(workEntries)[k] == pass.entry
      ensures pass.Empty? || pass.NotDue? || pass.Stopped? ==>
                workEntries == old(workEntries) && fired == old(fired) && firedAt == old(firedAt) &&
                sink.time == old(sink.time) && sink.output == old(sink.output)
      ensures pass.NotDue? ==> !IsDue(pass.entry.time, tick.now) && !tick.interrupted
      ensures pass.Stopped? ==> !IsDue(pass.entry.time, tick.now) && tick.interrupted
      ensures pass.Fired? ==>
                IsDue(pass.entry.time, tick.now) &&
                (exists k :: IsEarliest(old(workEntries), k) && old(workEntries)[k] == pass.entry &&
                   workEntries == RemoveAt(old(workEntries), k) + [Requeue(generators, pass.entry)]) &&
                fired == old(fired) + [pass.entry] && firedAt == old(firedAt) + [tick.now] &&
                sink.time == ToMillis(pass.entry.time) &&
                sink.output == old(sink.output) + [RecordOf(generators, metricsFactory, sink.render, pass.entry, old(|fired|))]
    {
      if workEntries == [] {
        return Empty;
      }
      EarliestExists(workEntries);
      var k :| 0 <= k < |workEntries| && IsEarliest(workEntries, k);
      var entry := workEntries[k];
      if ToMillis(entry.time) * NanosPerMilli > tick.now {
        if tick.interrupted {
          return Stopped(entry);
        }
        return NotDue(entry);
      }
      ghost var q, before, at := workEntries, fired, firedAt;
      Fire(k, tick.now);
      PacedFireSince(generators, fromEmpty, fired0, before, at, q, k, tick.now);
      OutputStep(generators, metricsFactory, sink.render, fired0, before, output0, entry);
      pass := Fired(entry);
    }

    /** Fires entry `k`: sets the sink's time to its scheduled time, records
        its unit of work's event and queues its binding again at `next` of
        that time. It states the transition only: `Step` re-establishes
        `Valid()` from these ensures with the lemmas about the new queue. */
    method Fire(k: int, now: int)
      requires Valid() && 0 <= k < |workEntries|
      modifies this, sink
      ensures workEntries == RemoveAt(old(workEntries), k) + [Requeue(generators, old(workEntries)[k])]
      ensures fired == old(fired) + [old(workEntries)[k]] && firedAt == old(firedAt) + [now] && built == old(built) + 1
      ensures sink.time == ToMillis(old(workEntries)[k].time)
      ensures sink.output == old(sink.output) + [RecordOf(generators, metricsFactory, sink.render, old(workEntries)[k], old(|fired|))]
    {
      var entry := workEntries[k];
      workEntries := RemoveAt(workEntries, k);
      sink.SetTime(ToMillis(entry.time));
      sink.Record(metricsFactory(generators[entry.schedule].generator, built));
      built := built + 1;
      fired := fired + [entry];
      firedAt := firedAt + [now];
      var newEntry := WorkEntry(entry.schedule, generators[entry.schedule].next(entry.time));
      workEntries := workEntries + [newEntry];
    }

    /** Primes the queue from the clock readings `clock` (one per binding), then
        runs one pass per tick until the queue is found empty, a sleep is
        interrupted, or the ticks run out. */
    method Execute(clock: seq<int>, ticks: seq<Tick>) returns (exit: Exit, ghost passes: seq<Pass>, ghost queues: seq<seq<WorkEntry>>)
      requires Valid() && |clock| == |generators|
      modifies this, sink
      ensures Valid()
      ensures |workEntries| == |old(workEntries)| + |generators| && workEntries != []
      ensures Trace(generators, ticks, passes, queues)
      ensures queues[0] == old(workEntries) + Primes(generators, clock) && queues[|passes|] == workEntries
      ensures exit.OutOfTicks? ==> |passes| == |ticks|
      ensures exit.Interrupted? ==> |passes| == exit.at + 1
      ensures forall j :: 0 <= j < |passes| ==> (passes[j].Stopped? <==> exit == Interrupted(j))
      ensures exit.Interrupted? ==>
                exit.at < |ticks| && ticks[exit.at].interrupted &&
                exists k :: IsEarliest(workEntries, k) && !IsDue(workEntries[k].time, ticks[exit.at].now)
      ensures |old(fired)| <= |fired| && fired[..|old(fired)|] == old(fired)
      ensures fired[|old(fired)|..] == FiredEntries(passes) && firedAt[|old(fired)|..] == FiredReadings(passes, ticks)
      ensures |fired| <= |old(fired)| + (if exit.Interrupted? then exit.at else |ticks|)
      ensures Paced(generators, old(workEntries) == [], fired[|old(fired)|..], firedAt[|old(fired)|..], workEntries)
      ensures old(workEntries) == [] ==> Tracked(generators, clock, fired[|old(fired)|..], workEntries)
      ensures sink.output == old(sink.output) + Emitted(generators, metricsFactory, sink.render, fired[|old(fired)|..], |old(fired)|)
    {
      ghost var fromEmpty := workEntries == [];
      ghost var fired0 := fired;
      ghost var output0 := sink.output;
      ghost var size := |workEntries| + |generators|;
      Prime(clock);
      if fromEmpty {
        PrimesOnePerSchedule(generators, clock);
        PrimedTracked(generators, clock);
        assert workEntries == Primes(generators, clock);
      }
      assert fired[|fired0|..] == [] && firedAt[|fired0|..] == [];
      passes, queues := [], [workEntries];
      var i := 0;
      exit := OutOfTicks;
      while i < |ticks|
        invariant i <= |ticks| && Valid() && |workEntries| == size
        invariant |passes| == i && Trace(generators, ticks, passes, queues)
        invariant queues[0] == old(workEntries) + Primes(generators, clock) && queues[i] == workEntries
        invariant forall j :: 0 <= j < i ==> !passes[j].Stopped?
        invariant |fired0| <= |fired| && fired[..|fired0|] == fired0
        invariant fired[|fired0|..] == FiredEntries(passes) && firedAt[|fired0|..] == FiredReadings(passes, ticks)
        invariant Paced(generators, fromEmpty, fired[|fired0|..], firedAt[|fired0|..], workEntries)
        invariant sink.output == output0 + Emitted(generators, metricsFactory, sink.render, fired[|fired0|..], |fired0|)
        invariant fromEmpty ==> Tracked(generators, clock, fired[|fired0|..], workEntries)
      {
        var pass := Round(clock, ticks, i, passes, queues, fromEmpty, fired0, output0);
        passes, queues := passes + [pass], queues + [workEntries];
        if pass.Stopped? {
          return Interrupted(i), passes, queues;
        }
        i := i + 1;
      }
    }

    /** Pass `i` of `Execute`'s loop: runs `Step` at tick `i` and extends the
        trace `passes`/`queues` and the firings since `fired0` with it. */
    method Round(ghost clock: seq<int>, ticks: seq<Tick>, i: nat, ghost passes: seq<Pass>, ghost queues: seq<seq<WorkEntry>>,
                 ghost fromEmpty: bool, ghost fired0: seq<WorkEntry>, ghost output0: seq<Output>) returns (pass: Pass)
      requires Valid() && i < |ticks| && |passes| == i && Trace(generators, ticks, passes, queues) && queues[i] == workEntries
      requires |fired0| <= |fired| && fired[..|fired0|] == fired0
      requires fired[|fired0|..] == FiredEntries(passes) && firedAt[|fired0|..] == FiredReadings(passes, ticks)
      requires Paced(generators, fromEmpty, fired[|fired0|..], firedAt[|fired0|..], workEntries)
      requires sink.output == output0 + Emitted(generators, metricsFactory, sink.render, fired[|fired0|..], |fired0|)
      requires fromEmpty ==> Tracked(generators, clock, fired[|fired0|..], workEntries)
      modifies this, sink
      ensures Valid() && |workEntries| == old(|workEntries|)
      ensures Trace(generators, ticks, passes + [pass], queues + [workEntries])
      ensures (queues + [workEntries])[0] == queues[0] && (queues + [workEntries])[i + 1] == workEntries
      ensures |fired0| <= |fired| && fired[..|fired0|] == fired0
      ensures fired[|fired0|..] == FiredEntries(passes + [pass]) && firedAt[|fired0|..] == FiredReadings(passes + [pass], ticks)
      ensures Paced(generators, fromEmpty, fired[|fired0|..], firedAt[|fired0|..], workEntries)
      ensures sink.output == output0 + Emitted(generators, metricsFactory, sink.render, fired[|fired0|..], |fired0|)
      ensures fromEmpty ==> Tracked(generators, clock, fired[|fired0|..], workEntries)
      ensures pass.Stopped? ==>
                ticks[i].interrupted && exists k :: IsEarliest(workEntries, k) && !IsDue(workEntries[k].time, ticks[i].now)
    {
      ghost var q, before, beforeAt := workEntries, fired, firedAt;
      pass := Step(ticks[i], fromEmpty, fired0, output0);
      RecordPass(q, before, beforeAt, fired0, ticks, passes, queues, pass);
      if pass.Fired? && fromEmpty {
        ghost var k :| IsEarliest(q, k) && q[k] == pass.entry && workEntries == RemoveAt(q, k) + [Requeue(generators, pass.entry)];
        TrackedFire(generators, clock, before[|fired0|..], q, k);
      }
    }

    /** After pass `pass` on queue `q`, as `Step` describes it, the trace and
        the firings since `fired0` take in that pass. */
    lemma RecordPass(q: seq<WorkEntry>, before: seq<WorkEntry>, beforeAt: seq<int>, fired0: seq<WorkEntry>,
                     ticks: seq<Tick>, passes: seq<Pass>, queues: seq<seq<WorkEntry>>, pass: Pass)
      requires Trace(generators, ticks, passes, queues) && |passes| < |ticks| && queues[|passes|] == q
      requires |fired0| <= |before| && |beforeAt| == |before|
      requires before[|fired0|..] == FiredEntries(passes) && beforeAt[|fired0|..] == FiredReadings(passes, ticks)
      requires pass == Empty <==> q == []
      requires !pass.Empty? ==> exists k :: IsEarliest(q, k) && q[k] == pass.entry
      requires pass.Empty? || pass.NotDue? || pass.Stopped? ==>
                 workEntries == q && fired == before && firedAt == beforeAt
      requires pass.NotDue? ==> !IsDue(pass.entry.time, ticks[|passes|].now) && !ticks[|passes|].interrupted
      requires pass.Stopped? ==> !IsDue(pass.entry.time, ticks[|passes|].now) && ticks[|passes|].interrupted
      requires pass.Fired? ==>
                 pass.entry.schedule < |generators| && IsDue(pass.entry.time, ticks[|passes|].now) &&
                 (exists k :: IsEarliest(q, k) && q[k] == pass.entry &&
                    workEntries == RemoveAt(q, k) + [Requeue(generators, pass.entry)]) &&
                 fired == before + [pass.entry] && firedAt == beforeAt + [ticks[|passes|].now]
      ensures Trace(generators, ticks, passes + [pass], queues + [workEntries])
      ensures (queues + [workEntries])[0] == queues[0] && (queues + [workEntries])[|passes| + 1] == workEntries
      ensures |fired0| <= |fired| && fired[|fired0|..] == FiredEntries(passes + [pass])
      ensures firedAt[|fired0|..] == FiredReadings(passes + [pass], ticks)
    {
      assert Passed(generators, q, ticks[|passes|], pass, workEntries);
      TraceSnoc(generators, ticks, passes, queues, pass, workEntries);
      FiredSnoc(passes, ticks, pass);
      if pass.Fired? {
        SliceSnoc(before, pass.entry, |fired0|);
        SliceSnoc(beforeAt, ticks[|passes|].now, |fired0|);
      }
    }
  }
}
