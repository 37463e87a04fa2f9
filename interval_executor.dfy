/** The fast-forward executor: it interleaves every binding's firings over a
    historical interval in scheduled-time order, stamping each recorded event
    with the firing's scheduled time, and closes every binding with exactly one
    firing past the end of the interval. */
module Interval {
  import opened JavaTime
  import opened Schedule
  import opened WorkQueue
  import opened Client
  import opened Firing

  /** What binding `next` still has to fire, given its queued times `ts` (at
      most one). */
  function Pending(next: int -> int, ts: seq<int>, end: int): seq<int>
    requires Progressing(next)
  {
    if ts == [] then [] else Run(next, ts[0], end)
  }

  /** The entry that replaces fired entry `e`: at `next` of its time while that
      time is at most `end`, none once it is past `end`. */
  function Reschedule(s: seq<UnitOfWorkSchedule>, end: int, e: WorkEntry): (r: seq<WorkEntry>)
    requires e.schedule < |s|
    ensures r != [] <==> e.time <= end
    ensures r != [] ==> r == [WorkEntry(e.schedule, s[e.schedule].next(e.time))]
  {
    if e.time <= end then [WorkEntry(e.schedule, s[e.schedule].next(e.time))] else []
  }

  /** Every binding's firings so far, followed by what its queued entry still
      has to fire, make up the binding's whole run over the interval. */
  ghost predicate Accounted(s: seq<UnitOfWorkSchedule>, start: int, end: int, fired: seq<WorkEntry>, q: seq<WorkEntry>)
    requires AllProgressing(s)
  {
    WellFormed(fired, |s|) && WellFormed(q, |s|) &&
    forall i {:trigger Times(fired, i)} :: 0 <= i < |s| ==>
      |Times(q, i)| <= 1 &&
      Times(fired, i) + Pending(s[i].next, Times(q, i), end) == Run(s[i].next, s[i].next(start), end)
  }

  /** The number of firings the queued entries still have ahead of them. */
  ghost function Remaining(s: seq<UnitOfWorkSchedule>, end: int, q: seq<WorkEntry>): nat
    requires AllProgressing(s) && WellFormed(q, |s|)
  {
    if q == [] then 0
    else Remaining(s, end, q[..|q| - 1]) + |Run(s[q[|q| - 1].schedule].next, q[|q| - 1].time, end)|
  }

  lemma {:induction false} RemainingAppend(s: seq<UnitOfWorkSchedule>, end: int, a: seq<WorkEntry>, b: seq<WorkEntry>)
    requires AllProgressing(s) && WellFormed(a, |s|) && WellFormed(b, |s|)
    ensures WellFormed(a + b, |s|)
    ensures Remaining(s, end, a + b) == Remaining(s, end, a) + Remaining(s, end, b)
    decreases |b|
  {
    if b != [] {
      var b' := b[..|b| - 1];
      assert (a + b)[..|a + b| - 1] == a + b';
      RemainingAppend(s, end, a, b');
    } else {
      assert a + b == a;
    }
  }

  /** The queue built at construction: binding `i` is due at `next(start)`. */
  ghost predicate Primed(s: seq<UnitOfWorkSchedule>, start: int, q: seq<WorkEntry>) {
    |q| == |s| && forall j :: 0 <= j < |q| ==> q[j] == WorkEntry(j, s[j].next(start))
  }

  /** After priming, no binding has fired and each is queued exactly once, due
      at `next(start)`. */
  lemma PrimedAccounted(s: seq<UnitOfWorkSchedule>, start: int, end: int, q: seq<WorkEntry>)
    requires Primed(s, start, q)
    ensures WellFormed(q, |s|)
    ensures forall i :: 0 <= i < |s| ==> Times(q, i) == [s[i].next(start)]
    ensures AllProgressing(s) ==> Accounted(s, start, end, [], q)
  {
    forall i | 0 <= i < |s|
      ensures Times(q, i) == [s[i].next(start)]
    {
      TimesIndexed(q, |q|, i);
      assert q[..|q|] == q;
    }
  }

  lemma ConcatAssoc(a: seq<int>, b: seq<int>, c: seq<int>)
    ensures (a + b) + c == a + (b + c)
  {
  }

  /** The drain loop's step, seen from the binding that fired: its firing moves
      from the queue to the history and its replacement (if any) carries the
      rest of its run. */
  lemma FireAccountsFiredBinding(s: seq<UnitOfWorkSchedule>, start: int, end: int, fired: seq<WorkEntry>, q: seq<WorkEntry>, k: int)
    requires 0 <= k < |q| && q[k].schedule < |s| && Progressing(s[q[k].schedule].next)
    requires var i := q[k].schedule;
             |Times(q, i)| <= 1 &&
             Times(fired, i) + Pending(s[i].next, Times(q, i), end) == Run(s[i].next, s[i].next(start), end)
    ensures var i := q[k].schedule;
            var q' := RemoveAt(q, k) + Reschedule(s, end, q[k]);
            |Times(q', i)| <= 1 &&
            Times(fired + [q[k]], i) + Pending(s[i].next, Times(q', i), end) == Run(s[i].next, s[i].next(start), end)
  {
    var e := q[k];
    var i := e.schedule;
    var next := s[i].next;
    var h := Times(fired, i);
    var rest := if e.time <= end then Run(next, next(e.time), end) else [];
    FiredBindingQueue(s, end, q, k);
    assert Pending(next, Times(RemoveAt(q, k) + Reschedule(s, end, e), i), end) == rest;
    TimesSnoc(fired, e, i);
    RunStep(next, e.time, end);
    ConcatAssoc(h, [e.time], rest);
  }

  /** Before the pass the fired binding's only queued time is the one polled;
      after it, only its replacement (if any) is queued. */
  lemma FiredBindingQueue(s: seq<UnitOfWorkSchedule>, end: int, q: seq<WorkEntry>, k: int)
    requires 0 <= k < |q| && q[k].schedule < |s| && |Times(q, q[k].schedule)| <= 1
    ensures Times(q, q[k].schedule) == [q[k].time]
    ensures Times(RemoveAt(q, k) + Reschedule(s, end, q[k]), q[k].schedule) ==
            if q[k].time <= end then [s[q[k].schedule].next(q[k].time)] else []
  {
    var e := q[k];
    var i := e.schedule;
    var added := Reschedule(s, end, e);
    TimesRemoveAt(q, k, i);
    TimesSingle(e, i);
    assert Times(q[..k], i) == [] && Times(q[k + 1..], i) == [];
    TimesAppend(RemoveAt(q, k), added, i);
    if e.time <= end {
      TimesSingle(added[0], i);
    }
  }

  /** The first step of a run. */
  lemma RunStep(next: int -> int, t: int, end: int)
    requires Progressing(next)
    ensures Run(next, t, end) == [t] + (if t <= end then Run(next, next(t), end) else [])
  {
  }

  /** The drain loop's step, seen from a binding that did not fire: nothing of
      it changes. */
  lemma FireLeavesOtherBinding(s: seq<UnitOfWorkSchedule>, end: int, fired: seq<WorkEntry>, q: seq<WorkEntry>, k: int, i: nat)
    requires 0 <= k < |q| && q[k].schedule < |s| && i != q[k].schedule
    ensures Times(RemoveAt(q, k) + Reschedule(s, end, q[k]), i) == Times(q, i)
    ensures Times(fired + [q[k]], i) == Times(fired, i)
  {
    var e := q[k];
    var added := Reschedule(s, end, e);
    assert Times(added, i) == [] by {
      if e.time <= end {
        TimesSingle(WorkEntry(e.schedule, s[e.schedule].next(e.time)), i);
      }
    }
    assert Times(q, i) == Times(q[..k], i) + Times(q[k + 1..], i) by {
      TimesRemoveAt(q, k, i);
      TimesSingle(e, i);
    }
    assert Times(RemoveAt(q, k), i) == Times(q[..k], i) + Times(q[k + 1..], i) by {
      TimesRemoveAt(q, k, i);
    }
    assert Times(RemoveAt(q, k) + added, i) == Times(RemoveAt(q, k), i) + Times(added, i) by {
      TimesAppend(RemoveAt(q, k), added, i);
    }
    assert Times(fired + [e], i) == Times(fired, i) by {
      TimesSnoc(fired, e, i);
    }
  }

  /** One pass of the drain loop leaves one firing fewer ahead. */
  lemma FireConsumesOne(s: seq<UnitOfWorkSchedule>, end: int, q: seq<WorkEntry>, k: int)
    requires AllProgressing(s) && WellFormed(q, |s|) && 0 <= k < |q|
    ensures WellFormed(RemoveAt(q, k) + Reschedule(s, end, q[k]), |s|)
    ensures Remaining(s, end, RemoveAt(q, k) + Reschedule(s, end, q[k])) == Remaining(s, end, q) - 1
  {
    var e := q[k];
    var before, after := q[..k], q[k + 1..];
    var added := Reschedule(s, end, e);
    assert WellFormed(before, |s|) && WellFormed(after, |s|) && WellFormed([e], |s|) && WellFormed(added, |s|);
    assert Remaining(s, end, q) == Remaining(s, end, before) + Remaining(s, end, [e]) + Remaining(s, end, after) by {
      assert q == (before + [e]) + after;
      RemainingAppend(s, end, before + [e], after);
      RemainingAppend(s, end, before, [e]);
    }
    assert Remaining(s, end, RemoveAt(q, k)) == Remaining(s, end, before) + Remaining(s, end, after) by {
      RemainingAppend(s, end, before, after);
    }
    assert Remaining(s, end, [e]) == 1 + Remaining(s, end, added) by {
      assert [e][..0] == [];
      RunStep(s[e.schedule].next, e.time, end);
      if e.time <= end {
        assert added[..0] == [];
      }
    }
    RemainingAppend(s, end, RemoveAt(q, k), added);
  }

  /** One pass of the drain loop keeps the account. */
  lemma FireKeepsAccounted(s: seq<UnitOfWorkSchedule>, start: int, end: int, fired: seq<WorkEntry>, q: seq<WorkEntry>, k: int)
    requires AllProgressing(s) && Accounted(s, start, end, fired, q) && 0 <= k < |q|
    ensures Accounted(s, start, end, fired + [q[k]], RemoveAt(q, k) + Reschedule(s, end, q[k]))
    ensures forall i :: 0 <= i < |s| ==> |Times(RemoveAt(q, k) + Reschedule(s, end, q[k]), i)| <= 1
  {
    var q' := RemoveAt(q, k) + Reschedule(s, end, q[k]);
    var fired' := fired + [q[k]];
    FireConsumesOne(s, end, q, k);
    assert WellFormed(fired', |s|);
    forall i | 0 <= i < |s|
      ensures |Times(q', i)| <= 1
      ensures Times(fired', i) + Pending(s[i].next, Times(q', i), end) == Run(s[i].next, s[i].next(start), end)
    {
      assert Times(fired, i) + Pending(s[i].next, Times(q, i), end) == Run(s[i].next, s[i].next(start), end);
      if i == q[k].schedule {
        assert Progressing(s[i].next);
        FireAccountsFiredBinding(s, start, end, fired, q, k);
      } else {
        FireLeavesOtherBinding(s, end, fired, q, k, i);
      }
    }
  }

  /** For schedulers that never go back, the replacement of a fired entry is
      due no earlier than the entry itself. */
  lemma RescheduleNotEarlier(s: seq<UnitOfWorkSchedule>, end: int, e: WorkEntry)
    requires AllNonRegressing(s) && e.schedule < |s|
    ensures forall b :: 0 <= b < |Reschedule(s, end, e)| ==> e.time <= Reschedule(s, end, e)[b].time
  {
    if e.time <= end {
      assert NonRegressing(s[e.schedule].next);
      assert s[e.schedule].next(e.time) >= e.time;
    }
  }

  /** For schedulers that never go back, one pass of the drain loop keeps the
      firings in time order and none of them later than anything queued. */
  lemma PassKeepsOrder(s: seq<UnitOfWorkSchedule>, end: int, fired: seq<WorkEntry>, q: seq<WorkEntry>, k: int)
    requires AllNonRegressing(s) && WellFormed(q, |s|) && IsEarliest(q, k)
    requires Sorted(fired) && NotAfter(fired, q)
    ensures Sorted(fired + [q[k]])
    ensures NotAfter(fired + [q[k]], RemoveAt(q, k) + Reschedule(s, end, q[k]))
  {
    RescheduleNotEarlier(s, end, q[k]);
    FireKeepsOrder(fired, q, k, Reschedule(s, end, q[k]));
  }

  /** Schedulers that move forward never go back. */
  lemma ProgressingNonRegressing(s: seq<UnitOfWorkSchedule>)
    requires AllProgressing(s)
    ensures AllNonRegressing(s)
  {
    forall i | 0 <= i < |s|
      ensures NonRegressing(s[i].next)
    {
      assert Progressing(s[i].next);
    }
  }

  /** The drain loop's invariant: every entry names a binding, each binding is
      queued at most once; for schedulers that never go back the firings so far
      are in time order and none later than anything queued; and for schedulers
      that move forward they account for every binding's run together with
      what is queued. */
  ghost predicate Drained(s: seq<UnitOfWorkSchedule>, start: int, end: int, fired: seq<WorkEntry>, q: seq<WorkEntry>) {
    WellFormed(q, |s|) && WellFormed(fired, |s|) &&
    (forall i :: 0 <= i < |s| ==> |Times(q, i)| <= 1) &&
    (AllNonRegressing(s) ==> Sorted(fired) && NotAfter(fired, q)) &&
    (AllProgressing(s) ==> Accounted(s, start, end, fired, q))
  }

  /** One pass of the drain loop keeps its invariant and leaves one firing
      fewer ahead. */
  lemma FireStep(s: seq<UnitOfWorkSchedule>, start: int, end: int, fired: seq<WorkEntry>, q: seq<WorkEntry>, k: int)
    requires AllProgressing(s) && Drained(s, start, end, fired, q) && IsEarliest(q, k)
    ensures Drained(s, start, end, fired + [q[k]], RemoveAt(q, k) + Reschedule(s, end, q[k]))
    ensures Remaining(s, end, RemoveAt(q, k) + Reschedule(s, end, q[k])) == Remaining(s, end, q) - 1
  {
    FireConsumesOne(s, end, q, k);
    FireKeepsAccounted(s, start, end, fired, q, k);
    ProgressingNonRegressing(s);
    PassKeepsOrder(s, end, fired, q, k);
  }

  /** Once the queue is empty, every binding has fired its whole run. */
  lemma DrainedComplete(s: seq<UnitOfWorkSchedule>, start: int, end: int, fired: seq<WorkEntry>)
    requires AllProgressing(s) && Drained(s, start, end, fired, [])
    ensures forall i :: 0 <= i < |s| ==> Times(fired, i) == Run(s[i].next, s[i].next(start), end)
    ensures forall i :: 0 <= i < |s| ==> Times(fired, i) != [] && Times(fired, i)[|Times(fired, i)| - 1] > end
  {
    forall i | 0 <= i < |s|
      ensures Times(fired, i) == Run(s[i].next, s[i].next(start), end)
    {
      assert Times(fired, i) + Pending(s[i].next, Times([], i), end) == Run(s[i].next, s[i].next(start), end);
      assert Times(fired, i) + [] == Times(fired, i);
    }
  }

  class IntervalExecutor {
    const schedules: seq<UnitOfWorkSchedule>
    /** The interval's start in epoch nanoseconds; only priming uses it. */
    ghost const nanoStart: int
    /** The interval's end in epoch nanoseconds. */
    const nanoEnd: int
    const sink: GeneratorSink
    /** Builds the event a unit of work records as the `n`th event (the
        metrics library's part, drawing on the shared random source). */
    const metricsFactory: (UnitOfWork, nat) -> Event
    /** The priority queue of work entries. */
    var workEntries: seq<WorkEntry>
    /** How many events this executor has built so far. */
    var built: nat
    /** Every entry fired so far, in firing order. */
    ghost var fired: seq<WorkEntry>

    ghost predicate Valid()
      reads this
    {
      Drained(schedules, nanoStart, nanoEnd, fired, workEntries) && built == |fired|
    }

    /** Converts the interval to epoch nanoseconds and queues every binding at
        `next` of the start. The source's priority queue refuses an initial
        capacity of zero, so there must be at least one binding. */
    constructor(start: int, end: int, generators: seq<UnitOfWorkSchedule>,
                metricsFactory: (UnitOfWork, nat) -> Event, render: int -> string)
      requires |generators| >= 1
      ensures Valid()
      ensures schedules == generators && this.metricsFactory == metricsFactory
      ensures nanoStart == ToNanos(start) && nanoEnd == ToNanos(end)
      ensures Primed(generators, ToNanos(start), workEntries)
      ensures fired == []
      ensures fresh(sink) && sink.time == start && sink.output == [] && sink.render == render
    {
      var first := ToNanos(start);
      var q := [];
      for i := 0 to |generators|
        invariant |q| == i
        invariant forall j :: 0 <= j < i ==> q[j] == WorkEntry(j, generators[j].next(first))
      {
        q := q + [WorkEntry(i, generators[i].next(first))];
      }
      PrimedAccounted(generators, first, ToNanos(end), q);
      schedules := generators;
      nanoStart := first;
      nanoEnd := ToNanos(end);
      workEntries := q;
      fired := [];
      built := 0;
      sink := new GeneratorSink(start, render);
      this.metricsFactory := metricsFactory;
    }

    /** One pass of the drain loop: polls an earliest entry (the `k`th),
        sets the sink's time to that entry's scheduled time, fires its unit of
        work, and queues the binding again at `next` of that time only if the
        time fired is at most the end. It states the transition only: its
        caller re-establishes `Valid()` from these ensures with the lemmas
        about the new queue. */
    method FireEarliest() returns (entry: WorkEntry, ghost k: int)
      requires Valid() && workEntries != []
      modifies this, sink
      ensures IsEarliest(old(workEntries), k) && old(workEntries)[k] == entry
      ensures workEntries == RemoveAt(old(workEntries), k) + Reschedule(schedules, nanoEnd, entry)
      ensures |workEntries| == old(|workEntries|) - (if entry.time <= nanoEnd then 0 else 1)
      ensures fired == old(fired) + [entry] && built == old(built) + 1
      ensures sink.time == ToMillis(entry.time)
      ensures sink.output == old(sink.output) + [RecordOf(schedules, metricsFactory, sink.render, entry, old(|fired|))]
    {
      EarliestExists(workEntries);
      var polled :| 0 <= polled < |workEntries| && IsEarliest(workEntries, polled);
      k := polled;
      entry := workEntries[polled];
      workEntries := RemoveAt(workEntries, polled);
      sink.SetTime(ToMillis(entry.time));
      sink.Record(metricsFactory(schedules[entry.schedule].generator, built));
      built := built + 1;
      fired := fired + [entry];
      var next := schedules[entry.schedule].next(entry.time);
      if entry.time <= nanoEnd {
        workEntries := workEntries + [WorkEntry(entry.schedule, next)];
      }
    }

    /** Drains the queue, firing the earliest entry each time and queueing its
        successor while the fired time is at most the end, then flushes. */
    method Execute()
      requires Valid() && AllProgressing(schedules)
      modifies this, sink
      ensures Valid() && workEntries == [] && Sorted(fired)
      ensures |fired| >= |old(fired)| && fired[..|old(fired)|] == old(fired)
      ensures forall i :: 0 <= i < |schedules| ==>
                Times(fired, i) == Run(schedules[i].next, schedules[i].next(nanoStart), nanoEnd)
      ensures forall i :: 0 <= i < |schedules| ==> Times(fired, i) != [] && Times(fired, i)[|Times(fired, i)| - 1] > nanoEnd
      ensures sink.output == old(sink.output) + Emitted(schedules, metricsFactory, sink.render, fired[|old(fired)|..], |old(fired)|) + [Flushed]
      ensures forall j :: |old(sink.output)| <= j < |sink.output| - 1 ==> sink.output[j].Recorded?
    {
      ghost var fired0 := fired;
      ghost var output0 := sink.output;
      assert fired[|fired0|..] == [];
      while workEntries != []
        invariant Valid()
        invariant |fired0| <= |fired| && fired[..|fired0|] == fired0
        invariant sink.output == output0 + Emitted(schedules, metricsFactory, sink.render, fired[|fired0|..], |fired0|)
        decreases Remaining(schedules, nanoEnd, workEntries)
      {
        ghost var q, before := workEntries, fired;
        var entry, k := FireEarliest();
        FireStep(schedules, nanoStart, nanoEnd, before, q, k);
        OutputStep(schedules, metricsFactory, sink.render, fired0, before, output0, entry);
      }
      DrainedComplete(schedules, nanoStart, nanoEnd, fired);
      ProgressingNonRegressing(schedules);
      sink.Flush();
      FlushedLast(output0, Emitted(schedules, metricsFactory, sink.render, fired[|fired0|..], |fired0|));
    }
  }
}
