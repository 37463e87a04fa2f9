/** What firing a work entry leaves in the sink's output: both executors set the
    sink's time to the entry's scheduled time truncated to milliseconds, then
    fire the binding's unit of work, whose event the sink records with that time.
    A unit of work draws its samples from a random source shared by every firing,
    so the event depends on the unit of work and on how many events were built
    before it: `make(u, n)` is the event of unit `u` built as the `n`th. */
module Firing {
  import opened JavaTime
  import opened Schedule
  import opened WorkQueue
  import opened Client

  /** The output of firing `e` as the `n`th event built, where `make` builds a
      unit of work's event and `render` is the sink's rendering of a time. */
  ghost function RecordOf(s: seq<UnitOfWorkSchedule>, make: (UnitOfWork, nat) -> Event, render: int -> string, e: WorkEntry, n: nat): (r: Output)
    requires e.schedule < |s|
    ensures r.Recorded? && r.warped.event == make(s[e.schedule].generator, n)
    ensures r.Recorded? && r.warped.Annotations() == Stamp(make(s[e.schedule].generator, n).annotations, render(ToMillis(e.time)))
  {
    Recorded(Warp(make(s[e.schedule].generator, n), render(ToMillis(e.time))))
  }

  /** The output of firing the entries of `f` in order, the first of them as
      the `n`th event built. */
  ghost function Emitted(s: seq<UnitOfWorkSchedule>, make: (UnitOfWork, nat) -> Event, render: int -> string, f: seq<WorkEntry>, n: nat): (r: seq<Output>)
    requires WellFormed(f, |s|)
    ensures |r| == |f|
    ensures forall j :: 0 <= j < |r| ==> r[j].Recorded?
  {
    if f == [] then [] else Emitted(s, make, render, f[..|f| - 1], n) + [RecordOf(s, make, render, f[|f| - 1], n + |f| - 1)]
  }

  /** Firing never flushes: the `j`th output of a run of firings is the record
      of its `j`th entry, built `j` events after the first. */
  lemma {:induction false} EmittedIndexed(s: seq<UnitOfWorkSchedule>, make: (UnitOfWork, nat) -> Event, render: int -> string, f: seq<WorkEntry>, n: nat)
    requires WellFormed(f, |s|)
    ensures forall j :: 0 <= j < |f| ==> Emitted(s, make, render, f, n)[j] == RecordOf(s, make, render, f[j], n + j)
  {
    if f != [] {
      EmittedIndexed(s, make, render, f[..|f| - 1], n);
    }
  }

  /** Records followed by a flush: the flush is the only one after `before`. */
  lemma FlushedLast(before: seq<Output>, records: seq<Output>)
    requires forall j :: 0 <= j < |records| ==> records[j].Recorded?
    ensures forall j :: |before| <= j < |before + records + [Flushed]| - 1 ==> (before + records + [Flushed])[j].Recorded?
  {
    forall j | |before| <= j < |before + records + [Flushed]| - 1
      ensures (before + records + [Flushed])[j].Recorded?
    {
      assert (before + records + [Flushed])[j] == records[j - |before|];
    }
  }

  /** Appending one element commutes with taking a suffix or a prefix. */
  lemma SliceSnoc<T>(a: seq<T>, x: T, n: nat)
    requires n <= |a|
    ensures (a + [x])[n..] == a[n..] + [x]
    ensures (a + [x])[..n] == a[..n]
  {
  }

  /** Firing one more entry appends its record, built after those of `f`. */
  lemma EmittedSnoc(s: seq<UnitOfWorkSchedule>, make: (UnitOfWork, nat) -> Event, render: int -> string, f: seq<WorkEntry>, n: nat, e: WorkEntry)
    requires WellFormed(f, |s|) && e.schedule < |s|
    ensures WellFormed(f + [e], |s|)
    ensures Emitted(s, make, render, f + [e], n) == Emitted(s, make, render, f, n) + [RecordOf(s, make, render, e, n + |f|)]
  {
    assert (f + [e])[..|f|] == f;
  }

  /** Appending the record of one more firing to the output of `f` is the
      output of `f` and that firing. */
  lemma AppendRecord(s: seq<UnitOfWorkSchedule>, make: (UnitOfWork, nat) -> Event, render: int -> string,
                     output0: seq<Output>, f: seq<WorkEntry>, n: nat, e: WorkEntry)
    requires WellFormed(f, |s|) && e.schedule < |s|
    ensures WellFormed(f + [e], |s|)
    ensures output0 + Emitted(s, make, render, f, n) + [RecordOf(s, make, render, e, n + |f|)] ==
            output0 + Emitted(s, make, render, f + [e], n)
  {
    EmittedSnoc(s, make, render, f, n, e);
    var emitted := Emitted(s, make, render, f, n);
    assert output0 + emitted + [RecordOf(s, make, render, e, n + |f|)] == output0 + (emitted + [RecordOf(s, make, render, e, n + |f|)]);
  }

  /** When the output since `output0` is the record of the firings since
      `fired0`, counting events from the first of them, firing one more entry
      as event number `|fired|` keeps it so. */
  lemma OutputStep(s: seq<UnitOfWorkSchedule>, make: (UnitOfWork, nat) -> Event, render: int -> string,
                   fired0: seq<WorkEntry>, fired: seq<WorkEntry>, output0: seq<Output>, e: WorkEntry)
    requires WellFormed(fired, |s|) && e.schedule < |s|
    requires |fired0| <= |fired| && fired[..|fired0|] == fired0
    ensures (fired + [e])[..|fired0|] == fired0
    ensures output0 + Emitted(s, make, render, fired[|fired0|..], |fired0|) + [RecordOf(s, make, render, e, |fired|)] ==
            output0 + Emitted(s, make, render, (fired + [e])[|fired0|..], |fired0|)
  {
    var f, n := fired[|fired0|..], |fired0|;
    assert (fired + [e])[n..] == f + [e];
    assert WellFormed(f, |s|);
    assert n + |f| == |fired|;
    AppendRecord(s, make, render, output0, f, n, e);
  }
}
