/** The sink wrapper that stamps every recorded event with the generator's
    virtual time instead of the wall-clock time it was produced at. */
module Client {

  /** One sample; its value (and unit) is opaque here. */
  datatype Quantity = Quantity(value: real)

  type Samples = map<string, seq<Quantity>>

  /** A metrics event as the metrics library hands it to a sink. */
  datatype Event = Event(
    annotations: map<string, string>,
    timers: Samples,
    counters: Samples,
    gauges: Samples)

  /** The event passed on to the wrapped sink: replaced annotations, and every
      sample read through from the original event. */
  datatype TimeWarpEvent = TimeWarpEvent(modified: map<string, string>, event: Event) {
    function Annotations(): map<string, string> {
      modified
    }

    function TimerSamples(): Samples {
      event.timers
    }

    function CounterSamples(): Samples {
      event.counters
    }

    function GaugeSamples(): Samples {
      event.gauges
    }
  }

  /** What reaches the output file, in order: recorded events and flushes. */
  datatype Output = Recorded(warped: TimeWarpEvent) | Flushed

  const StartKey: string := "_start"
  const EndKey: string := "_end"

  /** The annotations of a recorded event: the original ones with the start and
      end annotations both set to `stamp`. */
  function Stamp(annotations: map<string, string>, stamp: string): (r: map<string, string>)
    ensures r.Keys == annotations.Keys + {StartKey, EndKey}
    ensures r[StartKey] == stamp && r[EndKey] == stamp
    ensures forall k :: k in annotations && k != StartKey && k != EndKey ==> r[k] == annotations[k]
  {
    annotations[StartKey := stamp][EndKey := stamp]
  }

  /** What the sink passes on for `event` when its time renders as `stamp`. */
  function Warp(event: Event, stamp: string): (r: TimeWarpEvent)
    ensures StartKey in r.Annotations() && r.Annotations()[StartKey] == stamp
    ensures EndKey in r.Annotations() && r.Annotations()[EndKey] == stamp
    ensures forall k :: k in event.annotations && k != StartKey && k != EndKey ==> k in r.Annotations() && r.Annotations()[k] == event.annotations[k]
  {
    TimeWarpEvent(Stamp(event.annotations, stamp), event)
  }

  /** The event passed on reads its annotations from the stamped copy and
      every sample from the original event. */
  lemma WarpReadsThrough(event: Event, stamp: string)
    ensures Warp(event, stamp).Annotations() == Stamp(event.annotations, stamp)
    ensures Warp(event, stamp).TimerSamples() == event.timers
    ensures Warp(event, stamp).CounterSamples() == event.counters
    ensures Warp(event, stamp).GaugeSamples() == event.gauges
  {
  }

  class GeneratorSink {
    /** The virtual time stamped on recorded events, in epoch milliseconds. */
    var time: int
    /** The UTC rendering of a time (`DateTime.withZone(UTC).toString()`). */
    const render: int -> string
    /** Everything the wrapped file sink has been given, and the flushes. */
    var output: seq<Output>

    constructor(initialTime: int, render: int -> string)
      ensures time == initialTime && this.render == render && output == []
    {
      time := initialTime;
      this.render := render;
      output := [];
    }

    method SetTime(t: int)
      modifies this`time
      ensures time == t
    {
      time := t;
    }

    /** Passes `event` on to the wrapped sink, stamped with the current time. */
    method Record(event: Event)
      modifies this`output
      ensures output == old(output) + [Recorded(Warp(event, render(time)))]
      ensures output[|output| - 1].warped.Annotations() == Stamp(event.annotations, render(time))
      ensures output[|output| - 1].warped.TimerSamples() == event.timers
      ensures output[|output| - 1].warped.CounterSamples() == event.counters
      ensures output[|output| - 1].warped.GaugeSamples() == event.gauges
    {
      var stamp := render(time);
      var modified := event.annotations;
      modified := modified[StartKey := stamp];
      modified := modified[EndKey := stamp];
      output := output + [Recorded(TimeWarpEvent(modified, event))];
    }

    /** Makes everything recorded so far durable; only its place in the output
        is modelled. */
    method Flush()
      modifies this`output
      ensures output == old(output) + [Flushed]
    {
      output := output + [Flushed];
    }
  }
}
