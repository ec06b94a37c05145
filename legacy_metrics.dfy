/**
 * The older single-crate variant, game-metrics/src/lib.rs: the same event,
 * channel and span shape as `Metrics`, without subscriber gating, and a
 * background worker whose loop body is the per-event aggregation step.
 */
module LegacyMetrics {
  import opened Wrappers
  import opened Aggregation

  datatype Event = Enter(name: string) | Exit(spanName: string, elapsed: U64) {

    /** `Event::name`: the span name either variant carries. */
    function Name(): (n: string)
      ensures (Enter? && this == Enter(n)) || (Exit? && this == Exit(n, elapsed))
    {
      match this
      case Enter(name) => name
      case Exit(spanName, _) => spanName
    }
  }

  /** The crossbeam channel behind the global `CHANNEL`: a FIFO queue that is never gated. */
  class Channel {
    var queue: seq<Event>

    constructor ()
      ensures queue == []
    {
      queue := [];
    }

    /** Enqueues `e` at the back, always. */
    method Send(e: Event)
      modifies this
      ensures queue == old(queue) + [e]
    {
      queue := queue + [e];
    }

    /** `try_recv`: removes and returns the oldest event, or `None` when there is none. */
    method Recv() returns (r: Option<Event>)
      modifies this
      ensures old(queue) == [] ==> r == None && queue == old(queue)
      ensures old(queue) != [] ==> r == Some(old(queue)[0]) && queue == old(queue)[1..]
    {
      if queue == [] {
        r := None;
      } else {
        r := Some(queue[0]);
        queue := queue[1..];
      }
    }
  }

  /** The span guard: its name and the clock reading taken when it was created. */
  datatype Span = Span(name: string, start: U64)

  /** `Span::new(name)`: sends `Enter(name)`, then reads the clock; `now` is that reading. */
  method NewSpan(ch: Channel, name: string, now: U64) returns (s: Span)
    modifies ch
    ensures ch.queue == old(ch.queue) + [Enter(name)]
    ensures s.name == name && s.start == now
  {
    ch.Send(Enter(name));
    s := Span(name, now);
  }

  /** Dropping a `Span` at clock reading `now` (at or after its start): sends `Exit` with the elapsed time. */
  method DropSpan(ch: Channel, s: Span, now: U64)
    requires s.start <= now
    modifies ch
    ensures ch.queue == old(ch.queue) + [Exit(s.name, now - s.start)]
  {
    ch.Send(Exit(s.name, now - s.start));
  }

  /** The span's two events name the same span. */
  lemma SpanEventsAgree(s: Span, now: U64)
    requires s.start <= now
    ensures Enter(s.name).Name() == Exit(s.name, now - s.start).Name() == s.name
  {
  }

  /** The sample an `Exit` carries; an `Enter` carries none. */
  function ExitSample(e: Event): seq<Sample>
  {
    match e
    case Enter(_) => []
    case Exit(n, d) => [Sample(n, d)]
  }

  /** The samples of the `Exit` events of `events`, in order. */
  function Exits(events: seq<Event>): seq<Sample>
  {
    if events == [] then [] else Exits(events[..|events| - 1]) + ExitSample(events[|events| - 1])
  }

  /**
   * The worker's `match event`: an `Exit` is recorded into the histogram for
   * its name (`or_insert` of a new one with `sigfig` when absent, the
   * existing one otherwise); an `Enter` leaves the table as it is.
   */
  function Aggregate(t: Table, e: Event, sigfig: Sigfig): (r: Table)
    ensures e.Enter? ==> r == t
    ensures e.Exit? ==> r.Keys == t.Keys + {e.spanName}
    ensures e.Exit? ==> r[e.spanName].samples == Prior(t, e.spanName) + [e.elapsed]
    ensures e.Exit? ==> r[e.spanName].sigfig == if e.spanName in t then t[e.spanName].sigfig else sigfig
    ensures e.Exit? ==> forall n :: n in t && n != e.spanName ==> r[n] == t[n]
  {
    match e
    case Enter(_) => t
    case Exit(n, d) => Recorded(t, Sample(n, d), sigfig)
  }

  /** The table after the worker has aggregated `events`, oldest first. */
  function Aggregated(t: Table, events: seq<Event>, sigfig: Sigfig): (r: Table)
    ensures t.Keys <= r.Keys
    ensures forall n :: n in t ==> r[n].sigfig == t[n].sigfig && t[n].samples <= r[n].samples
  {
    if events == [] then t else Aggregate(Aggregated(t, events[..|events| - 1], sigfig), events[|events| - 1], sigfig)
  }

  /** Aggregating the events is recording exactly their `Exit` samples, in queue order. */
  lemma {:induction false} AggregatedIsRecordAll(t: Table, events: seq<Event>, sigfig: Sigfig)
    ensures Aggregated(t, events, sigfig) == RecordAll(t, Exits(events), sigfig)
  {
    if events != [] {
      var init, last := events[..|events| - 1], events[|events| - 1];
      AggregatedIsRecordAll(t, init, sigfig);
      RecordAllAppend(t, Exits(init), ExitSample(last), sigfig);
      if last.Exit? {
        assert RecordAll(RecordAll(t, Exits(init), sigfig), ExitSample(last), sigfig)
            == Recorded(RecordAll(t, Exits(init), sigfig), Sample(last.spanName, last.elapsed), sigfig) by {
          assert ExitSample(last)[..0] == [];
        }
      }
    }
  }

  /**
   * What aggregation does to the table: one new entry per name with an
   * `Exit`, none removed; each name's samples grow by exactly the elapsed
   * values of its `Exit`s, in queue order; precisions as in `Aggregate`.
   */
  lemma AggregatedEffect(t: Table, events: seq<Event>, sigfig: Sigfig, name: string)
    ensures Aggregated(t, events, sigfig).Keys == t.Keys + Names(Exits(events))
    ensures Prior(Aggregated(t, events, sigfig), name) == Prior(t, name) + SamplesOf(Exits(events), name)
    ensures name in Aggregated(t, events, sigfig) ==>
      Aggregated(t, events, sigfig)[name].sigfig == if name in t then t[name].sigfig else sigfig
  {
    AggregatedIsRecordAll(t, events, sigfig);
    RecordAllKeys(t, Exits(events), sigfig);
    RecordAllSamples(t, Exits(events), sigfig, name);
    if name in Aggregated(t, events, sigfig) {
      RecordAllSigfig(t, Exits(events), sigfig, name);
    }
  }

  /** The `Metrics` owner: its table, the precision for new histograms and the worker flag. */
  class Metrics {
    const channel: Channel
    const sigfig: Sigfig
    var histograms: Table
    var workerFlag: bool

    /** `Metrics::new(sigfig)`: an empty table and the worker flag raised. */
    constructor (channel: Channel, sigfig: Sigfig)
      ensures this.channel == channel && this.sigfig == sigfig
      ensures histograms == map[] && workerFlag
    {
      this.channel := channel;
      this.sigfig := sigfig;
      histograms := map[];
      workerFlag := true;
    }

    /** One pass of the worker's inner loop: receive one event and aggregate it. */
    method WorkerStep() returns (received: bool)
      modifies this`histograms, channel
      ensures received == (old(channel.queue) != [])
      ensures received ==> channel.queue == old(channel.queue)[1..]
      ensures received ==> histograms == Aggregate(old(histograms), old(channel.queue)[0], sigfig)
      ensures !received ==> channel.queue == old(channel.queue) && histograms == old(histograms)
    {
      var next := channel.Recv();
      received := next.Some?;
      if received {
        histograms := Aggregate(histograms, next.value, sigfig);
      }
    }

    /** The worker's `while let Some(event) = CHANNEL.recv()`: runs until the channel is empty. */
    method WorkerDrain()
      modifies this`histograms, channel
      ensures channel.queue == []
      ensures histograms == Aggregated(old(histograms), old(channel.queue), sigfig)
    {
      ghost var q, t := channel.queue, histograms;
      ghost var k := 0;
      while true
        invariant 0 <= k <= |q| && channel.queue == q[k..]
        invariant histograms == Aggregated(t, q[..k], sigfig)
        decreases |channel.queue|
      {
        var next := channel.Recv();
        if next.None? {
          break;
        }
        assert q[..k + 1][..k] == q[..k];
        histograms := Aggregate(histograms, next.value, sigfig);
        k := k + 1;
      }
      assert q[..k] == q;
    }

    /** `for_each_histogram`: one visit per entry of the table, which it leaves as it is. */
    method ForEachHistogram() returns (visits: seq<(string, Histogram)>)
      ensures Enumerates(visits, histograms)
    {
      visits := VisitAll(histograms);
    }

    /** Dropping `Metrics`: the worker flag is lowered. */
    method Drop()
      modifies this`workerFlag
      ensures !workerFlag
    {
      workerFlag := false;
    }
  }
}
