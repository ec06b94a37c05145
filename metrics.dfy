/**
 * The span-metrics pipeline of src/metrics.rs: span events, the process-wide
 * channel (in its non-threaded and its `threads` build), the `Span` guard and
 * the `Metrics` owner that aggregates `SpanExit` durations into per-name
 * histograms.
 *
 * The global `CHANNEL` is an explicit `Channel` object, the channel's clock is
 * the `now` parameter of the span operations, and the two builds of `Metrics`
 * are two classes, `LocalMetrics` and `ThreadedMetrics`.
 */
module Metrics {
  import opened Wrappers
  import opened Aggregation

  const U32Modulus: int := 0x1_0000_0000

  /** The values of an `AtomicU32`. */
  type U32 = x: int | 0 <= x < U32Modulus

  /** Events dispatched by spans. */
  datatype Event = SpanEnter(name: string) | SpanExit(spanName: string, elapsed: U64)

  /** `fetch_add(1)` on an `AtomicU32`, which wraps around at the top. */
  function Incremented(n: U32): (r: U32)
    ensures n < U32Modulus - 1 ==> r == n + 1
    ensures n == U32Modulus - 1 ==> r == 0
  {
    (n + 1) % U32Modulus
  }

  /** `fetch_sub(1)` on an `AtomicU32`, which wraps around at the bottom. */
  function Decremented(n: U32): (r: U32)
    ensures n > 0 ==> r == n - 1
    ensures n == 0 ==> r == U32Modulus - 1
  {
    (n + U32Modulus - 1) % U32Modulus
  }

  /**
   * The event channel. With `threaded` it is the crossbeam transport plus the
   * subscriber counter that gates both ends; without it, a `VecDeque` that is
   * never gated (that build has no counter, so `subscribers` stays 0).
   */
  class Channel {
    const threaded: bool
    var queue: seq<Event>
    var subscribers: U32

    constructor (threaded: bool)
      ensures this.threaded == threaded
      ensures queue == [] && subscribers == 0
    {
      this.threaded := threaded;
      queue := [];
      subscribers := 0;
    }

    /** True when the `threads` build has no live subscriber: nothing gets in or out. */
    predicate Gated()
      reads this
    {
      threaded && subscribers == 0
    }

    /** Enqueues `e` at the back, unless the channel is gated. */
    method Send(e: Event)
      modifies this`queue
      ensures queue == if Gated() then old(queue) else old(queue) + [e]
    {
      if !Gated() {
        queue := queue + [e];
      }
    }

    /** Removes and returns the oldest event; `None` when gated or empty. */
    method Recv() returns (r: Option<Event>)
      modifies this`queue
      ensures Gated() || old(queue) == [] ==> r == None && queue == old(queue)
      ensures !Gated() && old(queue) != [] ==> r == Some(old(queue)[0]) && queue == old(queue)[1..]
    {
      if Gated() || queue == [] {
        r := None;
      } else {
        r := Some(queue[0]);
        queue := queue[1..];
      }
    }

    /** `subscribers.fetch_add(1)`, done by a threaded `Metrics::new`. */
    method Subscribe()
      requires threaded
      modifies this`subscribers
      ensures subscribers == Incremented(old(subscribers))
    {
      subscribers := Incremented(subscribers);
    }

    /** `subscribers.fetch_sub(1)`, done by a threaded `Metrics` drop. */
    method Unsubscribe()
      requires threaded
      modifies this`subscribers
      ensures subscribers == Decremented(old(subscribers))
    {
      subscribers := Decremented(subscribers);
    }
  }

  /** The span guard: its name and the clock reading taken when it was created. */
  datatype Span = Span(name: string, start: U64)

  /**
   * `Span::new(name)`: sends `SpanEnter(name)`, then reads the clock; `now`
   * is that reading.
   */
  method NewSpan(ch: Channel, name: string, now: U64) returns (s: Span)
    modifies ch`queue
    ensures ch.queue == old(ch.queue) + (if ch.Gated() then [] else [SpanEnter(name)])
    ensures s.name == name && s.start == now
  {
    ch.Send(SpanEnter(name));
    s := Span(name, now);
  }

  /**
   * Dropping a `Span`: sends `SpanExit` with the time elapsed since its
   * start; `now` is the clock reading at the drop, which a monotonic clock
   * keeps at or after the start.
   */
  method DropSpan(ch: Channel, s: Span, now: U64)
    requires s.start <= now
    modifies ch`queue
    ensures ch.queue == old(ch.queue) + (if ch.Gated() then [] else [SpanExit(s.name, now - s.start)])
  {
    ch.Send(SpanExit(s.name, now - s.start));
  }

  /** The sample a `SpanExit` carries; a `SpanEnter` carries none. */
  function ExitSample(e: Event): seq<Sample>
  {
    match e
    case SpanEnter(_) => []
    case SpanExit(n, d) => [Sample(n, d)]
  }

  /** The samples of the `SpanExit` events of `events`, in order. */
  function Exits(events: seq<Event>): seq<Sample>
  {
    if events == [] then [] else Exits(events[..|events| - 1]) + ExitSample(events[|events| - 1])
  }

  /**
   * The body of the drain loop: a `SpanExit` is recorded into the histogram
   * for its name, created with `sigfig` if absent; a `SpanEnter` is dropped.
   */
  function Absorb(t: Table, e: Event, sigfig: Sigfig): (r: Table)
    ensures e.SpanEnter? ==> r == t
    ensures e.SpanExit? ==> r.Keys == t.Keys + {e.spanName}
    ensures e.SpanExit? ==> r[e.spanName].samples == Prior(t, e.spanName) + [e.elapsed]
    ensures e.SpanExit? ==> r[e.spanName].sigfig == if e.spanName in t then t[e.spanName].sigfig else sigfig
    ensures e.SpanExit? ==> forall n :: n in t && n != e.spanName ==> r[n] == t[n]
  {
    match e
    case SpanEnter(_) => t
    case SpanExit(n, d) => Recorded(t, Sample(n, d), sigfig)
  }

  /** The table after the drain loop has absorbed `events`, oldest first. */
  function Drained(t: Table, events: seq<Event>, sigfig: Sigfig): (r: Table)
    ensures t.Keys <= r.Keys
    ensures forall n :: n in t ==> r[n].sigfig == t[n].sigfig && t[n].samples <= r[n].samples
  {
    if events == [] then t else Absorb(Drained(t, events[..|events| - 1], sigfig), events[|events| - 1], sigfig)
  }

  lemma {:induction false} ExitsAppend(a: seq<Event>, b: seq<Event>)
    ensures Exits(a + b) == Exits(a) + Exits(b)
  {
    if b == [] {
      assert a + b == a;
    } else {
      assert (a + b)[..|a + b| - 1] == a + b[..|b| - 1];
      ExitsAppend(a, b[..|b| - 1]);
    }
  }

  /** Draining the events is recording exactly their `SpanExit` samples, in queue order. */
  lemma {:induction false} DrainedIsRecordAll(t: Table, events: seq<Event>, sigfig: Sigfig)
    ensures Drained(t, events, sigfig) == RecordAll(t, Exits(events), sigfig)
  {
    if events != [] {
      var init, last := events[..|events| - 1], events[|events| - 1];
      DrainedIsRecordAll(t, init, sigfig);
      RecordAllAppend(t, Exits(init), ExitSample(last), sigfig);
      if last.SpanExit? {
        assert RecordAll(RecordAll(t, Exits(init), sigfig), ExitSample(last), sigfig)
            == Recorded(RecordAll(t, Exits(init), sigfig), Sample(last.spanName, last.elapsed), sigfig) by {
          assert ExitSample(last)[..0] == [];
        }
      }
    }
  }

  /**
   * What a drain does to the table: it gains an entry for each name with a
   * `SpanExit` and loses none; each name's samples grow by exactly the
   * elapsed values of its `SpanExit`s, in queue order; an existing
   * histogram keeps its precision and a new one gets `sigfig`.
   */
  lemma DrainedEffect(t: Table, events: seq<Event>, sigfig: Sigfig, name: string)
    ensures Drained(t, events, sigfig).Keys == t.Keys + Names(Exits(events))
    ensures Prior(Drained(t, events, sigfig), name) == Prior(t, name) + SamplesOf(Exits(events), name)
    ensures name in Drained(t, events, sigfig) ==>
      Drained(t, events, sigfig)[name].sigfig == if name in t then t[name].sigfig else sigfig
  {
    DrainedIsRecordAll(t, events, sigfig);
    RecordAllKeys(t, Exits(events), sigfig);
    RecordAllSamples(t, Exits(events), sigfig, name);
    if name in Drained(t, events, sigfig) {
      RecordAllSigfig(t, Exits(events), sigfig, name);
    }
  }

  /** A `SpanEnter` anywhere in the queue changes no histogram. */
  lemma {:induction false} EnterIsIgnored(t: Table, a: seq<Event>, name: string, b: seq<Event>, sigfig: Sigfig)
    ensures Drained(t, a + [SpanEnter(name)] + b, sigfig) == Drained(t, a + b, sigfig)
  {
    var enter := [SpanEnter(name)];
    assert Exits(enter) == [] by {
      assert enter[..0] == [];
    }
    calc {
      Exits(a + enter + b);
      { ExitsAppend(a + enter, b); }
      Exits(a + enter) + Exits(b);
      { ExitsAppend(a, enter); }
      Exits(a) + Exits(b);
      { ExitsAppend(a, b); }
      Exits(a + b);
    }
    DrainedIsRecordAll(t, a + enter + b, sigfig);
    DrainedIsRecordAll(t, a + b, sigfig);
  }

  /** The `Metrics` owner of the non-threaded build: the drain runs inline. */
  class LocalMetrics {
    const channel: Channel
    const sigfig: Sigfig
    var histograms: Table

    /** `Metrics::new(sigfig)`: an empty table; no subscription exists in this build. */
    constructor (channel: Channel, sigfig: Sigfig)
      requires !channel.threaded
      ensures this.channel == channel && this.sigfig == sigfig
      ensures histograms == map[]
    {
      this.channel := channel;
      this.sigfig := sigfig;
      histograms := map[];
    }

    /** `while let Some(event) = CHANNEL.recv()`: drains the channel into the table. */
    method Flush()
      requires !channel.threaded
      modifies this`histograms, channel`queue
      ensures channel.queue == []
      ensures histograms == Drained(old(histograms), old(channel.queue), sigfig)
    {
      ghost var q, t := channel.queue, histograms;
      ghost var k := 0;
      while true
        invariant 0 <= k <= |q| && channel.queue == q[k..]
        invariant histograms == Drained(t, q[..k], sigfig)
        decreases |channel.queue|
      {
        var next := channel.Recv();
        if next.None? {
          break;
        }
        assert q[..k + 1][..k] == q[..k];
        histograms := Absorb(histograms, next.value, sigfig);
        k := k + 1;
      }
      assert q[..k] == q;
    }

    /** `for_each_histogram`: a full flush, then one visit per entry of the table. */
    method ForEachHistogram() returns (visits: seq<(string, Histogram)>)
      requires !channel.threaded
      modifies this`histograms, channel`queue
      ensures channel.queue == []
      ensures histograms == Drained(old(histograms), old(channel.queue), sigfig)
      ensures Enumerates(visits, histograms)
    {
      Flush();
      visits := VisitAll(histograms);
    }
  }

  /**
   * `scope!(name)` opened at clock reading `start` and closed at `stop`,
   * followed by a flush: the table is the old one drained with the old queue
   * and the span's two events; so the histogram for `name` exists and its
   * last sample is `stop - start`.
   */
  method ScopeThenFlush(m: LocalMetrics, name: string, start: U64, stop: U64)
    requires !m.channel.threaded && start <= stop
    modifies m`histograms, m.channel`queue
    ensures m.channel.queue == []
    ensures m.histograms == Drained(old(m.histograms), old(m.channel.queue) + [SpanEnter(name), SpanExit(name, stop - start)], m.sigfig)
    ensures name in m.histograms
    ensures m.histograms[name].samples == Prior(Drained(old(m.histograms), old(m.channel.queue), m.sigfig), name) + [stop - start]
  {
    ghost var q, t := m.channel.queue, m.histograms;
    var span := NewSpan(m.channel, name, start);
    DropSpan(m.channel, span, stop);
    m.Flush();
    assert q + [SpanEnter(name), SpanExit(name, stop - start)] == q + [SpanEnter(name)] + [SpanExit(name, stop - start)];
    assert (q + [SpanEnter(name)] + [SpanExit(name, stop - start)])[..|q| + 1] == q + [SpanEnter(name)];
    assert (q + [SpanEnter(name)])[..|q|] == q;
  }

  /** The `Metrics` owner of the `threads` build: a worker aggregates in the background. */
  class ThreadedMetrics {
    const channel: Channel
    const sigfig: Sigfig
    var histograms: Table
    var workerFlag: bool

    /** `Metrics::new(sigfig)`: an empty table, the worker flag raised, one subscription more. */
    constructor (channel: Channel, sigfig: Sigfig)
      requires channel.threaded
      modifies channel`subscribers
      ensures this.channel == channel && this.sigfig == sigfig
      ensures histograms == map[] && workerFlag
      ensures channel.subscribers == Incremented(old(channel.subscribers))
    {
      this.channel := channel;
      this.sigfig := sigfig;
      histograms := map[];
      workerFlag := true;
      new;
      channel.Subscribe();
    }

    /**
     * One pass of the worker's inner `while let Some(event) = CHANNEL.recv()`
     * loop: when an event arrives it is absorbed into the table.
     */
    method WorkerStep() returns (received: bool)
      modifies this`histograms, channel`queue
      ensures received == (!channel.Gated() && old(channel.queue) != [])
      ensures received ==> channel.queue == old(channel.queue)[1..]
      ensures received ==> histograms == Absorb(old(histograms), old(channel.queue)[0], sigfig)
      ensures !received ==> channel.queue == old(channel.queue) && histograms == old(histograms)
    {
      var next := channel.Recv();
      received := next.Some?;
      if received {
        histograms := Absorb(histograms, next.value, sigfig);
      }
    }

    /** `for_each_histogram`: one visit per entry of the table, without a flush. */
    method ForEachHistogram() returns (visits: seq<(string, Histogram)>)
      ensures Enumerates(visits, histograms)
    {
      visits := VisitAll(histograms);
    }

    /** Dropping `Metrics`: one subscription less, and the worker flag lowered. */
    method Drop()
      requires channel.threaded
      modifies this`workerFlag, channel`subscribers
      ensures channel.subscribers == Decremented(old(channel.subscribers))
      ensures !workerFlag
    {
      channel.Unsubscribe();
      workerFlag := false;
    }
  }

  /** A `Metrics::new` or a `Metrics` drop, as seen by the subscriber counter. */
  datatype Lifecycle = Create | Destroy

  /** The counter after replaying `ops` from `n`. */
  function Replay(n: U32, ops: seq<Lifecycle>): U32
  {
    if ops == [] then n
    else
      var before := Replay(n, ops[..|ops| - 1]);
      if ops[|ops| - 1] == Create then Incremented(before) else Decremented(before)
  }

  function Creates(ops: seq<Lifecycle>): nat
  {
    if ops == [] then 0 else Creates(ops[..|ops| - 1]) + (if ops[|ops| - 1] == Create then 1 else 0)
  }

  function Destroys(ops: seq<Lifecycle>): nat
  {
    if ops == [] then 0 else Destroys(ops[..|ops| - 1]) + (if ops[|ops| - 1] == Destroy then 1 else 0)
  }

  /** Every drop belongs to an earlier `new`: no prefix has more drops than news. */
  ghost predicate WellBracketed(ops: seq<Lifecycle>)
  {
    forall k :: 0 <= k <= |ops| ==> Destroys(ops[..k]) <= Creates(ops[..k])
  }

  /** A `new` followed by its drop leaves the counter as it was. */
  lemma DropUndoesNew(n: U32)
    ensures Decremented(Incremented(n)) == n
  {
  }

  /** The live subscriptions, added to the start `n`, stay below 2^32 after every prefix of `ops`. */
  ghost predicate StaysInRange(n: U32, ops: seq<Lifecycle>)
  {
    forall k :: 0 <= k <= |ops| ==> n + Creates(ops[..k]) - Destroys(ops[..k]) < U32Modulus
  }

  /**
   * When every drop follows its `new` and the live subscriptions never reach
   * 2^32, the counter is its start plus the live subscriptions; in particular
   * it never wraps, above or below.
   */
  lemma {:induction false} ReplayCounts(n: U32, ops: seq<Lifecycle>)
    requires WellBracketed(ops)
    requires StaysInRange(n, ops)
    ensures Creates(ops) >= Destroys(ops)
    ensures Replay(n, ops) == n + Creates(ops) - Destroys(ops)
  {
    if ops != [] {
      var init := ops[..|ops| - 1];
      assert WellBracketed(init) && StaysInRange(n, init) by {
        forall k | 0 <= k <= |init|
          ensures Destroys(init[..k]) <= Creates(init[..k])
          ensures n + Creates(init[..k]) - Destroys(init[..k]) < U32Modulus
        {
          assert init[..k] == ops[..k];
        }
      }
      ReplayCounts(n, init);
      assert ops[..|ops|] == ops;
    }
  }
}
