# game-metrics, modelled in Dafny

This project models the sequential core of game-metrics, a Rust library that collects span durations for games:

- A `Span` guard sends a `SpanEnter` event when it is created. When it is dropped it sends a `SpanExit` carrying the elapsed clock time.
- The events travel through a process-wide channel.
- A `Metrics` owner drains the channel and records every exit duration into a histogram kept per span name. A `SpanEnter` is informational and is dropped.

Four parts of the repository are modelled:

- **`Metrics`** (src/metrics.rs). One `Channel` class covers both builds. Its `threaded` flag selects the `threads` build, where a subscriber counter gates `send` and `recv`. Without the flag it is the ungated `VecDeque` build. `Span` is a value, with `NewSpan` and `DropSpan` operations. The non-threaded owner is `LocalMetrics`: its `Flush` drains inline, and its `ForEachHistogram` flushes and then visits. The threaded owner is `ThreadedMetrics`, which models the worker's single step and the subscriber-counter bookkeeping. The counter is an `AtomicU32`, and it wraps around as `fetch_add`/`fetch_sub` do. `ReplayCounts` proves that the counter never wraps over a sequence of `new`s and drops in which every drop follows its `new` and the live subscriptions stay below 2^32.
- **`LegacyMetrics`** (game-metrics/src/lib.rs) is the older single-crate variant. It has the same shape without gating. It adds `Event::name`, and it models the worker's drain loop as `WorkerStep` and `WorkerDrain`.
- **`Aggregation`** is the histogram table that both variants share. hdrhistogram is a foreign library, so a histogram is modelled as the precision (`sigfig`) it was created with plus its samples in recording order. `RecordAll` records a sequence of samples. The lemmas about it give the drain's effect: which entries exist, the samples of each name, and each entry's precision.
- **`Logging`** (src/logging.rs) covers the per-target level filter and the non-threaded `Logger`. The filter's comparison is a parameter of both loggers: the code's own (`AsWritten`) or the corrected one (see Findings). `Log` either queues a record or prints it; `Flush` prints the queue in FIFO order. For the threaded logger, only the send that the filter gates is modelled. `println!` appends to a `Console` object.
- **`Instrument`** (game-metrics-macro/src/lib.rs) is the `#[instrument]` attribute on abstract syntax. It covers the span-name rule, the wrapping of the body in a span guard, the panic on items that are not functions, and the `disable` feature.

Some inputs become explicit:

- The global `CHANNEL` and `LOGGER` are explicit objects.
- The `quanta` clock becomes the `now` argument of the span operations.
- A visitor passed to `for_each_histogram` is modelled by the sequence of calls it receives: a `(name, histogram)` pair per call, in call order.

Three behaviours of the code are worth stating because they are easy to misread:

- **`sigfig` out of range.** `Metrics::new` accepts any `u8`. Nothing fails at construction; the first recorded exit then panics in `Histogram::new_with_bounds(..).unwrap()` (src/metrics.rs:275, 303; game-metrics/src/lib.rs:127).
- **Durations out of range.** The error returned by `record` (src/metrics.rs:277, 305; game-metrics/src/lib.rs:129) is discarded, so a refused sample is simply missing.
- **Two owners at once.** The doc comment of the threaded `Metrics::new` (src/metrics.rs:284-286) says every instance collects a duplicate of the histogram data. The code does not do that: all instances receive from the one queue, so each event goes to whichever worker receives it first.

## Model

| member | source | states |
|---|---|---|
| `Aggregation.Recorded` | src/metrics.rs:271-277 | Recording a sample: the name's histogram gains the sample at the end. It is created with the given `sigfig` only if absent; an existing one keeps its precision. The name gets an entry, no entry is removed, and every other entry is unchanged. |
| `Aggregation.RecordAllKeys` | src/metrics.rs:269-279 | After recording a sequence of samples, the table holds exactly the old names plus the names of the samples. Entries are never removed, and unseen names get no entry. |
| `Aggregation.RecordAllSamples` | src/metrics.rs:269-279 | After recording, each name's samples are its old samples followed by exactly its own samples from the sequence, in order. |
| `Aggregation.RecordAllSigfig` | src/metrics.rs:273-276 | After recording, an entry that existed keeps its precision, and an entry created during recording has the `sigfig` fixed at `new`. |
| `Aggregation.RecordAllAppend` | src/metrics.rs:269-279 | Recording `a` and then `b` is the same as recording `a + b`, so draining in several passes equals one drain. |
| `Aggregation.SamplesOfOneName` | src/metrics.rs:269-279 | N samples of one name with durations d_1..d_N are recorded as exactly d_1..d_N, in that order. |
| `Aggregation.VisitAll` | src/metrics.rs:249-251 | Iterating the table visits every (name, histogram) entry exactly once, each with its own histogram, and changes nothing. |
| `Metrics.Incremented` | src/metrics.rs:311 | `fetch_add(1)` on the `AtomicU32` subscriber counter: `n + 1`, wrapping from 2^32 - 1 to 0. |
| `Metrics.Decremented` | src/metrics.rs:333 | `fetch_sub(1)` on the counter: `n - 1`, wrapping from 0 to 2^32 - 1. |
| `Metrics.Channel.constructor` | src/metrics.rs:114-120 | `Channel::new`: the queue is empty and there are 0 subscribers. |
| `Metrics.Channel.Send` | src/metrics.rs:122-126 | Threaded `send` appends the event only when the count is above 0; otherwise the queue is unchanged. The non-threaded `send` (lines 161-163) is never gated and always appends at the back. |
| `Metrics.Channel.Recv` | src/metrics.rs:129-136 | Threaded `recv` returns `None` with 0 subscribers, even when events are queued. Otherwise it removes and returns the oldest event, or returns `None` if the queue is empty. The non-threaded `recv` (lines 166-168) is never gated: a FIFO pop that returns `None` iff the queue is empty. |
| `Metrics.Channel.Subscribe` | src/metrics.rs:311 | The counter becomes `Incremented` of its old value. |
| `Metrics.Channel.Unsubscribe` | src/metrics.rs:333 | The counter becomes `Decremented` of its old value. |
| `Metrics.NewSpan` | src/metrics.rs:195-202 | Exactly one `SpanEnter(name)` is sent (subject to gating). The span's start is the clock reading taken after sending. |
| `Metrics.DropSpan` | src/metrics.rs:204-211 | Exactly one `SpanExit(name, now - start)` is sent, carrying the span's own name (subject to gating). |
| `Metrics.Absorb` | src/metrics.rs:269-278 | One drained event: a `SpanExit` appends its elapsed time to its name's histogram, which is created with `sigfig` if absent. A `SpanEnter` leaves the table unchanged. |
| `Metrics.Drained` | src/metrics.rs:269-279 | The table after the drain loop has absorbed a queue, oldest first. No entry is ever removed, and an existing entry keeps its precision and only gains samples at the end. |
| `Metrics.DrainedIsRecordAll` | src/metrics.rs:268-280 | Absorbing a queue event by event equals recording exactly the samples of its `SpanExit`s, in queue order. |
| `Metrics.DrainedEffect` | src/metrics.rs:268-280 | A drain adds keys only for names that appear in a `SpanExit`, and removes none. Each name's samples grow by exactly the elapsed values of that name's drained `SpanExit`s, in queue order. New histograms get `sigfig`; existing ones keep theirs. |
| `Metrics.EnterIsIgnored` | src/metrics.rs:270 | A `SpanEnter` anywhere in the queue changes no histogram: removing it gives the same table. |
| `Metrics.LocalMetrics.constructor` | src/metrics.rs:321-327 | Non-threaded `Metrics::new(sigfig)`: the table is empty and `sigfig` is kept for later histograms. |
| `Metrics.LocalMetrics.Flush` | src/metrics.rs:267-280 | The channel is left empty. The table becomes the old table with the whole old queue drained into it, in order (see `DrainedEffect`). |
| `Metrics.LocalMetrics.ForEachHistogram` | src/metrics.rs:246-252 | A full flush first, then one visit per entry of the flushed table, each with its histogram. The table is not modified by the visits. |
| `Metrics.ScopeThenFlush` | src/metrics.rs:79-85 | A `scope!(name)` opened at clock reading `start` and closed at `stop`, then a flush. The whole new table is the old one drained with the old queue followed by the span's `SpanEnter` and `SpanExit`, so `DrainedEffect` gives every entry's samples and precision. In particular, `name` has a histogram whose samples are the flushed earlier samples followed by `stop - start`. |
| `Metrics.ThreadedMetrics.constructor` | src/metrics.rs:288-319 | Threaded `Metrics::new`: the table is empty, the worker flag is raised, and the subscriber count goes up by one. |
| `Metrics.ThreadedMetrics.WorkerStep` | src/metrics.rs:297-306 | One pass of the worker's inner loop, which receives an event only when the channel is not gated and not empty. A received event is removed from the queue and absorbed; otherwise queue and table are unchanged. |
| `Metrics.ThreadedMetrics.ForEachHistogram` | src/metrics.rs:238-244 | Threaded `for_each_histogram`: no flush, one visit per entry of the current table. |
| `Metrics.ThreadedMetrics.Drop` | src/metrics.rs:329-335 | Dropping the threaded `Metrics`: the subscriber count goes down by one and the worker flag is cleared. |
| `Metrics.DropUndoesNew` | src/metrics.rs:311-335 | A `new` followed by its drop leaves the counter as it was, wrap-around included. |
| `Metrics.ReplayCounts` | src/metrics.rs:311-335 | Take any sequence of `new`s and drops in which no prefix has more drops than `new`s, and in which the start plus the live subscriptions stays below 2^32 after every prefix. The counter then equals its start plus the live subscriptions, so it never wraps, above or below. The total number of `new`s is unbounded. |
| `LegacyMetrics.Event.Name` | game-metrics/src/lib.rs:57-63 | `Event::name` returns the span name that either variant carries. |
| `LegacyMetrics.Channel.constructor` | game-metrics/src/lib.rs:31-36 | The queue starts empty. |
| `LegacyMetrics.Channel.Send` | game-metrics/src/lib.rs:37-39 | Always appends; this variant has no gating. |
| `LegacyMetrics.Channel.Recv` | game-metrics/src/lib.rs:41-47 | Removes and returns `Some` of the oldest event, or returns `None` with the queue unchanged when it is empty (FIFO). |
| `LegacyMetrics.NewSpan` | game-metrics/src/lib.rs:75-82 | Sends `Enter(name)`; the start is the clock reading taken after it. |
| `LegacyMetrics.DropSpan` | game-metrics/src/lib.rs:84-91 | Sends `Exit(name, now - start)` with the span's own name. |
| `LegacyMetrics.SpanEventsAgree` | game-metrics/src/lib.rs:75-91 | The two events of a span both have the span's name as their `Event::name`. |
| `LegacyMetrics.Aggregate` | game-metrics/src/lib.rs:121-131 | An `Exit(n, e)` appends `e` to the histogram for `n`: a new histogram with `sigfig` is created if absent, and an existing one is kept. An `Enter` leaves the table unchanged. |
| `LegacyMetrics.Aggregated` | game-metrics/src/lib.rs:120-133 | The table after the worker has aggregated a queue, oldest first. No entry is ever removed, and an existing entry keeps its precision and only gains samples at the end. |
| `LegacyMetrics.AggregatedIsRecordAll` | game-metrics/src/lib.rs:120-133 | Aggregating a queue event by event equals recording exactly its `Exit` samples, in queue order. |
| `LegacyMetrics.AggregatedEffect` | game-metrics/src/lib.rs:120-133 | Aggregation adds keys only for names that appear in an `Exit`, and never removes one. Each name's samples grow by exactly its `Exit` durations, in order, and precisions are as in `Aggregate`. |
| `LegacyMetrics.Metrics.constructor` | game-metrics/src/lib.rs:112-142 | `Metrics::new(sigfig)`: the table is empty and the worker flag is raised. |
| `LegacyMetrics.Metrics.WorkerStep` | game-metrics/src/lib.rs:120-132 | One pass of the worker: it receives iff the queue is not empty, pops the oldest event, and aggregates it. |
| `LegacyMetrics.Metrics.WorkerDrain` | game-metrics/src/lib.rs:120-133 | The worker's `while let` loop: the queue is left empty, and the table is the old one aggregated with the whole old queue, in order. |
| `LegacyMetrics.Metrics.ForEachHistogram` | game-metrics/src/lib.rs:102-110 | One visit per (name, histogram) entry. The table is not modified. |
| `LegacyMetrics.Metrics.Drop` | game-metrics/src/lib.rs:144-148 | Dropping `Metrics` clears the worker flag. |
| `Logging.Level.Ordinal` | src/logging.rs:178 | The `log::Level` ordinals that `<=` compares: Error is 1 and Trace is 5. |
| `Logging.LevelLe` | src/logging.rs:178 | Rust's `<=` on `log::Level` follows the declaration order Error < Warn < Info < Debug < Trace; the contract lists, pair by pair, when it holds. |
| `Logging.LevelLeTotalOrder` | src/logging.rs:178 | `<=` on levels is reflexive, antisymmetric, transitive and total. |
| `Logging.DefaultSettings` | src/logging.rs:58-65 | Non-threaded `Settings::default`: no targets, no paths, and `autoflush` on. |
| `Logging.DefaultEnablesNothing` | src/logging.rs:58-65 | Under the default settings every record is disabled, by either filter. |
| `Logging.EnabledAsWritten` | src/logging.rs:174-180 | `enabled` as written: false for a target absent from `targets`. For a present target, true iff the configured level ≤ the record's level (also the threaded filter, lines 121-127). |
| `Logging.EnabledAsWrittenDropsErrors` | src/logging.rs:178 | With target `app` at `Info`, the as-written filter passes `Info` and `Trace` but drops `Error`. |
| `Logging.Enabled` | src/logging.rs:174-180 | The corrected filter (see Findings): false for an absent target. For a present target, true iff the record's level ≤ the configured level. |
| `Logging.EnabledIsSeverityThreshold` | src/logging.rs:178 | Under the corrected filter, if a level passes then every more severe level passes. The configured level and `Error` always pass for a configured target. |
| `Logging.Defers` | src/logging.rs:191 | The non-threaded `log` queues a record only for a configured target with `autoflush` off. Under the code's comparison it queues exactly the records at the configured level or more verbose; under the corrected one, exactly those at the configured level or more severe. |
| `Logging.AutoflushNeverDefers` | src/logging.rs:191 | With `autoflush` on, no record is queued, under either comparison. |
| `Logging.LogDiverges` | src/logging.rs:178-195 | With `app` at `Info` and `autoflush` off, an `Error` record is printed at once by the code as written and queued under the corrected comparison. |
| `Logging.Messages` | src/logging.rs:200-202 | The lines printed for a sequence of records: their messages, one per record, in order. |
| `Logging.Console.PrintLine` | src/logging.rs:194 | `println!` appends exactly one line. |
| `Logging.Logger.constructor` | src/logging.rs:160-165 | `Logger::new(settings)`: the settings and the comparison are kept and the queue starts empty. The code's own comparison is `AsWritten`. |
| `Logging.Logger.Log` | src/logging.rs:182-196 | A record is queued exactly when `Defers` holds for the logger's comparison: enabled and `autoflush` off. Every other record, disabled ones included, is printed at once, and the queue is unchanged. With `AsWritten` this is the code's `log`. |
| `Logging.Logger.Flush` | src/logging.rs:198-203 | Prints every queued message in FIFO order and leaves the queue empty. |
| `Logging.ThreadedLogger.constructor` | src/logging.rs:83-108 | Threaded `Logger::new(settings)`: the settings and the comparison are kept, nothing has been sent, and the channel is connected. The logger holds a `Receiver` of its own (lines 79, 107), so it stays connected while it lives. |
| `Logging.ThreadedLogger.Log` | src/logging.rs:129-140 | Threaded `log` sends only when the record is enabled under the logger's comparison (`AsWritten` is the code's, line 125). A disabled record changes nothing. A failed send would print a notice instead of being propagated (line 138). No logger that `new` builds reaches that arm, because every such logger is connected. |
| `Instrument.NameOf` | game-metrics-macro/src/lib.rs:24-34 | An argument yields a name iff it is `name = <string literal>`; the name is that literal. A `name = <non-string literal>`, a bare path or a list yields nothing. |
| `Instrument.NameOverride` | game-metrics-macro/src/lib.rs:22-35 | The override is absent iff no argument yields a name. When present, it is the literal of the first argument that yields one. |
| `Instrument.SpanName` | game-metrics-macro/src/lib.rs:40 | The span name is the override when there is one, and otherwise the function's identifier. |
| `Instrument.Wrap` | game-metrics-macro/src/lib.rs:42-50 | The wrapped body gives back the span name and the original block, kept intact, and the first statement it runs is `let __span = Span::new(name)`. |
| `Instrument.Expand` | game-metrics-macro/src/lib.rs:18-61 | With `disable`, the input is returned unchanged (lines 57-61). Otherwise a function keeps its attributes, visibility and signature, and its body becomes the original block guarded by a span with the resolved name. Any other item panics with the unsupported-type message. |

## Findings

| source | as written | input that shows it | evidently intended | confidence | as-written member | corrected member |
|---|---|---|---|---|---|---|
| src/logging.rs:178 | `*level <= meta.level()`: a record passes when its level is the configured one or more verbose. `log` orders Error (1) below Trace (5), so a more severe record is filtered out. Line 125 repeats the comparison. | `targets = {"app": Info}` with a record of level `Error` for target `app`: dropped, while a `Trace` record passes | `meta.level() <= *level`: the configured level is the most verbose one let through, so it and every more severe level pass | high; not executed | `Logging.EnabledAsWritten` (shown by `Logging.EnabledAsWrittenDropsErrors`) | `Logging.Enabled` (proved by `Logging.EnabledIsSeverityThreshold`) |

Both loggers take the comparison as a parameter (`Logging.Filter`). With `AsWritten` they behave as the code does; with `Corrected` they use the intended filter. Their contracts hold for both. `Logging.LogDiverges` shows one record that the two handle differently.

## Left out

- Threads are not modelled:
  - the workers' outer `while inner_flag` loops;
  - the threaded `flush` busy-wait on `is_empty` (src/metrics.rs:262-266);
  - `join` in the drops;
  - `Arc`/`Mutex` and atomic memory orderings.

  These are concurrency. Only one step of each worker and the counter arithmetic are modelled.
- Two threaded `Metrics` alive at once compete for the events of one queue: each `WorkerStep` consumes what it receives. The duplicate collection promised by the doc comment at src/metrics.rs:284-286 is not modelled, because the code does not do it.
- `Aggregation.Recorded`: records every duration. hdrhistogram's `record` refuses values above its highest trackable value (about 1 s) and the code discards the error, so such a sample would be missing from the real histogram. Bucketing, the precision's effect and the floating-point `mean()` are foreign and not modelled.
- `Metrics.LocalMetrics.constructor`: its `sigfig` has the type `Sigfig` (0 to 5). The code accepts any `u8`, and the first `SpanExit` recorded then panics in `Histogram::new_with_bounds(..).unwrap()` (src/metrics.rs:275). That panic is not modelled.
- `Metrics.ThreadedMetrics.constructor`: the same `sigfig` restriction applies. The panic would occur in the worker thread (src/metrics.rs:303).
- `LegacyMetrics.Metrics.constructor`: the same `sigfig` restriction applies (game-metrics/src/lib.rs:127).
- `Metrics.DropSpan`: requires `start <= now`, which the monotonic clock guarantees. A u64 subtraction underflow is therefore not modelled. The same holds for `LegacyMetrics.DropSpan`.
- The `quanta` clock is foreign. Its readings are the `now` arguments.
- The `disable` feature's no-op `send` and always-`None` `recv` (src/metrics.rs:138-143, 170-175) are not modelled. The `disable` variant of `#[instrument]` is modelled.
- The `threads` build's `Settings::default` (src/logging.rs:48-56) has no `autoflush` field. `ThreadedLogger` ignores that field, so `DefaultSettings` serves both builds.
- The threaded `Logger` beyond its `log` is not modelled:
  - its worker, which prints with a blocking `recv`;
  - `change_settings`;
  - the bounded channel of 4096, whose `send` blocks when full. The model's sends never block.
- The threaded `log` reads the mutex-guarded settings without locking.
- `init` and `log::set_logger` registration are foreign.
- `Settings.paths` and the record's `module_path`, `file` and `line` are copied but never used by the code; the model carries them the same way.
- `syn` parsing and `quote` emission of the macro are not modelled. This includes `parse_macro_input!` reporting malformed token streams, and paths written with a leading `::`. Attribute arguments and items are abstract datatypes.
- src/lib.rs (module declarations and re-exports) is not part of this model, nor are examples/simple.rs and examples/nothread.rs (driver programs that sleep and print).
