/**
 * The logging pipeline of src/logging.rs: per-target level filtering, the
 * non-threaded logger that queues or prints each record and flushes its
 * queue in order, and the filter in front of the threaded logger's channel.
 *
 * `println!` appends a line to a `Console`; the global `LOGGER` is an
 * explicit object; registration with the `log` facade is not modelled.
 */
module Logging {
  import opened Wrappers

  /** `log::Level`, from the most severe to the most verbose. */
  datatype Level = Error | Warn | Info | Debug | Trace {

    /** The discriminant `log` gives each level, which its ordering compares. */
    function Ordinal(): (n: nat)
      ensures 1 <= n <= 5
      ensures n == 1 <==> this == Error
      ensures n == 5 <==> this == Trace
    {
      match this
      case Error => 1
      case Warn => 2
      case Info => 3
      case Debug => 4
      case Trace => 5
    }
  }

  /** Rust's `a <= b` on `log::Level`, whose derived order is the declaration order `Error < Warn < Info < Debug < Trace`. */
  function LevelLe(a: Level, b: Level): (le: bool)
    ensures le <==>
      a == b || a == Error || b == Trace || (a == Warn && (b == Info || b == Debug)) || (a == Info && b == Debug)
  {
    a.Ordinal() <= b.Ordinal()
  }

  /** `<=` on levels is a total order. */
  lemma LevelLeTotalOrder(a: Level, b: Level, c: Level)
    ensures LevelLe(a, a)
    ensures LevelLe(a, b) && LevelLe(b, a) ==> a == b
    ensures LevelLe(a, b) && LevelLe(b, c) ==> LevelLe(a, c)
    ensures LevelLe(a, b) || LevelLe(b, a)
  {
  }

  /** A log record, as the logger copies it into its `InternalRecord`. */
  datatype Record = Record(
    target: string,
    level: Level,
    message: string,
    modulePath: Option<string>,
    file: Option<string>,
    line: Option<nat>)

  /** The logger's settings; `autoflush` exists in the non-threaded build only. */
  datatype Settings = Settings(targets: map<string, Level>, paths: seq<string>, autoflush: bool)

  /** `Settings::default()`: no target configured, and autoflush on. */
  function DefaultSettings(): (s: Settings)
    ensures s.targets == map[] && s.paths == []
    ensures s.autoflush
  {
    Settings(map[], [], true)
  }

  /**
   * `enabled` exactly as written: `targets.get(target).map(|level| *level <=
   * meta.level()).unwrap_or(false)`, so a record passes when its level is
   * the configured one or more verbose.
   */
  function EnabledAsWritten(s: Settings, target: string, level: Level): (b: bool)
    ensures target !in s.targets ==> !b
    ensures target in s.targets ==> (b <==> LevelLe(s.targets[target], level))
  {
    if target in s.targets then LevelLe(s.targets[target], level) else false
  }

  /** With `app` configured at `Info`, the as-written filter drops `Error` records and passes `Trace` ones. */
  lemma EnabledAsWrittenDropsErrors()
    ensures var s := Settings(map["app" := Info], [], true);
      && EnabledAsWritten(s, "app", Info)
      && EnabledAsWritten(s, "app", Trace)
      && !EnabledAsWritten(s, "app", Error)
  {
  }

  /**
   * `enabled` as evidently intended: a configured level is the most verbose
   * level let through for its target, and unconfigured targets are off.
   */
  function Enabled(s: Settings, target: string, level: Level): (b: bool)
    ensures target !in s.targets ==> !b
    ensures target in s.targets ==> (b <==> LevelLe(level, s.targets[target]))
  {
    if target in s.targets then LevelLe(level, s.targets[target]) else false
  }

  /** Whatever passes for a target, every more severe level passes too; the configured level and `Error` always pass. */
  lemma EnabledIsSeverityThreshold(s: Settings, target: string, level: Level, severer: Level)
    ensures Enabled(s, target, level) && LevelLe(severer, level) ==> Enabled(s, target, severer)
    ensures target in s.targets ==> Enabled(s, target, s.targets[target]) && Enabled(s, target, Error)
  {
  }

  /** Under the default settings nothing is enabled. */
  lemma DefaultEnablesNothing(target: string, level: Level)
    ensures !Enabled(DefaultSettings(), target, level)
    ensures !EnabledAsWritten(DefaultSettings(), target, level)
  {
  }

  /**
   * Which comparison `enabled` makes: `AsWritten` is the code's
   * `*level <= meta.level()`, `Corrected` the severity threshold it evidently
   * intends. Both loggers take it as a parameter, so every contract about them
   * holds for the code as written and for the corrected filter alike.
   */
  datatype Filter = AsWritten | Corrected

  /** `enabled` under the chosen comparison. */
  function Passes(f: Filter, s: Settings, target: string, level: Level): bool
  {
    match f
    case AsWritten => EnabledAsWritten(s, target, level)
    case Corrected => Enabled(s, target, level)
  }

  /**
   * The decision in the non-threaded `log`: queue the record, rather than
   * print it at once. Only a configured target with autoflush off is ever
   * queued, and which levels are queued depends on the comparison.
   */
  function Defers(f: Filter, s: Settings, r: Record): (b: bool)
    ensures b ==> r.target in s.targets && !s.autoflush
    ensures f == AsWritten ==>
      (b <==> !s.autoflush && r.target in s.targets && LevelLe(s.targets[r.target], r.level))
    ensures f == Corrected ==>
      (b <==> !s.autoflush && r.target in s.targets && LevelLe(r.level, s.targets[r.target]))
  {
    Passes(f, s, r.target, r.level) && !s.autoflush
  }

  /** With autoflush on, as by default, no record is ever queued, whichever the comparison. */
  lemma AutoflushNeverDefers(f: Filter, s: Settings, r: Record)
    requires s.autoflush
    ensures !Defers(f, s, r)
  {
  }

  /**
   * With `app` at `Info` and autoflush off, an `Error` record for `app` is
   * printed at once by the code as written but queued under the corrected
   * filter.
   */
  lemma LogDiverges()
    ensures var s := Settings(map["app" := Info], [], false);
      var r := Record("app", Error, "m", None, None, None);
      !Defers(AsWritten, s, r) && Defers(Corrected, s, r)
  {
  }

  /** The messages of `rs`, in order: what printing them gives. */
  function Messages(rs: seq<Record>): (m: seq<string>)
    ensures |m| == |rs|
    ensures forall i :: 0 <= i < |rs| ==> m[i] == rs[i].message
  {
    if rs == [] then [] else Messages(rs[..|rs| - 1]) + [rs[|rs| - 1].message]
  }

  /** Standard output: the lines printed so far. */
  class Console {
    var lines: seq<string>

    constructor ()
      ensures lines == []
    {
      lines := [];
    }

    /** `println!("{}", line)`. */
    method PrintLine(line: string)
      modifies this
      ensures lines == old(lines) + [line]
    {
      lines := lines + [line];
    }
  }

  /** The non-threaded `Logger`. */
  class Logger {
    const filter: Filter
    const settings: Settings
    const console: Console
    var queue: seq<Record>

    /**
     * `Logger::new(settings)`, with an empty queue; `Logger::default()` passes
     * `DefaultSettings()`, and the code's own comparison is `AsWritten`.
     */
    constructor (filter: Filter, settings: Settings, console: Console)
      ensures this.filter == filter && this.settings == settings && this.console == console
      ensures queue == []
    {
      this.filter := filter;
      this.settings := settings;
      this.console := console;
      queue := [];
    }

    /** `log`: queues an enabled record when autoflush is off, and prints every other record at once. */
    method Log(r: Record)
      modifies this`queue, console
      ensures Defers(filter, settings, r) ==> queue == old(queue) + [r] && console.lines == old(console.lines)
      ensures !Defers(filter, settings, r) ==> queue == old(queue) && console.lines == old(console.lines) + [r.message]
    {
      if Passes(filter, settings, r.target, r.level) && !settings.autoflush {
        queue := queue + [r];
      } else {
        console.PrintLine(r.message);
      }
    }

    /** `flush`: `while let Some(event) = queue.pop_front()` prints each queued message, oldest first. */
    method Flush()
      modifies this`queue, console
      ensures queue == []
      ensures console.lines == old(console.lines) + Messages(old(queue))
    {
      ghost var q, printed := queue, console.lines;
      ghost var k := 0;
      while queue != []
        invariant 0 <= k <= |q| && queue == q[k..]
        invariant console.lines == printed + Messages(q[..k])
        decreases |queue|
      {
        var r := queue[0];
        queue := queue[1..];
        console.PrintLine(r.message);
        assert q[..k + 1][..k] == q[..k];
        k := k + 1;
      }
      assert q[..k] == q;
    }
  }

  /** The notice the threaded `log` prints when its channel refuses a record. */
  const SendFailureNotice: string := "Failed to write channel: SendError { .. }"

  /**
   * The threaded `Logger` as far as its `log` goes: `sent` are the records
   * handed to the worker's channel; `connected` says whether the channel
   * still has a receiver, without which `send` fails. The logger keeps a
   * `Receiver` of its own, so every logger `new` builds is connected and
   * stays so while it lives.
   */
  class ThreadedLogger {
    const filter: Filter
    const settings: Settings
    const console: Console
    const connected: bool
    var sent: seq<Record>

    /** `Logger::new(settings)`: a fresh bounded channel whose receiving end the logger also holds. */
    constructor (filter: Filter, settings: Settings, console: Console)
      ensures this.filter == filter && this.settings == settings && this.console == console
      ensures connected
      ensures sent == []
    {
      this.filter := filter;
      this.settings := settings;
      this.console := console;
      this.connected := true;
      sent := [];
    }

    /** `log`: only an enabled record is sent; a failed send is reported on the console, not returned. */
    method Log(r: Record)
      modifies this`sent, console
      ensures !Passes(filter, settings, r.target, r.level) ==> sent == old(sent) && console.lines == old(console.lines)
      ensures Passes(filter, settings, r.target, r.level) && connected ==>
        sent == old(sent) + [r] && console.lines == old(console.lines)
      ensures Passes(filter, settings, r.target, r.level) && !connected ==>
        sent == old(sent) && console.lines == old(console.lines) + [SendFailureNotice]
    {
      if Passes(filter, settings, r.target, r.level) {
        if connected {
          sent := sent + [r];
        } else {
          console.PrintLine(SendFailureNotice);
        }
      }
    }
  }
}
