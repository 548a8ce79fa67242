/** The monitoring utilities of app/lib/monitoring.ts: the performance monitor's bounded buffer
    of metrics, its timers, the error reports, and the lazily created shared instances. */
module Monitoring {
  import opened Wrappers

  /** The metadata attached to a metric or an error report. */
  type Metadata = map<string, string>

  /** A recorded measurement: its name, its duration in milliseconds, when it was recorded (in
      milliseconds since the epoch) and its metadata, if any. */
  datatype Metric = Metric(name: string, duration: real, timestamp: int, metadata: Option<Metadata>)

  /** The monitor keeps no more than this many metrics. */
  const Capacity: nat := 100

  /** The last `n` elements of `s`, or all of them when there are fewer. */
  function LastN<T>(s: seq<T>, n: nat): (r: seq<T>)
    ensures |r| == if |s| <= n then |s| else n
    ensures forall i :: 0 <= i < |r| ==> r[i] == s[|s| - |r| + i]
  {
    if |s| > n then s[|s| - n..] else s
  }

  /** Trimming before appending loses nothing that trimming after appending keeps: the buffer
      only ever needs the last `n` entries of the whole history. */
  lemma LastNAppend<T>(h: seq<T>, m: T, n: nat)
    requires n > 0
    ensures LastN(LastN(h, n) + [m], n) == LastN(h + [m], n)
  {
    var l := LastN(h, n);
    var a := LastN(l + [m], n);
    var b := LastN(h + [m], n);
    assert |a| == |b|;
    forall i | 0 <= i < |a|
      ensures a[i] == b[i]
    {
      if i == |a| - 1 {
        assert a[i] == m && b[i] == m;
      } else {
        assert a[i] == (l + [m])[|l| + 1 - |a| + i];
        assert (l + [m])[|l| + 1 - |a| + i] == l[|l| + 1 - |a| + i];
      }
    }
  }

  /** The performance monitor. `history` is every metric recorded since the monitor was created
      or last cleared; the stored list is always the last 100 of them. */
  class PerformanceMonitor {
    var metrics: seq<Metric>
    ghost var history: seq<Metric>

    ghost predicate Valid()
      reads this
    {
      metrics == LastN(history, Capacity)
    }

    constructor ()
      ensures Valid() && metrics == [] && history == []
    {
      metrics := [];
      history := [];
    }

    /** Records a metric stamped with the current time: it becomes the last stored metric, and
        when more than 100 are stored the oldest are dropped. */
    method RecordMetric(name: string, duration: real, metadata: Option<Metadata>, now: int)
      requires Valid()
      modifies this
      ensures Valid()
      ensures history == old(history) + [Metric(name, duration, now, metadata)]
      ensures metrics == LastN(old(metrics) + [Metric(name, duration, now, metadata)], Capacity)
      ensures 1 <= |metrics| <= Capacity && metrics[|metrics| - 1] == Metric(name, duration, now, metadata)
    {
      var metric := Metric(name, duration, now, metadata);
      LastNAppend(history, metric, Capacity);
      metrics := metrics + [metric];
      history := history + [metric];
      if |metrics| > 100 {
        metrics := metrics[|metrics| - 100..];
      }
    }

    /** A fresh array holding the stored metrics; writing to it leaves the monitor alone. */
    method GetMetrics() returns (copy: array<Metric>)
      ensures fresh(copy)
      ensures copy[..] == metrics
    {
      copy := new Metric[|metrics|](i requires 0 <= i < |metrics| reads this => metrics[i]);
    }

    method ClearMetrics()
      modifies this
      ensures Valid() && metrics == [] && history == []
    {
      metrics := [];
      history := [];
    }

    /** Starts timing `name` at the given reading of the high-resolution clock. */
    method StartTimer(name: string, metadata: Option<Metadata>, start: real) returns (t: Timer)
      ensures fresh(t)
      ensures t.monitor == this && t.name == name && t.metadata == metadata && t.start == start
    {
      t := new Timer(this, name, metadata, start);
    }
  }

  /** A running timer of a monitor. */
  class Timer {
    const monitor: PerformanceMonitor
    const name: string
    const metadata: Option<Metadata>
    const start: real

    constructor (monitor: PerformanceMonitor, name: string, metadata: Option<Metadata>, start: real)
      ensures this.monitor == monitor && this.name == name && this.metadata == metadata
      ensures this.start == start
    {
      this.monitor := monitor;
      this.name := name;
      this.metadata := metadata;
      this.start := start;
    }

    /** Stops the timer at the given clock reading: exactly one metric, under the timer's name
        and with the elapsed time, is recorded, and the elapsed time is returned. */
    method End(finish: real, now: int) returns (duration: real)
      requires monitor.Valid()
      modifies monitor
      ensures duration == finish - start
      ensures monitor.Valid()
      ensures monitor.history == old(monitor.history) + [Metric(name, duration, now, metadata)]
    {
      duration := finish - start;
      monitor.RecordMetric(name, duration, metadata, now);
    }
  }

  // ---------------------------------------------------------------- error reports

  /** A thrown value: an `Error` with its message and stack, or anything else, given by its
      string conversion. */
  datatype Thrown = ErrorValue(message: string, stack: Option<string>) | OtherValue(text: string)

  /** The page and browser of a client, absent on the server. */
  datatype Client = Client(href: string, userAgent: string)

  datatype ErrorReport = ErrorReport(message: string, stack: Option<string>, url: string,
                                     userAgent: string, timestamp: int, context: Option<Metadata>)

  /** The report `reportError` builds: the error's message and stack (a non-`Error` value has no
      stack), the page and browser, or "server" for both outside a browser. */
  function BuildReport(error: Thrown, context: Option<Metadata>, client: Option<Client>, now: int)
    : (r: ErrorReport)
    ensures error.ErrorValue? ==> r.stack == error.stack
    ensures error.OtherValue? ==> r.stack == None
    ensures r.message == (if error.ErrorValue? then error.message else error.text)
    ensures client.None? ==> r.url == "server" && r.userAgent == "server"
    ensures client.Some? ==> r.url == client.value.href && r.userAgent == client.value.userAgent
    ensures r.timestamp == now && r.context == context
  {
    ErrorReport(
      if error.ErrorValue? then error.message else error.text,
      if error.ErrorValue? then error.stack else None,
      if client.Some? then client.value.href else "server",
      if client.Some? then client.value.userAgent else "server",
      now,
      context)
  }

  /** The error reporter: where its reports go depends only on whether it runs in production. */
  class ErrorReporter {
    const isProduction: bool

    constructor (isProduction: bool)
      ensures this.isProduction == isProduction
    {
      this.isProduction := isProduction;
    }
  }

  // ---------------------------------------------------------------- shared instances

  /** The two lazily created shared instances (the classes' static `instance` fields). */
  class Instances {
    var monitor: Option<PerformanceMonitor>
    var reporter: Option<ErrorReporter>

    ghost predicate Valid()
      reads this, if monitor.Some? then {monitor.value} else {}
    {
      monitor.Some? ==> monitor.value.Valid()
    }

    constructor ()
      ensures monitor == None && reporter == None && Valid()
    {
      monitor := None;
      reporter := None;
    }

    /** `PerformanceMonitor.getInstance`: the existing monitor, or a new one created once. */
    method GetMonitor() returns (m: PerformanceMonitor)
      requires Valid()
      modifies this
      ensures old(monitor).Some? ==> m == old(monitor).value
      ensures old(monitor).None? ==> fresh(m) && m.metrics == []
      ensures monitor == Some(m) && reporter == old(reporter) && Valid()
    {
      if monitor.None? {
        var created := new PerformanceMonitor();
        monitor := Some(created);
      }
      m := monitor.value;
    }

    /** `ErrorReporter.getInstance`: the existing reporter, or a new one created once. */
    method GetReporter(isProduction: bool) returns (r: ErrorReporter)
      modifies this
      ensures old(reporter).Some? ==> r == old(reporter).value
      ensures old(reporter).None? ==> fresh(r) && r.isProduction == isProduction
      ensures reporter == Some(r) && monitor == old(monitor)
    {
      if reporter.None? {
        var created := new ErrorReporter(isProduction);
        reporter := Some(created);
      }
      r := reporter.value;
    }

    /** Every call hands out the same monitor. */
    method GetMonitorTwice() returns (m1: PerformanceMonitor, m2: PerformanceMonitor)
      requires Valid()
      modifies this
      ensures m1 == m2
    {
      m1 := GetMonitor();
      m2 := GetMonitor();
    }

    /** `recordPerformanceMetric`: records on the shared monitor. */
    method RecordPerformanceMetric(name: string, duration: real, metadata: Option<Metadata>, now: int)
      requires Valid()
      modifies this, if monitor.Some? then {monitor.value} else {}
      ensures Valid() && monitor.Some?
      ensures old(monitor).Some? ==>
        monitor == old(monitor)
        && monitor.value.history == old(monitor.value.history) + [Metric(name, duration, now, metadata)]
      ensures old(monitor).None? ==> monitor.value.history == [Metric(name, duration, now, metadata)]
    {
      var m := GetMonitor();
      m.RecordMetric(name, duration, metadata, now);
    }
  }
}
