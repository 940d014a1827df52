/** The pending and final reports of one kind of shock: a cooldown of ten seconds, a peak search over the
    ten seconds after the trigger, and one final report a trigger unless the kind triggers again first. */
module ShockMachine {
  import opened Options

  const COOLDOWN_MS: int := 10_000
  const PEAK_WINDOW_MS: int := 10_000

  const WEAK_THRESHOLD_FACTOR: real := 0.7
  const METRIC_HISTORY_MAX: nat := 120

  /** What a shock carries unchanged from its trigger to its final report. */
  datatype About = About(direction: int, noiseFlag: int, start: int, context: Option<string>)

  datatype Firing = Firing(magnitude: real, about: About)

  datatype Pending = Pending(trigger: int, peakTs: int, peak: real, expires: int, about: About)

  /** What the engine keeps of one kind. */
  datatype One = One(last: Option<int>, pending: Option<Pending>)

  datatype Report = Report(trigger: int, peakTs: int, peak: real, about: About)

  /** One processed bar as one kind sees it: how its condition fired (if at all), and its metric (if any). */
  datatype Bar = Bar(ts: int, fired: seq<Firing>, metric: Option<real>)

  predicate Cooling(o: One, ts: int) {
    o.last.Some? && ts - o.last.value < COOLDOWN_MS
  }

  function Schedule(o: One, ts: int, f: Firing): One {
    if Cooling(o, ts) then o else One(Some(ts), Some(Pending(ts, ts, f.magnitude, ts + PEAK_WINDOW_MS, f.about)))
  }

  function ScheduleAll(o: One, ts: int, fired: seq<Firing>): One
    decreases |fired|
  {
    if fired == [] then o else Schedule(ScheduleAll(o, ts, fired[..|fired| - 1]), ts, fired[|fired| - 1])
  }

  /** Within one bar only the first firing can start a shock. */
  lemma {:induction false} FirstFiringCounts(o: One, ts: int, fired: seq<Firing>)
    ensures ScheduleAll(o, ts, fired) == if fired == [] || Cooling(o, ts) then o else Schedule(o, ts, fired[0])
    decreases |fired|
  {
    if fired != [] {
      FirstFiringCounts(o, ts, fired[..|fired| - 1]);
    }
  }

  lemma ScheduleMore(o: One, ts: int, fired: seq<Firing>, f: Firing)
    ensures ScheduleAll(o, ts, fired + [f]) == Schedule(ScheduleAll(o, ts, fired), ts, f)
    ensures fired + [] == fired
  {
    assert (fired + [f])[..|fired|] == fired;
  }

  function Observe(p: Pending, ts: int, metric: Option<real>): Pending {
    if ts <= p.expires && metric.Some? && metric.value > p.peak then p.(peak := metric.value, peakTs := ts) else p
  }

  function Finalize(o: One, ts: int, metric: Option<real>): (One, Option<Report>) {
    if o.pending.None? then (o, None)
    else
      var p := Observe(o.pending.value, ts, metric);
      if ts >= p.expires then (o.(pending := None), Some(Report(p.trigger, p.peakTs, p.peak, p.about)))
      else (o.(pending := Some(p)), None)
  }

  function OnBar(o: One, bar: Bar): (One, Option<Report>) {
    Finalize(ScheduleAll(o, bar.ts, bar.fired), bar.ts, bar.metric)
  }

  // ----- where a shock began -----

  datatype Point = Point(ts: int, value: real)

  /** The time of the first point of the unbroken run at or above the weak threshold that ends the history. */
  function StartOf(history: seq<Point>, weak: real, fallback: int): int
    decreases |history|
  {
    if history == [] || history[|history| - 1].value < weak then fallback
    else StartOf(history[..|history| - 1], weak, history[|history| - 1].ts)
  }

  ghost predicate StrongFrom(history: seq<Point>, weak: real, k: nat)
    requires k <= |history|
  {
    && (forall j :: k <= j < |history| ==> history[j].value >= weak)
    && (k > 0 ==> history[k - 1].value < weak)
  }

  /** There is exactly one place from which the history is strong to its end, and it is where the shock began. */
  lemma {:induction false} StartIsUnbroken(history: seq<Point>, weak: real, fallback: int) returns (k: nat)
    ensures k <= |history| && StrongFrom(history, weak, k)
    ensures StartOf(history, weak, fallback) == if k < |history| then history[k].ts else fallback
    ensures forall l: nat :: l <= |history| && StrongFrom(history, weak, l) ==> l == k
    decreases |history|
  {
    k := |history|;
    if history != [] && history[|history| - 1].value >= weak {
      var front := history[..|history| - 1];
      k := StartIsUnbroken(front, weak, history[|history| - 1].ts);
      forall l: nat | l <= |history| && StrongFrom(history, weak, l) ensures l == k {
        assert l < |history| ==> StrongFrom(front, weak, l);
      }
    }
  }

  method FindStart(history: seq<Point>, weak: real, fallback: int) returns (start: int)
    ensures start == StartOf(history, weak, fallback)
  {
    start := fallback;
    var i := |history|;
    assert history[..i] == history;
    while i > 0
      invariant 0 <= i <= |history|
      invariant StartOf(history[..i], weak, start) == StartOf(history, weak, fallback)
    {
      assert history[..i][..i - 1] == history[..i - 1];
      if history[i - 1].value >= weak {
        start := history[i - 1].ts;
      } else {
        break;
      }
      i := i - 1;
    }
  }

  function Points(history: map<int, seq<Point>>, kind: int): seq<Point> {
    if kind in history then history[kind] else []
  }

  /** The history after some points. */
  function AppendedAll(stream: seq<Point>): seq<Point>
    decreases |stream|
  {
    if stream == [] then [] else Appended(AppendedAll(stream[..|stream| - 1]), stream[|stream| - 1])
  }

  /** The history of a kind is always its newest 120 points, in order. */
  lemma {:induction false} MetricsAreSuffix(stream: seq<Point>)
    ensures AppendedAll(stream) == stream[if |stream| > 120 then |stream| - 120 else 0..]
    decreases |stream|
  {
    if stream != [] {
      var front := stream[..|stream| - 1];
      MetricsAreSuffix(front);
      assert stream == front + [stream[|stream| - 1]];
    }
  }

  /** One more point; the oldest of 120 goes. */
  function Appended(points: seq<Point>, point: Point): seq<Point> {
    (if |points| >= METRIC_HISTORY_MAX then points[1..] else points) + [point]
  }

  // ----- the program's form: all kinds in maps -----

  /** A condition that holds on a bar; `strong` is the threshold that it exceeded, 0 when there is none. */
  datatype Call = Call(kind: int, magnitude: real, strong: real, direction: int, noiseFlag: int, context: Option<string>)

  function FiringOf(history: map<int, seq<Point>>, ts: int, call: Call): Firing {
    var start := if call.strong > 0.0 then StartOf(Points(history, call.kind), call.strong * WEAK_THRESHOLD_FACTOR, ts) else ts;
    Firing(call.magnitude, About(call.direction, call.noiseFlag, start, call.context))
  }

  /** Since when the metric has been strong: the start of the unbroken run of points at or above seven tenths
      of the exceeded threshold that ends the history, or the bar itself. */
  ghost predicate BeganAt(points: seq<Point>, strong: real, ts: int, start: int) {
    if strong <= 0.0 then start == ts
    else exists k: nat :: k <= |points| && StrongFrom(points, strong * 0.7, k) && start == if k < |points| then points[k].ts else ts
  }

  lemma StartBegan(points: seq<Point>, strong: real, ts: int)
    ensures BeganAt(points, strong, ts, if strong > 0.0 then StartOf(points, strong * WEAK_THRESHOLD_FACTOR, ts) else ts)
  {
    if strong > 0.0 {
      var k := StartIsUnbroken(points, strong * 0.7, ts);
    }
  }

  function MetricOf(metrics: map<int, real>, kind: int): Option<real> {
    if kind in metrics then Some(metrics[kind]) else None
  }

  function FiredOf(history: map<int, seq<Point>>, ts: int, calls: seq<Call>, kind: int): seq<Firing>
    decreases |calls|
  {
    if calls == [] then []
    else
      var last := calls[|calls| - 1];
      FiredOf(history, ts, calls[..|calls| - 1], kind) + if last.kind == kind then [FiringOf(history, ts, last)] else []
  }

  method Pick<T>(keys: set<T>) returns (key: T)
    requires keys != {}
    ensures key in keys
  {
    key :| key in keys;
  }

  class ShockEngine {
    var lastTrigger: map<int, int>
    var pending: map<int, Pending>
    var history: map<int, seq<Point>>

    function Of(kind: int): One
      reads this
    {
      One(if kind in lastTrigger then Some(lastTrigger[kind]) else None,
          if kind in pending then Some(pending[kind]) else None)
    }

    constructor ()
      ensures history == map[] && forall kind :: Of(kind) == One(None, None)
    {
      lastTrigger, pending, history := map[], map[], map[];
    }

    /** A condition holds: the kind starts a shock unless it is cooling down. */
    method ScheduleShock(ts: int, call: Call) returns (started: bool)
      modifies this`lastTrigger, this`pending
      ensures started <==> !(call.kind in old(lastTrigger) && ts - old(lastTrigger)[call.kind] < 10_000)
      ensures started ==> call.kind in lastTrigger && lastTrigger[call.kind] == ts && call.kind in pending
      ensures started ==>
                var p := pending[call.kind];
                && p == Pending(ts, ts, call.magnitude, ts + 10_000, p.about)
                && p.about == About(call.direction, call.noiseFlag, p.about.start, call.context)
                && BeganAt(Points(history, call.kind), call.strong, ts, p.about.start)
      ensures Of(call.kind) == Schedule(old(Of(call.kind)), ts, FiringOf(history, ts, call))
      ensures forall k :: k != call.kind ==> Of(k) == old(Of(k))
    {
      StartBegan(Points(history, call.kind), call.strong, ts);
      hide StartOf, BeganAt;
      if call.kind in lastTrigger && ts - lastTrigger[call.kind] < COOLDOWN_MS { return false; }
      lastTrigger := lastTrigger[call.kind := ts];
      var start := ts;
      if call.strong > 0.0 {
        start := FindStart(Points(history, call.kind), call.strong * WEAK_THRESHOLD_FACTOR, ts);
      }
      pending := pending[call.kind := Pending(ts, ts, call.magnitude, ts + PEAK_WINDOW_MS,
                                              About(call.direction, call.noiseFlag, start, call.context))];
      return true;
    }

    method RecordMetric(kind: int, ts: int, value: real)
      modifies this`history
      ensures Points(history, kind) == Appended(old(Points(history, kind)), Point(ts, value))
      ensures forall k :: k != kind ==> Points(history, k) == old(Points(history, k))
    {
      var entry := Points(history, kind);
      if |entry| >= METRIC_HISTORY_MAX {
        entry := entry[1..];
      }
      history := history[kind := entry + [Point(ts, value)]];
    }

    method RecordMetrics(ts: int, metrics: map<int, real>)
      modifies this`history
      ensures forall k :: Points(history, k) ==
                          if k in metrics then Appended(old(Points(history, k)), Point(ts, metrics[k])) else old(Points(history, k))
    {
      hide Points, Appended;
      var keys := metrics.Keys;
      while keys != {}
        invariant keys <= metrics.Keys
        invariant forall k :: Points(history, k) ==
                              if k in metrics && k !in keys then Appended(old(Points(history, k)), Point(ts, metrics[k]))
                              else old(Points(history, k))
        decreases keys
      {
        var key := Pick(keys);
        RecordMetric(key, ts, metrics[key]);
        keys := keys - {key};
      }
    }

    lemma IdleKinds(ts: int, metrics: map<int, real>)
      ensures forall k :: k !in pending ==> Finalize(Of(k), ts, MetricOf(metrics, k)) == (Of(k), None)
    {}

    method FinalizePending(ts: int, metrics: map<int, real>) returns (reports: map<int, Report>)
      modifies this`pending
      ensures forall k :: Of(k) == Finalize(old(Of(k)), ts, MetricOf(metrics, k)).0
      ensures forall k :: (if k in reports then Some(reports[k]) else None) == Finalize(old(Of(k)), ts, MetricOf(metrics, k)).1
    {
      hide Finalize, MetricOf;
      reports := map[];
      var keys := pending.Keys;
      IdleKinds(ts, metrics);
      while keys != {}
        invariant forall k :: k in keys ==> Of(k) == old(Of(k)) && k !in reports && k in pending
        invariant forall k :: k !in keys ==> Of(k) == Finalize(old(Of(k)), ts, MetricOf(metrics, k)).0
        invariant forall k :: k !in keys ==>
                    (if k in reports then Some(reports[k]) else None) == Finalize(old(Of(k)), ts, MetricOf(metrics, k)).1
        decreases keys
      {
        var key := Pick(keys);
        var report := FinalizeKind(key, ts, metrics);
        if report.Some? {
          reports := reports[key := report.value];
        }
        keys := keys - {key};
      }
    }

    method FinalizeKind(key: int, ts: int, metrics: map<int, real>) returns (report: Option<Report>)
      requires key in pending
      modifies this`pending
      ensures (Of(key), report) == Finalize(old(Of(key)), ts, MetricOf(metrics, key))
      ensures forall k :: k != key ==> Of(k) == old(Of(k))
    {
      var p := pending[key];
      if ts <= p.expires && key in metrics && metrics[key] > p.peak {
        p := p.(peak := metrics[key], peakTs := ts);
      }
      if ts >= p.expires {
        pending := pending - {key};
        return Some(Report(p.trigger, p.peakTs, p.peak, p.about));
      }
      pending := pending[key := p];
      return None;
    }

    /** One bar: its metrics, every firing in order, then the peak search and the expiry of all kinds. */
    method HandleBar(ts: int, calls: seq<Call>, metrics: map<int, real>) returns (reports: map<int, Report>)
      modifies this
      ensures forall k :: Points(history, k) ==
                          if k in metrics then Appended(old(Points(history, k)), Point(ts, metrics[k])) else old(Points(history, k))
      ensures forall k :: Of(k) == OnBar(old(Of(k)), Bar(ts, FiredOf(history, ts, calls, k), MetricOf(metrics, k))).0
      ensures forall k :: (if k in reports then Some(reports[k]) else None)
                          == OnBar(old(Of(k)), Bar(ts, FiredOf(history, ts, calls, k), MetricOf(metrics, k))).1
    {
      hide Points, Appended, FiringOf, StartOf, Schedule, Finalize;
      RecordMetrics(ts, metrics);
      ScheduleCalls(ts, calls);
      reports := FinalizePending(ts, metrics);
    }

    method ScheduleCalls(ts: int, calls: seq<Call>)
      modifies this`lastTrigger, this`pending
      ensures forall k :: Of(k) == ScheduleAll(old(Of(k)), ts, FiredOf(history, ts, calls, k))
    {
      hide FiringOf, StartOf, Schedule;
      for i := 0 to |calls|
        invariant forall k :: Of(k) == ScheduleAll(old(Of(k)), ts, FiredOf(history, ts, calls[..i], k))
      {
        assert calls[..i + 1][..i] == calls[..i];
        var f := FiringOf(history, ts, calls[i]);
        forall k ensures ScheduleAll(old(Of(k)), ts, FiredOf(history, ts, calls[..i + 1], k))
                         == if calls[i].kind == k then Schedule(Of(k), ts, f) else Of(k)
        {
          ScheduleMore(old(Of(k)), ts, FiredOf(history, ts, calls[..i], k), f);
        }
        var _ := ScheduleShock(ts, calls[i]);
      }
      assert calls[..|calls|] == calls;
    }
  }

  // ----- runs of one kind -----

  datatype Start = Start(bar: nat, ts: int, magnitude: real, about: About)

  datatype Final = Final(start: nat, report: Report)

  /** The state after some bars, with the shocks started and the final reports made so far. */
  datatype Trace = Trace(one: One, starts: seq<Start>, finals: seq<Final>)

  function Run(bars: seq<Bar>, n: nat): Trace
    requires n <= |bars|
    decreases n
  {
    if n == 0 then Trace(One(None, None), [], []) else Step(Run(bars, n - 1), bars[n - 1], n - 1)
  }

  function StartAt(at: nat, bar: Bar): Start
    requires bar.fired != []
  {
    Start(at, bar.ts, bar.fired[0].magnitude, bar.fired[0].about)
  }

  function Step(t: Trace, bar: Bar, at: nat): Trace {
    var starts := if bar.fired != [] && !Cooling(t.one, bar.ts) then t.starts + [StartAt(at, bar)] else t.starts;
    var (one, report) := OnBar(t.one, bar);
    Trace(one, starts,
          if report.Some? then t.finals + [Final(if starts == [] then 0 else |starts| - 1, report.value)] else t.finals)
  }

  /** The highest value seen for shock s over bars s.bar..n within its window, and when it was first seen. */
  function PeakUpto(bars: seq<Bar>, s: Start, n: nat): (real, int)
    requires n <= |bars|
    decreases n
  {
    if n <= s.bar then (s.magnitude, s.ts)
    else
      var before, bar := PeakUpto(bars, s, n - 1), bars[n - 1];
      if bar.ts <= s.ts + 10_000 && bar.metric.Some? && bar.metric.value > before.0 then (bar.metric.value, bar.ts)
      else before
  }

  /** The first of the n bars at or after time t; n when there is none. */
  function ExpiryBar(bars: seq<Bar>, n: nat, t: int): (e: nat)
    requires n <= |bars|
    ensures e <= n
    ensures e < n ==> bars[e].ts >= t
    ensures forall k :: 0 <= k < e ==> bars[k].ts < t
    decreases n
  {
    if n == 0 then 0
    else
      var e := ExpiryBar(bars, n - 1, t);
      if e < n - 1 then e else if bars[n - 1].ts >= t then n - 1 else n
  }

  ghost predicate InTime(bars: seq<Bar>) {
    forall i, j :: 0 <= i < j < |bars| ==> bars[i].ts < bars[j].ts
  }

  function Deadline(s: Start): int {
    s.ts + 10_000
  }

  ghost predicate StartedAt(starts: seq<Start>, bar: nat) {
    exists i :: 0 <= i < |starts| && starts[i].bar == bar
  }

  ghost predicate HasFinal(finals: seq<Final>, i: nat) {
    exists k :: 0 <= k < |finals| && finals[k].start == i
  }

  // ----- the invariant -----

  ghost predicate StartsWell(bars: seq<Bar>, n: nat, starts: seq<Start>)
    requires n <= |bars|
  {
    && (forall i :: 0 <= i < |starts| ==> starts[i].bar < n && bars[starts[i].bar].ts == starts[i].ts)
    && (forall i, j :: 0 <= i < j < |starts| ==> starts[i].ts + COOLDOWN_MS <= starts[j].ts)
  }

  ghost predicate PendingWell(bars: seq<Bar>, n: nat, one: One, starts: seq<Start>)
    requires n <= |bars|
  {
    if starts == [] then one == One(None, None)
    else
      var s := starts[|starts| - 1];
      one == One(Some(s.ts), if ExpiryBar(bars, n, Deadline(s)) < n then None else Some(PendingFor(bars, n, s)))
  }

  function PendingFor(bars: seq<Bar>, n: nat, s: Start): Pending
    requires n <= |bars|
  {
    var peak := PeakUpto(bars, s, n);
    Pending(s.ts, peak.1, peak.0, Deadline(s), s.about)
  }

  ghost predicate FinalsWell(bars: seq<Bar>, n: nat, starts: seq<Start>, finals: seq<Final>)
    requires n <= |bars|
  {
    && (forall k :: 0 <= k < |finals| ==> FinalMatches(bars, n, starts, finals[k]))
    && (forall k, l :: 0 <= k < l < |finals| ==> finals[k].start < finals[l].start)
  }

  ghost predicate FinalMatches(bars: seq<Bar>, n: nat, starts: seq<Start>, f: Final)
    requires n <= |bars|
  {
    && f.start < |starts|
    && ExpiryBar(bars, n, Deadline(starts[f.start])) < n
    && (var peak := PeakUpto(bars, starts[f.start], n); f.report == Report(starts[f.start].ts, peak.1, peak.0, starts[f.start].about))
  }

  ghost predicate Decided(bars: seq<Bar>, n: nat, starts: seq<Start>, finals: seq<Final>)
    requires n <= |bars|
  {
    && (forall i :: 0 <= i < |starts| - 1 ==> ExpiryBar(bars, n, Deadline(starts[i])) < n)
    && (forall i :: 0 <= i < |starts| ==> (HasFinal(finals, i) <==> Settled(bars, n, starts, i)))
  }

  /** The deadline of shock i has passed, and the bar at which it passed did not start another shock. */
  ghost predicate Settled(bars: seq<Bar>, n: nat, starts: seq<Start>, i: nat)
    requires n <= |bars| && i < |starts|
  {
    var e := ExpiryBar(bars, n, Deadline(starts[i]));
    e < n && !StartedAt(starts, e)
  }

  ghost predicate Inv(bars: seq<Bar>, n: nat, t: Trace)
    requires n <= |bars|
  {
    && StartsWell(bars, n, t.starts)
    && PendingWell(bars, n, t.one, t.starts)
    && FinalsWell(bars, n, t.starts, t.finals)
    && Decided(bars, n, t.starts, t.finals)
  }

  // ----- shocks whose deadline has passed -----

  /** Bars after the deadline no longer move the peak. */
  lemma LateBarKeepsPeak(bars: seq<Bar>, s: Start, n: nat)
    requires InTime(bars) && 0 < n <= |bars| && ExpiryBar(bars, n - 1, Deadline(s)) < n - 1
    ensures PeakUpto(bars, s, n) == PeakUpto(bars, s, n - 1)
    ensures ExpiryBar(bars, n, Deadline(s)) == ExpiryBar(bars, n - 1, Deadline(s))
  {
    var e := ExpiryBar(bars, n - 1, Deadline(s));
    assert bars[e].ts < bars[n - 1].ts;
  }

  lemma OldFinalsKept(bars: seq<Bar>, n: nat, starts: seq<Start>, more: seq<Start>, finals: seq<Final>)
    requires InTime(bars) && 0 < n <= |bars| && FinalsWell(bars, n - 1, starts, finals) && starts <= more
    ensures FinalsWell(bars, n, more, finals)
  {
    forall k | 0 <= k < |finals| ensures FinalMatches(bars, n, more, finals[k]) {
      assert FinalMatches(bars, n - 1, starts, finals[k]);
      assert more[finals[k].start] == starts[finals[k].start];
      LateBarKeepsPeak(bars, starts[finals[k].start], n);
    }
  }

  /** A shock whose deadline had passed before bar n - 1 stays as it was. */
  lemma OldDecisionKept(bars: seq<Bar>, n: nat, starts: seq<Start>, more: seq<Start>, i: nat)
    requires InTime(bars) && 0 < n <= |bars| && i < |starts| && starts <= more
    requires forall j :: |starts| <= j < |more| ==> more[j].bar == n - 1
    requires ExpiryBar(bars, n - 1, Deadline(starts[i])) < n - 1
    ensures Settled(bars, n, more, i) <==> Settled(bars, n - 1, starts, i)
    ensures ExpiryBar(bars, n, Deadline(more[i])) < n
  {
    LateBarKeepsPeak(bars, starts[i], n);
    hide InTime, ExpiryBar, PeakUpto;
    var e := ExpiryBar(bars, n, Deadline(starts[i]));
    if StartedAt(starts, e) {
      var j :| 0 <= j < |starts| && starts[j].bar == e;
      assert more[j].bar == e;
    }
    if StartedAt(more, e) {
      var j :| 0 <= j < |more| && more[j].bar == e;
      assert j < |starts| && starts[j].bar == e;
    }
  }

  lemma NoFinalYet(bars: seq<Bar>, n: nat, starts: seq<Start>, finals: seq<Final>, i: nat)
    requires n <= |bars| && FinalsWell(bars, n, starts, finals) && i >= |starts|
    ensures !HasFinal(finals, i)
  {
    forall k | 0 <= k < |finals| ensures finals[k].start != i {
      assert FinalMatches(bars, n, starts, finals[k]);
    }
  }

  // ----- a bar that starts a shock -----

  lemma StartsAppend(bars: seq<Bar>, n: nat, one: One, starts: seq<Start>, s: Start)
    requires 0 < n <= |bars| && StartsWell(bars, n - 1, starts) && PendingWell(bars, n - 1, one, starts)
    requires s.bar == n - 1 && s.ts == bars[n - 1].ts && !Cooling(one, s.ts)
    ensures StartsWell(bars, n, starts + [s])
  {
    hide ExpiryBar, PeakUpto;
    var more := starts + [s];
    forall i, j | 0 <= i < j < |more| ensures more[i].ts + COOLDOWN_MS <= more[j].ts {
      if j == |starts| {
        var last := starts[|starts| - 1];
        assert i < |starts| - 1 ==> starts[i].ts + COOLDOWN_MS <= last.ts;
      }
    }
  }

  lemma FreshShock(bars: seq<Bar>, n: nat, s: Start)
    requires InTime(bars) && 0 < n <= |bars| && s.bar == n - 1 && s.ts == bars[n - 1].ts
    ensures ExpiryBar(bars, n, Deadline(s)) == n
    ensures PendingFor(bars, n, s) == Observe(Pending(s.ts, s.ts, s.magnitude, Deadline(s), s.about), s.ts, bars[n - 1].metric)
  {
    assert PeakUpto(bars, s, n - 1) == (s.magnitude, s.ts);
    assert forall k :: 0 <= k < n ==> bars[k].ts <= s.ts;
  }

  lemma StartDecides(bars: seq<Bar>, n: nat, starts: seq<Start>, finals: seq<Final>, s: Start)
    requires InTime(bars) && 0 < n <= |bars| && s.bar == n - 1 && s.ts == bars[n - 1].ts
    requires FinalsWell(bars, n - 1, starts, finals) && Decided(bars, n - 1, starts, finals)
    requires starts != [] ==> starts[|starts| - 1].ts + COOLDOWN_MS <= s.ts
    ensures Decided(bars, n, starts + [s], finals)
  {
    hide InTime, FinalsWell, HasFinal, Settled, ExpiryBar, FinalMatches;
    var more := starts + [s];
    forall i | 0 <= i < |more|
      ensures i < |more| - 1 ==> ExpiryBar(bars, n, Deadline(more[i])) < n
      ensures HasFinal(finals, i) <==> Settled(bars, n, more, i)
    {
      if i == |starts| {
        NewStartUndecided(bars, n, starts, finals, s);
      } else if ExpiryBar(bars, n - 1, Deadline(starts[i])) < n - 1 {
        OldDecisionKept(bars, n, starts, more, i);
      } else {
        RetriggerDecides(bars, n, starts, finals, s);
      }
    }
  }

  /** The new shock is not decided yet. */
  lemma NewStartUndecided(bars: seq<Bar>, n: nat, starts: seq<Start>, finals: seq<Final>, s: Start)
    requires InTime(bars) && 0 < n <= |bars| && s.bar == n - 1 && s.ts == bars[n - 1].ts
    requires FinalsWell(bars, n - 1, starts, finals)
    ensures !HasFinal(finals, |starts|) && !Settled(bars, n, starts + [s], |starts|)
  {
    FreshShock(bars, n, s);
    NoFinalYet(bars, n - 1, starts, finals, |starts|);
    hide InTime, FinalsWell, HasFinal, ExpiryBar;
  }

  /** The new shock takes the place of one whose deadline passes on the same bar. */
  lemma RetriggerDecides(bars: seq<Bar>, n: nat, starts: seq<Start>, finals: seq<Final>, s: Start)
    requires 0 < n <= |bars| && s.bar == n - 1 && s.ts == bars[n - 1].ts && starts != []
    requires Decided(bars, n - 1, starts, finals) && starts[|starts| - 1].ts + COOLDOWN_MS <= s.ts
    requires ExpiryBar(bars, n - 1, Deadline(starts[|starts| - 1])) == n - 1
    ensures var l := |starts| - 1;
            && ExpiryBar(bars, n, Deadline(starts[l])) == n - 1
            && !HasFinal(finals, l) && !Settled(bars, n, starts + [s], l)
  {
    LastHasNone(bars, n - 1, starts, finals);
    hide HasFinal, Decided;
    var more := starts + [s];
    assert more[|starts|].bar == n - 1;
    assert StartedAt(more, n - 1);
  }

  /** The bar starts a shock. */
  lemma StartKeeps(bars: seq<Bar>, n: nat, t: Trace)
    requires InTime(bars) && 0 < n <= |bars| && Inv(bars, n - 1, t)
    requires bars[n - 1].fired != [] && !Cooling(t.one, bars[n - 1].ts)
    ensures Inv(bars, n, Step(t, bars[n - 1], n - 1))
  {
    var bar := bars[n - 1];
    var s := StartAt(n - 1, bar);
    FirstFiringCounts(t.one, bar.ts, bar.fired);
    FreshShock(bars, n, s);
    StartsAppend(bars, n, t.one, t.starts, s);
    OldFinalsKept(bars, n, t.starts, t.starts + [s], t.finals);
    LastIsSpaced(bars, n, t.starts, s);
    StartDecides(bars, n, t.starts, t.finals, s);
    hide StartsWell, FinalsWell, Decided, ExpiryBar, PeakUpto, InTime, ScheduleAll, PendingFor;
  }

  lemma LastIsSpaced(bars: seq<Bar>, n: nat, starts: seq<Start>, s: Start)
    requires n <= |bars| && StartsWell(bars, n, starts + [s])
    ensures starts != [] ==> starts[|starts| - 1].ts + COOLDOWN_MS <= s.ts
  {
    var more := starts + [s];
    assert more[|starts|] == s;
    assert starts != [] ==> more[|starts| - 1] == starts[|starts| - 1];
  }

  // ----- a bar that starts nothing -----

  lemma QuietOver(bars: seq<Bar>, n: nat, starts: seq<Start>, finals: seq<Final>)
    requires InTime(bars) && 0 < n <= |bars| && Decided(bars, n - 1, starts, finals)
    requires starts != [] ==> ExpiryBar(bars, n - 1, Deadline(starts[|starts| - 1])) < n - 1
    ensures Decided(bars, n, starts, finals)
  {
    forall i | 0 <= i < |starts|
      ensures HasFinal(finals, i) <==> Settled(bars, n, starts, i)
      ensures ExpiryBar(bars, n, Deadline(starts[i])) < n
    {
      OldDecisionKept(bars, n, starts, starts, i);
    }
  }

  /** The pending shock's deadline passes with this bar, or not yet. */
  lemma QuietDecides(bars: seq<Bar>, n: nat, starts: seq<Start>, finals: seq<Final>, more: seq<Final>)
    requires InTime(bars) && 0 < n <= |bars| && starts != [] && Decided(bars, n - 1, starts, finals)
    requires StartsWell(bars, n - 1, starts)
    requires var s := starts[|starts| - 1];
             && ExpiryBar(bars, n - 1, Deadline(s)) == n - 1
             && (if bars[n - 1].ts >= Deadline(s) then |more| == |finals| + 1 && finals <= more && more[|finals|].start == |starts| - 1
                 else more == finals)
    ensures Decided(bars, n, starts, more)
  {
    var l := |starts| - 1;
    assert !Settled(bars, n - 1, starts, l);
    assert !StartedAt(starts, n - 1);
    assert bars[n - 1].ts >= Deadline(starts[l]) ==> more[|finals|].start == l;
    forall i | 0 <= i < |starts|
      ensures i < l ==> ExpiryBar(bars, n, Deadline(starts[i])) < n
      ensures HasFinal(more, i) <==> Settled(bars, n, starts, i)
    {
      if i < l {
        OldDecisionKept(bars, n, starts, starts, i);
        SameFinals(finals, more, i, l);
      }
    }
  }

  lemma SameFinals(finals: seq<Final>, more: seq<Final>, i: nat, l: nat)
    requires i != l && (more == finals || (|more| == |finals| + 1 && finals <= more && more[|finals|].start == l))
    ensures HasFinal(more, i) <==> HasFinal(finals, i)
  {
    if HasFinal(finals, i) {
      var k :| 0 <= k < |finals| && finals[k].start == i;
      assert more[k].start == i;
    }
    if HasFinal(more, i) {
      var k :| 0 <= k < |more| && more[k].start == i;
      assert finals[k].start == i;
    }
  }

  lemma ReportFits(bars: seq<Bar>, n: nat, starts: seq<Start>, finals: seq<Final>, f: Final)
    requires n <= |bars| && FinalsWell(bars, n, starts, finals) && FinalMatches(bars, n, starts, f)
    requires f.start == |starts| - 1 && !HasFinal(finals, f.start)
    ensures FinalsWell(bars, n, starts, finals + [f])
  {
    forall k | 0 <= k < |finals| ensures finals[k].start < f.start {
      assert FinalMatches(bars, n, starts, finals[k]);
      assert finals[k].start == f.start ==> HasFinal(finals, f.start);
    }
  }

  /** One more bar for a shock still within its window. */
  lemma PendingSteps(bars: seq<Bar>, n: nat, s: Start)
    requires InTime(bars) && 0 < n <= |bars| && s.bar < n - 1 && ExpiryBar(bars, n - 1, Deadline(s)) == n - 1
    ensures PendingFor(bars, n, s) == Observe(PendingFor(bars, n - 1, s), bars[n - 1].ts, bars[n - 1].metric)
    ensures ExpiryBar(bars, n, Deadline(s)) == if bars[n - 1].ts >= Deadline(s) then n - 1 else n
  {}

  lemma StartsStay(bars: seq<Bar>, n: nat, starts: seq<Start>)
    requires 0 < n <= |bars| && StartsWell(bars, n - 1, starts)
    ensures StartsWell(bars, n, starts) && (starts != [] ==> starts[|starts| - 1].bar < n - 1)
  {}

  lemma LastHasNone(bars: seq<Bar>, n: nat, starts: seq<Start>, finals: seq<Final>)
    requires n <= |bars| && Decided(bars, n, starts, finals)
    requires starts != [] && ExpiryBar(bars, n, Deadline(starts[|starts| - 1])) == n
    ensures !HasFinal(finals, |starts| - 1)
  {
    assert !Settled(bars, n, starts, |starts| - 1);
  }

  lemma ReportMatches(bars: seq<Bar>, n: nat, starts: seq<Start>)
    requires n <= |bars| && starts != []
    requires ExpiryBar(bars, n, Deadline(starts[|starts| - 1])) < n
    ensures var p := PendingFor(bars, n, starts[|starts| - 1]);
            FinalMatches(bars, n, starts, Final(|starts| - 1, Report(p.trigger, p.peakTs, p.peak, p.about)))
  {}

  /** A bar that starts nothing only moves the pending shock on, or ends it. */
  lemma QuietStep(t: Trace, bar: Bar, at: nat)
    requires (bar.fired == [] || Cooling(t.one, bar.ts)) && t.one.pending.Some? && t.starts != []
    ensures var p, u := Observe(t.one.pending.value, bar.ts, bar.metric), Step(t, bar, at);
            && u.starts == t.starts
            && (if bar.ts >= p.expires then
                  && u.one == t.one.(pending := None)
                  && u.finals == t.finals + [Final(|t.starts| - 1, Report(p.trigger, p.peakTs, p.peak, p.about))]
                else u.one == t.one.(pending := Some(p)) && u.finals == t.finals)
  {
    FirstFiringCounts(t.one, bar.ts, bar.fired);
    hide ScheduleAll;
  }

  lemma QuietPending(bars: seq<Bar>, n: nat, t: Trace)
    requires InTime(bars) && 0 < n <= |bars| && Inv(bars, n - 1, t)
    requires bars[n - 1].fired == [] || Cooling(t.one, bars[n - 1].ts)
    requires t.starts != [] && ExpiryBar(bars, n - 1, Deadline(t.starts[|t.starts| - 1])) == n - 1
    ensures Inv(bars, n, Step(t, bars[n - 1], n - 1))
  {
    hide ExpiryBar, PeakUpto, InTime, Step, Cooling, Observe, HasFinal, StartsWell, FinalsWell, Decided, PendingFor, Deadline, FinalMatches;
    var bar, s := bars[n - 1], t.starts[|t.starts| - 1];
    QuietStep(t, bar, n - 1);
    StartsStay(bars, n, t.starts);
    PendingSteps(bars, n, s);
    OldFinalsKept(bars, n, t.starts, t.starts, t.finals);
    LastHasNone(bars, n - 1, t.starts, t.finals);
    var more := t.finals;
    if bar.ts >= Deadline(s) {
      var p := PendingFor(bars, n, s);
      var f := Final(|t.starts| - 1, Report(p.trigger, p.peakTs, p.peak, p.about));
      more := t.finals + [f];
      ReportMatches(bars, n, t.starts);
      ReportFits(bars, n, t.starts, t.finals, f);
    }
    QuietDecides(bars, n, t.starts, t.finals, more);
    PendingExpires(bars, n, s);
  }

  lemma PendingExpires(bars: seq<Bar>, n: nat, s: Start)
    requires n <= |bars|
    ensures PendingFor(bars, n, s).expires == Deadline(s)
  {}

  lemma QuietDone(bars: seq<Bar>, n: nat, t: Trace)
    requires InTime(bars) && 0 < n <= |bars| && Inv(bars, n - 1, t)
    requires bars[n - 1].fired == [] || Cooling(t.one, bars[n - 1].ts)
    requires t.starts != [] ==> ExpiryBar(bars, n - 1, Deadline(t.starts[|t.starts| - 1])) < n - 1
    ensures Inv(bars, n, Step(t, bars[n - 1], n - 1))
  {
    hide ExpiryBar, PeakUpto, InTime, ScheduleAll, StartsWell, FinalsWell, Decided, PendingFor, Deadline;
    FirstFiringCounts(t.one, bars[n - 1].ts, bars[n - 1].fired);
    OldFinalsKept(bars, n, t.starts, t.starts, t.finals);
    QuietOver(bars, n, t.starts, t.finals);
    StartsStay(bars, n, t.starts);
    if t.starts != [] {
      LateBarKeepsPeak(bars, t.starts[|t.starts| - 1], n);
    }
  }

  lemma QuietKeeps(bars: seq<Bar>, n: nat, t: Trace)
    requires InTime(bars) && 0 < n <= |bars| && Inv(bars, n - 1, t)
    requires bars[n - 1].fired == [] || Cooling(t.one, bars[n - 1].ts)
    ensures Inv(bars, n, Step(t, bars[n - 1], n - 1))
  {
    hide Inv, Step;
    if t.starts != [] && ExpiryBar(bars, n - 1, Deadline(t.starts[|t.starts| - 1])) == n - 1 {
      QuietPending(bars, n, t);
    } else {
      QuietDone(bars, n, t);
    }
  }

  lemma {:induction false} RunKeeps(bars: seq<Bar>, n: nat)
    requires InTime(bars) && n <= |bars|
    ensures Inv(bars, n, Run(bars, n))
    decreases n
  {
    if n > 0 {
      RunKeeps(bars, n - 1);
      hide Inv;
      if bars[n - 1].fired != [] && !Cooling(Run(bars, n - 1).one, bars[n - 1].ts) {
        StartKeeps(bars, n, Run(bars, n - 1));
      } else {
        QuietKeeps(bars, n, Run(bars, n - 1));
      }
    }
  }

  // ----- the theorems -----

  /** Two shocks of a kind start at least ten seconds apart. */
  lemma StartsAreSpaced(bars: seq<Bar>, i: nat, j: nat)
    requires InTime(bars) && i < j < |Run(bars, |bars|).starts|
    ensures var starts := Run(bars, |bars|).starts; starts[j].ts - starts[i].ts >= 10_000
  {
    RunKeeps(bars, |bars|);
  }

  /** Each final report belongs to one started shock, no shock has two, and it reports that shock's peak. */
  lemma FinalReportsThePeak(bars: seq<Bar>, k: nat, l: nat)
    requires InTime(bars) && k < |Run(bars, |bars|).finals| && l < |Run(bars, |bars|).finals|
    ensures var t := Run(bars, |bars|);
            && (t.finals[k].start == t.finals[l].start ==> k == l)
            && t.finals[k].start < |t.starts|
            && (var s := t.starts[t.finals[k].start];
                var peak := PeakUpto(bars, s, |bars|);
                t.finals[k].report == Report(s.ts, peak.1, peak.0, s.about))
  {
    hide Run;
    RunKeeps(bars, |bars|);
    var t := Run(bars, |bars|);
    assert FinalMatches(bars, |bars|, t.starts, t.finals[k]);
  }

  /** Whether bar k counts for the peak of s. */
  predicate Observed(bars: seq<Bar>, s: Start, k: nat)
    requires k < |bars|
  {
    s.bar <= k && bars[k].ts <= Deadline(s) && bars[k].metric.Some?
  }

  /** The peak is the maximum of the trigger value and the metrics up to ten seconds on, at its first bar. */
  lemma {:induction false} PeakIsFirstMaximum(bars: seq<Bar>, s: Start, n: nat)
    requires InTime(bars) && n <= |bars|
    ensures var (peak, ts) := PeakUpto(bars, s, n);
            && peak >= s.magnitude
            && (forall k :: 0 <= k < n && Observed(bars, s, k) ==> bars[k].metric.value <= peak)
            && (if peak == s.magnitude then ts == s.ts
                else exists k :: 0 <= k < n && Observed(bars, s, k) && bars[k].metric.value == peak && bars[k].ts == ts
                               && forall j :: 0 <= j < k && Observed(bars, s, j) ==> bars[j].metric.value < peak)
    decreases n
  {
    if n > s.bar {
      PeakIsFirstMaximum(bars, s, n - 1);
      var before, now := PeakUpto(bars, s, n - 1), PeakUpto(bars, s, n);
      if now != before {
        assert Observed(bars, s, n - 1);
        assert forall j :: 0 <= j < n - 1 && Observed(bars, s, j) ==> bars[j].metric.value < now.0;
      } else if now.0 != s.magnitude {
        var k :| 0 <= k < n - 1 && Observed(bars, s, k) && bars[k].metric.value == now.0 && bars[k].ts == now.1
                 && forall j :: 0 <= j < k && Observed(bars, s, j) ==> bars[j].metric.value < now.0;
        assert Observed(bars, s, k);
      }
    }
  }

  /** A shock starts only on a bar on which its kind fired, and later bars only add later shocks. */
  lemma {:induction false} StartsGrow(bars: seq<Bar>, m: nat, n: nat)
    requires m <= n <= |bars|
    ensures var early, late := Run(bars, m).starts, Run(bars, n).starts;
            && early <= late
            && (forall i :: |early| <= i < |late| ==> m <= late[i].bar)
            && (forall i :: 0 <= i < |late| ==> late[i].bar < n && bars[late[i].bar].fired != [])
    decreases n
  {
    hide OnBar, Cooling;
    if m < n {
      StartsGrow(bars, m, n - 1);
    } else if n > 0 {
      StartsGrow(bars, n - 1, n - 1);
    }
  }

  /** When the bar that ends the window of shock i comes, i is the last shock of its kind, and the kind has
      stopped cooling: cooldown and peak window are equally long. */
  lemma FreeAtExpiry(bars: seq<Bar>, i: nat, e: nat)
    requires InTime(bars) && i < |Run(bars, |bars|).starts|
    requires e == ExpiryBar(bars, |bars|, Deadline(Run(bars, |bars|).starts[i])) && e < |bars|
    ensures !Cooling(Run(bars, e).one, bars[e].ts)
  {
    hide Run, Inv, StartsWell, PeakUpto;
    var starts, t := Run(bars, |bars|).starts, Run(bars, e);
    StartsGrow(bars, e, |bars|);
    RunKeeps(bars, |bars|);
    RunKeeps(bars, e);
    LastTrigger(bars, |bars|, Run(bars, |bars|));
    StartIsEarlier(bars, starts, i, e);
    assert i < |t.starts| && t.starts[i] == starts[i];
    LastTrigger(bars, e, t);
    LastBefore(bars, t.starts, i, e);
  }

  lemma LastTrigger(bars: seq<Bar>, n: nat, t: Trace)
    requires n <= |bars| && Inv(bars, n, t) && t.starts != []
    ensures StartsWell(bars, n, t.starts) && t.one.last == Some(t.starts[|t.starts| - 1].ts)
  {}

  lemma StartIsEarlier(bars: seq<Bar>, starts: seq<Start>, i: nat, e: nat)
    requires InTime(bars) && StartsWell(bars, |bars|, starts) && i < |starts|
    requires e < |bars| && bars[e].ts >= Deadline(starts[i])
    ensures starts[i].bar < e
  {
    assert bars[starts[i].bar].ts < bars[e].ts;
  }

  lemma LastBefore(bars: seq<Bar>, starts: seq<Start>, i: nat, e: nat)
    requires e <= |bars| && StartsWell(bars, e, starts) && i < |starts|
    requires forall k :: 0 <= k < e ==> bars[k].ts < Deadline(starts[i])
    ensures i == |starts| - 1
  {
    assert i < |starts| - 1 ==> starts[i].ts + COOLDOWN_MS <= starts[|starts| - 1].ts;
  }

  /** On the bar that ends the window of a shock, the kind starts anew if and only if it fires. */
  lemma RestartsIffFires(bars: seq<Bar>, i: nat, e: nat)
    requires InTime(bars) && i < |Run(bars, |bars|).starts|
    requires e == ExpiryBar(bars, |bars|, Deadline(Run(bars, |bars|).starts[i])) && e < |bars|
    ensures StartedAt(Run(bars, |bars|).starts, e) <==> bars[e].fired != []
  {
    hide ExpiryBar, InTime, Cooling, OnBar;
    StartsGrow(bars, |bars|, |bars|);
    if bars[e].fired != [] {
      FreeAtExpiry(bars, i, e);
      StartsGrow(bars, e + 1, |bars|);
      var early := Run(bars, e + 1).starts;
      assert early == Run(bars, e).starts + [StartAt(e, bars[e])];
      hide Run;
      assert Run(bars, |bars|).starts[|early| - 1] == early[|early| - 1];
    }
  }

  /** Exactly when a shock gets its final report: a bar at or after its deadline was processed, and on the
      first such bar its kind did not fire. */
  lemma FinalIffNotRetriggered(bars: seq<Bar>, i: nat)
    requires InTime(bars) && i < |Run(bars, |bars|).starts|
    ensures var t := Run(bars, |bars|);
            var e := ExpiryBar(bars, |bars|, Deadline(t.starts[i]));
            HasFinal(t.finals, i) <==> e < |bars| && bars[e].fired == []
  {
    hide Run, InTime;
    var t := Run(bars, |bars|);
    var e := ExpiryBar(bars, |bars|, Deadline(t.starts[i]));
    hide ExpiryBar;
    RunKeeps(bars, |bars|);
    assert Settled(bars, |bars|, t.starts, i) <==> HasFinal(t.finals, i);
    if e < |bars| {
      RestartsIffFires(bars, i, e);
    }
  }

  /** The retrigger that costs a report: the kind fires again on the very bar that ends the window. */
  lemma RetriggerLosesFinal()
    ensures var f := Firing(5.0, About(1, 0, 0, None));
            var bars := [Bar(1_000, [f], None), Bar(11_000, [f], None)];
            var t := Run(bars, 2);
            InTime(bars) && |t.starts| == 2 && t.finals == [] && t.one.pending.value.trigger == 11_000
  {
    var f := Firing(5.0, About(1, 0, 0, None));
    var bars := [Bar(1_000, [f], None), Bar(11_000, [f], None)];
    FirstFiringCounts(One(None, None), 1_000, [f]);
    assert Run(bars, 0) == Trace(One(None, None), [], []);
    var first := Pending(1_000, 1_000, 5.0, 11_000, f.about);
    assert Run(bars, 1) == Trace(One(Some(1_000), Some(first)), [StartAt(0, bars[0])], []);
    FirstFiringCounts(One(Some(1_000), Some(first)), 11_000, [f]);
  }
}
