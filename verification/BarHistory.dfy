/** The stored bars of a token and the response that is measured on them after a shock. */
module BarHistory {
  import opened Options
  import Watermark

  const HISTORY_MAX: nat := 600

  datatype Bar = Bar(second: int, lastPrice: Option<real>, midState: Option<real>, mid: Option<real>,
                     staleness: Option<int>, volume: real, cvd: real,
                     spread: Option<real>, depthBid: Option<real>, depthAsk: Option<real>, liquidityPull: int)

  ghost predicate Sorted(history: seq<Bar>) {
    forall i, j :: 0 <= i < j < |history| ==> history[i].second <= history[j].second
  }

  // ----- storing -----

  class History {
    var bars: seq<Bar>

    constructor ()
      ensures bars == []
    {
      bars := [];
    }

    method Store(bar: Bar)
      modifies this
      ensures bars == Stored(old(bars), bar)
    {
      bars := bars + [bar];
      if |bars| > HISTORY_MAX {
        bars := bars[1..];
      }
    }
  }

  function Stored(bars: seq<Bar>, bar: Bar): seq<Bar> {
    var more := bars + [bar];
    if |more| > HISTORY_MAX then more[1..] else more
  }

  function StoredAll(stream: seq<Bar>): seq<Bar>
    decreases |stream|
  {
    if stream == [] then [] else Stored(StoredAll(stream[..|stream| - 1]), stream[|stream| - 1])
  }

  /** The history is always the newest 600 bars received, in order. */
  lemma {:induction false} HistoryIsSuffix(stream: seq<Bar>)
    ensures StoredAll(stream) == stream[if |stream| > 600 then |stream| - 600 else 0..]
    decreases |stream|
  {
    if stream != [] {
      var front := stream[..|stream| - 1];
      HistoryIsSuffix(front);
      assert stream == front + [stream[|stream| - 1]];
    }
  }

  lemma HistoryStaysSorted(stream: seq<Bar>)
    requires Sorted(stream)
    ensures Sorted(StoredAll(stream)) && |StoredAll(stream)| <= 600
  {
    HistoryIsSuffix(stream);
  }

  /** The stream of one token: the shard's emitted bars in order, each sent any number of times (once to
      every pair that has the token); `origin` says which emitted bar each entry is. */
  ghost predicate SentInOrder(stream: seq<Bar>, emitted: seq<Watermark.Bar>, origin: seq<nat>) {
    && |origin| == |stream|
    && (forall i :: 0 <= i < |stream| ==> origin[i] < |emitted| && stream[i].second == emitted[origin[i]].second)
    && (forall i, j :: 0 <= i < j < |origin| ==> origin[i] <= origin[j])
  }

  /** So what a shard emits is stored in order. */
  lemma EmittedIsSorted(first: int, msgs: seq<Watermark.Message>, stream: seq<Bar>, origin: seq<nat>)
    requires first >= 1 && SentInOrder(stream, Watermark.Run(first, msgs).emitted, origin)
    ensures Sorted(stream) && Sorted(StoredAll(stream))
  {
    var emitted := Watermark.Run(first, msgs).emitted;
    forall i | 0 <= i < |stream| ensures stream[i].second == first + origin[i] {
      Watermark.BarsAreConsecutiveAndExact(first, msgs, origin[i]);
    }
    assert Sorted(stream);
    HistoryStaysSorted(stream);
  }

  // ----- searching -----

  /** The newest stored bar with t - gap <= second <= t; none exactly when there is no such bar. */
  method FindWithLookback(history: seq<Bar>, t: int, gap: nat) returns (r: Option<Bar>)
    requires Sorted(history)
    ensures r == Lookback(history, t, gap)
  {
    var minSecond := t - gap;
    var i := |history|;
    assert history[..i] == history;
    while i > 0
      invariant 0 <= i <= |history|
      invariant Lookback(history[..i], t, gap) == Lookback(history, t, gap)
    {
      assert history[..i][..i - 1] == history[..i - 1];
      i := i - 1;
      var bar := history[i];
      if bar.second > t { continue; }
      if bar.second < minSecond {
        NothingEarlier(history[..i], t, gap);
        return None;
      }
      return Some(bar);
    }
    assert history[..0] == [];
    return None;
  }

  predicate InReach(bar: Bar, t: int, gap: nat) {
    t - gap <= bar.second <= t
  }

  /** The last entry within reach. */
  function Lookback(history: seq<Bar>, t: int, gap: nat): Option<Bar>
    decreases |history|
  {
    if history == [] then None
    else if InReach(history[|history| - 1], t, gap) then Some(history[|history| - 1])
    else Lookback(history[..|history| - 1], t, gap)
  }

  lemma {:induction false} NothingEarlier(history: seq<Bar>, t: int, gap: nat)
    requires forall i :: 0 <= i < |history| ==> history[i].second < t - gap
    ensures Lookback(history, t, gap) == None
    decreases |history|
  {
    if history != [] {
      NothingEarlier(history[..|history| - 1], t, gap);
    }
  }

  /** What the search means: the latest second within reach, or nothing within reach. */
  lemma {:induction false} LookbackIsLatest(history: seq<Bar>, t: int, gap: nat)
    requires Sorted(history)
    ensures var r := Lookback(history, t, gap);
            && (r.Some? ==> r.value in history && InReach(r.value, t, gap))
            && (forall i :: 0 <= i < |history| && InReach(history[i], t, gap) ==>
                              r.Some? && history[i].second <= r.value.second)
    decreases |history|
  {
    if history != [] && !InReach(history[|history| - 1], t, gap) {
      LookbackIsLatest(history[..|history| - 1], t, gap);
    }
  }

  /** Binary search for the first index past second t. */
  method FirstIndexAfter(history: seq<Bar>, t: int) returns (lo: nat)
    requires Sorted(history)
    ensures lo <= |history|
    ensures forall i :: 0 <= i < |history| ==> (i < lo <==> history[i].second <= t)
  {
    lo := 0;
    var hi: nat := |history|;
    while lo < hi
      invariant lo <= hi <= |history|
      invariant forall i :: 0 <= i < lo ==> history[i].second <= t
      invariant forall i :: hi <= i < |history| ==> history[i].second > t
    {
      var mid := (lo + hi) / 2;
      if history[mid].second <= t {
        lo := mid + 1;
      } else {
        hi := mid;
      }
    }
  }

  // ----- measuring -----

  function PriceSignal(bar: Bar): Option<real> {
    if bar.lastPrice.Some? then bar.lastPrice else if bar.midState.Some? then bar.midState else bar.mid
  }

  predicate IsValid(bar: Bar, maxStale: int) {
    PriceSignal(bar).Some? && bar.staleness.Some? && bar.staleness.value <= maxStale
  }

  predicate Moved(from: real, to: real, eps: real) {
    (if to >= from then to - from else from - to) > eps
  }

  /** The bars with trigger < second <= target, in stored order. */
  function Window(history: seq<Bar>, trigger: int, target: int): seq<Bar>
    decreases |history|
  {
    if history == [] then []
    else
      var last := history[|history| - 1];
      Window(history[..|history| - 1], trigger, target) + if trigger < last.second <= target then [last] else []
  }

  function VolumeOf(bars: seq<Bar>): real
    decreases |bars|
  {
    if bars == [] then 0.0 else VolumeOf(bars[..|bars| - 1]) + bars[|bars| - 1].volume
  }

  function CvdOf(bars: seq<Bar>): real
    decreases |bars|
  {
    if bars == [] then 0.0 else CvdOf(bars[..|bars| - 1]) + bars[|bars| - 1].cvd
  }

  /** A bar that shows the first move away from the baseline price. */
  predicate Qualifies(bar: Bar, baseline: real, maxStale: int, eps: real) {
    IsValid(bar, maxStale) && Moved(baseline, PriceSignal(bar).value, eps)
  }

  function FirstMove(bars: seq<Bar>, baseline: real, maxStale: int, eps: real): Option<Bar>
    decreases |bars|
  {
    if bars == [] then None
    else if Qualifies(bars[0], baseline, maxStale, eps) then Some(bars[0])
    else FirstMove(bars[1..], baseline, maxStale, eps)
  }

  /** `lo` and `hi` cut the history at trigger and target. */
  ghost predicate Cuts(history: seq<Bar>, trigger: int, target: int, lo: nat, hi: nat) {
    && lo <= hi <= |history|
    && (forall i :: 0 <= i < lo ==> history[i].second <= trigger)
    && (forall i :: lo <= i < hi ==> trigger < history[i].second <= target)
    && (forall i :: hi <= i < |history| ==> !(trigger < history[i].second <= target))
  }

  lemma {:induction false} WindowIsSlice(history: seq<Bar>, trigger: int, target: int, lo: nat, hi: nat)
    requires Cuts(history, trigger, target, lo, hi)
    ensures Window(history, trigger, target) == history[lo..hi]
    decreases |history|
  {
    if history != [] {
      var n := |history| - 1;
      var front := history[..n];
      if lo < hi == |history| {
        WindowIsSlice(front, trigger, target, lo, n);
        assert history[lo..hi] == front[lo..n] + [history[n]];
      } else if hi == |history| {
        WindowIsSlice(front, trigger, target, n, n);
      } else {
        WindowIsSlice(front, trigger, target, lo, hi);
        assert history[lo..hi] == front[lo..hi];
      }
    }
  }

  /** The window holds exactly the entries between trigger and target, once each. */
  lemma {:induction false} WindowMembers(history: seq<Bar>, trigger: int, target: int, bar: Bar)
    ensures multiset(Window(history, trigger, target))[bar]
            == if trigger < bar.second <= target then multiset(history)[bar] else 0
    decreases |history|
  {
    if history != [] {
      var front := history[..|history| - 1];
      WindowMembers(front, trigger, target, bar);
      assert history == front + [history[|history| - 1]];
    }
  }

  /** How many bars were received after the trigger second. */
  function ReceivedAfter(stream: seq<Bar>, trigger: int): nat
    decreases |stream|
  {
    if stream == [] then 0
    else ReceivedAfter(stream[..|stream| - 1], trigger) + if stream[|stream| - 1].second > trigger then 1 else 0
  }

  lemma {:induction false} WindowConcat(a: seq<Bar>, b: seq<Bar>, trigger: int, target: int)
    ensures Window(a + b, trigger, target) == Window(a, trigger, target) + Window(b, trigger, target)
    decreases |b|
  {
    if b == [] {
      assert a + b == a;
    } else {
      assert (a + b)[..|a + b| - 1] == a + b[..|b| - 1];
      WindowConcat(a, b[..|b| - 1], trigger, target);
    }
  }

  /** In a sorted stream the bars received after the trigger are the last ones. */
  lemma {:induction false} AfterIsSuffix(stream: seq<Bar>, trigger: int)
    requires Sorted(stream)
    ensures ReceivedAfter(stream, trigger) <= |stream|
    ensures forall i :: 0 <= i < |stream| ==> (stream[i].second > trigger <==> i >= |stream| - ReceivedAfter(stream, trigger))
    decreases |stream|
  {
    if stream != [] {
      AfterIsSuffix(stream[..|stream| - 1], trigger);
    }
  }

  lemma NothingIn(stream: seq<Bar>, trigger: int, target: int)
    ensures Window(stream, trigger, target) == [] <==> forall i :: 0 <= i < |stream| ==> !(trigger < stream[i].second <= target)
  {
    var w := Window(stream, trigger, target);
    forall i | 0 <= i < |stream| && trigger < stream[i].second <= target ensures w != [] {
      WindowMembers(stream, trigger, target, stream[i]);
      assert stream[i] in multiset(stream) && stream[i] in multiset(w);
    }
    if w != [] {
      WindowMembers(stream, trigger, target, w[0]);
      assert w[0] in multiset(w) && w[0] in multiset(stream);
      var i :| 0 <= i < |stream| && stream[i] == w[0];
    }
  }

  /** The trim to 600 entries leaves the window whole if and only if it is empty anyway or at most 600 bars
      were received after the trigger second. */
  lemma WindowIsWholeIff(stream: seq<Bar>, trigger: int, target: int)
    requires Sorted(stream)
    ensures Window(StoredAll(stream), trigger, target) == Window(stream, trigger, target)
            <==> Window(stream, trigger, target) == [] || ReceivedAfter(stream, trigger) <= 600
  {
    HistoryIsSuffix(stream);
    AfterIsSuffix(stream, trigger);
    hide Window, StoredAll, ReceivedAfter;
    var n := if |stream| > HISTORY_MAX then |stream| - HISTORY_MAX else 0;
    var cut, kept := stream[..n], stream[n..];
    assert stream == cut + kept;
    WindowConcat(cut, kept, trigger, target);
    NothingIn(cut, trigger, target);
    NothingIn(stream, trigger, target);
    var first := |stream| - ReceivedAfter(stream, trigger);
    assert forall i :: 0 <= i < n ==> cut[i] == stream[i];
    if Window(stream, trigger, target) != [] && first < n {
      FirstIsInside(stream, trigger, target, first);
      assert cut[first] == stream[first];
    }
  }

  /** When the window is not empty, the first bar after the trigger is in it. */
  lemma FirstIsInside(stream: seq<Bar>, trigger: int, target: int, first: nat)
    requires Sorted(stream) && Window(stream, trigger, target) != [] && first < |stream|
    requires forall i :: 0 <= i < |stream| ==> (stream[i].second > trigger <==> i >= first)
    ensures trigger < stream[first].second <= target
  {
    NothingIn(stream, trigger, target);
    var i :| 0 <= i < |stream| && trigger < stream[i].second <= target;
    assert first <= i;
  }

  /** The first move is the earliest qualifying second of the window, between 1 and the horizon. */
  lemma {:induction false} FirstMoveIsEarliest(bars: seq<Bar>, baseline: real, maxStale: int, eps: real)
    requires Sorted(bars)
    ensures var r := FirstMove(bars, baseline, maxStale, eps);
            && (r.Some? ==> r.value in bars && Qualifies(r.value, baseline, maxStale, eps))
            && (forall i :: 0 <= i < |bars| && Qualifies(bars[i], baseline, maxStale, eps) ==>
                              r.Some? && r.value.second <= bars[i].second)
    decreases |bars|
  {
    if bars != [] && !Qualifies(bars[0], baseline, maxStale, eps) {
      FirstMoveIsEarliest(bars[1..], baseline, maxStale, eps);
      forall i | 0 <= i < |bars| && Qualifies(bars[i], baseline, maxStale, eps)
        ensures var r := FirstMove(bars, baseline, maxStale, eps); r.Some? && r.value.second <= bars[i].second
      {
        assert bars[1..][i - 1] == bars[i];
      }
    }
  }

  /** What was measured when the shock came and is only passed on. */
  datatype AtTrigger = AtTrigger(netSpread: Option<real>, arbMode: Option<int>, lag: Option<int>, lagConfidence: Option<real>,
                                 latencyPoly: Option<int>, latencyOpi: Option<int>)

  datatype Pending = Pending(shockId: int, horizon: int, trigger: int, token: Option<int>, atTrigger: AtTrigger)

  /** The measured columns; the return is kept as the ratio whose logarithm the program takes. */
  datatype Measured = Measured(sampleValid: bool, moved: bool, firstMoveLag: Option<int>, returnRatio: Option<real>,
                               priceDelta: Option<real>, volumeSum: real, cvdSum: real, spreadChange: Option<real>,
                               depthChange: Option<real>, baselineStaleness: Option<int>, liquidityPull: Option<int>)

  datatype Row = Row(shockId: int, horizon: int, measured: Measured, atTrigger: AtTrigger)

  datatype Settings = Settings(gap: nat, maxStale: int, eps: real)

  function SignalOf(bar: Option<Bar>): Option<real> {
    if bar.Some? then PriceSignal(bar.value) else None
  }

  function Change(start: Option<real>, stop: Option<real>): Option<real> {
    if start.Some? && stop.Some? then Some(stop.value - start.value) else None
  }

  function Ratio(start: Option<real>, stop: Option<real>): Option<real> {
    if start.Some? && stop.Some? && start.value > 0.0 && stop.value > 0.0 then Some(stop.value / start.value) else None
  }

  function SpreadOf(bar: Option<Bar>): Option<real> {
    if bar.Some? then bar.value.spread else None
  }

  function DepthOf(bar: Option<Bar>): Option<real> {
    if bar.None? then None
    else Some((if bar.value.depthBid.Some? then bar.value.depthBid.value else 0.0)
              + (if bar.value.depthAsk.Some? then bar.value.depthAsk.value else 0.0))
  }

  /** The columns, from the two end bars, the lag and the sums. */
  function Columns(baseline: Option<Bar>, end: Option<Bar>, lag: Option<int>, volume: real, cvd: real, c: Settings): Measured {
    var start, stop := SignalOf(baseline), SignalOf(end);
    Measured(baseline.Some? && end.Some? && IsValid(baseline.value, c.maxStale) && IsValid(end.value, c.maxStale),
             start.Some? && stop.Some? && Moved(start.value, stop.value, c.eps),
             lag, Ratio(start, stop), Change(start, stop), volume, cvd,
             Change(SpreadOf(baseline), SpreadOf(end)), Change(DepthOf(baseline), DepthOf(end)),
             if baseline.Some? then baseline.value.staleness else None,
             if baseline.Some? then Some(baseline.value.liquidityPull) else None)
  }

  function Measure(history: seq<Bar>, trigger: int, target: int, c: Settings): Measured {
    var baseline := Lookback(history, trigger, c.gap);
    var window, start := Window(history, trigger, target), SignalOf(baseline);
    var first := if start.Some? then FirstMove(window, start.value, c.maxStale, c.eps) else None;
    Columns(baseline, Lookback(history, target, c.gap),
            if first.Some? then Some(first.value.second - trigger) else None, VolumeOf(window), CvdOf(window), c)
  }

  /** No row when the token was unknown at the shock, or has no history. */
  function Response(histories: map<int, seq<Bar>>, pending: Pending, target: int, c: Settings): Option<Row> {
    if pending.token.None? || pending.token.value !in histories then None
    else Some(Row(pending.shockId, pending.horizon, Measure(histories[pending.token.value], pending.trigger, target, c),
                  pending.atTrigger))
  }

  method BuildResponse(histories: map<int, seq<Bar>>, pending: Pending, target: int, c: Settings) returns (row: Option<Row>)
    requires forall token :: token in histories ==> Sorted(histories[token])
    ensures row == Response(histories, pending, target, c)
  {
    if pending.token.None? || pending.token.value !in histories { return None; }
    hide Measure, Sorted;
    var token := pending.token.value;
    assert Sorted(histories[token]);
    var measured := MeasureResponse(histories[token], pending.trigger, target, c);
    return Some(Row(pending.shockId, pending.horizon, measured, pending.atTrigger));
  }

  method MeasureResponse(history: seq<Bar>, trigger: int, target: int, c: Settings) returns (m: Measured)
    requires Sorted(history)
    ensures m == Measure(history, trigger, target, c)
  {
    hide Columns;
    var baseline := FindWithLookback(history, trigger, c.gap);
    var end := FindWithLookback(history, target, c.gap);
    var window := Range(history, trigger, target);
    hide Lookback, Sorted, Window, FirstMove, VolumeOf, CvdOf;
    var lag: Option<int> := None;
    if SignalOf(baseline).Some? {
      lag := FirstLag(window, SignalOf(baseline).value, trigger, c.maxStale, c.eps);
    }
    var volume, cvd := Totals(window);
    m := Columns(baseline, end, lag, volume, cvd, c);
  }

  /** The stored bars after trigger and up to target, cut out between two binary searches. */
  method Range(history: seq<Bar>, trigger: int, target: int) returns (window: seq<Bar>)
    requires Sorted(history)
    ensures window == Window(history, trigger, target)
  {
    var start := FirstIndexAfter(history, trigger);
    var stop := FirstIndexAfter(history, target);
    if stop < start {
      stop := start;
    }
    hide Window;
    WindowIsSlice(history, trigger, target, start, stop);
    return history[start..stop];
  }

  method FirstLag(bars: seq<Bar>, baseline: real, trigger: int, maxStale: int, eps: real) returns (lag: Option<int>)
    ensures var first := FirstMove(bars, baseline, maxStale, eps);
            lag == if first.Some? then Some(first.value.second - trigger) else None
  {
    var i := 0;
    while i < |bars|
      invariant 0 <= i <= |bars| && FirstMove(bars[i..], baseline, maxStale, eps) == FirstMove(bars, baseline, maxStale, eps)
    {
      if IsValid(bars[i], maxStale) && Moved(baseline, PriceSignal(bars[i]).value, eps) {
        return Some(bars[i].second - trigger);
      }
      i := i + 1;
    }
    return None;
  }

  method Totals(bars: seq<Bar>) returns (volume: real, cvd: real)
    ensures volume == VolumeOf(bars) && cvd == CvdOf(bars)
  {
    volume, cvd := 0.0, 0.0;
    for i := 0 to |bars|
      invariant volume == VolumeOf(bars[..i]) && cvd == CvdOf(bars[..i])
    {
      assert bars[..i + 1][..i] == bars[..i];
      volume, cvd := volume + bars[i].volume, cvd + bars[i].cvd;
    }
    assert bars[..|bars|] == bars;
  }

  /** The price that a bar shows: its last trade, else the mid from the state, else the mid. */
  ghost predicate Shows(bar: Option<Bar>, price: real) {
    && bar.Some?
    && (|| bar.value.lastPrice == Some(price)
        || (bar.value.lastPrice.None? && bar.value.midState == Some(price))
        || (bar.value.lastPrice.None? && bar.value.midState.None? && bar.value.mid == Some(price)))
  }

  ghost predicate ShowsNone(bar: Option<Bar>) {
    bar.None? || (bar.value.lastPrice.None? && bar.value.midState.None? && bar.value.mid.None?)
  }

  ghost predicate IsFresh(bar: Option<Bar>, maxStale: int) {
    bar.Some? && bar.value.staleness.Some? && bar.value.staleness.value <= maxStale
  }

  /** The price columns, from the two bars found: the sample counts when both bars are fresh and show a price,
      it moved when the prices differ by more than eps, and delta and ratio lead from one price to the other. */
  lemma PriceColumns(history: seq<Bar>, trigger: int, target: int, c: Settings, start: real, stop: real)
    ensures var row, b, e := Measure(history, trigger, target, c), Lookback(history, trigger, c.gap), Lookback(history, target, c.gap);
            && (row.sampleValid ==> IsFresh(b, c.maxStale) && IsFresh(e, c.maxStale) && row.priceDelta.Some?)
            && (Shows(b, start) && Shows(e, stop) ==>
                  && (row.sampleValid <==> IsFresh(b, c.maxStale) && IsFresh(e, c.maxStale))
                  && (row.moved <==> stop - start > c.eps || start - stop > c.eps)
                  && row.priceDelta.Some? && start + row.priceDelta.value == stop
                  && (row.returnRatio.Some? <==> start > 0.0 && stop > 0.0)
                  && (row.returnRatio.Some? ==> start * row.returnRatio.value == stop))
            && (ShowsNone(b) || ShowsNone(e) ==>
                  !row.sampleValid && !row.moved && row.priceDelta.None? && row.returnRatio.None?)
  {
    hide Lookback, Window, FirstMove, VolumeOf, CvdOf;
    var b, e, row := Lookback(history, trigger, c.gap), Lookback(history, target, c.gap), Measure(history, trigger, target, c);
    assert row.priceDelta == Change(SignalOf(b), SignalOf(e)) && row.returnRatio == Ratio(SignalOf(b), SignalOf(e));
    ShownPrice(b, start);
    ShownPrice(e, stop);
    NoChange(SignalOf(b), SignalOf(e));
    RatioLeads(start, stop);
    hide Ratio, Change;
  }

  lemma ShownPrice(bar: Option<Bar>, price: real)
    ensures Shows(bar, price) <==> SignalOf(bar) == Some(price)
    ensures ShowsNone(bar) <==> SignalOf(bar).None?
  {}

  lemma NoChange(start: Option<real>, stop: Option<real>)
    ensures start.None? || stop.None? <==> Change(start, stop).None?
    ensures start.None? || stop.None? ==> Ratio(start, stop).None?
  {}

  lemma RatioLeads(start: real, stop: real)
    ensures Ratio(Some(start), Some(stop)).Some? <==> start > 0.0 && stop > 0.0
    ensures start > 0.0 && stop > 0.0 ==> start * Ratio(Some(start), Some(stop)).value == stop
    ensures Change(Some(start), Some(stop)) == Some(stop - start)
  {}

  /** The other columns: spread and depth lead from the first bar's to the second's, a depth that is not known
      counting as none, and two are those of the first bar. */
  lemma OtherColumns(history: seq<Bar>, trigger: int, target: int, c: Settings)
    ensures var row, b, e := Measure(history, trigger, target, c), Lookback(history, trigger, c.gap), Lookback(history, target, c.gap);
            && (row.spreadChange.Some? <==> b.Some? && e.Some? && b.value.spread.Some? && e.value.spread.Some?)
            && (row.spreadChange.Some? ==> b.value.spread.value + row.spreadChange.value == e.value.spread.value)
            && (row.depthChange.Some? <==> b.Some? && e.Some?)
            && (row.depthChange.Some? ==>
                  Known(b.value.depthBid) + Known(b.value.depthAsk) + row.depthChange.value
                  == Known(e.value.depthBid) + Known(e.value.depthAsk))
            && (b.None? ==> row.baselineStaleness.None? && row.liquidityPull.None?)
            && (b.Some? ==> row.baselineStaleness == b.value.staleness && row.liquidityPull == Some(b.value.liquidityPull))
  {
    hide Lookback, Window, FirstMove, VolumeOf, CvdOf;
  }

  function Known(depth: Option<real>): real {
    if depth.Some? then depth.value else 0.0
  }

  /** The two sums are over the window, each bar as often as it is stored. */
  lemma SumColumns(history: seq<Bar>, trigger: int, target: int, c: Settings)
    ensures var row := Measure(history, trigger, target, c);
            row.volumeSum == VolumeOf(Window(history, trigger, target)) && row.cvdSum == CvdOf(Window(history, trigger, target))
  {}

  /** The lag of any response lies in 1..horizon and is the earliest at which a stored bar qualifies. */
  lemma ResponseLagIsEarliest(history: seq<Bar>, trigger: int, target: int, c: Settings)
    requires Sorted(history)
    ensures var row := Measure(history, trigger, target, c);
            var start := SignalOf(Lookback(history, trigger, c.gap));
            && (row.firstMoveLag.Some? ==> start.Some? && 1 <= row.firstMoveLag.value <= target - trigger)
            && (start.Some? ==> forall i ::
                  0 <= i < |history| && trigger < history[i].second <= target && Qualifies(history[i], start.value, c.maxStale, c.eps)
                  ==> row.firstMoveLag.Some? && row.firstMoveLag.value <= history[i].second - trigger)
  {
    var window := Window(history, trigger, target);
    WindowSorted(history, trigger, target);
    var start := SignalOf(Lookback(history, trigger, c.gap));
    if start.Some? {
      FirstMoveIsEarliest(window, start.value, c.maxStale, c.eps);
      var first := FirstMove(window, start.value, c.maxStale, c.eps);
      if first.Some? {
        WindowMembers(history, trigger, target, first.value);
      }
      forall i | 0 <= i < |history| && trigger < history[i].second <= target && Qualifies(history[i], start.value, c.maxStale, c.eps)
        ensures first.Some? && first.value.second <= history[i].second
      {
        WindowMembers(history, trigger, target, history[i]);
        assert history[i] in multiset(history) && history[i] in multiset(window);
        assert history[i] in window;
      }
    }
  }

  lemma {:induction false} WindowSorted(history: seq<Bar>, trigger: int, target: int)
    requires Sorted(history)
    ensures Sorted(Window(history, trigger, target))
    decreases |history|
  {
    if history != [] {
      var front, last := history[..|history| - 1], history[|history| - 1];
      WindowSorted(front, trigger, target);
      var w := Window(front, trigger, target);
      forall i | 0 <= i < |w| ensures w[i].second <= last.second {
        WindowMembers(front, trigger, target, w[i]);
        assert w[i] in multiset(w) && w[i] in multiset(front);
        assert w[i] in front;
      }
    }
  }
}
