/** One token's per-second accumulators, flushed behind a watermark that trails the newest second by two. */
module Watermark {
  const LATE_BUFFER: int := 2

  /** What one second's bar records here: its second and the events counted into it. */
  datatype Bar = Bar(second: int, events: nat)

  datatype Flusher = Flusher(watermark: int, lastFlushed: int, accs: map<int, nat>, dirty: bool, emitted: seq<Bar>)

  datatype Message = Event(second: int) | Tick(second: int)

  function New(second: int): Flusher {
    var initial := if second > 0 then second else 0;
    Flusher(initial, initial - 1, map[], false, [])
  }

  function Counted(accs: map<int, nat>, second: int): nat {
    if second in accs then accs[second] else 0
  }

  /** The bars of the seconds from..until, one each, empty seconds included. */
  function Bars(accs: map<int, nat>, from: int, until: int): (bars: seq<Bar>)
    ensures |bars| == if from <= until then until - from + 1 else 0
    ensures forall k :: 0 <= k < |bars| ==> bars[k] == Bar(from + k, Counted(accs, from + k))
    decreases until - from
  {
    if from > until then [] else [Bar(from, Counted(accs, from))] + Bars(accs, from + 1, until)
  }

  function Without(accs: map<int, nat>, from: int, until: int): map<int, nat> {
    map s | s in accs && !(from <= s <= until) :: accs[s]
  }

  function FlushReady(f: Flusher): Flusher {
    var cutoff := f.watermark - LATE_BUFFER;
    if f.watermark <= 0 || cutoff <= f.lastFlushed then f
    else f.(accs := Without(f.accs, f.lastFlushed + 1, cutoff), lastFlushed := cutoff,
            emitted := f.emitted + Bars(f.accs, f.lastFlushed + 1, cutoff))
  }

  function Advance(f: Flusher, second: int): Flusher {
    if f.watermark <= 0 then f.(watermark := second, lastFlushed := second - 1)
    else if second > f.watermark then f.(watermark := second)
    else f
  }

  predicate Accepts(f: Flusher, second: int) {
    second > Advance(f, second).lastFlushed
  }

  function OnEvent(f: Flusher, second: int): Flusher {
    var g := Advance(f, second);
    var counted := if Accepts(f, second) then g.accs[second := Counted(g.accs, second) + 1] else g.accs;
    FlushReady(g.(accs := counted, dirty := true))
  }

  /** A tick reaches a token only when an event made it dirty since the last tick. */
  function OnTick(f: Flusher, second: int): Flusher {
    if !f.dirty then f
    else FlushReady(f.(dirty := false,
                       watermark := if f.watermark > 0 && second > f.watermark then second else f.watermark))
  }

  function Handle(f: Flusher, msg: Message): Flusher {
    match msg
    case Event(second) => OnEvent(f, second)
    case Tick(second) => OnTick(f, second)
  }

  /** The token's state after its first event, at second `first`, and then `msgs`. */
  function Run(first: int, msgs: seq<Message>): Flusher
    decreases |msgs|
  {
    if msgs == [] then OnEvent(New(first), first)
    else Handle(Run(first, msgs[..|msgs| - 1]), msgs[|msgs| - 1])
  }

  /** The seconds of the events that were accepted, with multiplicity. */
  function Accepted(first: int, msgs: seq<Message>): multiset<int>
    decreases |msgs|
  {
    if msgs == [] then multiset{first}
    else
      var before, msg := msgs[..|msgs| - 1], msgs[|msgs| - 1];
      Accepted(first, before)
      + if msg.Event? && Accepts(Run(first, before), msg.second) then multiset{msg.second} else multiset{}
  }

  // ----- the invariant -----

  ghost predicate Inv(f: Flusher, first: int, accepted: multiset<int>) {
    && 1 <= first <= f.watermark
    && first - 1 <= f.lastFlushed
    && f.watermark - LATE_BUFFER <= f.lastFlushed < f.watermark
    && |f.emitted| == f.lastFlushed - first + 1
    && (forall k :: 0 <= k < |f.emitted| ==> f.emitted[k] == Bar(first + k, accepted[first + k]))
    && (forall s :: s > f.lastFlushed ==> Counted(f.accs, s) == accepted[s])
    && (forall s :: s in f.accs ==> f.lastFlushed < s <= f.watermark)
    && (forall s :: s in accepted ==> first <= s <= f.watermark)
  }

  /** The state between the accumulator update and the flush: the watermark may be far ahead. */
  ghost predicate Ready(f: Flusher, first: int, accepted: multiset<int>) {
    && 1 <= first <= f.watermark
    && first - 1 <= f.lastFlushed < f.watermark
    && |f.emitted| == f.lastFlushed - first + 1
    && (forall k :: 0 <= k < |f.emitted| ==> f.emitted[k] == Bar(first + k, accepted[first + k]))
    && (forall s :: s > f.lastFlushed ==> Counted(f.accs, s) == accepted[s])
    && (forall s :: s in f.accs ==> f.lastFlushed < s <= f.watermark)
    && (forall s :: s in accepted ==> first <= s <= f.watermark)
  }

  lemma FlushKeeps(f: Flusher, first: int, accepted: multiset<int>)
    requires Ready(f, first, accepted)
    ensures Inv(FlushReady(f), first, accepted)
  {
    var g, cutoff := FlushReady(f), f.watermark - LATE_BUFFER;
    if cutoff > f.lastFlushed {
      var bars := Bars(f.accs, f.lastFlushed + 1, cutoff);
      forall k | 0 <= k < |g.emitted| ensures g.emitted[k] == Bar(first + k, accepted[first + k]) {
        if k >= |f.emitted| {
          assert g.emitted[k] == bars[k - |f.emitted|];
        }
      }
      forall s | s > g.lastFlushed ensures Counted(g.accs, s) == accepted[s] {
        assert Counted(g.accs, s) == Counted(f.accs, s);
      }
    }
  }

  lemma AcceptKeeps(g: Flusher, first: int, accepted: multiset<int>, second: int)
    requires Ready(g, first, accepted) && g.lastFlushed < second <= g.watermark
    ensures Ready(g.(accs := g.accs[second := Counted(g.accs, second) + 1], dirty := true), first, accepted + multiset{second})
  {
    var h := g.(accs := g.accs[second := Counted(g.accs, second) + 1], dirty := true);
    var more := accepted + multiset{second};
    forall s | s > h.lastFlushed ensures Counted(h.accs, s) == more[s] {
      assert Counted(g.accs, s) == accepted[s];
    }
  }

  lemma AdvanceKeeps(f: Flusher, first: int, accepted: multiset<int>, second: int)
    requires Inv(f, first, accepted)
    ensures var g := Advance(f, second);
            Ready(g, first, accepted) && Ready(g.(dirty := true), first, accepted) && g.accs == f.accs
            && second <= g.watermark && g.lastFlushed == f.lastFlushed
  {}

  lemma EventKeeps(f: Flusher, first: int, accepted: multiset<int>, second: int)
    requires Inv(f, first, accepted)
    ensures Inv(OnEvent(f, second), first, accepted + if Accepts(f, second) then multiset{second} else multiset{})
  {
    hide Inv, Ready, FlushReady;
    var g := Advance(f, second);
    AdvanceKeeps(f, first, accepted, second);
    hide Advance;
    if Accepts(f, second) {
      AcceptKeeps(g, first, accepted, second);
      FlushKeeps(g.(accs := g.accs[second := Counted(g.accs, second) + 1], dirty := true), first, accepted + multiset{second});
    } else {
      assert accepted + multiset{} == accepted;
      FlushKeeps(g.(dirty := true), first, accepted);
    }
  }

  lemma HandleKeeps(f: Flusher, first: int, accepted: multiset<int>, msg: Message)
    requires Inv(f, first, accepted)
    ensures Inv(Handle(f, msg), first,
                accepted + if msg.Event? && Accepts(f, msg.second) then multiset{msg.second} else multiset{})
  {
    match msg
    case Event(second) => EventKeeps(f, first, accepted, second);
    case Tick(second) =>
      assert accepted + multiset{} == accepted;
      if f.dirty {
        FlushKeeps(f.(dirty := false, watermark := if second > f.watermark then second else f.watermark), first, accepted);
      }
  }

  lemma {:induction false} RunKeeps(first: int, msgs: seq<Message>)
    requires first >= 1
    ensures Inv(Run(first, msgs), first, Accepted(first, msgs))
    decreases |msgs|
  {
    if msgs == [] {
      var f := New(first).(accs := map[first := 1], dirty := true);
      assert OnEvent(New(first), first) == FlushReady(f);
      FlushKeeps(f, first, multiset{first});
    } else {
      RunKeeps(first, msgs[..|msgs| - 1]);
      HandleKeeps(Run(first, msgs[..|msgs| - 1]), first, Accepted(first, msgs[..|msgs| - 1]), msgs[|msgs| - 1]);
    }
  }

  // ----- the theorems -----

  /** The emitted bars are the seconds from the first event on, without gap or repetition, and each bar
      counts exactly the accepted events of its own second. */
  lemma BarsAreConsecutiveAndExact(first: int, msgs: seq<Message>, k: nat)
    requires first >= 1
    ensures var f := Run(first, msgs);
            && |f.emitted| == f.lastFlushed - first + 1
            && (k < |f.emitted| ==> f.emitted[k] == Bar(first + k, Accepted(first, msgs)[first + k]))
  {
    RunKeeps(first, msgs);
  }

  /** After each message only the two seconds above the last flushed one can be live. */
  lemma AtMostTwoLive(first: int, msgs: seq<Message>)
    requires first >= 1
    ensures var f := Run(first, msgs);
            f.accs.Keys <= {f.lastFlushed + 1, f.lastFlushed + 2} && |f.accs| <= 2
  {
    hide Run, Accepted;
    RunKeeps(first, msgs);
    TwoKeys(Run(first, msgs), first, Accepted(first, msgs));
  }

  lemma TwoKeys(f: Flusher, first: int, accepted: multiset<int>)
    requires Inv(f, first, accepted)
    ensures f.accs.Keys <= {f.lastFlushed + 1, f.lastFlushed + 2} && |f.accs| <= 2
  {
    var p, q, keys := f.lastFlushed + 1, f.lastFlushed + 2, f.accs.Keys;
    forall s | s in keys ensures s == p || s == q {}
    hide Inv;
    assert keys == (if p in keys then {p} else {}) + (if q in keys then {q} else {});
  }

  // ----- when a second is closed -----

  /** An event came since the last tick. */
  predicate Fresh(msgs: seq<Message>) {
    msgs == [] || msgs[|msgs| - 1].Event?
  }

  /** The greatest second among the events and the ticks that found a new event. */
  function Newest(first: int, msgs: seq<Message>): int
    decreases |msgs|
  {
    if msgs == [] then first
    else
      var before, msg := msgs[..|msgs| - 1], msgs[|msgs| - 1];
      var newest := Newest(first, before);
      if (msg.Event? || Fresh(before)) && msg.second > newest then msg.second else newest
  }

  lemma {:induction false} WatermarkIsNewest(first: int, msgs: seq<Message>)
    requires first >= 1
    ensures var f := Run(first, msgs);
            && f.watermark == Newest(first, msgs) >= first
            && f.dirty == Fresh(msgs)
            && f.lastFlushed == if first - 1 >= f.watermark - 2 then first - 1 else f.watermark - 2
    decreases |msgs|
  {
    hide Bars, Without, Counted;
    if msgs != [] {
      WatermarkIsNewest(first, msgs[..|msgs| - 1]);
    }
  }

  /** The bar of a second is out exactly when two seconds later has been seen. */
  lemma EmittedIffTwoSecondsOn(first: int, msgs: seq<Message>, second: int)
    requires first >= 1
    ensures (exists k :: 0 <= k < |Run(first, msgs).emitted| && Run(first, msgs).emitted[k].second == second)
            <==> first <= second && Newest(first, msgs) >= second + 2
  {
    hide Run, Newest, Accepted;
    WatermarkIsNewest(first, msgs);
    var f := Run(first, msgs);
    forall k: nat | k < |f.emitted| ensures f.emitted[k].second == first + k {
      BarsAreConsecutiveAndExact(first, msgs, k);
    }
    BarsAreConsecutiveAndExact(first, msgs, 0);
    if first <= second && Newest(first, msgs) >= second + 2 {
      assert f.emitted[second - first].second == second;
    }
  }

  /** An event is counted exactly when its second is not before the first one and two seconds later has not
      been seen yet. */
  lemma AcceptedIffInTime(first: int, msgs: seq<Message>, second: int)
    requires first >= 1
    ensures Accepts(Run(first, msgs), second) <==> first <= second && Newest(first, msgs) < second + 2
  {
    hide Run, Newest;
    WatermarkIsNewest(first, msgs);
  }

  function EventsIn(bars: seq<Bar>): nat {
    if bars == [] then 0 else EventsIn(bars[..|bars| - 1]) + bars[|bars| - 1].events
  }

  /** A multiset over a range of integers has as many elements as its counts add up to. */
  lemma {:induction false} CountsAddUp(accepted: multiset<int>, first: int, bars: seq<Bar>)
    requires forall s :: s in accepted ==> first <= s < first + |bars|
    requires forall k :: 0 <= k < |bars| ==> bars[k].events == accepted[first + k]
    ensures |accepted| == EventsIn(bars)
    decreases |bars|
  {
    if bars == [] {
      assert forall s :: accepted[s] == 0;
      assert accepted == multiset{};
    } else {
      var top := first + |bars| - 1;
      var rest := accepted[top := 0];
      assert |rest| == |accepted| - accepted[top];
      CountsAddUp(rest, first, bars[..|bars| - 1]);
    }
  }

  /** No accepted event is lost or counted twice. */
  lemma EventsAreConserved(first: int, msgs: seq<Message>, f: Flusher)
    requires first >= 1 && f == Run(first, msgs)
    ensures |Accepted(first, msgs)|
            == EventsIn(f.emitted) + Counted(f.accs, f.lastFlushed + 1) + Counted(f.accs, f.lastFlushed + 2)
  {
    hide Run, Accepted;
    RunKeeps(first, msgs);
    TwoLiveBars(f, first, Accepted(first, msgs));
  }

  lemma TwoLiveBars(f: Flusher, first: int, accepted: multiset<int>)
    requires Inv(f, first, accepted)
    ensures |accepted| == EventsIn(f.emitted) + Counted(f.accs, f.lastFlushed + 1) + Counted(f.accs, f.lastFlushed + 2)
  {
    var one := f.emitted + [Bar(f.lastFlushed + 1, Counted(f.accs, f.lastFlushed + 1))];
    var all := one + [Bar(f.lastFlushed + 2, Counted(f.accs, f.lastFlushed + 2))];
    assert all[..|all| - 1] == one && one[..|one| - 1] == f.emitted;
    assert EventsIn(all) == EventsIn(f.emitted) + one[|one| - 1].events + all[|all| - 1].events;
    CountsAddUp(accepted, first, all);
  }

  ghost predicate NothingStranded(f: Flusher) {
    forall s :: s in f.accs ==> s > f.lastFlushed
  }

  /** Exactly when every later message leaves no accumulator behind the watermark: the first second is positive. */
  lemma FirstSecondDecides(first: int)
    ensures first >= 1 <==> forall msgs: seq<Message> :: NothingStranded(Run(first, msgs))
  {
    if first >= 1 {
      forall msgs: seq<Message> ensures NothingStranded(Run(first, msgs)) {
        RunKeeps(first, msgs);
      }
    } else {
      var msgs := [Event(5)];
      assert msgs[..0] == [];
      assert Run(first, []) == Flusher(first, first - 1, map[first := 1], true, []);
      assert first in Run(first, msgs).accs && Run(first, msgs).lastFlushed == 4;
      assert !NothingStranded(Run(first, msgs));
    }
  }

  // ----- the program's form -----

  lemma FlushOne(accs: map<int, nat>, from: int, current: int, until: int, results: seq<Bar>)
    requires from <= current <= until && results + Bars(accs, current, until) == Bars(accs, from, until)
    ensures results + [Bar(current, Counted(accs, current))] + Bars(accs, current + 1, until) == Bars(accs, from, until)
    ensures var left := Without(accs, from, current - 1);
            && Counted(left, current) == Counted(accs, current)
            && (map s | s in left && s != current :: left[s]) == Without(accs, from, current)
  {
    var rest := Bars(accs, current + 1, until);
    var bar := Bar(current, Counted(accs, current));
    assert Bars(accs, current, until) == [bar] + rest;
    assert results + [bar] + rest == results + ([bar] + rest);
  }

  lemma NoneYet(accs: map<int, nat>, from: int, until: int)
    ensures Without(accs, from, from - 1) == accs && [] + Bars(accs, from, until) == Bars(accs, from, until)
    ensures Bars(accs, until + 1, until) == []
    ensures forall results: seq<Bar> :: results + [] == results
  {}

  class TokenState {
    var watermark: int
    var lastFlushed: int
    var accs: map<int, nat>
    var dirty: bool
    ghost var emitted: seq<Bar>

    ghost function Snapshot(): Flusher
      reads this
    {
      Flusher(watermark, lastFlushed, accs, dirty, emitted)
    }

    constructor (second: int)
      ensures Snapshot() == New(second)
    {
      var initial := if second > 0 then second else 0;
      watermark, lastFlushed, accs, dirty, emitted := initial, initial - 1, map[], false, [];
    }

    /** Takes the accumulators of the seconds from..until out of the map, one bar each. */
    method Drain(from: int, until: int) returns (results: seq<Bar>)
      requires from <= until
      modifies this`accs
      ensures accs == Without(old(accs), from, until) && results == Bars(old(accs), from, until)
    {
      hide Bars, Without;
      results := [];
      var current := from;
      NoneYet(accs, from, until);
      while current <= until
        invariant from <= current <= until + 1
        invariant accs == Without(old(accs), from, current - 1)
        invariant results + Bars(old(accs), current, until) == Bars(old(accs), from, until)
      {
        FlushOne(old(accs), from, current, until, results);
        results := results + [Bar(current, Counted(accs, current))];
        accs := map s | s in accs && s != current :: accs[s];
        current := current + 1;
      }
    }

    method Flush() returns (results: seq<Bar>)
      modifies this
      ensures Snapshot() == FlushReady(old(Snapshot()))
      ensures emitted == old(emitted) + results
    {
      hide Bars, Without;
      results := [];
      if watermark <= 0 { return; }
      var cutoff := watermark - LATE_BUFFER;
      if cutoff <= lastFlushed { return; }
      results := Drain(lastFlushed + 1, cutoff);
      emitted, lastFlushed := emitted + results, cutoff;
    }

    method HandleEvent(second: int) returns (results: seq<Bar>)
      modifies this
      ensures Snapshot() == OnEvent(old(Snapshot()), second)
      ensures emitted == old(emitted) + results
    {
      if watermark <= 0 {
        watermark, lastFlushed := second, second - 1;
      } else if second > watermark {
        watermark := second;
      }
      if second > lastFlushed {
        accs := accs[second := Counted(accs, second) + 1];
      }
      dirty := true;
      results := Flush();
    }

    method HandleTick(second: int) returns (results: seq<Bar>)
      modifies this
      ensures Snapshot() == OnTick(old(Snapshot()), second)
      ensures emitted == old(emitted) + results
    {
      results := [];
      if !dirty { return; }
      dirty := false;
      if watermark > 0 && second > watermark {
        watermark := second;
      }
      results := Flush();
    }
  }
}
