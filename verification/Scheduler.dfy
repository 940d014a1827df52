/** The oldest-first choice of targets under a request budget. Targets are numbered in the order of their
    token keys. */
module Scheduler {
  import opened Options

  function LastOf(lastFetch: map<int, int>, x: int): int {
    if x in lastFetch then lastFetch[x] else 0
  }

  /** x goes before y: fetched longer ago, or equally long ago with a smaller key. */
  predicate Before(lastFetch: map<int, int>, x: int, y: int) {
    LastOf(lastFetch, x) < LastOf(lastFetch, y) || (LastOf(lastFetch, x) == LastOf(lastFetch, y) && x < y)
  }

  function Place(lastFetch: map<int, int>, sorted: seq<int>, x: int): seq<int>
    decreases |sorted|
  {
    if sorted == [] || !Before(lastFetch, sorted[0], x) then [x] + sorted
    else [sorted[0]] + Place(lastFetch, sorted[1..], x)
  }

  function SortTargets(lastFetch: map<int, int>, batch: seq<int>): seq<int>
    decreases |batch|
  {
    if batch == [] then [] else Place(lastFetch, SortTargets(lastFetch, batch[1..]), batch[0])
  }

  function Selected(lastFetch: map<int, int>, batch: seq<int>, budget: Option<nat>): seq<int> {
    if budget.None? || |batch| <= budget.value then batch
    else
      var sorted := SortTargets(lastFetch, batch);
      if budget.value <= |sorted| then sorted[..budget.value] else sorted
  }

  function Fetched(lastFetch: map<int, int>, chosen: seq<int>, now: int): map<int, int>
    decreases |chosen|
  {
    if chosen == [] then lastFetch else Fetched(lastFetch, chosen[..|chosen| - 1], now)[chosen[|chosen| - 1] := now]
  }

  class PriceScheduler {
    var lastFetch: map<int, int>
    const budget: Option<nat>

    constructor (budget: Option<nat>)
      ensures lastFetch == map[] && this.budget == budget
    {
      lastFetch := map[];
      this.budget := budget;
    }

    /** One tick: choose among the targets that passed the filters and stamp the chosen ones. */
    method RunTick(now: int, batch: seq<int>) returns (chosen: seq<int>)
      modifies this
      ensures chosen == Selected(old(lastFetch), batch, budget)
      ensures budget.None? || |batch| <= budget.value ==> chosen == batch
      ensures lastFetch == Fetched(old(lastFetch), chosen, now)
    {
      chosen := batch;
      if budget.Some? && |batch| > budget.value {
        var sorted := SortTargets(lastFetch, batch);
        var keep := if budget.value < |sorted| then budget.value else |sorted|;
        chosen := sorted[..keep];
      }
      for i := 0 to |chosen|
        invariant lastFetch == Fetched(old(lastFetch), chosen[..i], now)
      {
        assert chosen[..i + 1][..i] == chosen[..i];
        lastFetch := lastFetch[chosen[i] := now];
      }
      assert chosen[..|chosen|] == chosen;
    }
  }

  // ----- the choice -----

  ghost predicate InOrder(lastFetch: map<int, int>, xs: seq<int>) {
    forall i, j :: 0 <= i < j < |xs| ==> !Before(lastFetch, xs[j], xs[i])
  }

  /** x first: in order when it goes before, or level with, everything else. */
  lemma ConsInOrder(lastFetch: map<int, int>, x: int, rest: seq<int>)
    requires InOrder(lastFetch, rest) && forall j :: 0 <= j < |rest| ==> !Before(lastFetch, rest[j], x)
    ensures InOrder(lastFetch, [x] + rest)
  {
    hide Before;
    var xs := [x] + rest;
    forall i, j | 0 <= i < j < |xs| ensures !Before(lastFetch, xs[j], xs[i]) {
      assert xs[j] == rest[j - 1];
    }
  }

  lemma {:induction false} PlaceMembers(lastFetch: map<int, int>, sorted: seq<int>, x: int)
    ensures multiset(Place(lastFetch, sorted, x)) == multiset(sorted) + multiset{x}
    ensures forall y :: y in Place(lastFetch, sorted, x) <==> y == x || y in sorted
    decreases |sorted|
  {
    if sorted != [] && Before(lastFetch, sorted[0], x) {
      PlaceMembers(lastFetch, sorted[1..], x);
      assert sorted == [sorted[0]] + sorted[1..];
    }
  }

  lemma {:induction false} PlaceInOrder(lastFetch: map<int, int>, sorted: seq<int>, x: int)
    requires InOrder(lastFetch, sorted)
    ensures InOrder(lastFetch, Place(lastFetch, sorted, x))
    decreases |sorted|
  {
    if sorted == [] || !Before(lastFetch, sorted[0], x) {
      ConsInOrder(lastFetch, x, sorted);
    } else {
      var head, rest := sorted[0], sorted[1..];
      assert forall j :: 0 <= j < |rest| ==> rest[j] == sorted[j + 1];
      PlaceInOrder(lastFetch, rest, x);
      PlaceMembers(lastFetch, rest, x);
      var placed := Place(lastFetch, rest, x);
      forall j | 0 <= j < |placed| ensures !Before(lastFetch, placed[j], head) {
        assert placed[j] in placed;
      }
      ConsInOrder(lastFetch, head, placed);
    }
  }

  lemma {:induction false} SortSpec(lastFetch: map<int, int>, batch: seq<int>)
    ensures InOrder(lastFetch, SortTargets(lastFetch, batch))
    ensures multiset(SortTargets(lastFetch, batch)) == multiset(batch)
    decreases |batch|
  {
    if batch != [] {
      SortSpec(lastFetch, batch[1..]);
      PlaceMembers(lastFetch, SortTargets(lastFetch, batch[1..]), batch[0]);
      PlaceInOrder(lastFetch, SortTargets(lastFetch, batch[1..]), batch[0]);
      hide Place, InOrder;
      assert batch == [batch[0]] + batch[1..];
    }
  }

  ghost predicate Distinct(xs: seq<int>) {
    forall x :: multiset(xs)[x] <= 1
  }

  lemma {:induction false} DistinctSize(xs: seq<int>)
    requires Distinct(xs)
    ensures |set x | x in xs| == |xs|
    decreases |xs|
  {
    if xs != [] {
      var front, last := xs[..|xs| - 1], xs[|xs| - 1];
      assert xs == front + [last];
      forall x ensures multiset(front)[x] <= 1 {
        assert multiset(xs)[x] <= 1;
      }
      DistinctSize(front);
      assert multiset(xs)[last] <= 1;
      assert last in front <==> last in multiset(front);
      assert (set x | x in xs) == (set x | x in front) + {last};
    }
  }

  lemma ChosenGoFirst(lastFetch: map<int, int>, batch: seq<int>, budget: nat)
    requires Distinct(batch)
    ensures var chosen := Selected(lastFetch, batch, Some(budget));
            && |chosen| == (if |batch| <= budget then |batch| else budget)
            && Distinct(chosen)
            && (forall x :: x in chosen ==> x in batch)
            && (forall x, y :: x in chosen && y in batch && y !in chosen ==> Before(lastFetch, x, y))
  {
    if |batch| > budget {
      var sorted := SortTargets(lastFetch, batch);
      SortSpec(lastFetch, batch);
      assert |sorted| == |multiset(sorted)| == |multiset(batch)| == |batch|;
      var chosen, rest := sorted[..budget], sorted[budget..];
      assert sorted == chosen + rest;
      ChosenAreDistinct(batch, chosen, rest);
      forall x, y | x in chosen && y in batch && y !in chosen ensures Before(lastFetch, x, y) {
        FrontIsBefore(lastFetch, chosen, rest, x, y);
      }
    }
  }

  /** No tick exceeds the budget, and when the budget binds each chosen target goes before each other one: fetched
      longer ago, or equally long ago (never counts as at time 0) with a smaller key. */
  lemma SelectedSpec(lastFetch: map<int, int>, batch: seq<int>, budget: nat)
    requires Distinct(batch)
    ensures var chosen := Selected(lastFetch, batch, Some(budget));
            && |chosen| == (if |batch| <= budget then |batch| else budget)
            && Distinct(chosen)
            && (forall x :: x in chosen ==> x in batch)
            && (forall x, y :: x in chosen && y in batch && y !in chosen ==>
                  var lastX, lastY := if x in lastFetch then lastFetch[x] else 0, if y in lastFetch then lastFetch[y] else 0;
                  lastX < lastY || (lastX == lastY && x < y))
  {
    ChosenGoFirst(lastFetch, batch, budget);
    hide Selected;
  }

  lemma ChosenAreDistinct(batch: seq<int>, chosen: seq<int>, rest: seq<int>)
    requires Distinct(batch) && multiset(chosen + rest) == multiset(batch)
    ensures Distinct(chosen) && (forall x :: x in chosen ==> x in batch) && (forall x :: x in batch ==> x in chosen || x in rest)
  {
    assert multiset(batch) == multiset(chosen) + multiset(rest);
    forall x ensures multiset(chosen)[x] <= 1 && (x in chosen ==> x in batch) && (x in batch ==> x in chosen || x in rest) {
      assert multiset(batch)[x] <= 1;
      assert x in batch <==> x in multiset(batch);
      assert x in chosen <==> x in multiset(chosen);
      assert x in rest <==> x in multiset(rest);
    }
  }

  lemma FrontIsBefore(lastFetch: map<int, int>, chosen: seq<int>, rest: seq<int>, x: int, y: int)
    requires InOrder(lastFetch, chosen + rest) && x in chosen && y in rest && y !in chosen
    ensures Before(lastFetch, x, y)
  {
    var sorted := chosen + rest;
    var i :| 0 <= i < |chosen| && chosen[i] == x;
    var j :| 0 <= j < |rest| && rest[j] == y;
    assert sorted[i] == x && sorted[|chosen| + j] == y;
    assert !Before(lastFetch, sorted[|chosen| + j], sorted[i]);
  }

  lemma {:induction false} FetchedSpec(lastFetch: map<int, int>, chosen: seq<int>, now: int, x: int)
    ensures LastOf(Fetched(lastFetch, chosen, now), x) == if x in chosen then now else LastOf(lastFetch, x)
    decreases |chosen|
  {
    if chosen != [] {
      var front := chosen[..|chosen| - 1];
      FetchedSpec(lastFetch, front, now, x);
      assert chosen == front + [chosen[|chosen| - 1]];
    }
  }

  // ----- no starvation -----

  datatype Tick = Tick(now: int, batch: seq<int>)

  /** The stamps after some ticks, from the stamps `start`. */
  function After(start: map<int, int>, ticks: seq<Tick>, budget: nat): map<int, int>
    decreases |ticks|
  {
    if ticks == [] then start
    else
      var before, tick := After(start, ticks[..|ticks| - 1], budget), ticks[|ticks| - 1];
      Fetched(before, Selected(before, tick.batch, Some(budget)), tick.now)
  }

  /** Whether target x is fetched at tick t. */
  ghost predicate FetchedAt(start: map<int, int>, ticks: seq<Tick>, budget: nat, t: nat, x: int)
    requires t < |ticks|
  {
    x in Selected(After(start, ticks[..t], budget), ticks[t].batch, Some(budget))
  }

  /** Tick times strictly increase past all stamps, and each batch names known targets once. */
  ghost predicate WellTimed(start: map<int, int>, ticks: seq<Tick>, targets: set<int>) {
    forall t :: 0 <= t < |ticks| ==> WellTimedAt(start, ticks, targets, t)
  }

  ghost predicate WellTimedAt(start: map<int, int>, ticks: seq<Tick>, targets: set<int>, t: nat)
    requires t < |ticks|
  {
    && (forall y :: LastOf(start, y) < ticks[t].now)
    && (forall u :: 0 <= u < t ==> ticks[u].now < ticks[t].now)
    && Distinct(ticks[t].batch)
    && (forall y :: y in ticks[t].batch ==> y in targets)
  }

  lemma {:induction false} TimesArePast(start: map<int, int>, ticks: seq<Tick>, targets: set<int>, budget: nat, t: nat, y: int)
    requires WellTimed(start, ticks, targets) && t < |ticks|
    ensures LastOf(After(start, ticks[..t], budget), y) < ticks[t].now
    decreases t
  {
    assert WellTimedAt(start, ticks, targets, t);
    if t > 0 {
      assert ticks[..t][..t - 1] == ticks[..t - 1];
      TimesArePast(start, ticks, targets, budget, t - 1, y);
      var before := After(start, ticks[..t - 1], budget);
      FetchedSpec(before, Selected(before, ticks[t - 1].batch, Some(budget)), ticks[t - 1].now, y);
    }
  }

  ghost function Ahead(lastFetch: map<int, int>, targets: set<int>, x: int): set<int> {
    set y | y in targets && y != x && Before(lastFetch, y, x)
  }

  /** A tick that passes x over takes `budget` targets from those ahead of it, and none comes back. */
  lemma MissShrinks(lastFetch: map<int, int>, targets: set<int>, x: int, batch: seq<int>, budget: nat, now: int)
    requires Distinct(batch) && x in batch && forall y :: y in batch ==> y in targets
    requires LastOf(lastFetch, x) < now
    requires x !in Selected(lastFetch, batch, Some(budget))
    ensures |Ahead(Fetched(lastFetch, Selected(lastFetch, batch, Some(budget)), now), targets, x)| + budget
            <= |Ahead(lastFetch, targets, x)|
  {
    var chosen := Selected(lastFetch, batch, Some(budget));
    ChosenGoFirst(lastFetch, batch, budget);
    DistinctSize(chosen);
    var taken := set y | y in chosen;
    var next := Fetched(lastFetch, chosen, now);
    var ahead, ahead' := Ahead(lastFetch, targets, x), Ahead(next, targets, x);
    hide Selected, Distinct;
    FetchedSpec(lastFetch, chosen, now, x);
    forall y | y in taken ensures y in ahead {
      assert Before(lastFetch, y, x);
    }
    forall y | y in ahead' ensures y in ahead - taken {
      FetchedSpec(lastFetch, chosen, now, y);
    }
    hide Ahead, Fetched;
    SubsetSize(ahead', ahead - taken);
    assert |ahead - taken| == |ahead| - |taken| by {
      assert ahead * taken == taken;
    }
  }

  /** A tick at which x is not fetched, eligible or not, brings nothing ahead of x. */
  lemma MissKeeps(lastFetch: map<int, int>, targets: set<int>, x: int, chosen: seq<int>, now: int)
    requires LastOf(lastFetch, x) < now && x !in chosen
    ensures |Ahead(Fetched(lastFetch, chosen, now), targets, x)| <= |Ahead(lastFetch, targets, x)|
  {
    var next := Fetched(lastFetch, chosen, now);
    var ahead, ahead' := Ahead(lastFetch, targets, x), Ahead(next, targets, x);
    FetchedSpec(lastFetch, chosen, now, x);
    forall y | y in ahead' ensures y in ahead {
      FetchedSpec(lastFetch, chosen, now, y);
    }
    SubsetSize(ahead', ahead);
  }

  lemma SubsetSize(a: set<int>, b: set<int>)
    requires a <= b
    ensures |a| <= |b|
  {
    assert a + (b - a) == b;
  }

  /** At how many of the ticks x passes the filters. */
  function Passes(ticks: seq<Tick>, x: int): nat
    decreases |ticks|
  {
    if ticks == [] then 0
    else Passes(ticks[..|ticks| - 1], x) + if x in ticks[|ticks| - 1].batch then 1 else 0
  }

  /** What x's passes took from ahead of it, a full budget each. */
  ghost function Taken(passes: nat, budget: nat): nat {
    passes * budget
  }

  /** Over ticks a..t that never fetch x, every tick at which x passed took a full budget from ahead of it. */
  lemma {:induction false} MissesAddUp(start: map<int, int>, ticks: seq<Tick>, targets: set<int>, x: int, budget: nat, a: nat, t: nat)
    requires WellTimed(start, ticks, targets) && x in targets && a <= t <= |ticks|
    requires forall u :: a <= u < t ==> !FetchedAt(start, ticks, budget, u, x)
    ensures |Ahead(After(start, ticks[..t], budget), targets, x)| + Taken(Passes(ticks[a..t], x), budget) <= |targets| - 1
    decreases t
  {
    hide *;
    if t == a {
      NoneTaken(start, ticks, targets, x, budget, a);
    } else {
      MissesAddUp(start, ticks, targets, x, budget, a, t - 1);
      OneMoreTick(start, ticks, targets, x, budget, a, t - 1);
      var before, tick := After(start, ticks[..t - 1], budget), ticks[t - 1];
      if x in tick.batch {
        MissShrinks(before, targets, x, tick.batch, budget, tick.now);
        OneMore(Passes(ticks[a..t - 1], x), Passes(ticks[a..t], x), budget);
      } else {
        MissKeeps(before, targets, x, Selected(before, tick.batch, Some(budget)), tick.now);
      }
    }
  }

  lemma NoneTaken(start: map<int, int>, ticks: seq<Tick>, targets: set<int>, x: int, budget: nat, a: nat)
    requires x in targets && a <= |ticks|
    ensures |Ahead(After(start, ticks[..a], budget), targets, x)| + Taken(Passes(ticks[a..a], x), budget) <= |targets| - 1
  {
    hide Selected, Before, After;
    assert ticks[a..a] == [];
    SubsetSize(Ahead(After(start, ticks[..a], budget), targets, x), targets - {x});
  }

  /** What tick t does to the stamps and to the number of passes, when it does not fetch x. */
  lemma OneMoreTick(start: map<int, int>, ticks: seq<Tick>, targets: set<int>, x: int, budget: nat, a: nat, t: nat)
    requires WellTimed(start, ticks, targets) && x in targets && a <= t < |ticks| && !FetchedAt(start, ticks, budget, t, x)
    ensures var before, tick := After(start, ticks[..t], budget), ticks[t];
            && After(start, ticks[..t + 1], budget) == Fetched(before, Selected(before, tick.batch, Some(budget)), tick.now)
            && x !in Selected(before, tick.batch, Some(budget)) && LastOf(before, x) < tick.now
            && Distinct(tick.batch) && (forall y :: y in tick.batch ==> y in targets)
            && Passes(ticks[a..t + 1], x) == Passes(ticks[a..t], x) + if x in tick.batch then 1 else 0
  {
    hide Selected, Fetched;
    assert ticks[..t + 1][..t] == ticks[..t] && ticks[a..t + 1][..t - a] == ticks[a..t];
    TimesArePast(start, ticks, targets, budget, t, x);
    assert WellTimedAt(start, ticks, targets, t);
  }

  lemma OneMore(passes: nat, more: nat, budget: nat)
    requires more == passes + 1
    ensures Taken(more, budget) == Taken(passes, budget) + budget
  {}

  /** In any run, from any stamps and over any stretch a..b of it: once x has passed the filters at
      (N - 1) / budget + 1 of the ticks, consecutive or not, it was fetched at one of them, whatever the
      other N - 1 targets did. */
  lemma NoStarvation(start: map<int, int>, ticks: seq<Tick>, targets: set<int>, x: int, budget: nat, a: nat, b: nat)
    requires budget > 0 && x in targets && WellTimed(start, ticks, targets) && a <= b <= |ticks|
    requires Passes(ticks[a..b], x) >= (|targets| - 1) / budget + 1
    ensures exists t :: a <= t < b && FetchedAt(start, ticks, budget, t, x)
  {
    hide Passes, FetchedAt, Ahead, WellTimed, After;
    TooMany(|targets| - 1, budget, Passes(ticks[a..b], x));
    if forall t :: a <= t < b ==> !FetchedAt(start, ticks, budget, t, x) {
      MissesAddUp(start, ticks, targets, x, budget, a, b);
    }
  }

  /** In particular every window of (N - 1) / budget + 1 consecutive ticks at which x passes has a fetch of it. */
  lemma EveryWindowFetches(start: map<int, int>, ticks: seq<Tick>, targets: set<int>, x: int, budget: nat, a: nat)
    requires budget > 0 && x in targets && WellTimed(start, ticks, targets)
    requires a + (|targets| - 1) / budget + 1 <= |ticks|
    requires forall t :: a <= t <= a + (|targets| - 1) / budget ==> x in ticks[t].batch
    ensures exists t :: a <= t <= a + (|targets| - 1) / budget && FetchedAt(start, ticks, budget, t, x)
  {
    var b := a + (|targets| - 1) / budget + 1;
    AllPass(ticks[a..b], x);
    NoStarvation(start, ticks, targets, x, budget, a, b);
  }

  lemma {:induction false} AllPass(ticks: seq<Tick>, x: int)
    requires forall t :: 0 <= t < |ticks| ==> x in ticks[t].batch
    ensures Passes(ticks, x) == |ticks|
    decreases |ticks|
  {
    if ticks != [] {
      AllPass(ticks[..|ticks| - 1], x);
    }
  }

  lemma TooMany(others: nat, budget: nat, passes: nat)
    requires budget > 0 && passes >= others / budget + 1
    ensures passes * budget > others
  {
    var n := others / budget + 1;
    assert n * budget > others;
    MulLe(n, passes, budget);
  }

  lemma MulLe(a: nat, b: nat, c: nat)
    requires a <= b
    ensures a * c <= b * c
  {}
}
