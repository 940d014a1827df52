/** Exponential backoff after failed requests, per token and global, with jitter and an idle reset. */
module Backoff {
  import opened Numbers
  import opened Options

  /** failures counts the current streak; the times are milliseconds. */
  datatype State = State(backoffMs: int, untilMs: int, lastFailMs: int, failures: nat)

  const NEVER: State := State(0, 0, 0, 0)

  datatype Policy = Policy(min: int, max: int, reset: int)

  const TOKEN: Policy := Policy(2_000, 60_000, 120_000)
  const GLOBAL: Policy := Policy(5_000, 120_000, 300_000)

  predicate Sane(p: Policy) {
    0 < p.min <= p.max <= p.reset
  }

  function Clamp(x: int, lo: int, hi: int): int {
    if x < lo then lo else if x > hi then hi else x
  }

  /** The random factor is drawn from 0.5..1.5. */
  function Jittered(p: Policy, base: int, factor: real): int {
    if base <= 0 then 0 else Clamp(RoundHalfAway(base as real * factor), p.min, p.max)
  }

  /** The last failure is so long ago that it no longer counts. */
  predicate Idle(p: Policy, s: State, now: int) {
    s.lastFailMs > 0 && now - s.lastFailMs >= p.reset
  }

  predicate StartsOver(p: Policy, s: State, now: int) {
    s.lastFailMs == 0 || now - s.lastFailMs >= p.reset
  }

  function Mark(p: Policy, s: State, now: int, factor: real): State {
    var over := StartsOver(p, s, now);
    var next := if over || s.backoffMs <= 0 then p.min else if s.backoffMs * 2 > p.max then p.max else s.backoffMs * 2;
    State(next, now + Jittered(p, next, factor), now, if over then 1 else s.failures + 1)
  }

  function Pow2(k: nat): nat {
    if k == 0 then 1 else 2 * Pow2(k - 1)
  }

  /** The base delay after f failures in a row. */
  function Law(p: Policy, f: nat): int
    requires f > 0
  {
    if p.min * Pow2(f - 1) > p.max then p.max else p.min * Pow2(f - 1)
  }

  /** The delay d is the base delay times the factor, to the nearest millisecond, within the limits. */
  ghost predicate DelayOf(p: Policy, base: int, factor: real, d: int) {
    var x := base as real * factor;
    if x < p.min as real then d == p.min else if x > p.max as real then d == p.max else IsNearest(x, d)
  }

  lemma JitterIsNearest(p: Policy, base: int, factor: real)
    requires Sane(p) && base > 0
    ensures DelayOf(p, base, factor, Jittered(p, base, factor))
    ensures p.min <= Jittered(p, base, factor) <= p.max
  {
    var x := base as real * factor;
    RoundIsNearest(x, RoundHalfAway(x));
  }

  lemma NoJitter(p: Policy, base: int, d: int)
    requires p.min <= base <= p.max && DelayOf(p, base, 1.0, d)
    ensures d == base
  {}

  ghost predicate Lawful(p: Policy, s: State) {
    s == NEVER || (s.failures > 0 && s.backoffMs == Law(p, s.failures) && p.min <= s.untilMs - s.lastFailMs <= p.max)
  }

  lemma MarkKeepsLaw(p: Policy, s: State, now: int, factor: real)
    requires Sane(p) && Lawful(p, s)
    ensures var t := Mark(p, s, now, factor);
            Lawful(p, t) && p.min <= t.backoffMs <= p.max && DelayOf(p, t.backoffMs, factor, t.untilMs - t.lastFailMs)
  {
    var t := Mark(p, s, now, factor);
    LawIsBounded(p, s);
    JitterIsNearest(p, t.backoffMs, factor);
    hide Jittered, DelayOf;
    assert Pow2(0) == 1;
    if !StartsOver(p, s, now) {
      var f := s.failures;
      assert Pow2(f) == 2 * Pow2(f - 1);
      PowPositive(f - 1);
      LawDoubles(p.min, p.max, Pow2(f - 1));
    }
  }

  lemma LawIsBounded(p: Policy, s: State)
    requires Sane(p) && Lawful(p, s)
    ensures s == NEVER || p.min <= s.backoffMs <= p.max
  {
    if s != NEVER {
      PowPositive(s.failures - 1);
      assert p.min * Pow2(s.failures - 1) >= p.min * 1;
    }
  }

  lemma {:induction false} PowPositive(k: nat)
    ensures Pow2(k) > 0
  {
    if k > 0 { PowPositive(k - 1); }
  }

  /** Doubling a capped value and capping again is capping the double. */
  lemma LawDoubles(min: int, max: int, p: nat)
    requires 0 < min <= max && 0 < p
    ensures var capped := if min * p > max then max else min * p;
            && capped > 0
            && (if capped * 2 > max then max else capped * 2) == (if min * (2 * p) > max then max else min * (2 * p))
  {
    assert min * (2 * p) == 2 * (min * p);
    assert min * p >= min * 1;
  }

  datatype Failure = Failure(now: int, factor: real)

  function AfterAll(p: Policy, marks: seq<Failure>): State
    decreases |marks|
  {
    if marks == [] then NEVER
    else Mark(p, AfterAll(p, marks[..|marks| - 1]), marks[|marks| - 1].now, marks[|marks| - 1].factor)
  }

  /** How many of the last failures form one streak: no idle gap of `reset` and no failure at time 0 in between. */
  function Streak(p: Policy, marks: seq<Failure>): nat
    decreases |marks|
  {
    if |marks| <= 1 then |marks|
    else
      var before, last := marks[|marks| - 2].now, marks[|marks| - 1].now;
      if before == 0 || last - before >= p.reset then 1 else Streak(p, marks[..|marks| - 1]) + 1
  }

  /** After any failures the base delay is min * 2^(f-1), capped, for a streak of f, and the deadline is that
      delay times the last jitter factor after the last failure, to the nearest millisecond and within the
      configured limits; without jitter it is exactly that delay. */
  lemma {:induction false} BackoffLaw(p: Policy, marks: seq<Failure>)
    requires Sane(p) && marks != []
    ensures var s := AfterAll(p, marks);
            && s.lastFailMs == marks[|marks| - 1].now
            && s.failures == Streak(p, marks) > 0
            && s.backoffMs == Law(p, Streak(p, marks))
            && DelayOf(p, Law(p, Streak(p, marks)), marks[|marks| - 1].factor, s.untilMs - s.lastFailMs)
            && p.min <= s.untilMs - s.lastFailMs <= p.max
            && (marks[|marks| - 1].factor == 1.0 ==> s.untilMs - s.lastFailMs == Law(p, Streak(p, marks)))
    decreases |marks|
  {
    hide DelayOf, Jittered;
    var front, last := marks[..|marks| - 1], marks[|marks| - 1];
    if front != [] {
      BackoffLaw(p, front);
      MarkKeepsLaw(p, AfterAll(p, front), last.now, last.factor);
    } else {
      assert AfterAll(p, front) == NEVER;
      MarkKeepsLaw(p, NEVER, last.now, last.factor);
    }
    var s := AfterAll(p, marks);
    if last.factor == 1.0 {
      NoJitter(p, s.backoffMs, s.untilMs - s.lastFailMs);
    }
  }

  /** The limits in milliseconds: a token is held back 2 s after one failure, then 4 s, 8 s and so on up to
      60 s; the gate of all requests closes for 5 s, 10 s and so on up to 120 s. */
  lemma LimitsAre(f: nat)
    requires f > 0
    ensures Law(TOKEN, f) == if 2_000 * Pow2(f - 1) > 60_000 then 60_000 else 2_000 * Pow2(f - 1)
    ensures Law(GLOBAL, f) == if 5_000 * Pow2(f - 1) > 120_000 then 120_000 else 5_000 * Pow2(f - 1)
    ensures TOKEN.reset == 120_000 && GLOBAL.reset == 300_000
  {}

  /** An idle reset comes only after the deadline. */
  lemma ResetIsAfterDeadline(p: Policy, s: State, now: int)
    requires Sane(p) && Lawful(p, s) && now - s.lastFailMs >= p.reset && s.lastFailMs > 0
    ensures s.untilMs <= now
  {}

  /** So after any history of failures, forgetting an idle one never releases its token or the gate early. */
  lemma NoEarlyRelease(p: Policy, marks: seq<Failure>, now: int)
    requires Sane(p) && marks != []
    ensures var s := AfterAll(p, marks); now - s.lastFailMs >= p.reset ==> s.untilMs <= now
  {
    hide AfterAll, Law, Streak;
    BackoffLaw(p, marks);
  }

  // ----- the gate of one token -----

  predicate Passes(cache: map<int, State>, priority: map<int, int>, x: int, now: int, allow: bool) {
    x !in cache || cache[x].untilMs <= now || (allow && (if x in priority && priority[x] > now then priority[x] else 0) > now)
  }

  function Keep(cache: map<int, State>, priority: map<int, int>, targets: seq<int>, now: int, allow: bool): (kept: seq<int>)
    ensures |kept| <= |targets|
    decreases |targets|
  {
    if targets == [] then []
    else
      var front, x := targets[..|targets| - 1], targets[|targets| - 1];
      Keep(cache, priority, front, now, allow) + if Passes(cache, priority, x, now, allow) then [x] else []
  }

  class RestBackoff {
    var cache: map<int, State>
    var priority: map<int, int>
    var gate: State

    ghost predicate Valid()
      reads this
    {
      Lawful(GLOBAL, gate) && forall x :: x in cache ==> Lawful(TOKEN, cache[x])
    }

    constructor ()
      ensures Valid() && cache == map[] && priority == map[] && gate == State(0, 0, 0, 0)
    {
      cache, priority, gate := map[], map[], NEVER;
    }

    method MarkToken(x: int, now: int, factor: real)
      requires Valid()
      modifies this`cache
      ensures Valid()
      ensures cache == old(cache)[x := Mark(TOKEN, if x in old(cache) then old(cache)[x] else NEVER, now, factor)]
    {
      var state := if x in cache then cache[x] else NEVER;
      MarkKeepsLaw(TOKEN, state, now, factor);
      var over := state.lastFailMs == 0 || now - state.lastFailMs >= TOKEN.reset;
      var next := TOKEN.min;
      if !over && state.backoffMs > 0 {
        next := if state.backoffMs * 2 > TOKEN.max then TOKEN.max else state.backoffMs * 2;
      }
      cache := cache[x := State(next, now + Jittered(TOKEN, next, factor), now, if over then 1 else state.failures + 1)];
    }

    method MarkGlobal(now: int, factor: real)
      requires Valid()
      modifies this`gate
      ensures Valid() && gate == Mark(GLOBAL, old(gate), now, factor)
    {
      MarkKeepsLaw(GLOBAL, gate, now, factor);
      var over := gate.lastFailMs == 0 || now - gate.lastFailMs >= GLOBAL.reset;
      var next := GLOBAL.min;
      if !over && gate.backoffMs > 0 {
        next := if gate.backoffMs * 2 > GLOBAL.max then GLOBAL.max else gate.backoffMs * 2;
      }
      gate := State(next, now + Jittered(GLOBAL, next, factor), now, if over then 1 else gate.failures + 1);
    }

    /** The global gate: closed exactly until its deadline, although an idle gate is reset. */
    method GateUntil(now: int) returns (r: Option<int>)
      requires Valid()
      modifies this`gate
      ensures Valid()
      ensures r == if old(gate).untilMs > now then Some(old(gate).untilMs) else None
      ensures gate == if Idle(GLOBAL, old(gate), now) then NEVER else old(gate)
    {
      if gate.lastFailMs > 0 && now - gate.lastFailMs >= GLOBAL.reset {
        ResetIsAfterDeadline(GLOBAL, gate, now);
        gate := NEVER;
        return None;
      }
      return if gate.untilMs > now then Some(gate.untilMs) else None;
    }

    /** One target: an idle entry is forgotten, a standing deadline keeps the target back unless it has
        priority. `before` is the cache when the filter began. */
    method Decide(x: int, now: int, allow: bool, ghost before: map<int, State>) returns (keep: bool)
      requires Valid() && Shrunk(before, cache, now)
      requires forall y :: y in priority ==> priority[y] > now
      modifies this`cache
      ensures Valid() && Shrunk(before, cache, now)
      ensures keep == Passes(before, priority, x, now, allow)
      ensures cache == if x in old(cache) && Idle(TOKEN, old(cache)[x], now) then old(cache) - {x} else old(cache)
    {
      hide Law, Lawful;
      if x !in cache { return true; }
      var state := cache[x];
      if state.lastFailMs > 0 && now - state.lastFailMs >= TOKEN.reset {
        ResetIsAfterDeadline(TOKEN, state, now);
        cache := cache - {x};
        return true;
      }
      if state.untilMs > now {
        return allow && (if x in priority then priority[x] else 0) > now;
      }
      return true;
    }

    /** Lets through, in order, exactly the targets that never failed, are past their deadline, or have priority. */
    method Filter(targets: seq<int>, now: int, allow: bool) returns (filtered: seq<int>, skipped: nat)
      requires Valid()
      modifies this`cache, this`priority
      ensures Valid()
      ensures filtered == Keep(old(cache), old(priority), targets, now, allow)
      ensures skipped == |targets| - |filtered|
      ensures forall x :: x in cache ==> x in old(cache) && cache[x] == old(cache)[x]
      ensures forall x :: x in old(cache) ==> (x !in cache <==> x in targets && Idle(TOKEN, old(cache)[x], now))
      ensures priority == if targets == [] then old(priority)
                          else map x | x in old(priority) && old(priority)[x] > now :: old(priority)[x]
    {
      filtered, skipped := [], 0;
      if targets == [] { return; }
      priority := Pruned(priority, now);
      for i := 0 to |targets|
        invariant Valid() && Shrunk(old(cache), cache, now) && priority == Pruned(old(priority), now)
        invariant filtered == Keep(old(cache), old(priority), targets[..i], now, allow)
        invariant skipped == i - |filtered|
        invariant forall x :: x in old(cache) ==> (x !in cache <==> x in targets[..i] && Idle(TOKEN, old(cache)[x], now))
      {
        hide Passes, Pruned, Shrunk, Law, Lawful, Idle;
        assert targets[..i + 1] == targets[..i] + [targets[i]];
        PrunedPasses(old(cache), old(priority), targets[i], now, allow);
        var keep := Decide(targets[i], now, allow, old(cache));
        if keep {
          filtered := filtered + [targets[i]];
        } else {
          skipped := skipped + 1;
        }
      }
      assert targets[..|targets|] == targets;
    }
  }

  /** Only idle entries, past their deadline, have been forgotten. */
  ghost predicate Shrunk(before: map<int, State>, cache: map<int, State>, now: int) {
    && (forall x :: x in cache ==> x in before && cache[x] == before[x])
    && (forall x :: x in before && x !in cache ==> now - before[x].lastFailMs >= TOKEN.reset && before[x].untilMs <= now)
  }

  /** The priorities that have not run out. */
  function Pruned(priority: map<int, int>, now: int): map<int, int> {
    map x | x in priority && priority[x] > now :: priority[x]
  }

  lemma PrunedPasses(cache: map<int, State>, priority: map<int, int>, x: int, now: int, allow: bool)
    ensures forall y :: y in Pruned(priority, now) ==> Pruned(priority, now)[y] > now
    ensures Passes(cache, Pruned(priority, now), x, now, allow) == Passes(cache, priority, x, now, allow)
  {}
}
