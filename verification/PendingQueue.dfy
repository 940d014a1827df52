/** Responses waiting for their target second: a map ordered by target, drained a bounded piece at a time. */
module PendingQueue {
  const PROCESS_MAX: nat := 500
  const HORIZONS: seq<int> := [10, 30, 60, 120, 300]

  datatype Response = Response(id: nat, target: int)

  /** The ordered map: one entry a target, targets ascending, items of one target in insertion order. */
  datatype Slot = Slot(target: int, items: seq<Response>)

  ghost predicate Ordered(slots: seq<Slot>) {
    && (forall a, b :: 0 <= a < b < |slots| ==> slots[a].target < slots[b].target)
    && (forall a :: 0 <= a < |slots| ==> slots[a].items != [] && AllFor(slots[a].items, slots[a].target))
  }

  ghost predicate AllFor(items: seq<Response>, target: int) {
    forall i :: 0 <= i < |items| ==> items[i].target == target
  }

  /** The whole queue in hand-over order. */
  function Flat(slots: seq<Slot>): seq<Response>
    decreases |slots|
  {
    if slots == [] then [] else slots[0].items + Flat(slots[1..])
  }

  /** How many waiting responses are due at `now`. */
  function Due(slots: seq<Slot>, now: int): nat
    decreases |slots|
  {
    if slots == [] || slots[0].target > now then 0 else |slots[0].items| + Due(slots[1..], now)
  }

  /** Appends to the entry of the item's target, made where it belongs when missing. */
  function Enqueue(slots: seq<Slot>, item: Response): seq<Slot>
    decreases |slots|
  {
    if slots == [] || item.target < slots[0].target then [Slot(item.target, [item])] + slots
    else if slots[0].target == item.target then [Slot(item.target, slots[0].items + [item])] + slots[1..]
    else [slots[0]] + Enqueue(slots[1..], item)
  }

  ghost predicate AllAfter(slots: seq<Slot>, t: int) {
    forall a :: 0 <= a < |slots| ==> t < slots[a].target
  }

  lemma TailOrdered(slots: seq<Slot>)
    requires Ordered(slots) && slots != []
    ensures Ordered(slots[1..])
    ensures AllAfter(slots[1..], slots[0].target)
  {
    var rest := slots[1..];
    forall a | 0 <= a < |rest| ensures rest[a] == slots[a + 1] {}
  }

  lemma ConsOrdered(head: Slot, rest: seq<Slot>)
    requires Ordered(rest) && head.items != [] && AllFor(head.items, head.target)
    requires AllAfter(rest, head.target)
    ensures Ordered([head] + rest)
  {
    var slots := [head] + rest;
    forall a | 0 < a < |slots| ensures slots[a] == rest[a - 1] {}
  }

  lemma {:induction false} EnqueueAfter(slots: seq<Slot>, item: Response, t: int)
    requires AllAfter(slots, t) && t < item.target
    ensures AllAfter(Enqueue(slots, item), t)
    decreases |slots|
  {
    if slots != [] && slots[0].target < item.target {
      EnqueueAfter(slots[1..], item, t);
    }
  }

  lemma {:induction false} EnqueueOrdered(slots: seq<Slot>, item: Response)
    requires Ordered(slots)
    ensures Ordered(Enqueue(slots, item))
    decreases |slots|
  {
    if slots == [] || item.target < slots[0].target {
      ConsOrdered(Slot(item.target, [item]), slots);
    } else {
      TailOrdered(slots);
      if slots[0].target == item.target {
        ConsOrdered(Slot(item.target, slots[0].items + [item]), slots[1..]);
      } else {
        EnqueueOrdered(slots[1..], item);
        EnqueueAfter(slots[1..], item, slots[0].target);
        ConsOrdered(slots[0], Enqueue(slots[1..], item));
      }
    }
  }

  /** A new item goes behind everything due no later than it and ahead of everything due later. */
  lemma {:induction false} EnqueueInOrder(slots: seq<Slot>, item: Response)
    requires Ordered(slots)
    ensures var j := Due(slots, item.target);
            && Ordered(Enqueue(slots, item))
            && j <= |Flat(slots)|
            && Flat(Enqueue(slots, item)) == Flat(slots)[..j] + [item] + Flat(slots)[j..]
    decreases |slots|
  {
    EnqueueOrdered(slots, item);
    var q := Enqueue(slots, item);
    if slots == [] || item.target < slots[0].target {
      assert q[1..] == slots;
    } else {
      TailOrdered(slots);
      var rest := slots[1..];
      hide Ordered;
      if slots[0].target == item.target {
        assert q[1..] == rest;
        assert Due(rest, item.target) == 0;
        assert Flat(slots) == slots[0].items + Flat(rest);
      } else {
        EnqueueInOrder(rest, item);
        assert q[1..] == Enqueue(rest, item);
        SplitAfter(slots[0].items, Flat(rest), item, Due(rest, item.target));
      }
    }
  }

  lemma SplitAfter(head: seq<Response>, rest: seq<Response>, item: Response, j: nat)
    requires j <= |rest|
    ensures head + (rest[..j] + [item] + rest[j..]) == (head + rest)[..|head| + j] + [item] + (head + rest)[|head| + j..]
  {
    assert (head + rest)[..|head| + j] == head + rest[..j];
    assert (head + rest)[|head| + j..] == rest[j..];
  }

  /** The due responses are a prefix of the queue. */
  lemma {:induction false} DueIsPrefix(slots: seq<Slot>, now: int)
    requires Ordered(slots)
    ensures Due(slots, now) <= |Flat(slots)|
    ensures forall i :: 0 <= i < |Flat(slots)| ==> (i < Due(slots, now) <==> Flat(slots)[i].target <= now)
    decreases |slots|
  {
    if slots != [] {
      TailOrdered(slots);
      var head, rest := slots[0], slots[1..];
      DueIsPrefix(rest, now);
      forall i | 0 <= i < |Flat(slots)| ensures i < Due(slots, now) <==> Flat(slots)[i].target <= now {
        if i < |head.items| {
          assert Flat(slots)[i] == head.items[i];
        } else {
          assert Flat(slots)[i] == Flat(rest)[i - |head.items|];
          if head.target > now {
            AllLater(rest, head.target, i - |head.items|);
          }
        }
      }
    }
  }

  lemma {:induction false} AllLater(slots: seq<Slot>, t: int, i: nat)
    requires Ordered(slots) && i < |Flat(slots)|
    requires AllAfter(slots, t)
    ensures t < Flat(slots)[i].target
    decreases |slots|
  {
    if i < |slots[0].items| {
      assert Flat(slots)[i] == slots[0].items[i];
    } else {
      TailOrdered(slots);
      AllLater(slots[1..], t, i - |slots[0].items|);
    }
  }

  function Min(a: nat, b: nat): (m: nat)
    ensures m <= a && m <= b && (m == a || m == b)
  {
    if a < b then a else b
  }

  /** How many are taken: no more than are due, than 500, than the clock allows, than the channel takes. */
  function Taken(due: nat, alpha: bool, clock: nat, room: nat): nat {
    Min(Min(due, PROCESS_MAX), if alpha then Min(clock, room) else clock)
  }

  /** If a due response stays, 500 have gone or the clock or the channel has run out. */
  lemma StopsForAReason(slots: seq<Slot>, now: int, alpha: bool, clock: nat, room: nat)
    requires Ordered(slots)
    ensures var k, flat := Taken(Due(slots, now), alpha, clock, room), Flat(slots);
            && k <= |flat| && k <= 500 && k <= clock && (alpha ==> k <= room)
            && (k == |flat| || flat[k].target > now || k == 500 || k == clock || (alpha && k == room))
  {
    DueIsPrefix(slots, now);
  }

  lemma HeadFits(slots: seq<Slot>)
    requires slots != []
    ensures |slots[0].items| <= |Flat(slots)|
  {}

  lemma NothingDue(slots: seq<Slot>, now: int)
    requires slots == [] || slots[0].target > now
    ensures Due(slots, now) == 0
  {}

  lemma NoneTaken(flat: seq<Response>, sent: seq<Response>)
    ensures flat[..0] == [] && sent + [] == sent && flat[0..] == flat
  {}

  lemma TakeMore(sent: seq<Response>, flat: seq<Response>, processed: nat, taken: nat)
    requires processed + taken <= |flat|
    ensures flat[processed..][taken..] == flat[processed + taken..]
    ensures sent + flat[..processed] + flat[processed..][..taken] == sent + flat[..processed + taken]
    ensures sent + [] + [] == sent + []
  {
    assert flat[..processed] + flat[processed..][..taken] == flat[..processed + taken];
  }

  /** Taking some items of the first entry takes the same number off the front of the queue. */
  lemma TakeFromFront(slots: seq<Slot>, taken: nat, now: int)
    requires Ordered(slots) && slots != [] && slots[0].target <= now && taken <= |slots[0].items|
    ensures var items := slots[0].items;
            var left := if taken < |items| then [Slot(slots[0].target, items[taken..])] + slots[1..] else slots[1..];
            && Ordered(left)
            && taken <= |Flat(slots)|
            && Flat(left) == Flat(slots)[taken..]
            && Flat(slots)[..taken] == items[..taken]
            && taken + Due(left, now) == Due(slots, now)
  {
    TailOrdered(slots);
    var items, rest := slots[0].items, slots[1..];
    if taken < |items| {
      var head := Slot(slots[0].target, items[taken..]);
      ConsOrdered(head, rest);
      assert ([head] + rest)[1..] == rest;
    }
  }

  class Queue {
    const alpha: bool
    var slots: seq<Slot>
    var count: nat
    var sent: seq<Response>

    ghost predicate Valid()
      reads this
    {
      Ordered(slots) && count == |Flat(slots)|
    }

    constructor (alpha: bool)
      ensures Valid() && slots == [] && sent == [] && this.alpha == alpha
    {
      this.alpha := alpha;
      slots, count, sent := [], 0, [];
    }

    /** Queues the five responses of a shock: 10, 30, 60, 120 and 300 seconds after it. */
    method HandleShock(trigger: int, firstId: nat)
      requires Valid()
      modifies this`slots, this`count
      ensures Valid() && slots == (if alpha then AfterShock(old(slots), trigger, firstId, 5) else old(slots))
      ensures multiset(Flat(slots)) == multiset(Flat(old(slots))) + if alpha then multiset(FiveOf(trigger, firstId)) else multiset{}
    {
      hide FiveOf;
      if !alpha {
        NoMore(Flat(slots));
        return;
      }
      ShockQueuesFive(slots, trigger, firstId);
      QueueFive(trigger, firstId);
    }

    method QueueFive(trigger: int, firstId: nat)
      requires Valid()
      modifies this`slots, this`count
      ensures Valid() && slots == AfterShock(old(slots), trigger, firstId, 5)
    {
      hide Ordered, Flat, Enqueue;
      for h := 0 to 5
        invariant Valid() && slots == AfterShock(old(slots), trigger, firstId, h)
      {
        var item := Response(firstId + h, trigger + HORIZONS[h]);
        EnqueueInOrder(slots, item);
        slots := Enqueue(slots, item);
        count := count + 1;
      }
    }

    /** Hands over due responses until none is left, the clock or the channel stops it, or 500 have gone. */
    method FlushPending(now: int, clock: nat, room: nat)
      requires Valid()
      modifies this`slots, this`count, this`sent
      ensures Valid()
      ensures var k := Taken(Due(old(slots), now), alpha, clock, room);
              && k <= |Flat(old(slots))|
              && Flat(slots) == Flat(old(slots))[k..]
              && sent == old(sent) + (if alpha then Flat(old(slots))[..k] else [])
              && count == old(count) - k
      ensures var k := |Flat(old(slots))| - |Flat(slots)|;
              && 0 <= k <= 500 && k <= clock && (alpha ==> k <= room)
              && (Flat(slots) == [] || Flat(slots)[0].target > now || k == 500 || k == clock || (alpha && k == room))
    {
      hide Ordered, Flat, Due, Taken;
      StopsForAReason(slots, now, alpha, clock, room);
      HandOver(now, clock, room);
    }

    method HandOver(now: int, clock: nat, room: nat)
      requires Valid()
      modifies this`slots, this`count, this`sent
      ensures Valid()
      ensures var k := Taken(Due(old(slots), now), alpha, clock, room);
              && k <= |Flat(old(slots))|
              && Flat(slots) == Flat(old(slots))[k..]
              && sent == old(sent) + (if alpha then Flat(old(slots))[..k] else [])
              && count == old(count) - k
    {
      hide Ordered, Flat, Due;
      ghost var flat, due := Flat(slots), Due(slots, now);
      ghost var k := Taken(due, alpha, clock, room);
      DueIsPrefix(slots, now);
      var processed: nat := 0;
      var blocked := false;
      NoneTaken(flat, sent);
      while slots != [] && slots[0].target <= now && !blocked
        invariant Valid() && processed <= k <= |flat|
        invariant processed + Due(slots, now) == due
        invariant Flat(slots) == flat[processed..] && count == old(count) - processed
        invariant sent == old(sent) + (if alpha then flat[..processed] else [])
        invariant blocked ==> processed == k
        decreases !blocked, |slots|
      {
        HeadFits(slots);
        var taken: nat;
        taken, blocked := TakeFirst(now, processed, clock, room);
        TakeMore(old(sent), flat, processed, taken);
        processed := processed + taken;
      }
      if !blocked { NothingDue(slots, now); }
    }

    /** Hands over what it can of the first entry; what remains of it goes back to the front. */
    method TakeFirst(ghost now: int, processed: nat, clock: nat, room: nat) returns (taken: nat, blocked: bool)
      requires Valid() && slots != [] && slots[0].target <= now
      modifies this`slots, this`count, this`sent
      ensures Valid()
      ensures var limit, n := Min(PROCESS_MAX, if alpha then Min(clock, room) else clock), |old(slots)[0].items|;
              && taken == (if processed >= limit then 0 else Min(n, limit - processed))
              && taken <= n <= |Flat(old(slots))| && (blocked <==> taken < n)
      ensures Flat(slots) == Flat(old(slots))[taken..] && count == old(count) - taken
      ensures sent == old(sent) + (if alpha then Flat(old(slots))[..taken] else [])
      ensures taken + Due(slots, now) == Due(old(slots), now)
      ensures !blocked ==> |slots| < |old(slots)|
    {
      hide Ordered, Flat, Due;
      var target, items := slots[0].target, slots[0].items;
      HeadFits(slots);
      taken := TakeItems(items, processed, clock, room);
      TakeFromFront(slots, taken, now);
      blocked := taken < |items|;
      slots := if blocked then [Slot(target, items[taken..])] + slots[1..] else slots[1..];
    }

    /** Items of one target, in order; returns how many went. */
    method TakeItems(items: seq<Response>, processed: nat, clock: nat, room: nat) returns (taken: nat)
      requires |items| <= count
      modifies this`count, this`sent
      ensures var limit := Min(PROCESS_MAX, if alpha then Min(clock, room) else clock);
              taken == if processed >= limit then 0 else Min(|items|, limit - processed)
      ensures sent == old(sent) + (if alpha then items[..taken] else [])
      ensures count == old(count) - taken
    {
      taken := 0;
      assert sent + [] == sent;
      while taken < |items|
        invariant taken <= |items| && count == old(count) - taken
        invariant taken == 0 || processed + taken <= Min(PROCESS_MAX, if alpha then Min(clock, room) else clock)
        invariant sent == old(sent) + (if alpha then items[..taken] else [])
      {
        if processed + taken >= PROCESS_MAX || processed + taken >= clock { break; }
        if alpha {
          if processed + taken >= room { break; }
          assert items[..taken + 1] == items[..taken] + [items[taken]];
          sent := sent + [items[taken]];
        }
        if count > 0 { count := count - 1; }
        taken := taken + 1;
      }
    }
  }

  lemma NoMore(flat: seq<Response>)
    ensures multiset(flat) + multiset{} == multiset(flat)
  {}

  /** The responses of a shock. */
  function FiveOf(trigger: int, firstId: nat): seq<Response> {
    [Response(firstId, trigger + 10), Response(firstId + 1, trigger + 30), Response(firstId + 2, trigger + 60),
     Response(firstId + 3, trigger + 120), Response(firstId + 4, trigger + 300)]
  }

  lemma EnqueueAdds(slots: seq<Slot>, item: Response)
    requires Ordered(slots)
    ensures multiset(Flat(Enqueue(slots, item))) == multiset(Flat(slots)) + multiset{item}
  {
    EnqueueInOrder(slots, item);
    var j := Due(slots, item.target);
    hide Ordered, Flat, Enqueue, Due;
    assert Flat(slots) == Flat(slots)[..j] + Flat(slots)[j..];
  }

  lemma {:induction false} QueuesFirst(slots: seq<Slot>, trigger: int, firstId: nat, n: nat)
    requires Ordered(slots) && n <= 5
    ensures var q := AfterShock(slots, trigger, firstId, n);
            Ordered(q) && multiset(Flat(q)) == multiset(Flat(slots)) + multiset(FiveOf(trigger, firstId)[..n])
    decreases n
  {
    hide Ordered, Flat, Enqueue;
    var five := FiveOf(trigger, firstId);
    if n == 0 {
      assert five[..0] == [];
    } else {
      QueuesFirst(slots, trigger, firstId, n - 1);
      var q := AfterShock(slots, trigger, firstId, n - 1);
      NextOfFive(trigger, firstId, n);
      assert five[..n] == five[..n - 1] + [five[n - 1]];
      hide AfterShock, FiveOf;
      EnqueueOrdered(q, five[n - 1]);
      EnqueueAdds(q, five[n - 1]);
    }
  }

  lemma NextOfFive(trigger: int, firstId: nat, n: nat)
    requires 0 < n <= 5
    ensures FiveOf(trigger, firstId)[n - 1] == Response(firstId + n - 1, trigger + HORIZONS[n - 1])
  {}

  lemma ShockQueuesFive(slots: seq<Slot>, trigger: int, firstId: nat)
    requires Ordered(slots)
    ensures multiset(Flat(AfterShock(slots, trigger, firstId, 5))) == multiset(Flat(slots)) + multiset(FiveOf(trigger, firstId))
  {
    hide Ordered, Flat, AfterShock;
    QueuesFirst(slots, trigger, firstId, 5);
    assert FiveOf(trigger, firstId)[..5] == FiveOf(trigger, firstId);
  }

  function AfterShock(slots: seq<Slot>, trigger: int, firstId: nat, n: nat): seq<Slot>
    requires n <= 5
  {
    if n == 0 then slots
    else Enqueue(AfterShock(slots, trigger, firstId, n - 1), Response(firstId + n - 1, trigger + HORIZONS[n - 1]))
  }

  // ----- whole runs, with alpha capture on -----

  datatype Event = Shock(trigger: int) | Tick(now: int, clock: nat, room: nat)

  datatype Handover = Handover(item: Response, now: int)

  datatype State = State(queue: seq<Response>, queued: seq<Response>, handed: seq<Handover>)

  function DueIn(queue: seq<Response>, now: int): nat
    decreases |queue|
  {
    if queue == [] || queue[0].target > now then 0 else 1 + DueIn(queue[1..], now)
  }

  function Insert(queue: seq<Response>, item: Response): (q: seq<Response>)
    ensures multiset(q) == multiset(queue) + multiset{item}
  {
    var j := DueIn(queue, item.target);
    DueInBound(queue, item.target);
    assert queue == queue[..j] + queue[j..];
    queue[..j] + [item] + queue[j..]
  }

  lemma {:induction false} DueInBound(queue: seq<Response>, now: int)
    ensures DueIn(queue, now) <= |queue|
    ensures forall i :: 0 <= i < DueIn(queue, now) ==> queue[i].target <= now
    decreases |queue|
  {
    if queue != [] && queue[0].target <= now {
      DueInBound(queue[1..], now);
    }
  }

  /** The flattened queue is the simple sorted list: due counts and insertion agree. */
  lemma {:induction false} FlatIsSimpleList(slots: seq<Slot>, now: int)
    requires Ordered(slots)
    ensures DueIn(Flat(slots), now) == Due(slots, now)
  {
    DueIsPrefix(slots, now);
    DueInPrefix(Flat(slots), now, Due(slots, now));
  }

  lemma {:induction false} DueInPrefix(queue: seq<Response>, now: int, n: nat)
    requires n <= |queue| && forall i :: 0 <= i < |queue| ==> (i < n <==> queue[i].target <= now)
    ensures DueIn(queue, now) == n
    decreases |queue|
  {
    if n > 0 {
      DueInPrefix(queue[1..], now, n - 1);
    }
  }

  lemma EnqueueIsInsert(slots: seq<Slot>, item: Response)
    requires Ordered(slots)
    ensures Ordered(Enqueue(slots, item)) && Flat(Enqueue(slots, item)) == Insert(Flat(slots), item)
  {
    EnqueueInOrder(slots, item);
    FlatIsSimpleList(slots, item.target);
  }

  function Queue5(s: State, trigger: int, n: nat): State
    requires n <= 5
    decreases n
  {
    if n == 0 then s
    else
      var t := Queue5(s, trigger, n - 1);
      var item := Response(|t.queued|, trigger + HORIZONS[n - 1]);
      t.(queue := Insert(t.queue, item), queued := t.queued + [item])
  }

  /** The class's five insertions are the five of the run. */
  lemma {:induction false} AfterShockRefines(slots: seq<Slot>, s: State, trigger: int, n: nat)
    requires Ordered(slots) && s.queue == Flat(slots) && n <= 5
    ensures Ordered(AfterShock(slots, trigger, |s.queued|, n))
    ensures Flat(AfterShock(slots, trigger, |s.queued|, n)) == Queue5(s, trigger, n).queue
    ensures |Queue5(s, trigger, n).queued| == |s.queued| + n
    decreases n
  {
    hide Enqueue, Insert, Flat, Ordered;
    if n > 0 {
      AfterShockRefines(slots, s, trigger, n - 1);
      EnqueueIsInsert(AfterShock(slots, trigger, |s.queued|, n - 1), Response(|s.queued| + n - 1, trigger + HORIZONS[n - 1]));
    }
  }

  function Handovers(items: seq<Response>, now: int): (hs: seq<Handover>)
    ensures |hs| == |items| && forall i :: 0 <= i < |hs| ==> hs[i] == Handover(items[i], now)
  {
    seq(|items|, i requires 0 <= i < |items| => Handover(items[i], now))
  }

  function Step(s: State, ev: Event): State {
    match ev
    case Shock(trigger) => Queue5(s, trigger, 5)
    case Tick(now, clock, room) =>
      DueInBound(s.queue, now);
      var k := Taken(DueIn(s.queue, now), true, clock, room);
      s.(queue := s.queue[k..], handed := s.handed + Handovers(s.queue[..k], now))
  }

  function Run(evs: seq<Event>): State
    decreases |evs|
  {
    if evs == [] then State([], [], []) else Step(Run(evs[..|evs| - 1]), evs[|evs| - 1])
  }

  function Items(handed: seq<Handover>): (items: seq<Response>)
    ensures |items| == |handed| && forall i :: 0 <= i < |items| ==> items[i] == handed[i].item
  {
    seq(|handed|, i requires 0 <= i < |handed| => handed[i].item)
  }

  ghost predicate Inv(s: State) {
    && multiset(s.queued) == multiset(s.queue) + multiset(Items(s.handed))
    && (forall i :: 0 <= i < |s.queued| ==> s.queued[i].id == i)
    && (forall i :: 0 <= i < |s.handed| ==> s.handed[i].item.target <= s.handed[i].now)
  }

  lemma {:induction false} QueueKeeps(s: State, trigger: int, n: nat)
    requires Inv(s) && n <= 5
    ensures Inv(Queue5(s, trigger, n))
    decreases n
  {
    hide Inv, Insert;
    if n > 0 {
      QueueKeeps(s, trigger, n - 1);
      QueueOneKeeps(Queue5(s, trigger, n - 1), trigger + HORIZONS[n - 1]);
    }
  }

  lemma QueueOneKeeps(s: State, target: int)
    requires Inv(s)
    ensures var item := Response(|s.queued|, target);
            Inv(s.(queue := Insert(s.queue, item), queued := s.queued + [item]))
  {
    hide Insert, Items;
    var item := Response(|s.queued|, target);
    assert multiset(s.queued + [item]) == multiset(s.queued) + multiset{item};
  }

  lemma TickKeeps(s: State, now: int, k: nat)
    requires Inv(s) && k <= |s.queue| && forall i :: 0 <= i < k ==> s.queue[i].target <= now
    ensures Inv(s.(queue := s.queue[k..], handed := s.handed + Handovers(s.queue[..k], now)))
  {
    var handed := s.handed + Handovers(s.queue[..k], now);
    assert Items(handed) == Items(s.handed) + s.queue[..k];
    hide Items, Handovers;
    assert s.queue == s.queue[..k] + s.queue[k..];
    forall i | 0 <= i < |handed| ensures handed[i].item.target <= handed[i].now {
      if i >= |s.handed| {
        assert handed[i] == Handovers(s.queue[..k], now)[i - |s.handed|];
      }
    }
  }

  lemma {:induction false} RunKeeps(evs: seq<Event>)
    ensures Inv(Run(evs))
    decreases |evs|
  {
    if evs != [] {
      var before, ev := Run(evs[..|evs| - 1]), evs[|evs| - 1];
      RunKeeps(evs[..|evs| - 1]);
      match ev
      case Shock(trigger) => QueueKeeps(before, trigger, 5);
      case Tick(now, clock, room) =>
        DueInBound(before.queue, now);
        TickKeeps(before, now, Taken(DueIn(before.queue, now), true, clock, room));
    }
  }

  /** Every queued response is waiting or was handed over, never both, never twice, never early. */
  lemma HandedOverOnceAndNotEarly(evs: seq<Event>, a: nat, b: nat)
    requires var s := Run(evs); a < |s.handed| && b < |s.handed|
    ensures var s := Run(evs);
            && s.handed[a].item.target <= s.handed[a].now
            && (s.handed[a].item.id == s.handed[b].item.id ==> a == b)
            && s.handed[a].item !in s.queue
  {
    hide Run;
    RunKeeps(evs);
    var s := Run(evs);
    SplitIsExclusive(s.queued, s.queue, Items(s.handed), a);
    if a != b && s.handed[a].item.id == s.handed[b].item.id {
      SplitIsExclusive(s.queued, s.queue, Items(s.handed), b);
      TwiceCounts(Items(s.handed), a, b);
    }
  }

  lemma SplitIsExclusive(queued: seq<Response>, queue: seq<Response>, items: seq<Response>, a: nat)
    requires a < |items| && multiset(queued) == multiset(queue) + multiset(items)
    requires forall i :: 0 <= i < |queued| ==> queued[i].id == i
    ensures items[a] in queued && queued[items[a].id] == items[a]
    ensures multiset(items)[items[a]] == 1 && items[a] !in queue
  {
    var item := items[a];
    assert item in multiset(items);
    assert item in multiset(queued);
    OnlyOnce(queued, item);
    assert item in queue <==> item in multiset(queue);
  }

  lemma {:induction false} OnlyOnce(queued: seq<Response>, item: Response)
    requires forall i :: 0 <= i < |queued| ==> queued[i].id == i
    ensures multiset(queued)[item] <= 1
    decreases |queued|
  {
    if queued != [] {
      var front, last := queued[..|queued| - 1], queued[|queued| - 1];
      assert queued == front + [last];
      OnlyOnce(front, item);
    }
  }

  lemma TwiceCounts(items: seq<Response>, a: nat, b: nat)
    requires a < |items| && b < |items| && a != b && items[a] == items[b]
    ensures multiset(items)[items[a]] >= 2
  {
    var lo, hi := if a < b then a else b, if a < b then b else a;
    assert items == items[..hi] + [items[hi]] + items[hi + 1..];
    assert items[..hi][lo] in multiset(items[..hi]);
  }
}
