/** Joining the bars of two venues per pair, side and second: buckets, the index by second from which stale
    ones are queued, and the worker that builds what timed out. Each event is one lock-held section. */
module PairJoin {
  import opened Options

  datatype TokenSide = Yes | No | Unknown
  datatype Venue = Polymarket | Opinion
  datatype Key = Key(pair: int, side: TokenSide, second: int)

  /** A received bar; `id` is its place in the order of arrival. */
  datatype Input = Input(id: nat, key: Key, venue: Venue, token: int)

  datatype Bucket = Bucket(pm: Option<Input>, opi: Option<Input>)

  /** One entry of the ordered index. */
  datatype Entry = Entry(second: int, keys: seq<Key>)

  /** A pair bar that was built, and at which tick. */
  datatype Built = Built(key: Key, bucket: Bucket, tick: int, timedOut: bool)

  const EXTRA_CAP: int := 120
  const STALE_MAX: nat := 500
  const DRAIN_MAX: nat := 500

  datatype State = State(
    late: int,
    buckets: map<Key, Bucket>,
    index: seq<Entry>,
    queue: seq<Key>,
    pendingKeys: set<Key>,
    tick: int,
    tokens: map<(Venue, int, TokenSide), int>,
    seen: map<(Venue, int), int>,
    drained: seq<Key>,
    received: seq<Input>,
    overwritten: set<nat>,
    built: seq<Built>
  )

  function Init(late: int): State {
    State(late, map[], [], [], {}, 0, map[], map[], [], [], {}, [])
  }

  function Max(a: int, b: int): (m: int)
    ensures m >= a && m >= b && (m == a || m == b)
  {
    if a > b then a else b
  }

  function Min(a: int, b: int): (m: int)
    ensures m <= a && m <= b && (m == a || m == b)
  {
    if a < b then a else b
  }

  // ----- a bar arrives -----

  function Of(b: Bucket, venue: Venue): Option<Input> {
    match venue case Polymarket => b.pm case Opinion => b.opi
  }

  function With(b: Bucket, venue: Venue, input: Input): Bucket {
    match venue case Polymarket => b.(pm := Some(input)) case Opinion => b.(opi := Some(input))
  }

  function Full(b: Bucket): bool {
    b.pm.Some? && b.opi.Some?
  }

  /** Appends the key to the entry of its second, made where it belongs when missing. */
  function Push(index: seq<Entry>, key: Key): seq<Entry>
    decreases |index|
  {
    if index == [] || key.second < index[0].second then [Entry(key.second, [key])] + index
    else if index[0].second == key.second then [Entry(key.second, index[0].keys + [key])] + index[1..]
    else [index[0]] + Push(index[1..], key)
  }

  function Arrive(s: State, key: Key, venue: Venue, token: int): State {
    var input := Input(|s.received|, key, venue, token);
    var was := if key in s.buckets then s.buckets[key] else Bucket(None, None);
    var bucket := With(was, venue, input);
    var t := s.(seen := s.seen[(venue, token) := key.second],
                tokens := s.tokens[(venue, key.pair, key.side) := token],
                index := if key in s.buckets then s.index else Push(s.index, key),
                received := s.received + [input],
                overwritten := s.overwritten + if Of(was, venue).Some? then {Of(was, venue).value.id} else {});
    if Full(bucket) then
      t.(buckets := s.buckets - {key}, pendingKeys := s.pendingKeys - {key},
         built := s.built + [Built(key, bucket, s.tick, false)])
    else t.(buckets := s.buckets[key := bucket])
  }

  // ----- what has waited long enough -----

  /** How much longer to wait for a venue that is known to be ahead of this second. */
  function Extra(s: State, key: Key, venue: Venue): int {
    if (venue, key.pair, key.side) in s.tokens then
      var token := s.tokens[(venue, key.pair, key.side)];
      if (venue, token) in s.seen then Max(0, Min(s.seen[(venue, token)] - key.second, EXTRA_CAP)) else 0
    else 0
  }

  function Cutoff(s: State): int {
    s.tick - Max(s.late, 0)
  }

  predicate ShouldFlush(s: State, key: Key, bucket: Bucket, opiReady: bool) {
    var pmExtra := if bucket.pm.None? then Extra(s, key, Polymarket) else 0;
    var opiExtra := if bucket.opi.None? && opiReady then Extra(s, key, Opinion) else 0;
    s.tick > 0 && key.second < s.tick - (Max(s.late, 0) + Max(pmExtra, opiExtra))
  }

  ghost predicate InIndex(index: seq<Entry>, key: Key) {
    exists e :: 0 <= e < |index| && index[e].second == key.second && key in index[e].keys
  }

  ghost predicate Sorted(index: seq<Entry>) {
    forall a, b :: 0 <= a < b < |index| ==> index[a].second < index[b].second
  }

  function Members(keys: seq<Key>): set<Key> {
    set k | k in keys
  }

  /** What one flush_stale pass may do: queue some stale live keys, at most 500, and forget from the index
      only keys that are queued or dead. Where it stops is up to the clock. */
  ghost predicate StalePass(s: State, t: State, added: seq<Key>, opiReady: bool) {
    && t == s.(index := t.index, queue := s.queue + added, pendingKeys := s.pendingKeys + Members(added))
    && |added| <= 500
    && Sorted(t.index)
    && (forall i :: 0 <= i < |added| ==> Queueable(s, added[i], opiReady))
    && (forall i, j :: 0 <= i < j < |added| ==> added[i] != added[j])
    && (forall k :: InIndex(t.index, k) ==> InIndex(s.index, k))
    && (forall k :: k in s.buckets && InIndex(s.index, k) ==> InIndex(t.index, k) || k in t.pendingKeys)
  }

  ghost predicate Queueable(s: State, k: Key, opiReady: bool) {
    k in s.buckets && k !in s.pendingKeys && ShouldFlush(s, k, s.buckets[k], opiReady)
  }

  // ----- the worker -----

  /** Takes keys off the queue, skipping those no longer pending; `clock` turns at most, 500 keys at most. */
  function Drain(s: State, clock: nat, room: nat): State
    decreases clock
  {
    if clock == 0 || room == 0 || s.queue == [] then s
    else
      var key, t := s.queue[0], s.(queue := s.queue[1..]);
      if key in s.pendingKeys then
        Drain(t.(pendingKeys := s.pendingKeys - {key}, drained := s.drained + [key]), clock - 1, room - 1)
      else Drain(t, clock - 1, room)
  }

  /** The worker drops the first drained key when its bucket is gone. */
  function Skip(s: State): State {
    if s.drained != [] && s.drained[0] !in s.buckets then s.(drained := s.drained[1..]) else s
  }

  /** The worker builds and removes the bucket of the first drained key, if it is still there. */
  function Timeout(s: State): State {
    if s.drained == [] then s
    else
      var key := s.drained[0];
      var t := s.(drained := s.drained[1..]);
      if key in s.buckets then
        t.(buckets := s.buckets - {key}, built := s.built + [Built(key, s.buckets[key], s.tick, true)])
      else t
  }

  // ----- runs -----

  datatype Event =
    | Bar(key: Key, venue: Venue, token: int)
    | SetTick(tick: int)
    | Stale(added: seq<Key>, opiReady: bool)
    | DrainQueue(clock: nat)
    | SkipFirst
    | TimeoutFirst

  ghost predicate Next(s: State, ev: Event, t: State) {
    match ev
    case Bar(key, venue, token) => t == Arrive(s, key, venue, token)
    case SetTick(tick) => t == s.(tick := tick)
    case Stale(added, opiReady) => StalePass(s, t, added, opiReady)
    case DrainQueue(clock) => s.drained == [] && t == Drain(s, clock, DRAIN_MAX)
    case SkipFirst => t == Skip(s)
    case TimeoutFirst => t == Timeout(s)
  }

  ghost predicate IsRun(states: seq<State>, evs: seq<Event>) {
    && |states| == |evs| + 1
    && states[0] == Init(states[0].late)
    && (forall i :: 0 <= i < |evs| ==> Next(states[i], evs[i], states[i + 1]))
  }

  // ----- ownership -----

  ghost predicate Owned(s: State, k: Key) {
    InIndex(s.index, k) || k in s.pendingKeys || k in s.drained
  }

  ghost predicate Ownership(s: State) {
    && Sorted(s.index)
    && (forall k :: k in s.buckets ==> Owned(s, k))
    && (forall k :: k in s.pendingKeys ==> k in s.queue)
  }

  lemma {:induction false} PushKeeps(index: seq<Entry>, key: Key)
    requires Sorted(index)
    ensures Sorted(Push(index, key))
    ensures index != [] ==> Push(index, key)[0].second == Min(index[0].second, key.second)
    ensures index == [] ==> Push(index, key)[0].second == key.second
    ensures InIndex(Push(index, key), key)
    ensures forall k :: InIndex(index, k) ==> InIndex(Push(index, key), k)
    ensures forall k :: InIndex(Push(index, key), k) ==> k == key || InIndex(index, k)
    decreases |index|
  {
    var more := Push(index, key);
    if index == [] || key.second < index[0].second {
      ConsIndex(Entry(key.second, [key]), index);
    } else {
      var rest := index[1..];
      assert index == [index[0]] + rest;
      TailSorted(index);
      ConsIndex(index[0], rest);
      if index[0].second == key.second {
        ConsIndex(Entry(key.second, index[0].keys + [key]), rest);
      } else {
        PushKeeps(rest, key);
        ConsIndex(index[0], Push(rest, key));
      }
    }
  }

  lemma TailSorted(index: seq<Entry>)
    requires Sorted(index) && index != []
    ensures Sorted(index[1..]) && (|index| > 1 ==> index[0].second < index[1..][0].second)
  {}

  lemma ConsIndex(e: Entry, rest: seq<Entry>)
    ensures forall k :: InIndex([e] + rest, k) <==> (e.second == k.second && k in e.keys) || InIndex(rest, k)
    ensures Sorted(rest) && (rest != [] ==> e.second < rest[0].second) ==> Sorted([e] + rest)
  {
    var all := [e] + rest;
    forall k ensures InIndex(all, k) <==> (e.second == k.second && k in e.keys) || InIndex(rest, k) {
      if InIndex(rest, k) {
        var i :| 0 <= i < |rest| && rest[i].second == k.second && k in rest[i].keys;
        assert all[i + 1] == rest[i];
      }
      if InIndex(all, k) {
        var i :| 0 <= i < |all| && all[i].second == k.second && k in all[i].keys;
        assert i > 0 ==> all[i] == rest[i - 1];
      }
      assert all[0] == e;
    }
  }

  lemma ArriveOwns(s: State, key: Key, venue: Venue, token: int)
    requires Ownership(s)
    ensures Ownership(Arrive(s, key, venue, token))
  {
    PushKeeps(s.index, key);
    hide Sorted, InIndex, Push;
  }

  lemma StaleOwns(s: State, t: State, added: seq<Key>, opiReady: bool)
    requires Ownership(s) && StalePass(s, t, added, opiReady)
    ensures Ownership(t)
  {
    hide Sorted, InIndex, Queueable;
  }

  lemma {:induction false} DrainOwns(s: State, clock: nat, room: nat)
    requires Ownership(s)
    ensures Ownership(Drain(s, clock, room))
    decreases clock
  {
    if clock != 0 && room != 0 && s.queue != [] {
      var key, t := s.queue[0], s.(queue := s.queue[1..]);
      assert s.queue == [key] + t.queue;
      if key in s.pendingKeys {
        var u := t.(pendingKeys := s.pendingKeys - {key}, drained := s.drained + [key]);
        assert forall k :: Owned(s, k) ==> Owned(u, k) by { hide InIndex; }
        DrainOwns(u, clock - 1, room - 1);
      } else {
        assert forall k :: Owned(s, k) ==> Owned(t, k) by { hide InIndex; }
        DrainOwns(t, clock - 1, room);
      }
    }
  }

  lemma WorkerOwns(s: State)
    requires Ownership(s)
    ensures Ownership(Skip(s)) && Ownership(Timeout(s))
  {
    hide Sorted, InIndex;
    if s.drained != [] {
      assert s.drained == [s.drained[0]] + s.drained[1..];
      assert forall k :: Owned(s, k) && k != s.drained[0] ==> Owned(Timeout(s), k) && Owned(s.(drained := s.drained[1..]), k);
    }
  }

  lemma NextOwns(s: State, ev: Event, t: State)
    requires Ownership(s) && Next(s, ev, t)
    ensures Ownership(t)
  {
    match ev
    case Bar(key, venue, token) => ArriveOwns(s, key, venue, token);
    case SetTick(tick) => assert forall k :: Owned(s, k) ==> Owned(t, k);
    case Stale(added, opiReady) => StaleOwns(s, t, added, opiReady);
    case DrainQueue(clock) => DrainOwns(s, clock, DRAIN_MAX);
    case SkipFirst => WorkerOwns(s);
    case TimeoutFirst => WorkerOwns(s);
  }

  // ----- conservation -----

  ghost predicate Fits(received: seq<Input>, key: Key, venue: Venue, o: Option<Input>) {
    o.Some? ==> o.value.id < |received| && received[o.value.id] == o.value && o.value.key == key && o.value.venue == venue
  }

  ghost predicate BucketFits(received: seq<Input>, key: Key, b: Bucket) {
    Fits(received, key, Polymarket, b.pm) && Fits(received, key, Opinion, b.opi)
  }

  predicate OneVenue(b: Bucket) {
    b.pm.Some? != b.opi.Some?
  }

  predicate Holds(b: Bucket, input: Input) {
    Of(b, input.venue) == Some(input)
  }

  /** Whether bar `input` waits in a live bucket. */
  predicate Live(buckets: map<Key, Bucket>, input: Input) {
    input.key in buckets && Holds(buckets[input.key], input)
  }

  /** In how many built pair bars `input` appears. */
  function TimesBuilt(built: seq<Built>, input: Input): nat
    decreases |built|
  {
    if built == [] then 0
    else
      var last := built[|built| - 1];
      TimesBuilt(built[..|built| - 1], input) + if last.key == input.key && Holds(last.bucket, input) then 1 else 0
  }

  ghost predicate ReplacedLater(received: seq<Input>, i: nat)
    requires i < |received|
  {
    exists j :: i < j < |received| && received[j].key == received[i].key && received[j].venue == received[i].venue
  }

  /** In how many places bar i is: waiting, overwritten, or built. */
  function Places(s: State, i: nat): nat
    requires i < |s.received|
  {
    (if Live(s.buckets, s.received[i]) then 1 else 0) + (if i in s.overwritten then 1 else 0) + TimesBuilt(s.built, s.received[i])
  }

  ghost predicate Conserved(s: State) {
    && (forall i :: 0 <= i < |s.received| ==> s.received[i].id == i)
    && (forall k :: k in s.buckets ==> OneVenue(s.buckets[k]) && BucketFits(s.received, k, s.buckets[k]))
    && (forall i :: 0 <= i < |s.received| ==> Places(s, i) == 1)
    && (forall i :: i in s.overwritten ==> i < |s.received| && ReplacedLater(s.received, i))
    && (forall b :: 0 <= b < |s.built| ==> BuiltWell(s.received, s.built[b]))
  }

  ghost predicate BuiltWell(received: seq<Input>, b: Built) {
    && BucketFits(received, b.key, b.bucket)
    && (if b.timedOut then OneVenue(b.bucket) else Full(b.bucket))
  }

  lemma {:induction false} UnknownNotBuilt(received: seq<Input>, built: seq<Built>, input: Input)
    requires forall b :: 0 <= b < |built| ==> BuiltWell(received, built[b])
    requires input.id >= |received|
    ensures TimesBuilt(built, input) == 0
    decreases |built|
  {
    if built != [] {
      assert BuiltWell(received, built[|built| - 1]);
      UnknownNotBuilt(received, built[..|built| - 1], input);
    }
  }

  lemma BuiltStays(received: seq<Input>, more: seq<Input>, built: seq<Built>)
    requires forall b :: 0 <= b < |built| ==> BuiltWell(received, built[b])
    requires received <= more
    ensures forall b :: 0 <= b < |built| ==> BuiltWell(more, built[b])
  {
    forall b | 0 <= b < |built| ensures BuiltWell(more, built[b]) {
      assert BuiltWell(received, built[b]);
    }
  }

  lemma TimesBuiltMore(built: seq<Built>, b: Built, input: Input)
    ensures TimesBuilt(built + [b], input)
            == TimesBuilt(built, input) + if b.key == input.key && Holds(b.bucket, input) then 1 else 0
  {
    assert (built + [b])[..|built|] == built;
  }

  lemma NewcomerPlaces(s: State, key: Key, venue: Venue, token: int)
    requires Conserved(s)
    ensures Places(Arrive(s, key, venue, token), |s.received|) == 1
  {
    var t := Arrive(s, key, venue, token);
    var input := Input(|s.received|, key, venue, token);
    var was := if key in s.buckets then s.buckets[key] else Bucket(None, None);
    var bucket := With(was, venue, input);
    assert t.received[|s.received|] == input;
    UnknownNotBuilt(s.received, s.built, input);
    assert |s.received| !in s.overwritten;
    assert BucketFits(s.received, key, was);
    hide Conserved, TimesBuilt;
    assert |s.received| !in t.overwritten;
    TimesBuiltMore(s.built, Built(key, bucket, s.tick, false), input);
  }

  /** What the arrival of `input` does to an older bar of the same key. */
  lemma SameKeyPlaces(was: Bucket, input: Input, older: Input)
    requires OneVenue(was) || was == Bucket(None, None)
    requires was.pm.Some? ==> was.pm.value.venue.Polymarket?
    requires was.opi.Some? ==> was.opi.value.venue.Opinion?
    requires input.key == older.key && input.id != older.id
    ensures var bucket := With(was, input.venue, input);
            var replaced := Of(was, input.venue) == Some(older);
            && !(Holds(was, older) && replaced && Holds(bucket, older))
            && (Holds(was, older) <==> replaced || Holds(bucket, older))
            && (replaced ==> !Full(bucket))
  {}

  function Was(s: State, key: Key): Bucket {
    if key in s.buckets then s.buckets[key] else Bucket(None, None)
  }

  lemma ArriveFields(s: State, key: Key, venue: Venue, token: int)
    ensures var t := Arrive(s, key, venue, token);
            var input := Input(|s.received|, key, venue, token);
            var bucket := With(Was(s, key), venue, input);
            && t.received == s.received + [input]
            && t.overwritten == s.overwritten + (if Of(Was(s, key), venue).Some? then {Of(Was(s, key), venue).value.id} else {})
            && t.buckets == (if Full(bucket) then s.buckets - {key} else s.buckets[key := bucket])
            && t.built == if Full(bucket) then s.built + [Built(key, bucket, s.tick, false)] else s.built
  {}

  lemma OlderPlaces(s: State, key: Key, venue: Venue, token: int, i: nat)
    requires Conserved(s) && i < |s.received|
    ensures Places(Arrive(s, key, venue, token), i) == 1
  {
    hide Places, TimesBuilt, ReplacedLater, With, Holds, Full, Arrive;
    ArriveFields(s, key, venue, token);
    assert Places(s, i) == 1 && s.received[i].id == i;
    assert BucketFits(s.received, key, Was(s, key));
    assert key in s.buckets ==> OneVenue(Was(s, key));
    hide Conserved;
    if s.received[i].key == key {
      OlderSameKey(s, key, venue, token, i);
    } else {
      OlderOtherKey(s, key, venue, token, i);
    }
  }

  lemma OlderSameKey(s: State, key: Key, venue: Venue, token: int, i: nat)
    requires i < |s.received| && s.received[i].id == i && s.received[i].key == key
    requires BucketFits(s.received, key, Was(s, key)) && (key in s.buckets ==> OneVenue(Was(s, key)))
    requires Places(s, i) == 1
    ensures Places(Arrive(s, key, venue, token), i) == 1
  {
    hide Arrive, TimesBuilt;
    ArriveFields(s, key, venue, token);
    var older, input := s.received[i], Input(|s.received|, key, venue, token);
    TimesBuiltMore(s.built, Built(key, With(Was(s, key), venue, input), s.tick, false), older);
    SameKeyPlaces(Was(s, key), input, older);
    assert Of(Was(s, key), venue).Some? && Of(Was(s, key), venue).value.id == i ==> Of(Was(s, key), venue) == Some(older);
    hide BucketFits, With, Holds, Full, Of;
  }

  lemma OlderOtherKey(s: State, key: Key, venue: Venue, token: int, i: nat)
    requires i < |s.received| && s.received[i].id == i && s.received[i].key != key
    requires BucketFits(s.received, key, Was(s, key))
    ensures Places(Arrive(s, key, venue, token), i) == Places(s, i)
  {
    hide Arrive, TimesBuilt, Holds, With, Full;
    ArriveFields(s, key, venue, token);
    var older, input := s.received[i], Input(|s.received|, key, venue, token);
    TimesBuiltMore(s.built, Built(key, With(Was(s, key), venue, input), s.tick, false), older);
    assert Of(Was(s, key), venue).Some? ==> Of(Was(s, key), venue).value.id != i;
  }

  lemma ArrivePlaces(s: State, key: Key, venue: Venue, token: int)
    requires Conserved(s)
    ensures var t := Arrive(s, key, venue, token);
            forall i :: 0 <= i < |t.received| ==> t.received[i].id == i && Places(t, i) == 1
  {
    hide Places, TimesBuilt, ReplacedLater, BucketFits, BuiltWell, OneVenue, Arrive;
    var t := Arrive(s, key, venue, token);
    ArriveFields(s, key, venue, token);
    forall i | 0 <= i < |t.received| ensures t.received[i].id == i && Places(t, i) == 1 {
      if i < |s.received| {
        OlderPlaces(s, key, venue, token, i);
      } else {
        NewcomerPlaces(s, key, venue, token);
      }
    }
  }

  lemma ArriveBuilt(s: State, key: Key, venue: Venue, token: int)
    requires Conserved(s)
    ensures var t := Arrive(s, key, venue, token);
            forall b :: 0 <= b < |t.built| ==> BuiltWell(t.received, t.built[b])
  {
    hide Places, TimesBuilt, ReplacedLater, BucketFits, BuiltWell, OneVenue, Arrive;
    var t := Arrive(s, key, venue, token);
    ArriveFields(s, key, venue, token);
    BuiltStays(s.received, t.received, s.built);
    ArriveBuckets(s, key, venue, token);
  }

  lemma ArriveConserves(s: State, key: Key, venue: Venue, token: int)
    requires Conserved(s)
    ensures Conserved(Arrive(s, key, venue, token))
  {
    ArrivePlaces(s, key, venue, token);
    ArriveBuilt(s, key, venue, token);
    ArriveBuckets(s, key, venue, token);
    OverwrittenStays(s, key, venue, token);
    hide Places, TimesBuilt, Arrive, BucketFits, BuiltWell, OneVenue, ReplacedLater;
  }

  lemma OverwrittenStays(s: State, key: Key, venue: Venue, token: int)
    requires Conserved(s)
    ensures var t := Arrive(s, key, venue, token);
            forall i :: i in t.overwritten ==> i < |t.received| && ReplacedLater(t.received, i)
  {
    var t := Arrive(s, key, venue, token);
    ArriveFields(s, key, venue, token);
    assert BucketFits(s.received, key, Was(s, key));
    hide Places, TimesBuilt, Arrive, With, Full, BuiltWell;
    var input := Input(|s.received|, key, venue, token);
    assert t.received[|s.received|] == input;
    forall i | i in t.overwritten ensures i < |t.received| && ReplacedLater(t.received, i) {
      if i in s.overwritten {
        var j :| i < j < |s.received| && s.received[j].key == s.received[i].key && s.received[j].venue == s.received[i].venue;
        assert t.received[j] == s.received[j];
      }
    }
  }

  lemma ArriveBuckets(s: State, key: Key, venue: Venue, token: int)
    requires Conserved(s)
    ensures var t := Arrive(s, key, venue, token);
            && (forall k :: k in t.buckets ==> OneVenue(t.buckets[k]) && BucketFits(t.received, k, t.buckets[k]))
            && (|t.built| > |s.built| ==> BuiltWell(t.received, t.built[|s.built|]))
  {
    hide Places, ReplacedLater;
    var t := Arrive(s, key, venue, token);
    forall k | k in s.buckets ensures BucketFits(t.received, k, s.buckets[k]) {
      assert BucketFits(s.received, k, s.buckets[k]);
    }
  }

  lemma TimeoutPlaces(s: State, i: nat)
    requires i < |s.received| && s.drained != [] && s.drained[0] in s.buckets
    ensures Places(Timeout(s), i) == Places(s, i)
  {
    var key := s.drained[0];
    TimesBuiltMore(s.built, Built(key, s.buckets[key], s.tick, true), s.received[i]);
    hide TimesBuilt, Holds;
  }

  lemma TimeoutConserves(s: State)
    requires Conserved(s)
    ensures Conserved(Timeout(s))
  {
    var t := Timeout(s);
    if s.drained != [] && s.drained[0] in s.buckets {
      hide Places, TimesBuilt, ReplacedLater;
      forall i | 0 <= i < |t.received| ensures Places(t, i) == 1 {
        TimeoutPlaces(s, i);
      }
      TimeoutBuiltWell(s);
    } else {
      hide Conserved;
      SamePlaces(s, t);
    }
  }

  lemma TimeoutBuiltWell(s: State)
    requires Conserved(s) && s.drained != [] && s.drained[0] in s.buckets
    ensures forall b :: 0 <= b < |Timeout(s).built| ==> BuiltWell(s.received, Timeout(s).built[b])
  {
    hide Places, TimesBuilt, ReplacedLater, BucketFits;
  }

  /** Events that touch neither buckets nor arrivals nor built bars keep every bar where it is. */
  lemma SamePlaces(s: State, t: State)
    requires Conserved(s)
    requires t.buckets == s.buckets && t.received == s.received && t.overwritten == s.overwritten && t.built == s.built
    ensures Conserved(t)
  {
    hide TimesBuilt, Live, ReplacedLater;
    forall i | 0 <= i < |t.received| ensures Places(t, i) == 1 {
      assert Places(s, i) == 1;
    }
  }

  lemma {:induction false} DrainTouchesQueueOnly(s: State, clock: nat, room: nat)
    ensures var t := Drain(s, clock, room);
            t == s.(queue := t.queue, pendingKeys := t.pendingKeys, drained := t.drained)
    decreases clock
  {
    if clock != 0 && room != 0 && s.queue != [] {
      var key, t := s.queue[0], s.(queue := s.queue[1..]);
      if key in s.pendingKeys {
        DrainTouchesQueueOnly(t.(pendingKeys := s.pendingKeys - {key}, drained := s.drained + [key]), clock - 1, room - 1);
      } else {
        DrainTouchesQueueOnly(t, clock - 1, room);
      }
    }
  }

  lemma NextConserves(s: State, ev: Event, t: State)
    requires Conserved(s) && Next(s, ev, t)
    ensures Conserved(t)
  {
    hide Conserved;
    match ev
    case Bar(key, venue, token) => ArriveConserves(s, key, venue, token);
    case SetTick(tick) => SamePlaces(s, t);
    case Stale(added, opiReady) => SamePlaces(s, t);
    case DrainQueue(clock) => DrainTouchesQueueOnly(s, clock, DRAIN_MAX); SamePlaces(s, t);
    case SkipFirst => SamePlaces(s, t);
    case TimeoutFirst => TimeoutConserves(s);
  }

  // ----- timeouts are late -----

  ghost predicate Overdue(s: State) {
    && (forall i :: 0 <= i < |s.queue| ==> s.queue[i].second < Cutoff(s))
    && (forall i :: 0 <= i < |s.drained| ==> s.drained[i].second < Cutoff(s))
    && (forall b :: 0 <= b < |s.built| && s.built[b].timedOut ==> s.built[b].key.second < s.built[b].tick - Max(s.late, 0))
  }

  lemma {:induction false} DrainOverdue(s: State, clock: nat, room: nat)
    requires Overdue(s)
    ensures Overdue(Drain(s, clock, room))
    decreases clock
  {
    if clock != 0 && room != 0 && s.queue != [] {
      var key, t := s.queue[0], s.(queue := s.queue[1..]);
      if key in s.pendingKeys {
        DrainOverdue(t.(pendingKeys := s.pendingKeys - {key}, drained := s.drained + [key]), clock - 1, room - 1);
      } else {
        DrainOverdue(t, clock - 1, room);
      }
    }
  }

  lemma NextOverdue(s: State, ev: Event, t: State)
    requires Overdue(s) && Next(s, ev, t) && (ev.SetTick? ==> s.tick <= ev.tick)
    ensures Overdue(t)
  {
    match ev
    case Bar(key, venue, token) =>
    case SetTick(tick) =>
    case Stale(added, opiReady) =>
      forall i | 0 <= i < |t.queue| ensures t.queue[i].second < Cutoff(t) {
        if i >= |s.queue| {
          assert t.queue[i] == added[i - |s.queue|];
          assert Queueable(s, added[i - |s.queue|], opiReady);
        }
      }
    case DrainQueue(clock) => DrainOverdue(s, clock, DRAIN_MAX);
    case SkipFirst =>
    case TimeoutFirst =>
  }

  // ----- the theorems, over every run -----

  lemma {:induction false} RunOwns(states: seq<State>, evs: seq<Event>, n: nat)
    requires IsRun(states, evs) && n <= |evs|
    ensures Ownership(states[n]) && Conserved(states[n])
    decreases n
  {
    hide Ownership, Conserved, Next;
    if n == 0 {
      StartsWell(states[0].late);
    } else {
      RunOwns(states, evs, n - 1);
      NextOwns(states[n - 1], evs[n - 1], states[n]);
      NextConserves(states[n - 1], evs[n - 1], states[n]);
    }
  }

  lemma StartsWell(late: int)
    ensures Ownership(Init(late)) && Conserved(Init(late)) && Overdue(Init(late))
  {}

  /** No bucket is orphaned: its key is in the index at its second, pending in the queue, or in the
      worker's batch. */
  lemma NoOrphanedBucket(states: seq<State>, evs: seq<Event>, n: nat, k: Key)
    requires IsRun(states, evs) && n <= |evs| && k in states[n].buckets
    ensures var s := states[n];
            InIndex(s.index, k) || (k in s.pendingKeys && k in s.queue) || k in s.drained
  {
    hide Next;
    RunOwns(states, evs, n);
    assert Owned(states[n], k);
  }

  /** Every bar received is in exactly one place: a live bucket, overwritten by a later bar of its key and
      venue, or one built pair bar. */
  lemma EveryBarInOnePlace(states: seq<State>, evs: seq<Event>, n: nat, i: nat)
    requires IsRun(states, evs) && n <= |evs| && i < |states[n].received|
    ensures var s := states[n];
            && Places(s, i) == 1
            && (i in s.overwritten ==> ReplacedLater(s.received, i))
  {
    hide Next;
    RunOwns(states, evs, n);
  }

  /** A live bucket waits for exactly one venue, so a timed-out bar misses one side and a joined bar none. */
  lemma BucketsHoldOneVenue(states: seq<State>, evs: seq<Event>, n: nat, k: Key, b: nat)
    requires IsRun(states, evs) && n <= |evs| && k in states[n].buckets && b < |states[n].built|
    ensures OneVenue(states[n].buckets[k])
    ensures if states[n].built[b].timedOut then OneVenue(states[n].built[b].bucket) else Full(states[n].built[b].bucket)
  {
    hide Next;
    RunOwns(states, evs, n);
    assert BuiltWell(states[n].received, states[n].built[b]);
  }

  /** While ticks do not go back, nothing times out before its second is older than the late buffer. */
  lemma {:induction false} TimeoutsAreOverdue(states: seq<State>, evs: seq<Event>, n: nat)
    requires IsRun(states, evs) && n <= |evs|
    requires forall i :: 0 <= i < n && evs[i].SetTick? ==> states[i].tick <= evs[i].tick
    ensures Overdue(states[n])
    decreases n
  {
    hide Overdue, Next;
    if n == 0 {
      StartsWell(states[0].late);
    } else {
      TimeoutsAreOverdue(states, evs, n - 1);
      NextOverdue(states[n - 1], evs[n - 1], states[n]);
    }
  }
}
