/** The aggregator's shared state as the program updates it under its lock: the token bar handler, the
    stale scan and the flush worker. */
module PairAggregator {
  import opened Options
  import opened PairJoin

  lemma SameVerdict(s: State, t: State, key: Key, bucket: Bucket, opiReady: bool)
    requires t.late == s.late && t.tick == s.tick && t.tokens == s.tokens && t.seen == s.seen
    ensures ShouldFlush(t, key, bucket, opiReady) == ShouldFlush(s, key, bucket, opiReady)
  {}

  /** What a scan has queued: different live keys, all stale and none of them pending before. */
  ghost predicate QueuedWell(s: State, added: seq<Key>, opiReady: bool) {
    && (forall i :: 0 <= i < |added| ==> Queueable(s, added[i], opiReady))
    && (forall i, j :: 0 <= i < j < |added| ==> added[i] != added[j])
  }

  /** What a scan has left of the index: nothing new, and every live key that is not pending. */
  ghost predicate IndexKept(index: seq<Entry>, buckets: map<Key, Bucket>, left: seq<Entry>, pendingKeys: set<Key>) {
    && Sorted(left)
    && (forall k :: InIndex(left, k) ==> InIndex(index, k))
    && (forall k :: k in buckets && InIndex(index, k) ==> InIndex(left, k) || k in pendingKeys)
  }

  /** The state while an index is scanned. */
  ghost predicate Scanning(s: State, t: State, added: seq<Key>, opiReady: bool) {
    && t == s.(index := t.index, queue := s.queue + added, pendingKeys := s.pendingKeys + Members(added))
    && |added| <= STALE_MAX
    && QueuedWell(s, added, opiReady)
    && IndexKept(s.index, s.buckets, t.index, t.pendingKeys)
  }

  /** Nothing more is to be expected of this venue: its token for the pair is unknown or unseen, or the bar is
      overdue even by as many more seconds as the token is ahead, 120 at most. */
  ghost predicate NotAhead(s: State, key: Key, venue: Venue) {
    (venue, key.pair, key.side) in s.tokens ==>
      var token := s.tokens[(venue, key.pair, key.side)];
      (venue, token) in s.seen ==>
        var ahead := s.seen[(venue, token)] - key.second;
        key.second < s.tick - Max(s.late, 0) - if ahead > 120 then 120 else if ahead > 0 then ahead else 0
  }

  // ----- how far a scan gets -----

  /** Every key of these is due, already pending or dead: a full scan of them leaves none over. */
  ghost predicate Cleared(s: State, keys: seq<Key>, opiReady: bool) {
    forall k :: k in keys && k in s.buckets ==> k in s.pendingKeys || Queueable(s, k, opiReady)
  }

  ghost predicate AllQueued(s: State, keys: seq<Key>, added: seq<Key>, opiReady: bool) {
    forall k :: k in keys && Queueable(s, k, opiReady) ==> k in added
  }

  /** The turns that it takes to scan the first m entries: one for each entry and one for each key. */
  ghost function Turns(index: seq<Entry>, m: nat): nat
    requires m <= |index|
    decreases m
  {
    if m == 0 then 0 else Turns(index, m - 1) + 1 + |index[m - 1].keys|
  }

  lemma {:induction false} TurnsGrow(index: seq<Entry>, m: nat, n: nat)
    requires m <= n <= |index|
    ensures Turns(index, m) <= Turns(index, n)
    ensures m < n ==> Turns(index, m) < Turns(index, n)
    decreases n
  {
    if m < n {
      TurnsGrow(index, m, n - 1);
    }
  }

  /** Entry m is overdue, and no entry before it leaves a key over. */
  ghost predicate Reached(s: State, m: nat, opiReady: bool)
    requires m < |s.index|
  {
    s.index[m].second < Cutoff(s) && forall e :: 0 <= e < m ==> Cleared(s, s.index[e].keys, opiReady)
  }

  /** The keys of entry m that a scan with so many turns comes to. */
  ghost function KeysReached(s: State, m: nat, clock: nat): (keys: seq<Key>)
    requires m < |s.index|
    ensures keys <= s.index[m].keys
  {
    var keys, spent := s.index[m].keys, Turns(s.index, m) + 1;
    if clock < spent then [] else if clock - spent < |keys| then keys[..clock - spent] else keys
  }

  /** What a scan with so many turns has queued: all due keys that the turns reach, of the overdue entries up to
      the first that leaves a key over, unless it is full. */
  ghost predicate Progressed(s: State, added: seq<Key>, clock: nat, opiReady: bool) {
    |added| == 500 ||
    forall m: nat :: m < |s.index| && Reached(s, m, opiReady) ==> AllQueued(s, KeysReached(s, m, clock), added, opiReady)
  }

  ghost predicate From(index: seq<Entry>, second: int) {
    forall e :: 0 <= e < |index| ==> index[e].second >= second
  }

  /** What the scan has taken out of the index: every overdue entry that its turns reach over, up to the first
      that leaves a key over, unless it is full. */
  ghost predicate Forgotten(s: State, index: seq<Entry>, added: seq<Key>, clock: nat, opiReady: bool) {
    |added| == 500 || forall m: nat :: m < |s.index| && Passed(s, m, clock, opiReady) ==> From(index, s.index[m].second + 1)
  }

  ghost predicate Passed(s: State, m: nat, clock: nat, opiReady: bool)
    requires m < |s.index|
  {
    Reached(s, m, opiReady) && Cleared(s, s.index[m].keys, opiReady) && Turns(s.index, m + 1) <= clock
  }

  /** The first `done` entries are scanned, or the scan is stuck at the one after them. */
  ghost predicate ScannedTo(s: State, index: seq<Entry>, added: seq<Key>, clock: nat, left: nat, done: nat, stuck: bool, opiReady: bool) {
    && done <= |s.index|
    && (forall e :: 0 <= e < done ==> AllQueued(s, s.index[e].keys, added, opiReady))
    && (!stuck ==> index == s.index[done..] && clock - left == Turns(s.index, done))
    && (stuck ==> done < |s.index| && Halted(s, added, clock, done, opiReady) && From(index, s.index[done].second))
  }

  /** Why the scan goes no further than entry `done`. */
  ghost predicate Halted(s: State, added: seq<Key>, clock: nat, done: nat, opiReady: bool)
    requires done < |s.index|
  {
    || |added| == 500
    || ((clock < Turns(s.index, done + 1) || !Cleared(s, s.index[done].keys, opiReady))
        && AllQueued(s, KeysReached(s, done, clock), added, opiReady))
  }

  /** The scan of one entry: complete unless it ran out of turns or of room. */
  ghost predicate EntryDone(t: State, keys: seq<Key>, clock: nat, left: nat, remaining: seq<Key>, more: seq<Key>, opiReady: bool) {
    && AllQueued(t, keys, more, opiReady)
    && left == clock - |keys|
    && (forall k :: k in remaining ==> k in keys && k in t.buckets && k !in t.pendingKeys && !Queueable(t, k, opiReady))
  }

  lemma MoreQueued(s: State, t: State, keys: seq<Key>, added: seq<Key>, more: seq<Key>, opiReady: bool)
    requires Scanning(s, t, added, opiReady)
    ensures AllQueued(s, keys, added, opiReady) || AllQueued(t, keys, more, opiReady) ==> AllQueued(s, keys, added + more, opiReady)
  {
    hide QueuedWell, IndexKept;
    forall k | k in keys && Queueable(s, k, opiReady) ensures k in added || Queueable(t, k, opiReady) {
      SameVerdict(s, t, k, s.buckets[k], opiReady);
    }
  }

  /** Whether an entry is left over does not depend on what the scan has queued before. */
  lemma LeftOver(s: State, t: State, keys: seq<Key>, added: seq<Key>, more: seq<Key>, remaining: seq<Key>, opiReady: bool)
    requires Scanning(s, t, added, opiReady) && remaining != []
    requires forall k :: k in remaining ==> k in keys && k in t.buckets && k !in t.pendingKeys && !Queueable(t, k, opiReady)
    ensures !Cleared(s, keys, opiReady)
  {
    hide QueuedWell, IndexKept;
    var k := remaining[0];
    assert k in remaining;
    SameVerdict(s, t, k, s.buckets[k], opiReady);
  }

  /** One more entry for a scan that is not stuck. */
  lemma CutDownFrom(index: seq<Entry>, remaining: seq<Key>, second: int)
    requires index != [] && From(index, second)
    ensures From(CutDown(index, remaining), second)
  {
    var rest := index[1..];
    assert forall e :: 0 <= e < |rest| ==> rest[e] == index[e + 1];
    forall e | 0 <= e < |CutDown(index, remaining)| ensures CutDown(index, remaining)[e].second >= second {
      assert remaining != [] && e > 0 ==> CutDown(index, remaining)[e] == rest[e - 1];
    }
  }

  lemma EntryAdvances(s: State, t: State, added: seq<Key>, more: seq<Key>, remaining: seq<Key>, clock: nat, left: nat, left': nat,
                      done: nat, opiReady: bool) returns (done': nat, stuck: bool)
    requires Scanning(s, t, added, opiReady) && t.index != [] && left > 0 && Sorted(s.index)
    requires ScannedTo(s, t.index, added, clock, left, done, false, opiReady)
    requires |added| + |more| == 500
             || (left - 1 < |t.index[0].keys| && AllQueued(t, t.index[0].keys[..left - 1], more, opiReady))
             || EntryDone(t, t.index[0].keys, left - 1, left', remaining, more, opiReady)
    ensures ScannedTo(s, CutDown(t.index, remaining), added + more, clock, left', done', stuck, opiReady)
  {
    hide Scanning, Cleared, AllQueued, Queueable;
    var keys := t.index[0].keys;
    assert s.index[done] == t.index[0] && s.index[done + 1..] == t.index[1..];
    assert From(t.index, s.index[done].second) by {
      forall e | 0 <= e < |t.index| ensures t.index[e].second >= s.index[done].second {
        assert t.index[e] == s.index[done + e];
      }
    }
    CutDownFrom(t.index, remaining, s.index[done].second);
    forall e | 0 <= e < done ensures AllQueued(s, s.index[e].keys, added + more, opiReady) {
      MoreQueued(s, t, s.index[e].keys, added, more, opiReady);
    }
    var reached := KeysReached(s, done, clock);
    assert reached == if left - 1 < |keys| then keys[..left - 1] else keys;
    MoreQueued(s, t, reached, added, more, opiReady);
    done', stuck := done, true;
    if |added| + |more| != 500 && left - 1 >= |keys| {
      if remaining == [] {
        done', stuck := done + 1, false;
      } else {
        LeftOver(s, t, keys, added, more, remaining, opiReady);
      }
    }
  }

  lemma StaysStuck(s: State, t: State, added: seq<Key>, more: seq<Key>, remaining: seq<Key>, clock: nat, left: nat, left': nat,
                   done: nat, opiReady: bool)
    requires Scanning(s, t, added, opiReady) && |added| < 500 && t.index != []
    requires ScannedTo(s, t.index, added, clock, left, done, true, opiReady)
    ensures ScannedTo(s, CutDown(t.index, remaining), added + more, clock, left', done, true, opiReady)
  {
    CutDownFrom(t.index, remaining, s.index[done].second);
    hide Scanning, Cleared, AllQueued, Queueable;
    forall e | 0 <= e < done ensures AllQueued(s, s.index[e].keys, added + more, opiReady) {
      MoreQueued(s, t, s.index[e].keys, added, more, opiReady);
    }
    MoreQueued(s, t, KeysReached(s, done, clock), added, more, opiReady);
  }

  lemma FewerQueued(s: State, keys: seq<Key>, fewer: seq<Key>, added: seq<Key>, opiReady: bool)
    requires fewer <= keys
    ensures AllQueued(s, keys, added, opiReady) ==> AllQueued(s, fewer, added, opiReady)
    ensures AllQueued(s, [], added, opiReady)
  {
    assert forall k :: k in fewer ==> k in keys;
  }

  /** When the scan stops it has made the progress that its turns allow. */
  lemma ScanProgressed(s: State, index: seq<Entry>, added: seq<Key>, clock: nat, left: nat, done: nat, stuck: bool, opiReady: bool)
    requires ScannedTo(s, index, added, clock, left, done, stuck, opiReady) && Sorted(s.index)
    requires |added| == 500 || left == 0 || index == [] || index[0].second >= Cutoff(s)
    ensures Progressed(s, added, clock, opiReady)
  {
    hide Cleared, Queueable;
    forall m: nat | |added| != 500 && m < |s.index| && Reached(s, m, opiReady)
      ensures AllQueued(s, KeysReached(s, m, clock), added, opiReady)
    {
      TurnsGrow(s.index, if done <= m then done else m, m);
      TurnsGrow(s.index, if done < m then done + 1 else m, m);
      assert done <= m ==> s.index[done].second <= s.index[m].second;
      FewerQueued(s, s.index[m].keys, KeysReached(s, m, clock), added, opiReady);
    }
  }

  lemma PassedIsDone(s: State, index: seq<Entry>, added: seq<Key>, clock: nat, left: nat, done: nat, stuck: bool, opiReady: bool, m: nat)
    requires ScannedTo(s, index, added, clock, left, done, stuck, opiReady) && Sorted(s.index) && |added| != 500
    requires left == 0 || index == [] || index[0].second >= Cutoff(s)
    requires m < |s.index| && Passed(s, m, clock, opiReady)
    ensures m < done
  {
    hide Cleared, Queueable, AllQueued;
    TurnsGrow(s.index, if done <= m then done else m, m + 1);
    TurnsGrow(s.index, if done <= m then done + 1 else m, m + 1);
    SecondsGrow(s.index, done, m);
  }

  lemma SecondsGrow(index: seq<Entry>, a: nat, b: nat)
    requires Sorted(index)
    ensures a <= b < |index| ==> index[a].second <= index[b].second
  {}

  lemma DoneIsGone(s: State, index: seq<Entry>, added: seq<Key>, clock: nat, left: nat, done: nat, stuck: bool, opiReady: bool, m: nat)
    requires ScannedTo(s, index, added, clock, left, done, stuck, opiReady) && Sorted(s.index) && m < done
    ensures From(index, s.index[m].second + 1)
  {
    hide Halted, AllQueued, Turns;
    forall e | 0 <= e < |index| ensures index[e].second >= s.index[m].second + 1 {
      assert !stuck ==> index[e] == s.index[done..][e];
    }
  }

  lemma ScanForgot(s: State, index: seq<Entry>, added: seq<Key>, clock: nat, left: nat, done: nat, stuck: bool, opiReady: bool)
    requires ScannedTo(s, index, added, clock, left, done, stuck, opiReady) && Sorted(s.index)
    requires |added| == 500 || left == 0 || index == [] || index[0].second >= Cutoff(s)
    ensures Forgotten(s, index, added, clock, opiReady)
  {
    hide ScannedTo, Passed, From, Sorted;
    forall m: nat | |added| != 500 && m < |s.index| && Passed(s, m, clock, opiReady) ensures From(index, s.index[m].second + 1) {
      PassedIsDone(s, index, added, clock, left, done, stuck, opiReady, m);
      DoneIsGone(s, index, added, clock, left, done, stuck, opiReady, m);
    }
  }

  class PairAggState {
    const late: int
    var buckets: map<Key, Bucket>
    var index: seq<Entry>
    var queue: seq<Key>
    var pendingKeys: set<Key>
    var tick: int
    var tokens: map<(Venue, int, TokenSide), int>
    var seen: map<(Venue, int), int>
    var drained: seq<Key>
    ghost var received: seq<Input>
    ghost var overwritten: set<nat>
    ghost var built: seq<Built>
    var arrivals: nat

    ghost function Snapshot(): State
      reads this
    {
      State(late, buckets, index, queue, pendingKeys, tick, tokens, seen, drained, received, overwritten, built)
    }

    constructor (late: int)
      ensures Snapshot() == Init(late) && arrivals == 0
    {
      this.late := late;
      buckets, index, queue, pendingKeys, tick, tokens, seen, drained := map[], [], [], {}, 0, map[], map[], [];
      received, overwritten, built, arrivals := [], {}, [], 0;
    }

    /** A bar of one venue: joins the bucket of its key, and when both venues are there, builds the pair bar. */
    method HandleBar(key: Key, venue: Venue, token: int) returns (ready: Option<Bucket>)
      requires arrivals == |received|
      modifies this
      ensures Snapshot() == Arrive(old(Snapshot()), key, venue, token) && arrivals == |received|
      ensures ready.Some? <==> |built| == |old(built)| + 1
      ensures ready.Some? ==> built[|old(built)|] == Built(key, ready.value, tick, false)
    {
      hide Push, Of, With, Full;
      var bucket := RecordArrival(key, venue, token);
      ready := PlaceBucket(key, bucket);
    }

    /** The bookkeeping of an arrival, and the bucket of its key with the bar put in. */
    method RecordArrival(key: Key, venue: Venue, token: int) returns (bucket: Bucket)
      requires arrivals == |received|
      modifies this`received, this`arrivals, this`overwritten, this`seen, this`tokens, this`index
      ensures arrivals == |received|
      ensures var s, input := old(Snapshot()), Input(old(arrivals), key, venue, token);
              var was := if key in s.buckets then s.buckets[key] else Bucket(None, None);
              && bucket == With(was, venue, input)
              && Snapshot() == s.(seen := s.seen[(venue, token) := key.second],
                                  tokens := s.tokens[(venue, key.pair, key.side) := token],
                                  index := if key in s.buckets then s.index else Push(s.index, key),
                                  received := s.received + [input],
                                  overwritten := s.overwritten + if Of(was, venue).Some? then {Of(was, venue).value.id} else {})
    {
      hide Push;
      var input := Input(arrivals, key, venue, token);
      bucket := if key in buckets then buckets[key] else Bucket(None, None);
      received, arrivals := received + [input], arrivals + 1;
      overwritten := overwritten + if Of(bucket, venue).Some? then {Of(bucket, venue).value.id} else {};
      seen := seen[(venue, token) := key.second];
      tokens := tokens[(venue, key.pair, key.side) := token];
      if key !in buckets {
        index := Push(index, key);
      }
      match venue {
        case Polymarket => bucket := bucket.(pm := Some(input));
        case Opinion => bucket := bucket.(opi := Some(input));
      }
    }

    /** A bucket with both venues is built and leaves; any other stays in its place. */
    method PlaceBucket(key: Key, bucket: Bucket) returns (ready: Option<Bucket>)
      modifies this`buckets, this`pendingKeys, this`built
      ensures ready == if Full(bucket) then Some(bucket) else None
      ensures Snapshot() ==
              if Full(bucket) then
                old(Snapshot()).(buckets := old(buckets) - {key}, pendingKeys := old(pendingKeys) - {key},
                                 built := old(built) + [Built(key, bucket, tick, false)])
              else old(Snapshot()).(buckets := old(buckets)[key := bucket])
    {
      if bucket.pm.Some? && bucket.opi.Some? {
        buckets := buckets - {key};
        pendingKeys := pendingKeys - {key};
        built := built + [Built(key, bucket, tick, false)];
        return Some(bucket);
      }
      buckets := buckets[key := bucket];
      return None;
    }

    method ShouldFlushBucket(key: Key, bucket: Bucket, opiReady: bool) returns (flush: bool)
      ensures flush == ShouldFlush(Snapshot(), key, bucket, opiReady)
      ensures flush <==> tick > 0 && key.second < tick - Max(late, 0)
                         && (bucket.pm.None? ==> NotAhead(Snapshot(), key, Polymarket))
                         && (bucket.opi.None? && opiReady ==> NotAhead(Snapshot(), key, Opinion))
      ensures tick > 0 && key.second < tick - Max(late, 0) - 120 ==> flush
    {
      if tick <= 0 { return false; }
      var extra := 0;
      if bucket.pm.None? {
        extra := WaitFor(key, Polymarket, extra);
      }
      if bucket.opi.None? && opiReady {
        extra := WaitFor(key, Opinion, extra);
      }
      return key.second < tick - (Max(late, 0) + extra);
    }

    method WaitFor(key: Key, venue: Venue, extra: int) returns (longer: int)
      requires extra >= 0
      ensures longer == Max(extra, Extra(Snapshot(), key, venue))
    {
      longer := extra;
      if (venue, key.pair, key.side) in tokens {
        var token := tokens[(venue, key.pair, key.side)];
        if (venue, token) in seen {
          var ahead := seen[(venue, token)] - key.second;
          if ahead > 0 {
            longer := Max(extra, Min(ahead, EXTRA_CAP));
          }
        }
      }
    }

    /** Scans the keys of one index entry; those not queued, dead or already pending are left over. */
    method ScanEntry(keys: seq<Key>, processed: nat, clock: nat, opiReady: bool)
      returns (remaining: seq<Key>, left: nat, queued: nat, ghost added: seq<Key>)
      requires processed <= STALE_MAX
      modifies this`queue, this`pendingKeys
      ensures left <= clock
      ensures queued == |added| && processed + queued <= STALE_MAX
      ensures queue == old(queue) + added && pendingKeys == old(pendingKeys) + Members(added)
      ensures forall i :: 0 <= i < |added| ==> Queueable(old(Snapshot()), added[i], opiReady)
      ensures forall i, j :: 0 <= i < j < |added| ==> added[i] != added[j]
      ensures forall k :: k in remaining ==> k in keys
      ensures forall k :: k in keys && k in buckets ==> k in remaining || k in pendingKeys
      ensures processed + queued == 500
              || (clock < |keys| && AllQueued(old(Snapshot()), keys[..clock], added, opiReady))
              || EntryDone(old(Snapshot()), keys, clock, left, remaining, added, opiReady)
    {
      hide NotAhead, ShouldFlush, Extra;
      remaining, left, queued, added := [], clock, 0, [];
      assert queue + [] == queue;
      for i := 0 to |keys|
        invariant left <= clock && queued == |added| && processed + queued <= STALE_MAX
        invariant queue == old(queue) + added && pendingKeys == old(pendingKeys) + Members(added)
        invariant forall a :: 0 <= a < |added| ==> Queueable(old(Snapshot()), added[a], opiReady)
        invariant forall a, b :: 0 <= a < b < |added| ==> added[a] != added[b]
        invariant forall k :: k in remaining ==> k in keys
        invariant forall k :: k in keys[..i] && k in buckets ==> k in remaining || k in pendingKeys
        invariant left == clock - i
        invariant forall k :: k in keys[..i] && Queueable(old(Snapshot()), k, opiReady) ==> k in added
        invariant forall k :: k in remaining ==>
                    k in buckets && k !in old(pendingKeys) && !Queueable(old(Snapshot()), k, opiReady)
      {
        var key := keys[i];
        assert keys[..i + 1] == keys[..i] + [key];
        if processed + queued >= STALE_MAX || left == 0 {
          assert keys == keys[..i] + keys[i..];
          remaining := remaining + keys[i..];
          return;
        }
        left := left - 1;
        if key !in pendingKeys && key in buckets {
          var flush := ShouldFlushBucket(key, buckets[key], opiReady);
          SameVerdict(old(Snapshot()), Snapshot(), key, buckets[key], opiReady);
          if flush {
            pendingKeys, queue := pendingKeys + {key}, queue + [key];
            assert forall a :: 0 <= a < |added| ==> added[a] in Members(added);
            queued, added := queued + 1, added + [key];
          } else {
            remaining := remaining + [key];
          }
        }
      }
      assert keys[..|keys|] == keys;
    }

    /** Queues stale buckets, oldest second first, until 500 are queued or the clock runs out. All that the
        turns reach is queued, up to the first entry that leaves a key over; when neither stopped it, nothing
        older than the late buffer is left in the index. */
    method FlushStale(clock: nat, opiReady: bool) returns (processed: nat, left: nat, ghost added: seq<Key>)
      requires Sorted(index)
      modifies this`index, this`queue, this`pendingKeys
      ensures StalePass(old(Snapshot()), Snapshot(), added, opiReady) && processed == |added|
      ensures tick > 0 && processed < 500 && left > 0 ==>
                forall e :: 0 <= e < |index| ==> index[e].second >= tick - Max(late, 0)
      ensures tick > 0 ==> Progressed(old(Snapshot()), added, clock, opiReady) && Forgotten(old(Snapshot()), index, added, clock, opiReady)
    {
      hide ShouldFlush, InIndex, ScannedTo, Progressed, Forgotten, EntryDone;
      processed, left, added := 0, clock, [];
      NothingScanned(Snapshot(), opiReady);
      if tick <= 0 { return; }
      var cutoff := tick - Max(late, 0);
      ghost var done: nat, stuck := 0, false;
      NoneScanned(Snapshot(), clock, opiReady);
      while processed < STALE_MAX && left > 0
        invariant Scanning(old(Snapshot()), Snapshot(), added, opiReady)
        invariant processed == |added| <= STALE_MAX
        invariant ScannedTo(old(Snapshot()), index, added, clock, left, done, stuck, opiReady)
        decreases left
      {
        left := left - 1;
        if index == [] || index[0].second >= cutoff {
          left := left + 1;
          break;
        }
        var second, keys := index[0].second, index[0].keys;
        ghost var before := Snapshot();
        var remaining, l, queued, more := ScanEntry(keys, processed, left, opiReady);
        EntryScanned(old(Snapshot()), before, added, more, remaining, pendingKeys, opiReady);
        if stuck {
          StaysStuck(old(Snapshot()), before, added, more, remaining, clock, left + 1, l, done, opiReady);
        } else {
          done, stuck := EntryAdvances(old(Snapshot()), before, added, more, remaining, clock, left + 1, l, done, opiReady);
        }
        index := index[1..];
        if remaining != [] {
          index := [Entry(second, remaining)] + index;
        }
        processed, left, added := processed + queued, l, added + more;
      }
      ScanDone(old(Snapshot()), Snapshot(), added, opiReady);
      ScanProgressed(old(Snapshot()), index, added, clock, left, done, stuck, opiReady);
      ScanForgot(old(Snapshot()), index, added, clock, left, done, stuck, opiReady);
    }

    /** Takes due keys for the worker, skipping those that completed meanwhile. */
    method DrainFlushQueue(clock: nat)
      requires drained == []
      modifies this`queue, this`pendingKeys, this`drained
      ensures Snapshot() == Drain(old(Snapshot()), clock, 500)
    {
      var left, room := clock, DRAIN_MAX;
      while room > 0 && left > 0 && queue != []
        invariant Drain(Snapshot(), left, room) == Drain(old(Snapshot()), clock, DRAIN_MAX)
        decreases left
      {
        var key := queue[0];
        queue, left := queue[1..], left - 1;
        if key in pendingKeys {
          pendingKeys, drained, room := pendingKeys - {key}, drained + [key], room - 1;
        }
      }
    }

    /** First locked section of the worker for a drained key: drops it when its bucket is gone. */
    method HasBucket() returns (has: bool)
      requires drained != []
      modifies this`drained
      ensures Snapshot() == Skip(old(Snapshot()))
      ensures has <==> old(drained)[0] in buckets
    {
      has := drained[0] in buckets;
      if !has {
        drained := drained[1..];
      }
    }

    /** Second locked section: builds and removes the bucket if it is still there. */
    method BuildTimedOut() returns (bucket: Option<Bucket>)
      requires drained != []
      modifies this`drained, this`buckets, this`built
      ensures Snapshot() == Timeout(old(Snapshot()))
      ensures bucket.Some? <==> old(drained)[0] in old(buckets)
    {
      var key := drained[0];
      drained := drained[1..];
      if key !in buckets { return None; }
      bucket := Some(buckets[key]);
      built := built + [Built(key, buckets[key], tick, true)];
      buckets := buckets - {key};
    }
  }

  lemma NothingScanned(s: State, opiReady: bool)
    requires Sorted(s.index)
    ensures Scanning(s, s, [], opiReady) && StalePass(s, s, [], opiReady)
  {
    assert s.queue + [] == s.queue && s.pendingKeys + Members([]) == s.pendingKeys;
  }

  lemma NoneScanned(s: State, clock: nat, opiReady: bool)
    ensures ScannedTo(s, s.index, [], clock, clock, 0, false, opiReady)
  {}

  lemma ScanDone(s: State, t: State, added: seq<Key>, opiReady: bool)
    requires Scanning(s, t, added, opiReady)
    ensures StalePass(s, t, added, opiReady)
  {
    hide Sorted, InIndex, Queueable, Members;
  }

  /** One entry: what it queued is new and stale, and what it left over goes back. */
  lemma EntryScanned(s: State, t: State, added: seq<Key>, more: seq<Key>, remaining: seq<Key>, pendingKeys: set<Key>, opiReady: bool)
    requires Scanning(s, t, added, opiReady) && t.index != []
    requires |added| + |more| <= STALE_MAX && pendingKeys == t.pendingKeys + Members(more)
    requires QueuedWell(t, more, opiReady)
    requires forall k :: k in remaining ==> k in t.index[0].keys
    requires forall k :: k in t.index[0].keys && k in t.buckets ==> k in remaining || k in pendingKeys
    ensures Scanning(s, t.(index := CutDown(t.index, remaining), queue := t.queue + more, pendingKeys := pendingKeys),
                     added + more, opiReady)
  {
    AddedMore(s, t, added, more, opiReady);
    hide QueuedWell, IndexKept;
    IndexScanned(s.index, s.buckets, t.index, t.pendingKeys, remaining, pendingKeys);
    assert s.queue + added + more == s.queue + (added + more);
    assert Members(added + more) == Members(added) + Members(more);
  }

  /** The index with its first entry cut down to what was left over. */
  function CutDown(index: seq<Entry>, remaining: seq<Key>): seq<Entry>
    requires index != []
  {
    if remaining != [] then [Entry(index[0].second, remaining)] + index[1..] else index[1..]
  }

  lemma CutDownKeys(index: seq<Entry>, remaining: seq<Key>)
    requires Sorted(index) && index != [] && forall k :: k in remaining ==> k in index[0].keys
    ensures Sorted(CutDown(index, remaining))
    ensures forall k :: InIndex(CutDown(index, remaining), k) ==> InIndex(index, k)
    ensures forall k :: InIndex(index, k) ==> InIndex(CutDown(index, remaining), k) || (k in index[0].keys && k !in remaining)
  {
    var rest, second := index[1..], index[0].second;
    TailSorted(index);
    assert index == [index[0]] + rest;
    ConsIndex(index[0], rest);
    ConsIndex(Entry(second, remaining), rest);
    hide InIndex, Sorted;
  }

  lemma IndexScanned(index: seq<Entry>, buckets: map<Key, Bucket>, left: seq<Entry>, pendingKeys: set<Key>, remaining: seq<Key>,
                     pendingKeys': set<Key>)
    requires IndexKept(index, buckets, left, pendingKeys) && left != [] && pendingKeys <= pendingKeys'
    requires forall k :: k in remaining ==> k in left[0].keys
    requires forall k :: k in left[0].keys && k in buckets ==> k in remaining || k in pendingKeys'
    ensures IndexKept(index, buckets, CutDown(left, remaining), pendingKeys')
  {
    hide InIndex, Sorted;
    CutDownKeys(left, remaining);
    hide CutDown;
  }

  lemma AddedMore(s: State, t: State, added: seq<Key>, more: seq<Key>, opiReady: bool)
    requires Scanning(s, t, added, opiReady) && QueuedWell(t, more, opiReady)
    ensures QueuedWell(s, added + more, opiReady)
  {
    var all := added + more;
    forall i | 0 <= i < |more| ensures Queueable(s, more[i], opiReady) && more[i] !in added {
      assert Queueable(t, more[i], opiReady);
      SameVerdict(s, t, more[i], s.buckets[more[i]], opiReady);
      assert more[i] !in Members(added);
    }
    hide Scanning, Queueable;
    forall i, j | 0 <= i < j < |all| ensures all[i] != all[j] {
      if j >= |added| {
        assert all[j] == more[j - |added|];
        assert i < |added| ==> all[i] in added;
        assert i >= |added| ==> all[i] == more[i - |added|];
      }
    }
  }
}
