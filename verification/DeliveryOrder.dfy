/** In which order the rows of one kind leave the spool table, and so which committed rows a restart
    delivers again. */
module DeliveryOrder {
  import opened SpoolModel
  import opened SpoolSafety

  ghost predicate SameKind(log: seq<Msg>, i: nat, j: nat) {
    1 <= i <= |log| && 1 <= j <= |log| && log[i - 1].kind == log[j - 1].kind
  }

  /** An older row of the same kind as j that is still to be delivered or deleted. */
  ghost predicate Older(log: seq<Msg>, table: set<nat>, i: nat, j: nat) {
    i < j && i in table && Decodes(log, i) && SameKind(log, i, j)
  }

  ghost predicate KindIncreasing(log: seq<Msg>, ids: seq<nat>) {
    forall a, b :: 0 <= a < b < |ids| && SameKind(log, ids[a], ids[b]) ==> ids[a] < ids[b]
  }

  // ----- the invariant -----

  /** What the writer has taken left the channel in this process. */
  ghost predicate Received(sent: seq<nat>, channel: seq<nat>, buffered: seq<nat>, acks: seq<nat>, ackBuf: seq<nat>) {
    |channel| <= |sent| && forall i :: i in buffered || i in acks || i in ackBuf ==> i in sent[..|sent| - |channel|]
  }

  /** Rows of one kind are buffered and acked in id order. */
  ghost predicate Sequenced(alpha: bool, log: seq<Msg>, bufs: seq<seq<nat>>, acks: seq<nat>)
    requires |bufs| == SLOTS
  {
    && (forall k :: 0 <= k < SLOTS ==> Increasing(bufs[k]))
    && (forall i :: i in Buffered(bufs) ==> 1 <= i <= |log| && Persisted(alpha, log[i - 1].kind))
    && KindIncreasing(log, acks)
    && (forall i, j :: i in acks && j in Buffered(bufs) && SameKind(log, i, j) ==> i < j)
  }

  /** No row overtakes an older one of its kind on the way to its delete. */
  ghost predicate Lined(log: seq<Msg>, table: set<nat>, buffered: seq<nat>, acks: seq<nat>, ackBuf: seq<nat>) {
    && (forall i: nat, j: nat :: j in ackBuf && Older(log, table, i, j) ==> i in ackBuf)
    && (forall i: nat, j: nat :: j in acks && Older(log, table, i, j) ==> i in ackBuf || i in acks)
    && (forall i: nat, j: nat :: j in buffered && Older(log, table, i, j) ==> i in ackBuf || i in acks || i in buffered)
  }

  ghost predicate Order(s: State) {
    && |s.bufs| == SLOTS
    && Received(s.sent, s.channel, Buffered(s.bufs), s.acks, s.ackBuf)
    && Sequenced(s.alpha, s.log, s.bufs, s.acks)
    && Lined(s.log, s.table, Buffered(s.bufs), s.acks, s.ackBuf)
  }

  // ----- every step keeps it -----

  ghost predicate Within(ids: seq<nat>, top: nat) {
    forall i :: i in ids ==> 1 <= i <= top
  }

  lemma LinedGrows(log: seq<Msg>, more: seq<Msg>, table: set<nat>, buffered: seq<nat>, acks: seq<nat>, ackBuf: seq<nat>)
    requires Lined(log, table, buffered, acks, ackBuf)
    requires Within(buffered, |log|) && Within(acks, |log|) && Within(ackBuf, |log|)
    ensures Lined(log + more, table + IdRange(|log|, |more|), buffered, acks, ackBuf)
  {
    var log', table' := log + more, table + IdRange(|log|, |more|);
    forall i: nat, j: nat | j <= |log| && Older(log', table', i, j) ensures Older(log, table, i, j) {
      assert log'[i - 1] == log[i - 1] && log'[j - 1] == log[j - 1];
    }
    hide Older, IdRange;
  }

  lemma SequencedGrows(alpha: bool, log: seq<Msg>, more: seq<Msg>, bufs: seq<seq<nat>>, acks: seq<nat>)
    requires |bufs| == SLOTS && Sequenced(alpha, log, bufs, acks) && Within(acks, |log|)
    ensures Sequenced(alpha, log + more, bufs, acks)
  {
    hide Gather, Increasing, Persisted;
    var log' := log + more;
    forall i: nat, j: nat | i <= |log| && j <= |log| && SameKind(log', i, j) ensures SameKind(log, i, j) {
      assert log'[i - 1] == log[i - 1] && log'[j - 1] == log[j - 1];
    }
    forall i | i in Buffered(bufs) ensures log'[i - 1] == log[i - 1] {}
    hide SameKind;
    forall a, b | 0 <= a < b < |acks| && SameKind(log', acks[a], acks[b]) ensures acks[a] < acks[b] {
      assert acks[a] in acks && acks[b] in acks;
    }
  }

  lemma HasShape(s: State)
    requires Inv(s)
    ensures Shape(s.log, s.table, s.lastSent, s.bufs)
  {
    hide Gather, Shape;
  }

  lemma StagesWithin(s: State)
    requires Inv(s)
    ensures |s.bufs| == SLOTS && Within(Buffered(s.bufs), |s.log|) && Within(s.acks, |s.log|) && Within(s.ackBuf, |s.log|)
  {
    hide Inv, Gather;
    AcksAreFetched(s);
    HasShape(s);
    BufferedIdsInLog(s.log, s.table, s.lastSent, s.bufs);
    assert forall i :: i in s.acks || i in s.ackBuf ==> i in s.acks + s.ackBuf;
  }

  lemma LinedShrinks(log: seq<Msg>, table: set<nat>, fewer: set<nat>, buffered: seq<nat>, acks: seq<nat>, ackBuf: seq<nat>)
    requires Lined(log, table, buffered, acks, ackBuf) && fewer <= table
    ensures Lined(log, fewer, buffered, acks, ackBuf)
  {
    assert forall i: nat, j: nat :: Older(log, fewer, i, j) ==> Older(log, table, i, j);
  }

  lemma OrderSends(s: State)
    requires Inv(s) && Order(s)
    ensures Order(DoTrySend(s))
  {
    hide Inv, Sequenced, Lined, Gather;
    var t := DoTrySend(s);
    if |t.sent| > |s.sent| {
      assert t.sent[..|t.sent| - |t.channel|] == s.sent[..|s.sent| - |s.channel|];
    }
  }

  lemma NotBehind(log: seq<Msg>, head: nat, rest: seq<nat>, i: nat)
    requires KindIncreasing(log, [head] + rest) && SameKind(log, i, head) && i < head
    ensures i !in rest
  {
    var acks := [head] + rest;
    forall b | 0 <= b < |rest| ensures rest[b] != i {
      assert acks[0] == head && acks[b + 1] == rest[b];
    }
  }

  lemma LinedAck(log: seq<Msg>, table: set<nat>, buffered: seq<nat>, head: nat, rest: seq<nat>, ackBuf: seq<nat>)
    requires Lined(log, table, buffered, [head] + rest, ackBuf) && KindIncreasing(log, [head] + rest)
    ensures Lined(log, table, buffered, rest, ackBuf + [head]) && KindIncreasing(log, rest)
  {
    var acks := [head] + rest;
    assert acks[0] == head && forall b :: 0 <= b < |rest| ==> acks[b + 1] == rest[b];
    assert head in acks;
    forall i: nat | Older(log, table, i, head) ensures i in ackBuf {
      NotBehind(log, head, rest, i);
    }
    forall j | j in rest ensures j in acks {}
    hide Older, SameKind;
  }

  lemma OrderAckReceives(s: State)
    requires Inv(s) && Order(s)
    ensures Order(DoAckReceive(s))
  {
    hide Inv, Gather, Increasing, Persisted, SameKind, Lined, Order;
    SequencedParts(s);
    if s.pc.Idle? && s.acks != [] {
      assert s.acks == [s.acks[0]] + s.acks[1..];
      LinedAck(s.log, s.table, Buffered(s.bufs), s.acks[0], s.acks[1..], s.ackBuf);
      hide KindIncreasing;
      OrderIs(s);
      OrderIs(DoAckReceive(s));
    }
  }

  lemma OrderIs(s: State)
    ensures Order(s) <==> |s.bufs| == SLOTS
                          && Received(s.sent, s.channel, Buffered(s.bufs), s.acks, s.ackBuf)
                          && Sequenced(s.alpha, s.log, s.bufs, s.acks)
                          && Lined(s.log, s.table, Buffered(s.bufs), s.acks, s.ackBuf)
  {
    hide Received, Sequenced, Lined, Gather;
  }

  lemma SequencedParts(s: State)
    requires Order(s)
    ensures KindIncreasing(s.log, s.acks) && |s.bufs| == SLOTS && Lined(s.log, s.table, Buffered(s.bufs), s.acks, s.ackBuf)
  {
    hide Gather, Increasing, KindIncreasing, Lined, Received;
  }

  lemma LinedFlush(log: seq<Msg>, table: set<nat>, fewer: set<nat>, buffered: seq<nat>, acks: seq<nat>, ackBuf: seq<nat>, remaining: seq<nat>)
    requires Lined(log, table, buffered, acks, ackBuf) && fewer <= table
    requires forall i :: i in remaining <==> i in ackBuf && i in fewer
    ensures Lined(log, fewer, buffered, acks, remaining)
  {
    assert forall i: nat, j: nat :: Older(log, fewer, i, j) ==> Older(log, table, i, j) && i in fewer;
    hide Older;
  }

  lemma OrderFlushesAcks(s: State, oks: seq<bool>)
    requires Inv(s) && Order(s)
    ensures Order(DoFlushAck(s, oks))
  {
    hide Order, Inv, Gather, Increasing, DoFlushAck, Sequenced, Lined;
    var t := DoFlushAck(s, oks);
    if s.pc.Idle? && s.ackBuf != [] {
      FlushAckSpec(s, oks);
      SequencedParts(s);
      LinedFlush(s.log, s.table, t.table, Buffered(s.bufs), s.acks, s.ackBuf, t.ackBuf);
      OrderIs(s);
      OrderIs(t);
    } else {
      NothingToAck(s, oks);
    }
  }

  lemma {:induction false} GatherAbove(log: seq<Msg>, bufs: seq<seq<nat>>, r: nat)
    requires |bufs| == SLOTS && r <= SLOTS
    requires forall k, i :: 0 <= k < SLOTS && i in bufs[k] ==> 1 <= i <= |log| && Slot(log[i - 1].kind) == k
    ensures forall i :: i in Gather(bufs, false, r) ==> 1 <= i <= |log| && Slot(log[i - 1].kind) >= r
    decreases SLOTS - r
  {
    if r < SLOTS {
      GatherAbove(log, bufs, r + 1);
    }
  }

  lemma {:induction false} GatherKindIncreasing(log: seq<Msg>, bufs: seq<seq<nat>>, r: nat)
    requires |bufs| == SLOTS && r <= SLOTS
    requires forall k :: 0 <= k < SLOTS ==> Increasing(bufs[k])
    requires forall k, i :: 0 <= k < SLOTS && i in bufs[k] ==> 1 <= i <= |log| && Slot(log[i - 1].kind) == k
    ensures KindIncreasing(log, Gather(bufs, false, r))
    decreases SLOTS - r
  {
    if r < SLOTS {
      GatherKindIncreasing(log, bufs, r + 1);
      GatherAbove(log, bufs, r + 1);
      var rest := Gather(bufs, false, r + 1);
      assert Gather(bufs, false, r) == bufs[r] + rest;
      assert forall i, j :: i in bufs[r] && j in rest ==> !SameKind(log, i, j);
      assert KindIncreasing(log, bufs[r]);
      hide Gather;
      AcksJoin(log, bufs[r], rest);
    }
  }

  lemma SlotsHold(s: State)
    requires Inv(s)
    ensures |s.bufs| == SLOTS
    ensures forall k, i :: 0 <= k < SLOTS && i in s.bufs[k] ==> 1 <= i <= |s.log| && Slot(s.log[i - 1].kind) == k
  {
    hide Gather;
  }

  lemma AcksJoin(log: seq<Msg>, acks: seq<nat>, buffered: seq<nat>)
    requires KindIncreasing(log, acks) && KindIncreasing(log, buffered)
    requires forall i, j :: i in acks && j in buffered && SameKind(log, i, j) ==> i < j
    ensures KindIncreasing(log, acks + buffered)
  {
    var all := acks + buffered;
    forall a, b | 0 <= a < b < |all| && SameKind(log, all[a], all[b]) ensures all[a] < all[b] {
      if a < |acks| <= b {
        assert all[a] in acks && all[b] in buffered;
      }
    }
  }

  lemma NothingBuffered(alpha: bool, log: seq<Msg>, bufs: seq<seq<nat>>, acks: seq<nat>)
    requires bufs == NoBufs() && KindIncreasing(log, acks)
    ensures |bufs| == SLOTS && Buffered(bufs) == [] && Sequenced(alpha, log, bufs, acks)
  {
    hide KindIncreasing;
    GatherEmpty(false, 0);
    hide Gather;
  }

  lemma LinedCommit(log: seq<Msg>, table: set<nat>, buffered: seq<nat>, acks: seq<nat>, ackBuf: seq<nat>)
    requires Lined(log, table, buffered, acks, ackBuf)
    ensures Lined(log, table, [], acks + buffered, ackBuf)
  {
    hide Older;
  }

  lemma OrderWriterFlushes(s: State, outcome: Outcome)
    requires Inv(s) && Order(s)
    ensures Order(DoWriterFlush(s, outcome))
  {
    hide Order, Inv, Gather, NoBufs, Lined, Increasing;
    var t := DoWriterFlush(s, outcome);
    SlotsHold(s);
    OrderIs(s);
    OrderIs(t);
    if s.open && s.bufs != NoBufs() && outcome.CommitOk? {
      GatherKindIncreasing(s.log, s.bufs, 0);
      hide KindIncreasing, SameKind, Persisted, Received;
      AcksJoin(s.log, s.acks, Buffered(s.bufs));
      LinedCommit(s.log, s.table, Buffered(s.bufs), s.acks, s.ackBuf);
      NothingBuffered(t.alpha, t.log, t.bufs, t.acks);
      hide Sequenced, Buffered;
      ReceivedCommit(s.sent, s.channel, Buffered(s.bufs), s.acks, s.ackBuf);
    } else {
      hide Sequenced, Received, Buffered;
    }
  }

  lemma ReceivedCommit(sent: seq<nat>, channel: seq<nat>, buffered: seq<nat>, acks: seq<nat>, ackBuf: seq<nat>)
    requires Received(sent, channel, buffered, acks, ackBuf)
    ensures Received(sent, channel, [], acks + buffered, ackBuf)
  {}

  lemma OrderWriterDies(s: State)
    requires Inv(s) && Order(s)
    ensures Order(DoWriterDies(s))
  {
    hide Inv, Older, SameKind, Persisted, KindIncreasing;
    GatherEmpty(false, 0);
    hide Gather;
    assert s.sent[..|s.sent|] == s.sent;
  }

  /** The head of the channel is above all that the writer has taken, and every older row of its kind is
      among that. */
  lemma HeadComesNext(s: State)
    requires Inv(s) && Order(s) && s.open && s.channel != []
    ensures forall i :: i in s.acks || i in Buffered(s.bufs) ==> i < s.channel[0]
    ensures forall i: nat :: Older(s.log, s.table, i, s.channel[0]) ==> i in s.ackBuf || i in s.acks || i in Buffered(s.bufs)
  {
    hide Gather, PrefixCommit, Closed, TxsSorted, Stream, ShocksKnown, Counted, Room, Durable, Acked, Held, Sequenced, Lined;
    HeadIsLowest(s.sent, s.pending, s.channel, s.lastSent);
    AckIdsHeld(s.pending, s.channel, Buffered(s.bufs), s.acks, s.ackBuf);
    var early := s.sent[..|s.sent| - |s.channel|];
    assert s.sent == early + s.channel;
    IncreasingSplit(s.sent, s.pending);
    IncreasingSplit(early, s.channel);
    assert s.channel[0] in s.channel;
    hide Ordered, Increasing;
    forall i: nat | Older(s.log, s.table, i, s.channel[0]) ensures i in s.ackBuf || i in s.acks || i in Buffered(s.bufs) {
      assert Fetched(s.log, s.table, s.lastSent, i);
      assert i in Stages(s);
      assert i in s.acks + s.ackBuf ==> i in s.acks || i in s.ackBuf;
    }
  }

  lemma BufferedPush(bufs: seq<seq<nat>>, k: nat, id: nat, more: seq<seq<nat>>)
    requires |bufs| == SLOTS && k < SLOTS && more == bufs[k := bufs[k] + [id]]
    ensures forall i :: i in Buffered(more) <==> i in Buffered(bufs) || i == id
  {
    GatherPush(bufs, false, 0, k, id);
    SameMembers(Buffered(bufs), Buffered(more), id);
  }

  lemma SameMembers(x: seq<nat>, y: seq<nat>, id: nat)
    requires multiset(y) == multiset(x) + multiset{id}
    ensures forall i :: i in y <==> i in x || i == id
  {
    forall i ensures i in y <==> i in x || i == id {
      assert i in x <==> i in multiset(x);
      assert i in y <==> i in multiset(y);
    }
  }

  lemma ReceivedMore(sent: seq<nat>, channel: seq<nat>, buffered: seq<nat>, acks: seq<nat>, buffered': seq<nat>, acks': seq<nat>, ackBuf: seq<nat>)
    requires Received(sent, channel, buffered, acks, ackBuf) && channel != [] && |channel| <= |sent|
    requires channel == sent[|sent| - |channel|..]
    requires forall i :: i in buffered' || i in acks' ==> i in buffered || i in acks || i == channel[0]
    ensures Received(sent, channel[1..], buffered', acks', ackBuf)
  {
    var n := |sent| - |channel|;
    assert sent[..n + 1] == sent[..n] + [channel[0]];
  }

  lemma LinedReceive(log: seq<Msg>, table: set<nat>, buffered: seq<nat>, buffered': seq<nat>, acks: seq<nat>, ackBuf: seq<nat>, id: nat)
    requires Lined(log, table, buffered, acks, ackBuf)
    requires forall i :: i in buffered' <==> i in buffered || i == id
    requires forall i: nat :: Older(log, table, i, id) ==> i in ackBuf || i in acks || i in buffered
    ensures Lined(log, table, buffered', acks, ackBuf)
  {
    hide Older;
  }

  lemma SlotsReceive(bufs: seq<seq<nat>>, k: nat, id: nat, more: seq<seq<nat>>)
    requires |bufs| == SLOTS && k < SLOTS && forall q :: 0 <= q < SLOTS ==> Increasing(bufs[q])
    requires more == bufs[k := bufs[k] + [id]] && forall i :: i in bufs[k] ==> i < id
    ensures forall q :: 0 <= q < SLOTS ==> Increasing(more[q])
  {
    IncreasingConcat(bufs[k], [id]);
    hide Increasing;
  }

  lemma SequencedReceive(alpha: bool, log: seq<Msg>, bufs: seq<seq<nat>>, acks: seq<nat>, k: nat, id: nat, more: seq<seq<nat>>)
    requires |bufs| == SLOTS && k < SLOTS && Sequenced(alpha, log, bufs, acks) && more == bufs[k := bufs[k] + [id]]
    requires 1 <= id <= |log| && Persisted(alpha, log[id - 1].kind)
    requires forall i :: i in acks || i in Buffered(bufs) ==> i < id
    ensures Sequenced(alpha, log, more, acks)
  {
    hide Gather, Persisted, KindIncreasing, SameKind, Increasing, Buffered;
    BufferedPush(bufs, k, id, more);
    SlotMembers(bufs, k);
    SlotsReceive(bufs, k, id, more);
    forall i | i in Buffered(more) ensures 1 <= i <= |log| && Persisted(alpha, log[i - 1].kind) {
      assert i in Buffered(bufs) || i == id;
    }
  }

  lemma OrderReceivesPersisted(s: State)
    requires Inv(s) && Order(s) && s.open && s.channel != [] && 1 <= s.channel[0] <= |s.log|
    requires Persisted(s.alpha, s.log[s.channel[0] - 1].kind)
    ensures Order(DoWriterReceive(s))
  {
    hide Inv, Order, Gather, Persisted, Sequenced, Lined, Received, Ordered, Buffered;
    var t, id := DoWriterReceive(s), s.channel[0];
    OrderIs(s);
    OrderIs(t);
    HeadComesNext(s);
    SentSplits(s);
    var k := Slot(s.log[id - 1].kind);
    SequencedReceive(s.alpha, s.log, s.bufs, s.acks, k, id, t.bufs);
    BufferedPush(s.bufs, k, id, t.bufs);
    LinedReceive(s.log, s.table, Buffered(s.bufs), Buffered(t.bufs), s.acks, s.ackBuf, id);
    ReceivedMore(s.sent, s.channel, Buffered(s.bufs), s.acks, Buffered(t.bufs), t.acks, s.ackBuf);
  }

  lemma SlotMembers(bufs: seq<seq<nat>>, k: nat)
    requires |bufs| == SLOTS && k < SLOTS
    ensures forall i :: i in bufs[k] ==> i in Buffered(bufs)
  {
    forall i | i in bufs[k] ensures i in Buffered(bufs) {
      GatherMembers(bufs, false, 0, i);
      assert i in bufs[Place(false, k)];
    }
  }

  lemma SentSplits(s: State)
    requires Inv(s)
    ensures |s.channel| <= |s.sent| && s.channel == s.sent[|s.sent| - |s.channel|..]
  {
    hide Gather;
  }

  lemma SequencedPasses(alpha: bool, log: seq<Msg>, bufs: seq<seq<nat>>, acks: seq<nat>, id: nat)
    requires |bufs| == SLOTS && Sequenced(alpha, log, bufs, acks)
    requires 1 <= id <= |log| && !Persisted(alpha, log[id - 1].kind)
    requires forall i :: i in acks ==> i < id
    ensures Sequenced(alpha, log, bufs, acks + [id])
    ensures forall i :: i in Buffered(bufs) ==> !SameKind(log, i, id)
  {
    hide Gather, Increasing;
    assert KindIncreasing(log, [id]);
    AcksJoin(log, acks, [id]);
    hide KindIncreasing, Persisted;
  }

  lemma LinedPasses(log: seq<Msg>, table: set<nat>, buffered: seq<nat>, acks: seq<nat>, ackBuf: seq<nat>, id: nat)
    requires Lined(log, table, buffered, acks, ackBuf)
    requires forall i: nat :: Older(log, table, i, id) ==> i in ackBuf || i in acks || i in buffered
    requires forall i :: i in buffered ==> !SameKind(log, i, id)
    ensures Lined(log, table, buffered, acks + [id], ackBuf)
  {
    hide SameKind;
  }

  lemma OrderReceivesUnpersisted(s: State)
    requires Inv(s) && Order(s) && s.open && s.channel != [] && 1 <= s.channel[0] <= |s.log|
    requires !Persisted(s.alpha, s.log[s.channel[0] - 1].kind)
    ensures Order(DoWriterReceive(s))
  {
    hide Inv, Order, Gather, Persisted, Sequenced, Lined, Received, Ordered, Buffered;
    var t, id := DoWriterReceive(s), s.channel[0];
    OrderIs(s);
    OrderIs(t);
    HeadComesNext(s);
    SentSplits(s);
    SequencedPasses(s.alpha, s.log, s.bufs, s.acks, id);
    LinedPasses(s.log, s.table, Buffered(s.bufs), s.acks, s.ackBuf, id);
    ReceivedMore(s.sent, s.channel, Buffered(s.bufs), s.acks, Buffered(t.bufs), t.acks, s.ackBuf);
  }

  /** A process that has just started has nothing on the way. */
  lemma OrderFresh(alpha: bool, nextShock: int, log: seq<Msg>, table: set<nat>, txs: seq<seq<nat>>, orphans: set<nat>)
    ensures Order(Fresh(alpha, nextShock, log, table, txs, orphans))
  {
    GatherEmpty(false, 0);
    hide Gather;
  }

  lemma OrderRestarts(s: State, nextShock: int)
    ensures Order(Apply(s, Restart(nextShock)))
  {
    hide Order, Fresh;
    OrderFresh(s.alpha, nextShock, s.log, s.table, s.txs, s.orphans);
  }

  lemma OrderFlushesInsert(s: State, ok: bool)
    requires Inv(s) && Order(s)
    ensures Order(DoFlushInsert(s, ok))
  {
    hide Inv, Order, Encodable, DroppedShocks, Orphans, IdRange, Received, Sequenced, Lined, Gather;
    var t, batch := DoFlushInsert(s, ok), Encodable(s.insertBuf);
    OrderIs(s);
    OrderIs(t);
    if s.pc.Idle? && s.insertBuf != [] && batch != [] && ok {
      StagesWithin(s);
      LinedGrows(s.log, batch, s.table, Buffered(s.bufs), s.acks, s.ackBuf);
      SequencedGrows(s.alpha, s.log, batch, s.bufs, s.acks);
    }
  }

  lemma OrderPurges(s: State, ok: bool)
    requires Inv(s) && Order(s)
    ensures Order(DoPumpPurge(s, ok))
  {
    hide Inv, Received, Sequenced, Gather;
    LinedShrinks(s.log, s.table, DoPumpPurge(s, ok).table, Buffered(s.bufs), s.acks, s.ackBuf);
    hide Lined;
  }

  lemma OrderKept(s: State, ev: Event)
    requires Inv(s) && Order(s)
    ensures Order(Apply(s, ev))
  {
    hide Inv, Received, Sequenced, Lined, Gather, Encodable, DroppedShocks, IdRange, Select, Decodable, SortDedup;
    match ev
    case ShardPending(_, _, _) =>
    case ShardFinal(_, _, _) =>
    case Publish(_) =>
    case IngestReceive =>
    case FlushInsert(ok) => OrderFlushesInsert(s, ok);
    case PumpBegin =>
    case TrySend => OrderSends(s);
    case PumpRows(_) =>
    case PumpPurge(ok) => OrderPurges(s, ok);
    case AckReceive => OrderAckReceives(s);
    case FlushAck(oks) => OrderFlushesAcks(s, oks);
    case WriterReceive =>
      if s.open && s.channel != [] && 1 <= s.channel[0] <= |s.log| {
        if Persisted(s.alpha, s.log[s.channel[0] - 1].kind) { OrderReceivesPersisted(s); } else { OrderReceivesUnpersisted(s); }
      }
    case WriterFlush(outcome) => OrderWriterFlushes(s, outcome);
    case WriterDies => OrderWriterDies(s);
    case Restart(nextShock) => OrderRestarts(s, nextShock);
  }

  lemma {:induction false} OrderRun(alpha: bool, nextShock: int, evs: seq<Event>)
    ensures Order(Run(Init(alpha, nextShock), evs))
    decreases |evs|
  {
    hide Order, Inv, Apply, Init;
    if evs == [] {
      OrderStarts(alpha, nextShock);
    } else {
      var front := evs[..|evs| - 1];
      OrderRun(alpha, nextShock, front);
      InvRun(alpha, nextShock, front);
      OrderKept(Run(Init(alpha, nextShock), front), evs[|evs| - 1]);
    }
  }

  lemma OrderStarts(alpha: bool, nextShock: int)
    ensures Order(Init(alpha, nextShock))
  {
    hide Order, Fresh;
    OrderFresh(alpha, nextShock, [], {}, [], {});
  }

  // ----- passes over the ack buffer -----

  predicate Ok(oks: seq<bool>, chunk: nat) {
    chunk < |oks| && oks[chunk]
  }

  /** No chunk of a pass over n ids is deleted after one whose delete failed. */
  ghost predicate InOrder(n: nat, oks: seq<bool>) {
    forall a: nat, b: nat :: a < b && b * ACK_BATCH < n && Ok(oks, b) ==> Ok(oks, a)
  }

  /** An id left in the table goes with all the higher ones. */
  ghost predicate UpperLeft(ids: seq<nat>, table: set<nat>) {
    forall a, b :: 0 <= a < b < |ids| && ids[a] in table ==> ids[b] in table
  }

  /** One chunk of a pass: it goes when its statement succeeds, and the rest is a pass of its own. */
  lemma PassSplits(ids: seq<nat>, table: set<nat>, oks: seq<bool>) returns (n: nat, left: set<nat>, more: seq<bool>)
    requires Increasing(ids) && ids != [] && forall i :: i in ids ==> i in table
    ensures n == if |ids| < ACK_BATCH then |ids| else ACK_BATCH
    ensures Increasing(ids[n..]) && forall i :: i in ids[n..] ==> i in left
    ensures AckPass(ids, table, oks).table == AckPass(ids[n..], left, more).table
    ensures forall a :: 0 <= a < n ==> ids[a] !in ids[n..] && (ids[a] in left <==> !Ok(oks, 0))
    ensures forall k: nat :: Ok(more, k) == Ok(oks, k + 1)
  {
    n := if |ids| < ACK_BATCH then |ids| else ACK_BATCH;
    var head, tail := ids[..n], ids[n..];
    assert ids == head + tail;
    IncreasingSplit(head, tail);
    left := if oks != [] && oks[0] then table - Members(head) else table;
    more := if oks == [] then [] else oks[1..];
    assert AckPass(ids, table, oks).table == AckPass(tail, left, more).table;
    hide AckPass, Increasing;
    forall a | 0 <= a < n ensures ids[a] in head {
      assert head[a] == ids[a];
    }
  }

  /** An id of the first chunk. */
  lemma FirstChunkGoes(ids: seq<nat>, table: set<nat>, oks: seq<bool>, a: nat)
    requires Increasing(ids) && a < |ids| && a < ACK_BATCH && forall i :: i in ids ==> i in table
    ensures ids[a] in AckPass(ids, table, oks).table <==> !Ok(oks, 0)
  {
    hide AckPass, Increasing, Ok, Members;
    var n, left, more := PassSplits(ids, table, oks);
    AckPassSpec(ids[n..], left, more);
  }

  /** Which ids a pass deletes: those of the chunks of 500 whose statement succeeds. */
  lemma {:induction false} PassDeletes(ids: seq<nat>, table: set<nat>, oks: seq<bool>, a: nat)
    requires Increasing(ids) && a < |ids| && forall i :: i in ids ==> i in table
    ensures ids[a] in AckPass(ids, table, oks).table <==> !Ok(oks, a / 500)
    decreases |ids|
  {
    hide AckPass, Increasing, Ok, Members;
    if a < ACK_BATCH {
      FirstChunkGoes(ids, table, oks, a);
      FirstChunk(a);
    } else {
      var n, left, more := PassSplits(ids, table, oks);
      assert ids[n..][a - n] == ids[a];
      PassDeletes(ids[n..], left, more, a - n);
      NextChunk(a);
    }
  }

  lemma FirstChunk(a: nat)
    requires a < ACK_BATCH
    ensures a / ACK_BATCH == 0
  {}

  lemma NextChunk(a: nat)
    requires a >= ACK_BATCH
    ensures a / ACK_BATCH == (a - ACK_BATCH) / ACK_BATCH + 1
  {}

  /** Exactly when a pass leaves an upper part of its ids in the table: no chunk is deleted after one that
      failed. */
  lemma PassKeepsUpperIff(ids: seq<nat>, table: set<nat>, oks: seq<bool>)
    requires Increasing(ids) && forall i :: i in ids ==> i in table
    ensures UpperLeft(ids, AckPass(ids, table, oks).table) <==> InOrder(|ids|, oks)
  {
    hide AckPass, Increasing, Ok;
    var left := AckPass(ids, table, oks).table;
    forall a: nat | a < |ids| ensures ids[a] in left <==> !Ok(oks, a / ACK_BATCH) {
      PassDeletes(ids, table, oks, a);
    }
    if UpperLeft(ids, left) {
      forall a: nat, b: nat | a < b && b * ACK_BATCH < |ids| && Ok(oks, b) ensures Ok(oks, a) {
        var x, y := ids[a * ACK_BATCH], ids[b * ACK_BATCH];
        assert x !in left || y in left;
      }
    }
    if InOrder(|ids|, oks) {
      forall a, b | 0 <= a < b < |ids| && ids[a] in left ensures ids[b] in left {
        assert a / ACK_BATCH <= b / ACK_BATCH && (b / ACK_BATCH) * ACK_BATCH <= b;
      }
    }
  }

  // ----- runs whose passes are in order -----

  ghost predicate OfKind(log: seq<Msg>, kind: Kind, i: nat) {
    1 <= i <= |log| && log[i - 1].kind == kind
  }

  /** No row of this kind is deleted in a pass over `ids` after an older one whose delete failed. */
  ghost predicate KindInOrder(log: seq<Msg>, kind: Kind, ids: seq<nat>, oks: seq<bool>) {
    forall a: nat, b: nat :: a < b < |ids| && OfKind(log, kind, ids[a]) && OfKind(log, kind, ids[b]) && Ok(oks, b / ACK_BATCH)
                             ==> Ok(oks, a / ACK_BATCH)
  }

  /** Among the decodable rows of the kind the table holds an upper part. */
  ghost predicate UpperTable(s: State, kind: Kind) {
    forall i: nat, j: nat :: OfKind(s.log, kind, j) && Older(s.log, s.table, i, j) && Decodes(s.log, j) ==> j in s.table
  }

  /** What the step deletes of the kind, it deletes in order. */
  ghost predicate DeletesInOrder(s: State, ev: Event, kind: Kind) {
    ev.FlushAck? && s.pc.Idle? ==> KindInOrder(s.log, kind, SortDedup(s.ackBuf, |s.log|), ev.oks)
  }

  lemma UpperGrows(s: State, t: State, more: seq<Msg>, kind: Kind)
    requires UpperTable(s, kind) && t.log == s.log + more && t.table == s.table + IdRange(|s.log|, |more|)
    ensures UpperTable(t, kind)
  {
    forall i: nat, j: nat | OfKind(t.log, kind, j) && Older(t.log, t.table, i, j) && Decodes(t.log, j) ensures j in t.table {
      if j <= |s.log| {
        assert t.log[i - 1] == s.log[i - 1] && t.log[j - 1] == s.log[j - 1];
        assert Older(s.log, s.table, i, j);
      }
    }
  }

  lemma UpperPurges(s: State, ok: bool, kind: Kind)
    requires Inv(s) && UpperTable(s, kind)
    ensures UpperTable(DoPumpPurge(s, ok), kind)
  {
    var t := DoPumpPurge(s, ok);
    hide Gather, Shape, Durable, Ordered, PrefixCommit, Closed, Acked, Partition, Counted, TxsSorted, ShocksKnown;
    forall i: nat, j: nat | OfKind(t.log, kind, j) && Older(t.log, t.table, i, j) && Decodes(t.log, j) ensures j in t.table {
      assert Older(s.log, s.table, i, j);
    }
  }

  /** What a pass over the ack buffer leaves in the table. */
  lemma PassLeaves(s: State, oks: seq<bool>)
    requires Inv(s) && s.pc.Idle?
    ensures var ids, t := SortDedup(s.ackBuf, |s.log|), DoFlushAck(s, oks);
            && t.log == s.log && t.table <= s.table
            && Increasing(ids) && (forall i :: i in ids <==> i in s.ackBuf)
            && (forall i :: i in s.table && i !in s.ackBuf ==> i in t.table)
            && (forall a: nat :: a < |ids| ==> ids[a] in s.table && Decodes(s.log, ids[a])
                                               && (ids[a] in t.table <==> !Ok(oks, a / ACK_BATCH)))
  {
    hide Inv, Gather, Increasing, SortDedup, AckPass, Ok, Decodes;
    AcksAreFetched(s);
    AcksDecode(s);
    assert forall i :: i in s.ackBuf ==> i in s.acks + s.ackBuf;
    SortDedupSpec(s.ackBuf, |s.log|);
    var ids := SortDedup(s.ackBuf, |s.log|);
    if s.ackBuf != [] {
      FlushAckSpec(s, oks);
      forall a: nat | a < |ids|
        ensures ids[a] in s.table && Decodes(s.log, ids[a]) && (ids[a] in DoFlushAck(s, oks).table <==> !Ok(oks, a / ACK_BATCH))
      {
        assert ids[a] in ids;
        PassDeletes(ids, s.table, oks, a);
      }
    } else {
      NothingToAck(s, oks);
      assert forall a :: 0 <= a < |ids| ==> ids[a] in ids;
    }
  }

  lemma AcksDecode(s: State)
    requires Inv(s)
    ensures forall i :: i in s.ackBuf ==> Decodes(s.log, i)
  {
    HasBufs(s);
    hide Gather, Shape, Durable, Ordered, PrefixCommit, Closed, Acked, Counted, Room, TxsSorted, ShocksKnown;
    AckIdsHeld(s.pending, s.channel, Buffered(s.bufs), s.acks, s.ackBuf);
    hide Held;
    forall i | i in s.ackBuf ensures Decodes(s.log, i) {
      assert i in s.acks + s.ackBuf;
      assert i in Stages(s);
    }
  }

  /** A pass keeps the table upper if and only if it deletes the rows of the kind in order. */
  lemma UpperFlushesAcksIff(s: State, oks: seq<bool>, kind: Kind)
    requires Inv(s) && Order(s) && UpperTable(s, kind) && s.pc.Idle?
    ensures UpperTable(DoFlushAck(s, oks), kind) <==> KindInOrder(s.log, kind, SortDedup(s.ackBuf, |s.log|), oks)
  {
    PassLeaves(s, oks);
    FrontOfTable(s);
    hide Inv, Order, Increasing, SortDedup, DoFlushAck, Ok, Decodes;
    var t, ids := DoFlushAck(s, oks), SortDedup(s.ackBuf, |s.log|);
    if UpperTable(t, kind) {
      forall a: nat, b: nat | a < b < |ids| && OfKind(s.log, kind, ids[a]) && OfKind(s.log, kind, ids[b]) && Ok(oks, b / ACK_BATCH)
        ensures Ok(oks, a / ACK_BATCH)
      {
        IncreasingPair(ids, a, b);
        assert ids[b] !in t.table;
        assert ids[a] in t.table ==> Older(t.log, t.table, ids[a], ids[b]);
      }
    }
    if KindInOrder(s.log, kind, ids, oks) {
      forall i: nat, j: nat | OfKind(t.log, kind, j) && Older(t.log, t.table, i, j) && Decodes(t.log, j) ensures j in t.table {
        assert Older(s.log, s.table, i, j);
        if j in s.ackBuf {
          assert i in ids && j in ids;
          var a :| 0 <= a < |ids| && ids[a] == i;
          var b :| 0 <= b < |ids| && ids[b] == j;
          IncreasingAt(ids, a, b);
        }
      }
    }
  }

  lemma FrontOfTable(s: State)
    requires Order(s)
    ensures forall i: nat, j: nat :: j in s.ackBuf && Older(s.log, s.table, i, j) ==> i in s.ackBuf
  {
    hide Sequenced, Received, Gather, Older;
  }

  lemma IncreasingAt(ids: seq<nat>, a: nat, b: nat)
    requires Increasing(ids) && a < |ids| && b < |ids| && ids[a] < ids[b]
    ensures a < b
  {}

  lemma IncreasingPair(ids: seq<nat>, a: nat, b: nat)
    requires Increasing(ids) && a < b < |ids|
    ensures ids[a] < ids[b]
  {}

  /** Of the steps of the spooler these leave the rows alone. */
  lemma SpoolerKeepsRows(s: State)
    ensures SameRows(s, DoPumpBegin(s)) && SameRows(s, DoTrySend(s)) && SameRows(s, DoAckReceive(s))
    ensures forall ok :: SameRows(s, DoPumpRows(s, ok))
  {
    hide Select, Decodable;
  }

  ghost predicate SameRows(s: State, t: State) {
    t.log == s.log && t.table == s.table
  }

  /** The other steps neither insert nor delete. */
  lemma TableStays(s: State, ev: Event)
    requires !ev.FlushInsert? && !ev.PumpPurge? && !ev.FlushAck?
    ensures Apply(s, ev).log == s.log && Apply(s, ev).table == s.table
  {
    SpoolerKeepsRows(s);
    hide DoPumpBegin, DoTrySend, DoAckReceive, DoPumpRows, NoBufs, Statements, Buffered;
    match ev
    case _ =>
  }

  lemma TableSteps(s: State, ev: Event)
    ensures ev.FlushInsert? ==> Apply(s, ev) == DoFlushInsert(s, ev.ok)
    ensures ev.PumpPurge? ==> Apply(s, ev) == DoPumpPurge(s, ev.ok)
    ensures ev.FlushAck? ==> Apply(s, ev) == DoFlushAck(s, ev.oks)
  {}

  lemma UpperFlushesInsert(s: State, ok: bool, kind: Kind)
    requires UpperTable(s, kind)
    ensures UpperTable(DoFlushInsert(s, ok), kind)
  {
    hide Encodable, DroppedShocks, Orphans, IdRange, UpperTable;
    var batch := Encodable(s.insertBuf);
    if s.pc.Idle? && s.insertBuf != [] && batch != [] && ok {
      UpperGrows(s, DoFlushInsert(s, ok), batch, kind);
    } else {
      UpperSame(s, DoFlushInsert(s, ok), kind);
    }
  }

  lemma UpperSame(s: State, t: State, kind: Kind)
    requires UpperTable(s, kind) && t.log == s.log && t.table == s.table
    ensures UpperTable(t, kind)
  {}

  /** A step keeps the table upper for a kind if and only if it deletes the rows of that kind in order. */
  lemma UpperKeptIff(s: State, ev: Event, kind: Kind)
    requires Inv(s) && Order(s) && UpperTable(s, kind)
    ensures UpperTable(Apply(s, ev), kind) <==> DeletesInOrder(s, ev, kind)
  {
    hide Inv, Order, Apply, UpperTable, KindInOrder, SortDedup, DoFlushAck, DoFlushInsert, DoPumpPurge;
    TableSteps(s, ev);
    match ev
    case FlushInsert(ok) => UpperFlushesInsert(s, ok, kind);
    case PumpPurge(ok) => UpperPurges(s, ok, kind);
    case FlushAck(oks) =>
      if s.pc.Idle? {
        UpperFlushesAcksIff(s, oks, kind);
      } else {
        NothingToAck(s, oks);
      }
    case _ =>
      TableStays(s, ev);
      UpperSame(s, Apply(s, ev), kind);
  }

  /** The runs in which no ack pass deletes a row of the kind after an older one whose delete failed. */
  ghost predicate AllInOrder(s: State, evs: seq<Event>, kind: Kind) {
    forall k :: 0 <= k < |evs| ==> DeletesInOrder(Run(s, evs[..k]), evs[k], kind)
  }

  ghost predicate ReachedInOrder(s: State, kind: Kind) {
    exists alpha: bool, nextShock: int, evs: seq<Event> ::
      s == Run(Init(alpha, nextShock), evs) && AllInOrder(Init(alpha, nextShock), evs, kind)
  }

  lemma FrontInOrder(s: State, evs: seq<Event>, kind: Kind)
    requires AllInOrder(s, evs, kind) && evs != []
    ensures AllInOrder(s, evs[..|evs| - 1], kind)
    ensures DeletesInOrder(Run(s, evs[..|evs| - 1]), evs[|evs| - 1], kind)
  {
    hide Run, DeletesInOrder;
    var front := evs[..|evs| - 1];
    forall k | 0 <= k < |front| ensures DeletesInOrder(Run(s, front[..k]), front[k], kind) {
      assert front[..k] == evs[..k] && front[k] == evs[k];
    }
  }

  lemma {:induction false} UpperRun(alpha: bool, nextShock: int, evs: seq<Event>, kind: Kind)
    requires AllInOrder(Init(alpha, nextShock), evs, kind)
    ensures UpperTable(Run(Init(alpha, nextShock), evs), kind)
    decreases |evs|
  {
    hide Order, Inv, Apply, DeletesInOrder, Run, AllInOrder;
    var s := Init(alpha, nextShock);
    if evs == [] {
      NoStep(s);
    } else {
      var front := evs[..|evs| - 1];
      FrontInOrder(s, evs, kind);
      hide UpperTable, Init;
      UpperRun(alpha, nextShock, front, kind);
      InvRun(alpha, nextShock, front);
      OrderRun(alpha, nextShock, front);
      UpperKeptIff(Run(s, front), evs[|evs| - 1], kind);
      LastStep(s, evs);
    }
  }

  lemma NoStep(s: State)
    ensures Run(s, []) == s
  {
    hide Apply;
  }

  lemma LastStep(s: State, evs: seq<Event>)
    requires evs != []
    ensures Run(s, evs) == Apply(Run(s, evs[..|evs| - 1]), evs[|evs| - 1])
  {
    hide Apply;
  }

  /** A run keeps the table upper for a kind all along if and only if all its passes delete the rows of that
      kind in order. */
  lemma UpperThroughoutIff(alpha: bool, nextShock: int, evs: seq<Event>, kind: Kind)
    ensures (forall k :: 0 <= k <= |evs| ==> UpperTable(Run(Init(alpha, nextShock), evs[..k]), kind))
            <==> AllInOrder(Init(alpha, nextShock), evs, kind)
  {
    hide Order, Inv, Apply, DeletesInOrder, Run, UpperTable, Init;
    var s := Init(alpha, nextShock);
    if AllInOrder(s, evs, kind) {
      forall k | 0 <= k <= |evs| ensures UpperTable(Run(s, evs[..k]), kind) {
        forall q | 0 <= q < k ensures DeletesInOrder(Run(s, evs[..k][..q]), evs[..k][q], kind) {
          assert evs[..k][..q] == evs[..q];
        }
        UpperRun(alpha, nextShock, evs[..k], kind);
      }
    }
    if forall k :: 0 <= k <= |evs| ==> UpperTable(Run(s, evs[..k]), kind) {
      forall k | 0 <= k < |evs| ensures DeletesInOrder(Run(s, evs[..k]), evs[k], kind) {
        InvRun(alpha, nextShock, evs[..k]);
        OrderRun(alpha, nextShock, evs[..k]);
        UpperKeptIff(Run(s, evs[..k]), evs[k], kind);
        assert evs[..k + 1][..k] == evs[..k];
        LastStep(s, evs[..k + 1]);
        assert UpperTable(Run(s, evs[..k + 1]), kind);
      }
    }
  }

  /** In such a run, when a row of the kind has gone from the table, every older decodable one has gone. */
  lemma RowsGoInOrder(s: State, i: nat, j: nat)
    requires 1 <= i <= |s.log| && ReachedInOrder(s, s.log[i - 1].kind)
    requires i < j && SameKind(s.log, i, j) && Decodes(s.log, i) && Decodes(s.log, j)
    ensures i in s.table ==> j in s.table
  {
    hide Run, Init, AllInOrder;
    var kind := s.log[i - 1].kind;
    var alpha: bool, nextShock: int, evs: seq<Event> :|
      s == Run(Init(alpha, nextShock), evs) && AllInOrder(Init(alpha, nextShock), evs, kind);
    UpperRun(alpha, nextShock, evs, kind);
    if i in s.table {
      assert Older(s.log, s.table, i, j) && OfKind(s.log, kind, j);
    }
  }

  // ----- what comes again -----

  lemma HeldIsFetched(s: State, i: nat)
    requires Inv(s) && (i in s.pending || i in s.channel)
    ensures i in s.table && Decodes(s.log, i)
  {
    HasBufs(s);
    hide Gather, Shape, Durable, Ordered, PrefixCommit, Closed, Acked, Counted, Room, TxsSorted, ShocksKnown;
    AckIdsHeld(s.pending, s.channel, Buffered(s.bufs), s.acks, s.ackBuf);
    hide Held;
    assert i in Stages(s);
  }

  /** Row i of an earlier time has gone from the table and is not about to be sent. */
  ghost predicate Gone(s: State, i: nat) {
    1 <= i <= |s.log| && i !in s.table && i !in s.sent && i !in s.pending
  }

  lemma GoneStays(s: State, ev: Event, i: nat)
    requires Inv(s) && Inv(Apply(s, ev)) && Gone(s, i)
    ensures Gone(Apply(s, ev), i)
  {
    var t := Apply(s, ev);
    hide Inv, Apply, Gone;
    RowsNeverReturn(s, ev, i);
    SentWasPending(s, ev, i);
    if i in t.pending { HeldIsFetched(t, i); }
    StillGone(s, t, i);
  }

  lemma StillGone(s: State, t: State, i: nat)
    requires Gone(s, i) && i !in t.table && |s.log| <= |t.log| && i !in t.pending && (i in t.sent ==> i in s.sent || i in s.pending)
    ensures Gone(t, i)
  {}

  lemma RowsNeverReturn(s: State, ev: Event, i: nat)
    requires Inv(s) && Gone(s, i)
    ensures |s.log| <= |Apply(s, ev).log| && i !in Apply(s, ev).table
  {
    hide Inv, Gather, Encodable, DroppedShocks, Select, Decodable, SortDedup, Orphans, AckPass, NoBufs;
    match ev
    case FlushAck(oks) => FlushAckShrinks(s, oks);
    case _ =>
  }

  lemma SentWasPending(s: State, ev: Event, i: nat)
    requires Inv(s)
    ensures i in Apply(s, ev).sent ==> i in s.sent || i in s.pending
  {
    hide Inv, Gather, Encodable, DroppedShocks, Select, Decodable, SortDedup, Orphans, AckPass, NoBufs, IdRange;
    match ev
    case FlushAck(oks) => FlushAckShrinks(s, oks);
    case _ =>
  }

  lemma FlushAckShrinks(s: State, oks: seq<bool>)
    requires Inv(s)
    ensures var t := DoFlushAck(s, oks); t.table <= s.table && t.log == s.log && t.sent == s.sent && t.pending == s.pending
  {
    hide Inv, Gather, AckPass, SortDedup;
    if s.pc.Idle? && s.ackBuf != [] {
      FlushAckSpec(s, oks);
    }
  }

  lemma {:induction false} GoneForGood(s: State, evs: seq<Event>, i: nat)
    requires Inv(s) && Gone(s, i)
    ensures Gone(Run(s, evs), i)
    decreases |evs|
  {
    hide Inv, Apply, Gone;
    if evs != [] {
      var front := evs[..|evs| - 1];
      GoneForGood(s, front, i);
      KeepsRun(s, front);
      KeepsApply(Run(s, front), evs[|evs| - 1]);
      GoneStays(Run(s, front), evs[|evs| - 1], i);
    }
  }

  /** After a restart, of the rows logged before it only those still in the table are ever sent again,
      whatever happens. */
  lemma OnlyTableRowsComeAgain(s: State, nextShock: int, evs: seq<Event>, i: nat)
    requires Reachable(s) && 1 <= i <= |s.log|
    requires i in Run(Apply(s, Restart(nextShock)), evs).sent
    ensures i in s.table
  {
    hide Run, Inv;
    ReachableKeeps(s);
    KeepsRestart(s, nextShock);
    if i !in s.table {
      assert Gone(Apply(s, Restart(nextShock)), i);
      hide Apply;
      GoneForGood(Apply(s, Restart(nextShock)), evs, i);
    }
  }

  // ----- what has been committed -----

  ghost predicate CommitsTracked(s: State) {
    forall k, i :: 0 <= k < |s.txs| && i in s.txs[k] ==> Tracked(s.alpha, s.log, i)
  }

  lemma StatementsTracked(s: State)
    requires Inv(s) && Order(s)
    ensures |s.bufs| == SLOTS && forall i :: i in Statements(s.bufs) ==> Tracked(s.alpha, s.log, i)
  {
    BufferedPersisted(s);
    hide Shape, Durable, Ordered, PrefixCommit, Closed, Acked, Counted, Room, TxsSorted, ShocksKnown, Gather, Order, Persisted;
    AckIdsHeld(s.pending, s.channel, Buffered(s.bufs), s.acks, s.ackBuf);
    hide Held;
    forall i | i in Statements(s.bufs) ensures Tracked(s.alpha, s.log, i) {
      StatementsMembers(s.bufs, i);
      assert i in Stages(s);
    }
  }

  lemma BufferedPersisted(s: State)
    requires Order(s)
    ensures |s.bufs| == SLOTS
    ensures forall i :: i in Buffered(s.bufs) ==> 1 <= i <= |s.log| && Persisted(s.alpha, s.log[i - 1].kind)
  {
    hide Gather, Increasing, KindIncreasing, Persisted, Received, Lined;
  }

  lemma TrackedStays(alpha: bool, log: seq<Msg>, more: seq<Msg>, i: nat)
    requires log <= more && Tracked(alpha, log, i)
    ensures Tracked(alpha, more, i)
  {}

  /** The steps of the spooler change neither setting nor transactions, and only add to the log. */
  lemma SpoolerKeeps(s: State)
    ensures forall ok ::
              var t := DoFlushInsert(s, ok); t.alpha == s.alpha && t.txs == s.txs && s.log <= t.log
    ensures forall ok :: SameBase(s, DoPumpRows(s, ok)) && SameBase(s, DoPumpPurge(s, ok))
    ensures SameBase(s, DoPumpBegin(s)) && SameBase(s, DoTrySend(s)) && SameBase(s, DoAckReceive(s))
    ensures forall oks :: SameBase(s, DoFlushAck(s, oks))
  {
    hide Encodable, DroppedShocks, Select, Decodable, SortDedup, Orphans, AckPass, IdRange, Members;
  }

  ghost predicate SameBase(s: State, t: State) {
    t.alpha == s.alpha && t.txs == s.txs && t.log == s.log
  }

  lemma LogGrows(s: State, ev: Event)
    ensures s.log <= Apply(s, ev).log
  {
    SpoolerKeeps(s);
    hide DoFlushInsert, DoPumpBegin, DoTrySend, DoPumpRows, DoPumpPurge, DoAckReceive, DoFlushAck, NoBufs, Statements, Buffered;
    match ev
    case _ =>
  }

  lemma AlphaStays(s: State, ev: Event)
    ensures Apply(s, ev).alpha == s.alpha
  {
    SpoolerKeeps(s);
    hide DoFlushInsert, DoPumpBegin, DoTrySend, DoPumpRows, DoPumpPurge, DoAckReceive, DoFlushAck, NoBufs, Statements, Buffered;
    match ev
    case _ =>
  }

  /** Only a flush of the writer commits anything: all its buffers. */
  lemma TxsGrow(s: State, ev: Event)
    ensures Apply(s, ev).txs == s.txs
            || (ev.WriterFlush? && s.open && |s.bufs| == SLOTS && Apply(s, ev).txs == s.txs + [Statements(s.bufs)])
  {
    SpoolerKeeps(s);
    hide DoFlushInsert, DoPumpBegin, DoTrySend, DoPumpRows, DoPumpPurge, DoAckReceive, DoFlushAck, NoBufs, Statements, Buffered;
    match ev
    case _ =>
  }

  lemma CommitsTrackedStep(s: State, ev: Event)
    requires Inv(s) && Order(s) && CommitsTracked(s)
    ensures CommitsTracked(Apply(s, ev))
  {
    hide Inv, Order, Apply, Tracked, Statements;
    LogGrows(s, ev);
    AlphaStays(s, ev);
    TxsGrow(s, ev);
    StatementsTracked(s);
    var t := Apply(s, ev);
    forall k, i | 0 <= k < |t.txs| && i in t.txs[k] ensures Tracked(t.alpha, t.log, i) {
      TrackedStays(s.alpha, s.log, t.log, i);
    }
  }

  lemma {:induction false} CommitsTrackedRun(alpha: bool, nextShock: int, evs: seq<Event>)
    ensures CommitsTracked(Run(Init(alpha, nextShock), evs))
    decreases |evs|
  {
    hide Inv, Order, Apply, Run, Tracked;
    var s := Init(alpha, nextShock);
    if evs == [] {
      NoStep(s);
    } else {
      var front := evs[..|evs| - 1];
      hide CommitsTracked, Init;
      CommitsTrackedRun(alpha, nextShock, front);
      InvRun(alpha, nextShock, front);
      OrderRun(alpha, nextShock, front);
      CommitsTrackedStep(Run(s, front), evs[|evs| - 1]);
      LastStep(s, evs);
    }
  }

  /** Every committed row can be decoded and is of a kind that the writer writes. */
  lemma CommittedTracked(s: State, i: nat)
    requires Reachable(s) && Committed(s.txs, i)
    ensures Tracked(s.alpha, s.log, i)
  {
    hide Run, Apply, Init, Tracked;
    var alpha: bool, nextShock: int, evs: seq<Event> :| s == Run(Init(alpha, nextShock), evs);
    CommitsTrackedRun(alpha, nextShock, evs);
  }

  /** With capture off only these seven kinds are ever written, and their rows are acked only once written. */
  lemma CaptureOffWritesSeven(s: State, i: nat)
    requires Reachable(s) && !s.alpha && 1 <= i <= |s.log|
    ensures var seven := {ClockOffset, Registry, Override, Health, Chain, Audit, CancelSnapshot};
            && (Committed(s.txs, i) ==> s.log[i - 1].kind in seven)
            && ((i in s.acks || i in s.ackBuf) && s.log[i - 1].kind in seven ==> Committed(s.txs, i))
  {
    SevenWithoutCapture(s.log[i - 1].kind);
    if Committed(s.txs, i) {
      CommittedTracked(s, i);
    }
    if i in s.acks || i in s.ackBuf {
      AckedIsCommitted(s, i);
    }
  }

  lemma SevenWithoutCapture(kind: Kind)
    ensures Persisted(true, kind)
    ensures Persisted(false, kind) <==> kind in {ClockOffset, Registry, Override, Health, Chain, Audit, CancelSnapshot}
  {}

  /** Of the kinds that are written, an acked row has been committed. */
  lemma AckedIsCommitted(s: State, i: nat)
    requires Reachable(s) && (i in s.acks || i in s.ackBuf)
    ensures 1 <= i <= |s.log| && (Persisted(s.alpha, s.log[i - 1].kind) ==> Committed(s.txs, i))
  {
    hide Run, Init, Persisted, Committed;
    ReachableKeeps(s);
    hide Reachable;
    HasBufs(s);
    AcksAreFetched(s);
    hide Gather, Shape, Durable, Ordered, PrefixCommit, Closed, Counted, Room, TxsSorted, ShocksKnown;
    AckIdsHeld(s.pending, s.channel, Buffered(s.bufs), s.acks, s.ackBuf);
    hide Held;
    assert i in s.acks + s.ackBuf;
    assert i in Stages(s);
  }
}
