/** What every run of the pipeline keeps, with failing database calls, a dying writer and restarts
    in any place. */
module SpoolSafety {
  import opened SpoolModel

  // ----- statements -----

  /** Row `id` is one that the writer writes: it can be decoded and its kind is persisted. */
  ghost predicate Tracked(alpha: bool, log: seq<Msg>, id: nat) {
    Decodes(log, id) && Persisted(alpha, log[id - 1].kind)
  }

  ghost predicate Committed(txs: seq<seq<nat>>, id: nat) {
    exists k :: 0 <= k < |txs| && id in txs[k]
  }

  ghost predicate Settled(txs: seq<seq<nat>>, buffered: seq<nat>, id: nat) {
    id in buffered || Committed(txs, id)
  }

  ghost predicate Closed(alpha: bool, log: seq<Msg>, txs: seq<seq<nat>>, buffered: seq<nat>) {
    forall i: nat, j: nat | i < j && Settled(txs, buffered, j) && Tracked(alpha, log, i) :: Settled(txs, buffered, i)
  }

  /** The ids held by the spooler's send queue, the channel, the writer and the two ack stages. */
  ghost function Stages(s: State): multiset<nat>
    requires |s.bufs| == SLOTS
  {
    Held(s.pending, s.channel, Buffered(s.bufs), s.acks, s.ackBuf)
  }

  ghost function Held(pending: seq<nat>, channel: seq<nat>, buffered: seq<nat>, acks: seq<nat>, ackBuf: seq<nat>): multiset<nat> {
    multiset(pending) + multiset(channel) + multiset(buffered) + multiset(acks) + multiset(ackBuf)
  }

  ghost predicate Fetched(log: seq<Msg>, table: set<nat>, lastSent: nat, id: nat) {
    id in table && id <= lastSent && Decodes(log, id)
  }

  // ----- the invariant, one predicate a concern -----

  ghost predicate Shape(log: seq<Msg>, table: set<nat>, lastSent: nat, bufs: seq<seq<nat>>) {
    && lastSent <= |log|
    && (forall i :: i in table ==> 1 <= i <= |log|)
    && |bufs| == SLOTS
    && (forall k, i :: 0 <= k < SLOTS && i in bufs[k] ==> 1 <= i <= |log| && Slot(log[i - 1].kind) == k)
  }

  ghost predicate Durable(alpha: bool, log: seq<Msg>, table: set<nat>, txs: seq<seq<nat>>) {
    forall i: nat | Tracked(alpha, log, i) :: i in table || Committed(txs, i)
  }

  ghost predicate Ordered(sent: seq<nat>, pending: seq<nat>, channel: seq<nat>, lastSent: nat) {
    && Increasing(sent + pending)
    && (forall i :: i in sent + pending ==> i <= lastSent)
    && |channel| <= |sent|
    && channel == sent[|sent| - |channel|..]
  }

  ghost predicate PrefixCommit(alpha: bool, log: seq<Msg>, txs: seq<seq<nat>>) {
    forall k | 0 <= k <= |txs| :: Closed(alpha, log, txs[..k], [])
  }

  ghost predicate Acked(alpha: bool, log: seq<Msg>, txs: seq<seq<nat>>, acks: seq<nat>, ackBuf: seq<nat>) {
    forall i | i in acks + ackBuf :: Tracked(alpha, log, i) ==> Committed(txs, i)
  }

  ghost predicate Partition(open: bool, log: seq<Msg>, table: set<nat>, lastSent: nat, stages: multiset<nat>) {
    && (forall i :: stages[i] <= 1)
    && (forall i :: i in stages ==> Fetched(log, table, lastSent, i))
    && (open ==> forall i :: Fetched(log, table, lastSent, i) ==> i in stages)
  }

  ghost predicate Counted(s: State)
    requires |s.bufs| == SLOTS
  {
    && s.inMem == |s.insertBuf|
    && s.diskPending == |s.table|
    && (if s.open then s.inFlight == |s.channel| + |Buffered(s.bufs)| + |s.acks| else s.inFlight >= |s.acks|)
  }

  ghost predicate Room(s: State) {
    && !s.hitFull
    && |s.channel| <= WRITER_CAPACITY
    && (s.pc.Purge? ==> forall i :: i in s.pc.bad ==> !Decodes(s.log, i) && 1 <= i <= s.lastSent)
    && (s.open ==>
          match s.pc
          case Idle => s.pending == []
          case Drain => s.pending == []
          case Fetch(limit) => s.pending == [] && |s.channel| + limit <= WRITER_CAPACITY
          case Purge(bad) => |s.channel| + |s.pending| <= WRITER_CAPACITY
          case Send => |s.channel| + |s.pending| <= WRITER_CAPACITY)
  }

  ghost predicate RankSorted(log: seq<Msg>, tx: seq<nat>) {
    && (forall a :: 0 <= a < |tx| ==> 1 <= tx[a] <= |log|)
    && (forall a, b :: 0 <= a < b < |tx| ==> TxRank(log[tx[a] - 1].kind) <= TxRank(log[tx[b] - 1].kind))
  }

  ghost predicate TxsSorted(log: seq<Msg>, txs: seq<seq<nat>>) {
    forall k :: 0 <= k < |txs| ==> RankSorted(log, txs[k])
  }

  ghost function ShockIds(msgs: seq<Msg>): set<int> {
    set m | m in msgs && m.kind.Shock? :: m.shockId
  }

  /** Every update in `msgs` comes after an event of the same shock, or that shock is in `known`, or its row
      is exempt. */
  ghost predicate Causal(msgs: seq<Msg>, known: set<int>, exempt: set<nat>) {
    forall p :: 0 <= p < |msgs| && msgs[p].kind.ShockUpdate? && p + 1 !in exempt ==>
                  msgs[p].shockId in known + ShockIds(msgs[..p])
  }

  ghost predicate UpTo(ids: set<nat>, n: nat) {
    forall i :: i in ids ==> 1 <= i <= n
  }

  /** Messages from the table on to the ingest channel, oldest first. */
  ghost function Stream(log: seq<Msg>, insertBuf: seq<Msg>, ingest: seq<Msg>): seq<Msg> {
    log + insertBuf + ingest
  }

  /** `lost` are the shocks of this process whose event could not be serialised, `orphans` the rows of
      their updates. */
  ghost predicate ShocksKnown(alpha: bool, log: seq<Msg>, stream: seq<Msg>, shocks: map<int, int>, lost: set<int>, orphans: set<nat>) {
    && UpTo(orphans, |log|)
    && (alpha ==>
          && Causal(log, {}, orphans) && Causal(stream, lost, orphans)
          && forall key :: key in shocks ==> shocks[key] in lost + ShockIds(stream))
  }

  ghost predicate Inv(s: State) {
    && Shape(s.log, s.table, s.lastSent, s.bufs)
    && Durable(s.alpha, s.log, s.table, s.txs)
    && Ordered(s.sent, s.pending, s.channel, s.lastSent)
    && PrefixCommit(s.alpha, s.log, s.txs)
    && (s.open ==> Closed(s.alpha, s.log, s.txs, Buffered(s.bufs)))
    && Acked(s.alpha, s.log, s.txs, s.acks, s.ackBuf)
    && Partition(s.open, s.log, s.table, s.lastSent, Stages(s))
    && Counted(s)
    && Room(s)
    && TxsSorted(s.log, s.txs)
    && ShocksKnown(s.alpha, s.log, Stream(s.log, s.insertBuf, s.ingest), s.shocks, s.lost, s.orphans)
  }

  // ----- sequences -----

  lemma IncreasingConcat(a: seq<nat>, b: seq<nat>)
    requires Increasing(a) && Increasing(b)
    requires forall x, y :: x in a && y in b ==> x < y
    ensures Increasing(a + b)
  {
    var c := a + b;
    forall p, q | 0 <= p < q < |c| ensures c[p] < c[q] {
      if p < |a| <= q {
        assert c[p] in a && c[q] == b[q - |a|] && c[q] in b;
      } else if |a| <= p {
        assert c[p] == b[p - |a|] && c[q] == b[q - |a|];
      }
    }
  }

  /** Every member of one part of an increasing sequence is below every member of a later part. */
  lemma IncreasingSplit(a: seq<nat>, b: seq<nat>)
    requires Increasing(a + b)
    ensures Increasing(a) && Increasing(b)
    ensures forall x, y :: x in a && y in b ==> x < y
  {
    var c := a + b;
    forall x, y | x in a && y in b ensures x < y {
      var p :| 0 <= p < |a| && a[p] == x;
      var q :| 0 <= q < |b| && b[q] == y;
      assert c[p] < c[q + |a|];
    }
    forall p, q | 0 <= p < q < |a| ensures a[p] < a[q] {
      assert c[p] < c[q];
    }
    forall p, q | 0 <= p < q < |b| ensures b[p] < b[q] {
      assert c[p + |a|] < c[q + |a|];
    }
  }

  lemma RankConcat(log: seq<Msg>, a: seq<nat>, b: seq<nat>, r: nat)
    requires forall i :: i in a ==> 1 <= i <= |log| && TxRank(log[i - 1].kind) == r
    requires RankSorted(log, b)
    requires forall i :: i in b ==> 1 <= i <= |log| && r <= TxRank(log[i - 1].kind)
    ensures RankSorted(log, a + b)
  {
    var c := a + b;
    forall p | 0 <= p < |c| ensures 1 <= c[p] <= |log| && r <= TxRank(log[c[p] - 1].kind) {
      if p < |a| {
        assert c[p] in a;
      } else {
        assert c[p] == b[p - |a|] && c[p] in b;
      }
    }
    forall p, q | 0 <= p < q < |c| ensures TxRank(log[c[p] - 1].kind) <= TxRank(log[c[q] - 1].kind) {
      if p < |a| {
        assert c[p] in a;
      } else {
        assert c[p] == b[p - |a|] && c[q] == b[q - |a|];
      }
    }
  }

  lemma {:induction false} SelectSpec(table: set<nat>, from: nat, top: nat, limit: nat)
    ensures var rows := Select(table, from, top, limit);
            && |rows| <= limit
            && Increasing(rows)
            && (forall i :: i in rows ==> i in table && from < i <= top)
            && (rows == [] && limit > 0 ==> forall i :: i in table ==> !(from < i <= top))
            && (rows != [] ==> forall i :: i in table && from < i <= rows[|rows| - 1] ==> i in rows)
            && (|rows| < limit ==> forall i :: i in table && from < i <= top ==> i in rows)
    decreases top - from
  {
    if limit != 0 && from < top {
      if from + 1 in table {
        SelectSpec(table, from + 1, top, limit - 1);
        var rest := Select(table, from + 1, top, limit - 1);
        var rows := [from + 1] + rest;
        assert forall i :: i in rows <==> i == from + 1 || i in rest;
        IncreasingConcat([from + 1], rest);
        hide Increasing;
        assert Select(table, from, top, limit) == rows;
        hide Select;
      } else {
        SelectSpec(table, from + 1, top, limit);
      }
    }
  }

  lemma {:induction false} IncreasingCounts(ids: seq<nat>)
    requires Increasing(ids)
    ensures forall i :: multiset(ids)[i] == if i in ids then 1 else 0
    decreases |ids|
  {
    if ids != [] {
      var front := ids[..|ids| - 1];
      IncreasingCounts(front);
      assert ids == front + [ids[|ids| - 1]];
    }
  }

  /** Increasing ids, few enough for their bound: a set enumerated in full. */
  lemma {:induction false} IncreasingShort(ids: seq<nat>, top: nat)
    requires Increasing(ids)
    requires forall i :: i in ids ==> 1 <= i <= top
    ensures |ids| <= top
    decreases |ids|
  {
    if ids != [] {
      var front := ids[..|ids| - 1];
      var last := ids[|ids| - 1];
      assert last in ids;
      forall i | i in front ensures 1 <= i <= last - 1 {
        var a :| 0 <= a < |front| && front[a] == i;
        assert ids[a] < last;
        assert i in ids;
      }
      IncreasingShort(front, last - 1);
    }
  }

  lemma SelectAll(table: set<nat>, top: nat)
    requires forall i :: i in table ==> 1 <= i <= top
    ensures var rows := Select(table, 0, top, top); Increasing(rows) && forall i :: i in rows <==> i in table
  {
    SelectSpec(table, 0, top, top);
    var rows := Select(table, 0, top, top);
    if |rows| == top && top > 0 {
      forall i | 1 <= i <= top ensures i in rows {
        IncreasingDense(rows, i);
      }
    }
  }

  lemma SortDedupSpec(ids: seq<nat>, top: nat)
    requires forall i :: i in ids ==> 1 <= i <= top
    ensures Increasing(SortDedup(ids, top))
    ensures forall i :: i in SortDedup(ids, top) <==> i in ids
  {
    SelectAll(Members(ids), top);
  }

  lemma {:induction false} IncreasingDense(rows: seq<nat>, i: nat)
    requires Increasing(rows)
    requires forall x :: x in rows ==> 1 <= x <= |rows|
    requires 1 <= i <= |rows|
    ensures rows[i - 1] == i
    decreases |rows|
  {
    var n := |rows|;
    var front := rows[..n - 1];
    forall x | x in front ensures 1 <= x <= n - 1 {
      var a :| 0 <= a < |front| && front[a] == x;
      assert rows[a] < rows[n - 1];
      assert rows[n - 1] in rows;
      assert x in rows;
    }
    if i < n {
      IncreasingDense(front, i);
    } else {
      assert rows[n - 1] in rows;
      IncreasingShort(rows, rows[n - 1]);
    }
  }

  lemma {:induction false} DecodableSpec(rows: seq<nat>, log: seq<Msg>, decodes: bool)
    requires Increasing(rows)
    ensures var kept := Decodable(rows, log, decodes);
            && |kept| <= |rows|
            && Increasing(kept)
            && (forall i :: i in kept <==> i in rows && Decodes(log, i) == decodes)
    decreases |rows|
  {
    if rows != [] {
      DecodableSpec(rows[1..], log, decodes);
      assert rows == [rows[0]] + rows[1..];
      IncreasingSplit([rows[0]], rows[1..]);
      if Decodes(log, rows[0]) == decodes {
        IncreasingConcat([rows[0]], Decodable(rows[1..], log, decodes));
      }
    }
  }

  lemma GatherPush(bufs: seq<seq<nat>>, inTxOrder: bool, r: nat, k: nat, id: nat)
    requires |bufs| == SLOTS && r <= SLOTS && k < SLOTS
    ensures multiset(Gather(bufs[k := bufs[k] + [id]], inTxOrder, r))
            == multiset(Gather(bufs, inTxOrder, r)) + if r <= PlaceOf(inTxOrder, k) then multiset{id} else multiset{}
  {
    GatherPushed(bufs, bufs[k := bufs[k] + [id]], inTxOrder, r, k, id);
  }

  lemma {:induction false} GatherPushed(bufs: seq<seq<nat>>, more: seq<seq<nat>>, inTxOrder: bool, r: nat, k: nat, id: nat)
    requires |bufs| == SLOTS && r <= SLOTS && k < SLOTS && more == bufs[k := bufs[k] + [id]]
    ensures multiset(Gather(more, inTxOrder, r))
            == multiset(Gather(bufs, inTxOrder, r)) + Once(id, r <= PlaceOf(inTxOrder, k))
    decreases SLOTS - r
  {
    hide Place, PlaceOf, Once, Gather;
    if r < SLOTS {
      GatherPushed(bufs, more, inTxOrder, r + 1, k, id);
      GatherUnfold(bufs, inTxOrder, r);
      GatherUnfold(more, inTxOrder, r);
      var slot := Place(inTxOrder, r);
      assert slot == k <==> r == PlaceOf(inTxOrder, k);
      PushSlot(bufs, more, slot, k, id);
      PushSum(multiset(bufs[slot]), multiset(more[slot]), multiset(Gather(bufs, inTxOrder, r + 1)),
              multiset(Gather(more, inTxOrder, r + 1)), id, slot == k, r + 1 <= PlaceOf(inTxOrder, k));
    } else {
      assert PlaceOf(inTxOrder, k) < r;
      GatherEnd(bufs, more, inTxOrder);
      NotOnce(id);
    }
  }

  lemma GatherEnd(bufs: seq<seq<nat>>, more: seq<seq<nat>>, inTxOrder: bool)
    requires |bufs| == SLOTS && |more| == SLOTS
    ensures Gather(bufs, inTxOrder, SLOTS) == Gather(more, inTxOrder, SLOTS) == []
  {}

  lemma NotOnce(id: nat)
    ensures Once(id, false) == multiset{}
  {}

  function Once(id: nat, here: bool): multiset<nat> {
    if here then multiset{id} else multiset{}
  }

  lemma PushSlot(bufs: seq<seq<nat>>, more: seq<seq<nat>>, slot: nat, k: nat, id: nat)
    requires slot < |bufs| && k < |bufs| && more == bufs[k := bufs[k] + [id]]
    ensures multiset(more[slot]) == multiset(bufs[slot]) + Once(id, slot == k)
  {}

  lemma PushSum(x: multiset<nat>, x': multiset<nat>, y: multiset<nat>, y': multiset<nat>, id: nat, here: bool, later: bool)
    requires x' == x + Once(id, here) && y' == y + Once(id, later) && !(here && later)
    ensures x' + y' == x + y + Once(id, here || later)
  {}

  lemma GatherUnfold(bufs: seq<seq<nat>>, inTxOrder: bool, r: nat)
    requires |bufs| == SLOTS && r < SLOTS
    ensures Gather(bufs, inTxOrder, r) == bufs[Place(inTxOrder, r)] + Gather(bufs, inTxOrder, r + 1)
    ensures multiset(Gather(bufs, inTxOrder, r)) == multiset(bufs[Place(inTxOrder, r)]) + multiset(Gather(bufs, inTxOrder, r + 1))
  {}

  lemma {:induction false} GatherEmpty(inTxOrder: bool, r: nat)
    requires r <= SLOTS
    ensures Gather(NoBufs(), inTxOrder, r) == []
    decreases SLOTS - r
  {
    if r < SLOTS {
      GatherEmpty(inTxOrder, r + 1);
    }
  }

  lemma {:induction false} GatherMembers(bufs: seq<seq<nat>>, inTxOrder: bool, r: nat, id: nat)
    requires |bufs| == SLOTS && r <= SLOTS
    ensures id in Gather(bufs, inTxOrder, r)
            <==> exists q :: r <= q < SLOTS && id in bufs[Place(inTxOrder, q)]
    decreases SLOTS - r
  {
    if r < SLOTS {
      GatherMembers(bufs, inTxOrder, r + 1, id);
      if id in bufs[Place(inTxOrder, r)] {
        assert id in Gather(bufs, inTxOrder, r);
      }
    }
  }

  /** The transaction and the acks cover the same ids. */
  lemma StatementsMembers(bufs: seq<seq<nat>>, id: nat)
    requires |bufs| == SLOTS
    ensures id in Statements(bufs) <==> id in Buffered(bufs)
  {
    GatherMembers(bufs, true, 0, id);
    GatherMembers(bufs, false, 0, id);
    if id in Buffered(bufs) {
      var k :| 0 <= k < SLOTS && id in bufs[Place(false, k)];
      assert Place(true, PlaceOf(true, k)) == k;
    }
    if id in Statements(bufs) {
      var q :| 0 <= q < SLOTS && id in bufs[Place(true, q)];
      assert Place(false, Place(true, q)) == Place(true, q);
    }
  }

  lemma {:induction false} GatherRankAtLeast(log: seq<Msg>, bufs: seq<seq<nat>>, r: nat)
    requires Shape(log, {}, 0, bufs) && r <= SLOTS
    ensures forall i :: i in Gather(bufs, true, r) ==> 1 <= i <= |log| && r <= TxRank(log[i - 1].kind)
    decreases SLOTS - r
  {
    if r < SLOTS {
      GatherRankAtLeast(log, bufs, r + 1);
      SlotRank(log, bufs, r);
    }
  }

  lemma SlotRank(log: seq<Msg>, bufs: seq<seq<nat>>, r: nat)
    requires Shape(log, {}, 0, bufs) && r < SLOTS
    ensures forall i :: i in bufs[Place(true, r)] ==> 1 <= i <= |log| && TxRank(log[i - 1].kind) == r
  {
    forall i | i in bufs[Place(true, r)] ensures 1 <= i <= |log| && TxRank(log[i - 1].kind) == r {
      assert Slot(log[i - 1].kind) == Place(true, r);
    }
  }

  lemma {:induction false} GatherRanks(log: seq<Msg>, bufs: seq<seq<nat>>, r: nat)
    requires Shape(log, {}, 0, bufs) && r <= SLOTS
    ensures RankSorted(log, Gather(bufs, true, r))
    decreases SLOTS - r
  {
    if r < SLOTS {
      GatherRanks(log, bufs, r + 1);
      SlotRank(log, bufs, r);
      GatherRankAtLeast(log, bufs, r + 1);
      hide Shape, Place, PlaceOf, TxRank, RankSorted;
      RankConcat(log, bufs[Place(true, r)], Gather(bufs, true, r + 1), r);
    }
  }

  /** What a pass over `ids` may do. */
  ghost predicate PassWell(ids: seq<nat>, table: set<nat>, r: AckResult) {
    && r.table <= table
    && r.deleted == |table| - |r.table|
    && (forall i :: i in table && i !in ids ==> i in r.table)
    && Increasing(r.remaining)
    && (forall i :: i in r.remaining <==> i in ids && i in r.table)
  }

  lemma ChunkGoes(head: seq<nat>, tail: seq<nat>, table: set<nat>, r: AckResult)
    requires PassWell(tail, table - Members(head), r)
    requires forall i :: i in head ==> i in table && i !in tail
    ensures PassWell(head + tail, table, AckResult(r.remaining, r.table, |table * Members(head)| + r.deleted))
  {
    hide Increasing;
    var chunk := Members(head);
    assert table * chunk == chunk && (table - chunk) + chunk == table;
  }

  lemma ChunkStays(head: seq<nat>, tail: seq<nat>, table: set<nat>, r: AckResult)
    requires PassWell(tail, table, r) && Increasing(head + tail)
    requires forall i :: i in head ==> i in table && i !in tail
    ensures PassWell(head + tail, table, AckResult(head + r.remaining, r.table, r.deleted))
  {
    IncreasingSplit(head, tail);
    IncreasingConcat(head, r.remaining);
    hide Increasing;
  }

  /** The first chunk of a pass, and the rest. */
  lemma PassStep(ids: seq<nat>, table: set<nat>, oks: seq<bool>)
    requires ids != [] && ids[0] in table
    ensures var n := if |ids| < ACK_BATCH then |ids| else ACK_BATCH;
            var chunk, ok := Members(ids[..n]), oks != [] && oks[0];
            var rest := AckPass(ids[n..], if ok then table - chunk else table, if oks == [] then [] else oks[1..]);
            AckPass(ids, table, oks)
            == if ok then AckResult(rest.remaining, rest.table, |table * chunk| + rest.deleted)
               else AckResult(ids[..n] + rest.remaining, rest.table, rest.deleted)
  {
    var n := if |ids| < ACK_BATCH then |ids| else ACK_BATCH;
    assert ids[..n][0] in table * Members(ids[..n]);
    var rest := AckPass(ids[n..], table - Members(ids[..n]), if oks == [] then [] else oks[1..]);
    assert [] + rest.remaining == rest.remaining;
  }

  lemma {:induction false} PassIsWell(ids: seq<nat>, table: set<nat>, oks: seq<bool>)
    requires Increasing(ids) && forall i :: i in ids ==> i in table
    ensures PassWell(ids, table, AckPass(ids, table, oks))
    decreases |ids|
  {
    hide AckPass, Increasing, PassWell, Members;
    if ids == [] {
      EmptyPass(table, oks);
    } else {
      PassStep(ids, table, oks);
      var n := if |ids| < ACK_BATCH then |ids| else ACK_BATCH;
      var head, tail := ids[..n], ids[n..];
      assert ids == head + tail;
      IncreasingSplit(head, tail);
      var ok := oks != [] && oks[0];
      var left := if ok then table - Members(head) else table;
      TailStays(head, tail, table);
      PassIsWell(tail, left, if oks == [] then [] else oks[1..]);
      if ok {
        ChunkGoes(head, tail, table, AckPass(tail, left, if oks == [] then [] else oks[1..]));
      } else {
        ChunkStays(head, tail, table, AckPass(tail, left, if oks == [] then [] else oks[1..]));
      }
    }
  }

  lemma EmptyPass(table: set<nat>, oks: seq<bool>)
    ensures PassWell([], table, AckPass([], table, oks))
  {}

  lemma TailStays(head: seq<nat>, tail: seq<nat>, table: set<nat>)
    requires forall i :: i in tail ==> i in table && i !in head
    ensures forall i :: i in tail ==> i in table - Members(head)
  {}

  lemma AckPassSpec(ids: seq<nat>, table: set<nat>, oks: seq<bool>)
    requires Increasing(ids) && forall i :: i in ids ==> i in table
    ensures var r := AckPass(ids, table, oks);
            && r.table <= table
            && r.deleted == |table| - |r.table|
            && (forall i :: i in table && i !in ids ==> i in r.table)
            && Increasing(r.remaining)
            && (forall i :: i in r.remaining <==> i in ids && i in r.table)
  {
    PassIsWell(ids, table, oks);
    hide AckPass, Increasing;
  }

  lemma CommittedGrows(txs: seq<seq<nat>>, tx: seq<nat>, id: nat)
    ensures Committed(txs + [tx], id) <==> Committed(txs, id) || id in tx
  {
    var more := txs + [tx];
    assert forall k :: 0 <= k < |txs| ==> more[k] == txs[k];
    assert more[|txs|] == tx;
    if Committed(txs, id) {
      var k :| 0 <= k < |txs| && id in txs[k];
      assert id in more[k];
    }
  }

  lemma CommitSettles(txs: seq<seq<nat>>, bufs: seq<seq<nat>>, id: nat)
    requires |bufs| == SLOTS
    ensures var more := txs + [Statements(bufs)];
            && (Settled(more, [], id) <==> Settled(txs, Buffered(bufs), id))
            && (Settled(more, Buffered(bufs), id) <==> Settled(txs, Buffered(bufs), id))
  {
    hide Gather;
    CommittedGrows(txs, Statements(bufs), id);
    StatementsMembers(bufs, id);
  }

  lemma CommitKeepsPrefixes(alpha: bool, log: seq<Msg>, txs: seq<seq<nat>>, bufs: seq<seq<nat>>)
    requires |bufs| == SLOTS
    requires PrefixCommit(alpha, log, txs) && Closed(alpha, log, txs, Buffered(bufs))
    ensures var more := txs + [Statements(bufs)];
            && PrefixCommit(alpha, log, more)
            && Closed(alpha, log, more, Buffered(bufs))
            && Closed(alpha, log, more, [])
  {
    hide Gather, Settled, Tracked;
    var more := txs + [Statements(bufs)];
    forall id: nat
      ensures Settled(more, [], id) <==> Settled(txs, Buffered(bufs), id)
      ensures Settled(more, Buffered(bufs), id) <==> Settled(txs, Buffered(bufs), id)
    {
      CommitSettles(txs, bufs, id);
    }
    assert Closed(alpha, log, more, []) && Closed(alpha, log, more, Buffered(bufs));
    hide Closed;
    assert more[..|more|] == more;
    forall k | 0 <= k <= |more| ensures Closed(alpha, log, more[..k], []) {
      if k <= |txs| {
        assert more[..k] == txs[..k];
      }
    }
  }

  // ----- shocks -----

  lemma CausalAppend(msgs: seq<Msg>, m: Msg, known: set<int>, exempt: set<nat>)
    requires Causal(msgs, known, exempt) && UpTo(exempt, |msgs|)
    requires m.kind.ShockUpdate? ==> m.shockId in known + ShockIds(msgs)
    ensures Causal(msgs + [m], known, exempt)
    ensures ShockIds(msgs + [m]) == ShockIds(msgs) + if m.kind.Shock? then {m.shockId} else {}
  {
    var more := msgs + [m];
    forall p | 0 <= p < |more| && more[p].kind.ShockUpdate? && p + 1 !in exempt ensures more[p].shockId in known + ShockIds(more[..p]) {
      assert p < |msgs| ==> more[..p] == msgs[..p];
      assert p == |msgs| ==> more[..p] == msgs;
    }
  }

  lemma CausalDrop(pre: seq<Msg>, m: Msg, post: seq<Msg>, known: set<int>, exempt: set<nat>)
    requires Causal(pre + [m] + post, known, exempt) && UpTo(exempt, |pre|)
    ensures Causal(pre + post, known + (if m.kind.Shock? then {m.shockId} else {}), exempt)
  {
    var long, short := pre + [m] + post, pre + post;
    var gone: set<int> := if m.kind.Shock? then {m.shockId} else {};
    forall p | 0 <= p < |short| && short[p].kind.ShockUpdate? && p + 1 !in exempt
      ensures short[p].shockId in known + gone + ShockIds(short[..p])
    {
      if p < |pre| {
        assert long[p] == short[p] && long[..p] == short[..p];
      } else {
        assert long[p + 1] == short[p];
        assert long[..p + 1] == pre + [m] + post[..p - |pre|];
        assert short[..p] == pre + post[..p - |pre|];
        assert ShockIds(long[..p + 1]) <= ShockIds(short[..p]) + gone;
      }
    }
  }

  lemma {:induction false} CausalFilter(pre: seq<Msg>, buf: seq<Msg>, post: seq<Msg>, known: set<int>, exempt: set<nat>)
    requires Causal(Stream(pre, buf, post), known, exempt) && UpTo(exempt, |pre|)
    ensures Causal(Stream(pre, Encodable(buf), post), known + DroppedShocks(buf), exempt)
    ensures ShockIds(Stream(pre, buf, post)) <= ShockIds(Stream(pre, Encodable(buf), post)) + DroppedShocks(buf)
    decreases |buf|, 1
  {
    if buf == [] {
      assert known + DroppedShocks(buf) == known;
    } else if buf[0].encodes {
      CausalFilter(pre + [buf[0]], buf[1..], post, known, exempt) by { Regroup(pre, buf[0], buf[1..], post); assert buf == [buf[0]] + buf[1..]; }
      Regroup(pre, buf[0], Encodable(buf[1..]), post);
      Regroup(pre, buf[0], buf[1..], post);
      assert buf == [buf[0]] + buf[1..];
      assert DroppedShocks(buf) == DroppedShocks(buf[1..]);
      hide Causal, ShockIds, Stream, DroppedShocks;
    } else {
      CausalFilterDrop(pre, buf, post, known, exempt);
    }
  }

  lemma Regroup(pre: seq<Msg>, m: Msg, buf: seq<Msg>, post: seq<Msg>)
    ensures Stream(pre, [m] + buf, post) == Stream(pre + [m], buf, post) == pre + [m] + (buf + post)
    ensures Stream(pre, buf, post) == pre + (buf + post)
  {}

  lemma {:induction false} CausalFilterDrop(pre: seq<Msg>, buf: seq<Msg>, post: seq<Msg>, known: set<int>, exempt: set<nat>)
    requires buf != [] && !buf[0].encodes && Causal(Stream(pre, buf, post), known, exempt) && UpTo(exempt, |pre|)
    ensures Causal(Stream(pre, Encodable(buf), post), known + DroppedShocks(buf), exempt)
    ensures ShockIds(Stream(pre, buf, post)) <= ShockIds(Stream(pre, Encodable(buf), post)) + DroppedShocks(buf)
    decreases |buf|, 0
  {
    var head, tail := buf[0], buf[1..];
    var gone: set<int> := if head.kind.Shock? then {head.shockId} else {};
    assert buf == [head] + tail;
    Regroup(pre, head, tail, post);
    CausalDrop(pre, head, tail + post, known, exempt);
    hide Stream, Causal;
    CausalFilter(pre, tail, post, known + gone, exempt);
    assert Encodable(buf) == [] + Encodable(tail) == Encodable(tail);
    assert DroppedShocks(buf) == gone + DroppedShocks(tail);
    assert known + DroppedShocks(buf) == known + gone + DroppedShocks(tail);
    hide DroppedShocks;
    assert ShockIds(pre + [head] + (tail + post)) <= ShockIds(pre + (tail + post)) + gone;
  }

  lemma CausalPrefix(msgs: seq<Msg>, n: nat, known: set<int>, exempt: set<nat>)
    requires Causal(msgs, known, exempt) && n <= |msgs|
    ensures Causal(msgs[..n], known, exempt)
  {
    forall p | 0 <= p < n && msgs[..n][p].kind.ShockUpdate? && p + 1 !in exempt
      ensures msgs[..n][p].shockId in known + ShockIds(msgs[..n][..p])
    {
      assert msgs[..n][..p] == msgs[..p];
    }
  }

  /** Logging a batch: the updates of lost shocks become orphans, the others have their event in the log. */
  lemma RowsLogged(alpha: bool, log: seq<Msg>, batch: seq<Msg>, ingest: seq<Msg>, shocks: map<int, int>, lost: set<int>, orphans: set<nat>)
    requires ShocksKnown(alpha, log, Stream(log, batch, ingest), shocks, lost, orphans)
    ensures ShocksKnown(alpha, log + batch, Stream(log + batch, [], ingest), shocks, lost, orphans + Orphans(lost, |log|, batch))
  {
    var stream, rows, more := Stream(log, batch, ingest), log + batch, orphans + Orphans(lost, |log|, batch);
    BatchMoves(log, batch, ingest);
    assert UpTo(more, |rows|);
    if alpha {
      assert Causal(stream, lost, more);
      CausalPrefix(stream, |rows|, lost, more);
      assert stream[..|rows|] == rows;
      forall p | 0 <= p < |rows| && rows[p].kind.ShockUpdate? && p + 1 !in more ensures rows[p].shockId in ShockIds(rows[..p]) {
        if p < |log| {
          assert rows[..p] == log[..p];
        } else {
          assert rows[p] == batch[p - |log|];
          assert |log| + (p - |log|) + 1 !in more;
        }
      }
    }
  }

  // ----- how each concern survives each kind of change -----

  lemma TxIdsInLog(log: seq<Msg>, txs: seq<seq<nat>>, id: nat)
    requires TxsSorted(log, txs) && Committed(txs, id)
    ensures 1 <= id <= |log|
  {
    var k :| 0 <= k < |txs| && id in txs[k];
    var a :| 0 <= a < |txs[k]| && txs[k][a] == id;
  }

  lemma BufferedIdsInLog(log: seq<Msg>, table: set<nat>, lastSent: nat, bufs: seq<seq<nat>>)
    requires Shape(log, table, lastSent, bufs)
    ensures forall id :: id in Buffered(bufs) ==> 1 <= id <= |log|
  {
    forall id | id in Buffered(bufs) ensures 1 <= id <= |log| {
      GatherMembers(bufs, false, 0, id);
      var q :| 0 <= q < SLOTS && id in bufs[Place(false, q)];
    }
  }

  lemma ClosedGrows(alpha: bool, log: seq<Msg>, more: seq<Msg>, txs: seq<seq<nat>>, buffered: seq<nat>)
    requires TxsSorted(log, txs) && Closed(alpha, log, txs, buffered)
    requires forall id :: id in buffered ==> 1 <= id <= |log|
    ensures Closed(alpha, log + more, txs, buffered)
  {
    forall i: nat, j: nat | i < j && Settled(txs, buffered, j) && Tracked(alpha, log + more, i)
      ensures Settled(txs, buffered, i)
    {
      if Committed(txs, j) {
        TxIdsInLog(log, txs, j);
      }
      assert Tracked(alpha, log, i);
    }
  }

  lemma CommitsGrow(alpha: bool, log: seq<Msg>, more: seq<Msg>, txs: seq<seq<nat>>)
    requires TxsSorted(log, txs) && PrefixCommit(alpha, log, txs)
    ensures TxsSorted(log + more, txs) && PrefixCommit(alpha, log + more, txs)
  {
    forall k | 0 <= k <= |txs| ensures Closed(alpha, log + more, txs[..k], []) {
      ClosedGrows(alpha, log, more, txs[..k], []);
    }
    forall k | 0 <= k < |txs| ensures RankSorted(log + more, txs[k]) {
      assert RankSorted(log, txs[k]);
    }
  }

  lemma RowsGrow(alpha: bool, log: seq<Msg>, more: seq<Msg>, table: set<nat>, txs: seq<seq<nat>>, lastSent: nat, bufs: seq<seq<nat>>)
    requires Shape(log, table, lastSent, bufs) && Durable(alpha, log, table, txs)
    ensures Shape(log + more, table + IdRange(|log|, |more|), lastSent, bufs)
    ensures Durable(alpha, log + more, table + IdRange(|log|, |more|), txs)
    ensures |table + IdRange(|log|, |more|)| == |table| + |more|
  {
    assert table !! IdRange(|log|, |more|);
    forall i: nat | Tracked(alpha, log + more, i) ensures i in table + IdRange(|log|, |more|) || Committed(txs, i) {
      assert i <= |log| ==> Tracked(alpha, log, i);
    }
  }

  lemma StagesGrow(open: bool, log: seq<Msg>, more: seq<Msg>, table: set<nat>, lastSent: nat, bufs: seq<seq<nat>>, stages: multiset<nat>)
    requires Shape(log, table, lastSent, bufs) && Partition(open, log, table, lastSent, stages)
    ensures Partition(open, log + more, table + IdRange(|log|, |more|), lastSent, stages)
  {
    forall i ensures Fetched(log + more, table + IdRange(|log|, |more|), lastSent, i) <==> Fetched(log, table, lastSent, i) {}
  }

  lemma AckedGrows(alpha: bool, log: seq<Msg>, more: seq<Msg>, txs: seq<seq<nat>>, acks: seq<nat>, ackBuf: seq<nat>)
    requires Acked(alpha, log, txs, acks, ackBuf)
    requires forall i :: i in acks + ackBuf ==> 1 <= i <= |log|
    ensures Acked(alpha, log + more, txs, acks, ackBuf)
  {
    forall i | i in acks + ackBuf ensures Tracked(alpha, log + more, i) ==> Committed(txs, i) {
      assert Tracked(alpha, log + more, i) ==> Tracked(alpha, log, i);
    }
  }

  lemma AckIdsHeld(pending: seq<nat>, channel: seq<nat>, buffered: seq<nat>, acks: seq<nat>, ackBuf: seq<nat>)
    ensures forall i :: i in acks + ackBuf ==> i in Held(pending, channel, buffered, acks, ackBuf)
    ensures forall i :: i in pending || i in channel || i in buffered ==> i in Held(pending, channel, buffered, acks, ackBuf)
    ensures forall i :: i in Held(pending, channel, buffered, acks, ackBuf) ==>
                          i in pending || i in channel || i in buffered || i in acks + ackBuf
  {}

  lemma HeldSwap(a: State, b: State)
    requires |a.bufs| == SLOTS && |b.bufs| == SLOTS
    requires multiset(a.pending) + multiset(a.channel) + multiset(Buffered(a.bufs)) + multiset(a.acks) + multiset(a.ackBuf)
             == multiset(b.pending) + multiset(b.channel) + multiset(Buffered(b.bufs)) + multiset(b.acks) + multiset(b.ackBuf)
    ensures Stages(a) == Stages(b)
  {}

  // ----- one lemma an event -----

  lemma HasBufs(s: State)
    requires Inv(s)
    ensures |s.bufs| == SLOTS
  {
    hide Gather, Durable, Ordered, PrefixCommit, Closed, Acked, Partition, TxsSorted, Stream, ShocksKnown, Held, Room, Counted;
  }

  lemma KeepsPost(s: State, t: State, msg: Msg)
    requires Inv(s)
    requires t == s.(shocks := t.shocks, nextShock := t.nextShock, ingest := s.ingest + [msg])
    requires msg.kind.ShockUpdate? ==> s.alpha && exists key :: key in s.shocks && s.shocks[key] == msg.shockId
    requires forall key :: key in t.shocks ==>
               (key in s.shocks && t.shocks[key] == s.shocks[key]) || (msg.kind.Shock? && t.shocks[key] == msg.shockId)
    ensures Inv(t)
  {
    hide Gather, Durable, Ordered, PrefixCommit, Closed, Acked, Partition, TxsSorted, Causal, ShockIds, Shape, Held;
    var stream := Stream(s.log, s.insertBuf, s.ingest);
    assert Stream(t.log, t.insertBuf, t.ingest) == stream + [msg];
    if s.alpha {
      CausalAppend(stream, msg, s.lost, s.orphans);
    }
  }

  lemma KeepsShards(s: State, ev: Event)
    requires Inv(s) && (ev.ShardPending? || ev.ShardFinal? || ev.Publish?)
    ensures Inv(Apply(s, ev))
  {
    hide Gather, Durable, Ordered, PrefixCommit, Closed, Acked, Partition, TxsSorted, Causal, ShockIds, Held;
    var t := Apply(s, ev);
    match ev
    case ShardPending(key, encodes, decodes) =>
      if s.alpha {
        KeepsPost(s, t, Msg(Shock, s.nextShock, encodes, decodes));
      }
    case ShardFinal(key, encodes, decodes) =>
      if s.alpha && key in s.shocks {
        KeepsPost(s, t, Msg(ShockUpdate, s.shocks[key], encodes, decodes));
      }
    case Publish(msg) =>
      if !msg.kind.Shock? && !msg.kind.ShockUpdate? {
        KeepsPost(s, t, msg);
      }
  }

  lemma KeepsIngest(s: State)
    requires Inv(s)
    ensures Inv(DoIngestReceive(s))
  {
    hide Gather, Durable, Ordered, PrefixCommit, Closed, Acked, Partition, TxsSorted, Causal, ShockIds, Held, ShocksKnown;
    var t := DoIngestReceive(s);
    assert Stream(t.log, t.insertBuf, t.ingest) == Stream(s.log, s.insertBuf, s.ingest);
  }

  lemma BatchIsCausal(alpha: bool, log: seq<Msg>, insertBuf: seq<Msg>, ingest: seq<Msg>, shocks: map<int, int>, lost: set<int>, orphans: set<nat>)
    requires ShocksKnown(alpha, log, Stream(log, insertBuf, ingest), shocks, lost, orphans)
    ensures ShocksKnown(alpha, log, Stream(log, Encodable(insertBuf), ingest), shocks, lost + DroppedShocks(insertBuf), orphans)
  {
    hide Causal, ShockIds, Stream, Encodable, DroppedShocks;
    if alpha {
      CausalFilter(log, insertBuf, ingest, lost, orphans);
    }
  }

  lemma KeepsFlushInsert(s: State, ok: bool)
    requires Inv(s)
    ensures Inv(DoFlushInsert(s, ok))
  {
    hide Shape, Fetched, Gather, Durable, Ordered, PrefixCommit, Closed, Acked, Partition, TxsSorted, Causal, ShockIds, Held, ShocksKnown, Stream, IdRange, Increasing;
    HasBufs(s);
    hide Encodable, DroppedShocks;
    BatchIsCausal(s.alpha, s.log, s.insertBuf, s.ingest, s.shocks, s.lost, s.orphans);
    if s.pc.Idle? && s.insertBuf != [] {
      var batch := Encodable(s.insertBuf);
      if batch != [] && ok {
        KeepsNewRows(s, DoFlushInsert(s, ok), batch);
      }
    }
  }

  lemma NewRowsKeep(open: bool, alpha: bool, log: seq<Msg>, more: seq<Msg>, table: set<nat>, txs: seq<seq<nat>>,
                    lastSent: nat, bufs: seq<seq<nat>>, acks: seq<nat>, ackBuf: seq<nat>, stages: multiset<nat>)
    requires Shape(log, table, lastSent, bufs) && Durable(alpha, log, table, txs)
    requires TxsSorted(log, txs) && PrefixCommit(alpha, log, txs) && Acked(alpha, log, txs, acks, ackBuf)
    requires open ==> Closed(alpha, log, txs, Buffered(bufs))
    requires Partition(open, log, table, lastSent, stages)
    requires forall i :: i in acks + ackBuf ==> 1 <= i <= |log|
    ensures var log', table' := log + more, table + IdRange(|log|, |more|);
            && |table'| == |table| + |more|
            && Shape(log', table', lastSent, bufs) && Durable(alpha, log', table', txs)
            && TxsSorted(log', txs) && PrefixCommit(alpha, log', txs) && Acked(alpha, log', txs, acks, ackBuf)
            && (open ==> Closed(alpha, log', txs, Buffered(bufs)))
            && Partition(open, log', table', lastSent, stages)
  {
    RowsGrow(alpha, log, more, table, txs, lastSent, bufs);
    CommitsGrow(alpha, log, more, txs);
    BufferedIdsInLog(log, table, lastSent, bufs);
    hide Durable, PrefixCommit, TxsSorted, Closed, Acked, Partition, Gather;
    if open {
      ClosedGrows(alpha, log, more, txs, Buffered(bufs));
    }
    StagesGrow(open, log, more, table, lastSent, bufs, stages);
    AckedGrows(alpha, log, more, txs, acks, ackBuf);
  }

  lemma KeepsNewRows(s: State, t: State, batch: seq<Msg>)
    requires Inv(s) && s.pc.Idle?
    requires t == s.(insertBuf := [], inMem := 0, diskPending := s.diskPending + |batch|, lost := t.lost,
                     orphans := s.orphans + Orphans(t.lost, |s.log|, batch), log := s.log + batch, table := s.table + IdRange(|s.log|, |batch|))
    requires ShocksKnown(s.alpha, s.log, Stream(s.log, batch, s.ingest), s.shocks, t.lost, s.orphans)
    ensures Inv(t)
  {
    hide Shape, Fetched, Gather, Durable, Ordered, PrefixCommit, Closed, Acked, Partition, TxsSorted, Causal, ShockIds, Held, ShocksKnown, Stream, IdRange, Increasing;
    HasBufs(s);
    AcksAreFetched(s);
    NewRowsKeep(s.open, s.alpha, s.log, batch, s.table, s.txs, s.lastSent, s.bufs, s.acks, s.ackBuf, Stages(s));
    hide Orphans;
    RowsLogged(s.alpha, s.log, batch, s.ingest, s.shocks, t.lost, s.orphans);
  }

  lemma BatchMoves(log: seq<Msg>, batch: seq<Msg>, ingest: seq<Msg>)
    ensures Stream(log + batch, [], ingest) == Stream(log, batch, ingest)
  {
    assert log + batch + [] == log + batch;
  }

  lemma AcksAreFetched(s: State)
    requires Inv(s)
    ensures forall i :: i in s.acks + s.ackBuf ==> i in s.table && 1 <= i <= |s.log|
  {
    hide Gather, Durable, Ordered, PrefixCommit, Closed, Acked, TxsSorted, Stream, ShocksKnown, Counted, Room;
    AckIdsHeld(s.pending, s.channel, Buffered(s.bufs), s.acks, s.ackBuf);
    hide Held;
    assert forall i :: i in Stages(s) ==> Fetched(s.log, s.table, s.lastSent, i);
  }

  lemma StagesShrink(log: seq<Msg>, table: set<nat>, lastSent: nat, stages: multiset<nat>, fewer: multiset<nat>)
    requires Partition(false, log, table, lastSent, stages) && fewer <= stages
    ensures Partition(false, log, table, lastSent, fewer)
  {
    hide Fetched;
    forall i ensures fewer[i] <= stages[i] {}
  }

  lemma OrderDrops(sent: seq<nat>, pending: seq<nat>, channel: seq<nat>, lastSent: nat)
    requires Ordered(sent, pending, channel, lastSent) && pending != []
    ensures Ordered(sent, pending[1..], channel, lastSent)
  {
    var head, rest := pending[0], pending[1..];
    assert pending == [head] + rest;
    IncreasingSplit(sent, pending);
    IncreasingSplit([head], rest);
    assert forall y :: y in rest ==> y in pending;
    IncreasingConcat(sent, rest);
    hide Increasing;
    assert forall i :: i in sent + rest ==> i in sent + pending;
  }

  lemma TrySendDrops(s: State)
    requires Inv(s) && (s.pc.Drain? || s.pc.Send?) && s.pending != [] && !s.open
    ensures Inv(DoTrySend(s))
  {
    hide Shape, Fetched, Gather, Durable, Ordered, PrefixCommit, Closed, Acked, Partition, TxsSorted, Causal, ShockIds, Held, ShocksKnown, Stream, IdRange, Increasing;
    HasBufs(s);
    HeldPushes(s.pending, s.channel, Buffered(s.bufs), s.acks, s.ackBuf);
    StagesShrink(s.log, s.table, s.lastSent, Stages(s), Stages(DoTrySend(s)));
    OrderDrops(s.sent, s.pending, s.channel, s.lastSent);
  }

  lemma OrderPushes(sent: seq<nat>, pending: seq<nat>, channel: seq<nat>, lastSent: nat)
    requires Ordered(sent, pending, channel, lastSent) && pending != []
    ensures Ordered(sent + [pending[0]], pending[1..], channel + [pending[0]], lastSent)
  {
    hide Increasing;
    assert sent + [pending[0]] + pending[1..] == sent + pending;
  }

  lemma HeldPushes(pending: seq<nat>, channel: seq<nat>, buffered: seq<nat>, acks: seq<nat>, ackBuf: seq<nat>)
    requires pending != []
    ensures Held(pending[1..], channel + [pending[0]], buffered, acks, ackBuf) == Held(pending, channel, buffered, acks, ackBuf)
    ensures Held(pending[1..], channel, buffered, acks, ackBuf) <= Held(pending, channel, buffered, acks, ackBuf)
  {
    assert pending == [pending[0]] + pending[1..];
  }

  lemma TrySendPushes(s: State)
    requires Inv(s) && (s.pc.Drain? || s.pc.Send?) && s.pending != [] && s.open
    ensures Inv(DoTrySend(s))
  {
    hide Shape, Fetched, Gather, Durable, Ordered, PrefixCommit, Closed, Acked, Partition, TxsSorted, Causal, ShockIds, Held, ShocksKnown, Stream, IdRange, Increasing;
    HasBufs(s);
    HeldPushes(s.pending, s.channel, Buffered(s.bufs), s.acks, s.ackBuf);
    OrderPushes(s.sent, s.pending, s.channel, s.lastSent);
  }

  lemma KeepsTrySend(s: State)
    requires Inv(s)
    ensures Inv(DoTrySend(s))
  {
    hide Gather, Durable, Ordered, PrefixCommit, Closed, Acked, Partition, TxsSorted, Causal, ShockIds, Held, ShocksKnown;
    if (s.pc.Drain? || s.pc.Send?) && s.pending != [] {
      if s.open { TrySendPushes(s); } else { TrySendDrops(s); }
    }
  }

  lemma OrderExtends(sent: seq<nat>, pending: seq<nat>, channel: seq<nat>, lastSent: nat, good: seq<nat>, last: nat)
    requires Ordered(sent, pending, channel, lastSent)
    requires Increasing(good) && lastSent <= last && forall i :: i in good ==> lastSent < i <= last
    ensures Ordered(sent, pending + good, channel, last)
  {
    IncreasingConcat(sent + pending, good);
    assert sent + (pending + good) == sent + pending + good;
    hide Increasing;
  }

  lemma StagesExtend(open: bool, log: seq<Msg>, table: set<nat>, lastSent: nat, stages: multiset<nat>, good: seq<nat>, last: nat)
    requires Partition(open, log, table, lastSent, stages)
    requires Increasing(good) && lastSent <= last
    requires forall i :: i in good <==> i in table && lastSent < i <= last && Decodes(log, i)
    ensures Partition(open, log, table, last, stages + multiset(good))
  {
    IncreasingCounts(good);
    hide Increasing;
    forall i ensures Fetched(log, table, last, i) <==> Fetched(log, table, lastSent, i) || i in good {}
    forall i | i in good ensures i !in stages {}
  }

  lemma KeepsPumpRows(s: State, ok: bool)
    requires Inv(s)
    ensures Inv(DoPumpRows(s, ok))
  {
    hide Gather, Durable, Ordered, PrefixCommit, Closed, Acked, Partition, TxsSorted, Causal, ShockIds, ShocksKnown, Held, Increasing, Select, Decodable, Decodes;
    var t := DoPumpRows(s, ok);
    if s.pc.Fetch? && t.pc.Purge? {
      var rows := Select(s.table, s.lastSent, |s.log|, s.pc.limit);
      var good := Decodable(rows, s.log, true);
      SelectSpec(s.table, s.lastSent, |s.log|, s.pc.limit);
      RowsUpToLast(rows);
      DecodableSpec(rows, s.log, true);
      DecodableSpec(rows, s.log, false);
      OrderExtends(s.sent, s.pending, s.channel, s.lastSent, good, t.lastSent);
      StagesExtend(s.open, s.log, s.table, s.lastSent, Stages(s), good, t.lastSent);
      HeldAppend(s.pending, good, s.channel, Buffered(s.bufs), s.acks, s.ackBuf);
    }
  }

  lemma RowsUpToLast(rows: seq<nat>)
    requires Increasing(rows) && rows != []
    ensures rows[|rows| - 1] in rows && forall i :: i in rows ==> i <= rows[|rows| - 1]
  {
    forall i | i in rows ensures i <= rows[|rows| - 1] {
      var a :| 0 <= a < |rows| && rows[a] == i;
    }
  }

  lemma HeldAppend(pending: seq<nat>, good: seq<nat>, channel: seq<nat>, buffered: seq<nat>, acks: seq<nat>, ackBuf: seq<nat>)
    ensures Held(pending + good, channel, buffered, acks, ackBuf)
            == Held(pending, channel, buffered, acks, ackBuf) + multiset(good)
  {}

  lemma BadRowsMayGo(open: bool, alpha: bool, log: seq<Msg>, table: set<nat>, bad: set<nat>, txs: seq<seq<nat>>,
                     lastSent: nat, bufs: seq<seq<nat>>, stages: multiset<nat>)
    requires Shape(log, table, lastSent, bufs) && Durable(alpha, log, table, txs)
    requires Partition(open, log, table, lastSent, stages)
    requires forall i :: i in bad ==> !Decodes(log, i)
    ensures Shape(log, table - bad, lastSent, bufs) && Durable(alpha, log, table - bad, txs)
    ensures Partition(open, log, table - bad, lastSent, stages)
  {
    hide Committed;
    assert forall i :: Fetched(log, table - bad, lastSent, i) <==> Fetched(log, table, lastSent, i);
  }

  lemma KeepsPumpPurge(s: State, ok: bool)
    requires Inv(s)
    ensures Inv(DoPumpPurge(s, ok))
  {
    hide Decodes;
    hide Shape, Fetched, Gather, Durable, Ordered, PrefixCommit, Closed, Acked, Partition, TxsSorted, Causal, ShockIds, Held, ShocksKnown, Stream, IdRange, Increasing;
    HasBufs(s);
    if s.pc.Purge? {
      var bad := if ok then Members(s.pc.bad) else {};
      BadRowsMayGo(s.open, s.alpha, s.log, s.table, bad, s.txs, s.lastSent, s.bufs, Stages(s));
    }
  }

  lemma KeepsAckReceive(s: State)
    requires Inv(s)
    ensures Inv(DoAckReceive(s))
  {
    hide Gather, Durable, Ordered, PrefixCommit, Closed, Partition, TxsSorted, Stream, ShocksKnown, Tracked, Committed;
    var t := DoAckReceive(s);
    if s.pc.Idle? && s.acks != [] {
      assert s.acks == [s.acks[0]] + s.acks[1..];
      assert forall i :: i in t.acks + t.ackBuf <==> i in s.acks + s.ackBuf;
      HeldSwap(t, s);
      hide Held;
    }
  }

  lemma AcksLeave(s: State, remaining: seq<nat>, table: set<nat>)
    requires Inv(s) && table <= s.table && Increasing(remaining)
    requires forall i :: i in s.table && i !in s.ackBuf ==> i in table
    requires forall i :: i in remaining <==> i in s.ackBuf && i in table
    ensures Partition(s.open, s.log, table, s.lastSent, Held(s.pending, s.channel, Buffered(s.bufs), s.acks, remaining))
  {
    hide Gather, Durable, Ordered, PrefixCommit, Closed, Acked, TxsSorted, Stream, ShocksKnown, Counted, Room;
    var others := multiset(s.pending) + multiset(s.channel) + multiset(Buffered(s.bufs)) + multiset(s.acks);
    assert Stages(s) == others + multiset(s.ackBuf);
    var stages := Held(s.pending, s.channel, Buffered(s.bufs), s.acks, remaining);
    assert stages == others + multiset(remaining);
    hide Held;
    IncreasingCounts(remaining);
    hide Increasing;
    forall i ensures Fetched(s.log, table, s.lastSent, i) <==> Fetched(s.log, s.table, s.lastSent, i) && i in table {}
    forall i
      ensures stages[i] <= 1
      ensures i in stages ==> Fetched(s.log, table, s.lastSent, i)
      ensures s.open && Fetched(s.log, table, s.lastSent, i) ==> i in stages
    {
      assert Stages(s)[i] == others[i] + multiset(s.ackBuf)[i];
      assert i in s.ackBuf <==> multiset(s.ackBuf)[i] > 0;
      assert i in Stages(s) ==> Fetched(s.log, s.table, s.lastSent, i);
    }
  }

  lemma AckedRowsMayGo(alpha: bool, log: seq<Msg>, table: set<nat>, gone: set<nat>, txs: seq<seq<nat>>, acks: seq<nat>, ackBuf: seq<nat>, remaining: seq<nat>)
    requires Durable(alpha, log, table, txs) && Acked(alpha, log, txs, acks, ackBuf)
    requires forall i :: i in gone ==> i in ackBuf
    requires forall i :: i in remaining ==> i in ackBuf
    ensures Durable(alpha, log, table - gone, txs) && Acked(alpha, log, txs, acks, remaining)
  {
    hide Tracked, Committed;
    assert forall i :: i in ackBuf ==> i in acks + ackBuf;
    assert forall i :: i in acks + remaining ==> i in acks + ackBuf;
  }

  /** What a pass over the ack buffer takes out of it and out of the table. */
  lemma FlushAckSpec(s: State, oks: seq<bool>)
    requires Inv(s) && s.pc.Idle? && s.ackBuf != []
    ensures var t := DoFlushAck(s, oks);
            && t == s.(ackBuf := t.ackBuf, table := t.table, diskPending := s.diskPending - (|s.table| - |t.table|))
            && t.table <= s.table && Increasing(t.ackBuf)
            && (forall i :: i in s.table && i !in s.ackBuf ==> i in t.table)
            && (forall i :: i in t.ackBuf <==> i in s.ackBuf && i in t.table)
  {
    hide Inv, Increasing, SortDedup, AckPass;
    AcksAreFetched(s);
    assert forall i :: i in s.ackBuf ==> i in s.acks + s.ackBuf;
    SortDedupSpec(s.ackBuf, |s.log|);
    AckPassSpec(SortDedup(s.ackBuf, |s.log|), s.table, oks);
  }

  lemma KeepsFlushAck(s: State, oks: seq<bool>)
    requires Inv(s)
    ensures Inv(DoFlushAck(s, oks))
  {
    hide Gather, Durable, Ordered, PrefixCommit, Closed, Acked, Partition, TxsSorted, Stream, ShocksKnown, Held, Increasing, DoFlushAck;
    var t := DoFlushAck(s, oks);
    if s.pc.Idle? && s.ackBuf != [] {
      FlushAckSpec(s, oks);
      AcksLeave(s, t.ackBuf, t.table);
      AckedRowsMayGo(s.alpha, s.log, s.table, s.table - t.table, s.txs, s.acks, s.ackBuf, t.ackBuf);
      assert s.table - (s.table - t.table) == t.table;
    } else {
      NothingToAck(s, oks);
    }
  }

  lemma NothingToAck(s: State, oks: seq<bool>)
    requires !s.pc.Idle? || s.ackBuf == []
    ensures DoFlushAck(s, oks) == s
  {}

  lemma HeadIsLowest(sent: seq<nat>, pending: seq<nat>, channel: seq<nat>, lastSent: nat)
    requires Ordered(sent, pending, channel, lastSent) && channel != []
    ensures channel[0] <= lastSent
    ensures forall x :: x in channel || x in pending ==> channel[0] <= x
  {
    var early := sent[..|sent| - |channel|];
    assert sent == early + channel;
    IncreasingSplit(sent, pending);
    IncreasingSplit(early, channel);
    assert channel == [channel[0]] + channel[1..];
    IncreasingSplit([channel[0]], channel[1..]);
    hide Increasing;
    assert channel[0] in channel && channel[0] in sent && channel[0] in sent + pending;
  }

  lemma BelowHeadIsSettled(s: State, i: nat)
    requires Inv(s) && s.open && s.channel != [] && i < s.channel[0] && Tracked(s.alpha, s.log, i)
    ensures Settled(s.txs, Buffered(s.bufs), i)
  {
    hide Gather, PrefixCommit, Closed, TxsSorted, Stream, ShocksKnown, Counted, Room, Committed, Increasing, Ordered, Held;
    HeadIsLowest(s.sent, s.pending, s.channel, s.lastSent);
    AckIdsHeld(s.pending, s.channel, Buffered(s.bufs), s.acks, s.ackBuf);
    if i in s.table {
      assert Fetched(s.log, s.table, s.lastSent, i);
      assert i in Stages(s);
    }
  }

  lemma ClosedPush(alpha: bool, log: seq<Msg>, txs: seq<seq<nat>>, buffered: seq<nat>, more: seq<nat>, id: nat)
    requires Closed(alpha, log, txs, buffered)
    requires multiset(more) == multiset(buffered) + multiset{id}
    requires forall i: nat | i < id && Tracked(alpha, log, i) :: Settled(txs, buffered, i)
    ensures Closed(alpha, log, txs, more) && |more| == |buffered| + 1
  {
    assert |more| == |multiset(more)| && |buffered| == |multiset(buffered)|;
    forall i: nat ensures Settled(txs, more, i) <==> Settled(txs, buffered, i) || i == id {
      assert i in more <==> i in multiset(more);
      assert i in buffered <==> i in multiset(buffered);
    }
  }

  lemma ShapeReceives(log: seq<Msg>, table: set<nat>, lastSent: nat, bufs: seq<seq<nat>>, id: nat)
    requires Shape(log, table, lastSent, bufs) && 1 <= id <= |log|
    ensures var slot := Slot(log[id - 1].kind); Shape(log, table, lastSent, bufs[slot := bufs[slot] + [id]])
  {
    hide Slot;
  }

  /** The writer's buffers hold one id more, every smaller tracked row is settled. */
  lemma ClosedReceives(s: State, id: nat)
    requires Inv(s) && s.open && s.channel != [] && s.channel[0] == id && 1 <= id <= |s.log|
    ensures var slot := Slot(s.log[id - 1].kind);
            var more := s.bufs[slot := s.bufs[slot] + [id]];
            && |s.bufs| == SLOTS
            && multiset(Buffered(more)) == multiset(Buffered(s.bufs)) + multiset{id}
            && |Buffered(more)| == |Buffered(s.bufs)| + 1
            && Closed(s.alpha, s.log, s.txs, Buffered(more))
  {
    HasBufs(s);
    var slot := Slot(s.log[id - 1].kind);
    var more := s.bufs[slot := s.bufs[slot] + [id]];
    GatherPush(s.bufs, false, 0, slot, id);
    InvClosed(s);
    hide Inv, Gather, Tracked, Settled, Closed;
    forall i: nat | i < id && Tracked(s.alpha, s.log, i) ensures Settled(s.txs, Buffered(s.bufs), i) {
      BelowHeadIsSettled(s, i);
    }
    ClosedPush(s.alpha, s.log, s.txs, Buffered(s.bufs), Buffered(more), id);
  }

  lemma InvClosed(s: State)
    requires Inv(s) && s.open
    ensures |s.bufs| == SLOTS && Closed(s.alpha, s.log, s.txs, Buffered(s.bufs))
  {
    hide Closed, Gather, Durable, Ordered, PrefixCommit, Acked, Partition, TxsSorted, ShocksKnown, Held, Counted, Room;
  }

  lemma CountsReceive(s: State, t: State, id: nat)
    requires |s.bufs| == SLOTS && |t.bufs| == SLOTS && Counted(s) && Room(s) && s.open && s.channel != []
    requires t == s.(channel := s.channel[1..], bufs := t.bufs) && |Buffered(t.bufs)| == |Buffered(s.bufs)| + 1
    ensures Counted(t) && Room(t)
  {
    hide Buffered;
  }

  lemma HeldReceive(pending: seq<nat>, channel: seq<nat>, buffered: seq<nat>, more: seq<nat>, acks: seq<nat>, ackBuf: seq<nat>)
    requires channel != [] && multiset(more) == multiset(buffered) + multiset{channel[0]}
    ensures Held(pending, channel[1..], more, acks, ackBuf) == Held(pending, channel, buffered, acks, ackBuf)
  {
    assert channel == [channel[0]] + channel[1..];
  }

  lemma ReceivesPersisted(s: State, t: State, id: nat)
    requires Inv(s) && s.open && s.channel != [] && s.channel[0] == id && 1 <= id <= |s.log|
    requires Persisted(s.alpha, s.log[id - 1].kind)
    requires var slot := Slot(s.log[id - 1].kind);
             t == s.(channel := s.channel[1..], bufs := s.bufs[slot := s.bufs[slot] + [id]])
    ensures Inv(t)
  {
    HasBufs(s);
    hide Shape, Gather, Buffered, PrefixCommit, TxsSorted, ShocksKnown, Durable, Partition, Acked, Closed, Ordered, Counted, Room, Held, Slot;
    ShapeReceives(s.log, s.table, s.lastSent, s.bufs, id);
    ClosedReceives(s, id);
    OrderReceives(s.sent, s.pending, s.channel, s.lastSent);
    CountsReceive(s, t, id);
    HeldReceive(s.pending, s.channel, Buffered(s.bufs), Buffered(t.bufs), s.acks, s.ackBuf);
  }

  lemma AckedUnpersisted(alpha: bool, log: seq<Msg>, txs: seq<seq<nat>>, acks: seq<nat>, ackBuf: seq<nat>, id: nat)
    requires Acked(alpha, log, txs, acks, ackBuf)
    requires 1 <= id <= |log| && !Persisted(alpha, log[id - 1].kind)
    ensures Acked(alpha, log, txs, acks + [id], ackBuf)
  {
    hide Committed;
    assert !Tracked(alpha, log, id);
    hide Tracked;
    assert forall i :: i in acks + [id] + ackBuf ==> i == id || i in acks + ackBuf;
  }

  lemma HeldEarlyAck(pending: seq<nat>, channel: seq<nat>, buffered: seq<nat>, acks: seq<nat>, ackBuf: seq<nat>)
    requires channel != []
    ensures Held(pending, channel[1..], buffered, acks + [channel[0]], ackBuf) == Held(pending, channel, buffered, acks, ackBuf)
  {
    assert channel == [channel[0]] + channel[1..];
  }

  lemma OrderReceives(sent: seq<nat>, pending: seq<nat>, channel: seq<nat>, lastSent: nat)
    requires Ordered(sent, pending, channel, lastSent) && channel != []
    ensures Ordered(sent, pending, channel[1..], lastSent)
  {
    hide Increasing;
  }

  lemma ReceivesUnpersisted(s: State, t: State, id: nat)
    requires Inv(s) && s.open && s.channel != [] && s.channel[0] == id && 1 <= id <= |s.log|
    requires !Persisted(s.alpha, s.log[id - 1].kind)
    requires t == s.(channel := s.channel[1..], acks := s.acks + [id])
    ensures Inv(t)
  {
    hide Shape, Fetched, Gather, Durable, Ordered, PrefixCommit, Closed, Acked, Partition, TxsSorted, Causal, ShockIds, Held, ShocksKnown, Stream, IdRange, Increasing;
    HasBufs(s);
    HeldEarlyAck(s.pending, s.channel, Buffered(s.bufs), s.acks, s.ackBuf);
    OrderReceives(s.sent, s.pending, s.channel, s.lastSent);
    AckedUnpersisted(s.alpha, s.log, s.txs, s.acks, s.ackBuf, id);
  }

  lemma KeepsWriterReceive(s: State)
    requires Inv(s)
    ensures Inv(DoWriterReceive(s))
  {
    hide Inv, Persisted;
    var t := DoWriterReceive(s);
    if t != s {
      var id := s.channel[0];
      if Persisted(s.alpha, s.log[id - 1].kind) {
        ReceivesPersisted(s, t, id);
      } else {
        ReceivesUnpersisted(s, t, id);
      }
    }
  }

  lemma CommitAdds(txs: seq<seq<nat>>, bufs: seq<seq<nat>>)
    requires |bufs| == SLOTS
    ensures forall i: nat :: Committed(txs + [Statements(bufs)], i) <==> Committed(txs, i) || i in Buffered(bufs)
  {
    hide Gather;
    forall i: nat ensures Committed(txs + [Statements(bufs)], i) <==> Committed(txs, i) || i in Buffered(bufs) {
      CommittedGrows(txs, Statements(bufs), i);
      StatementsMembers(bufs, i);
    }
  }

  lemma DurableCommit(alpha: bool, log: seq<Msg>, table: set<nat>, txs: seq<seq<nat>>, bufs: seq<seq<nat>>)
    requires |bufs| == SLOTS && Durable(alpha, log, table, txs)
    ensures Durable(alpha, log, table, txs + [Statements(bufs)])
  {
    CommitAdds(txs, bufs);
    hide Gather, Tracked, Committed;
  }

  lemma AckedCommit(alpha: bool, log: seq<Msg>, txs: seq<seq<nat>>, bufs: seq<seq<nat>>, acks: seq<nat>, ackBuf: seq<nat>)
    requires |bufs| == SLOTS && Acked(alpha, log, txs, acks, ackBuf)
    ensures Acked(alpha, log, txs + [Statements(bufs)], acks, ackBuf)
  {
    CommitAdds(txs, bufs);
    hide Gather, Tracked, Committed;
  }

  lemma SortedCommit(log: seq<Msg>, table: set<nat>, lastSent: nat, txs: seq<seq<nat>>, bufs: seq<seq<nat>>)
    requires Shape(log, table, lastSent, bufs) && TxsSorted(log, txs)
    ensures TxsSorted(log, txs + [Statements(bufs)])
  {
    GatherRanks(log, bufs, 0);
    hide Gather, RankSorted, Shape;
  }

  /** The transaction is committed, whether or not the writer hears of it. */
  lemma KeepsCommit(s: State, t: State)
    requires Inv(s) && s.open && t == s.(txs := s.txs + [Statements(s.bufs)])
    ensures Inv(t)
  {
    HasBufs(s);
    hide Shape, Durable, Acked, TxsSorted, Gather, Ordered, Closed, ShocksKnown, PrefixCommit, Partition, Held, Statements, Buffered;
    CountsSame(s, t);
    hide Counted, Room;
    DurableCommit(s.alpha, s.log, s.table, s.txs, s.bufs);
    AckedCommit(s.alpha, s.log, s.txs, s.bufs, s.acks, s.ackBuf);
    SortedCommit(s.log, s.table, s.lastSent, s.txs, s.bufs);
    CommitKeepsPrefixes(s.alpha, s.log, s.txs, s.bufs);
  }

  lemma CountsSame(s: State, t: State)
    requires |s.bufs| == SLOTS && t == s.(txs := t.txs)
    ensures (Counted(s) <==> Counted(t)) && (Room(s) <==> Room(t))
  {
    hide Gather;
  }

  lemma AckedMore(alpha: bool, log: seq<Msg>, txs: seq<seq<nat>>, buffered: seq<nat>, acks: seq<nat>, ackBuf: seq<nat>)
    requires Acked(alpha, log, txs, acks, ackBuf) && forall i :: i in buffered ==> Committed(txs, i)
    ensures Acked(alpha, log, txs, acks + buffered, ackBuf)
  {
    hide Tracked, Committed;
    assert forall i :: i in acks + buffered + ackBuf ==> i in buffered || i in acks + ackBuf;
  }

  lemma EmptyShape(log: seq<Msg>, table: set<nat>, lastSent: nat, bufs: seq<seq<nat>>)
    requires Shape(log, table, lastSent, bufs)
    ensures |NoBufs()| == SLOTS && Shape(log, table, lastSent, NoBufs()) && Buffered(NoBufs()) == []
  {
    GatherEmpty(false, 0);
    hide Gather;
  }

  /** The acks of a reported commit. */
  lemma KeepsAcks(s: State, t: State)
    requires Inv(s) && s.open && t == s.(acks := s.acks + Buffered(s.bufs), bufs := NoBufs())
    requires Closed(s.alpha, s.log, s.txs, []) && forall i :: i in Buffered(s.bufs) ==> Committed(s.txs, i)
    ensures Inv(t)
  {
    HasBufs(s);
    hide Shape, Durable, Acked, TxsSorted, Gather, NoBufs, Ordered, Closed, ShocksKnown, PrefixCommit, Partition, Committed, Held,
         Buffered, Counted, Room;
    EmptyShape(s.log, s.table, s.lastSent, s.bufs);
    CountsAcks(s, t);
    AckedMore(s.alpha, s.log, s.txs, Buffered(s.bufs), s.acks, s.ackBuf);
    HeldAcks(s.pending, s.channel, Buffered(s.bufs), s.acks, s.ackBuf);
  }

  lemma CountsAcks(s: State, t: State)
    requires |s.bufs| == SLOTS && Counted(s) && s.open && Room(s)
    requires t == s.(acks := s.acks + Buffered(s.bufs), bufs := NoBufs())
    ensures |t.bufs| == SLOTS && Counted(t) && Room(t)
  {
    GatherEmpty(false, 0);
    hide Gather;
  }

  lemma HeldAcks(pending: seq<nat>, channel: seq<nat>, buffered: seq<nat>, acks: seq<nat>, ackBuf: seq<nat>)
    ensures Held(pending, channel, [], acks + buffered, ackBuf) == Held(pending, channel, buffered, acks, ackBuf)
  {}

  lemma KeepsWriterFlush(s: State, outcome: Outcome)
    requires Inv(s)
    ensures Inv(DoWriterFlush(s, outcome))
  {
    HasBufs(s);
    if s.open && s.bufs != NoBufs() && !outcome.Refused? {
      var t := s.(txs := s.txs + [Statements(s.bufs)]);
      KeepsCommit(s, t);
      if outcome.CommitOk? {
        CommitClosed(s);
        CommitAdds(s.txs, s.bufs);
        hide Inv, Committed, Gather, NoBufs;
        KeepsAcks(t, DoWriterFlush(s, outcome));
      }
    }
    hide Inv, Gather;
  }

  lemma CommitClosed(s: State)
    requires Inv(s) && s.open
    ensures Closed(s.alpha, s.log, s.txs + [Statements(s.bufs)], [])
  {
    CommitKeepsPrefixes(s.alpha, s.log, s.txs, s.bufs);
    hide Closed, PrefixCommit, Gather;
  }

  lemma KeepsWriterDies(s: State)
    requires Inv(s)
    ensures Inv(DoWriterDies(s))
  {
    hide Gather, PrefixCommit, Closed, Durable, Acked, TxsSorted, Stream, ShocksKnown, Increasing;
    var t := DoWriterDies(s);
    GatherEmpty(false, 0);
    assert t.channel == t.sent[|t.sent|..];
    forall i ensures Stages(t)[i] <= Stages(s)[i] {}
    hide Held;
  }

  lemma KeepsRestart(s: State, nextShock: int)
    requires Inv(s)
    ensures Inv(Apply(s, Restart(nextShock)))
  {
    hide Gather, Durable, TxsSorted;
    var t := Apply(s, Restart(nextShock));
    GatherEmpty(false, 0);
    assert Stages(t) == multiset{};
    hide Held;
    assert s.txs[..|s.txs|] == s.txs;
    assert Stream(t.log, t.insertBuf, t.ingest) == s.log;
  }

  lemma KeepsPumpBegin(s: State)
    requires Inv(s)
    ensures Inv(DoPumpBegin(s))
  {
    hide Shape, Fetched, Gather, Durable, Ordered, PrefixCommit, Closed, Acked, Partition, TxsSorted, Causal, ShockIds, Held, ShocksKnown, Stream, IdRange, Increasing;
    HasBufs(s);
  }

  lemma KeepsApply(s: State, ev: Event)
    requires Inv(s)
    ensures Inv(Apply(s, ev))
  {
    hide Gather, Durable, Ordered, PrefixCommit, Closed, Acked, Partition, TxsSorted, Stream, ShocksKnown, Held;
    hide Inv;
    match ev
    case ShardPending(_, _, _) => KeepsShards(s, ev);
    case ShardFinal(_, _, _) => KeepsShards(s, ev);
    case Publish(_) => KeepsShards(s, ev);
    case IngestReceive => KeepsIngest(s);
    case FlushInsert(ok) => KeepsFlushInsert(s, ok);
    case PumpBegin => KeepsPumpBegin(s);
    case TrySend => KeepsTrySend(s);
    case PumpRows(ok) => KeepsPumpRows(s, ok);
    case PumpPurge(ok) => KeepsPumpPurge(s, ok);
    case AckReceive => KeepsAckReceive(s);
    case FlushAck(oks) => KeepsFlushAck(s, oks);
    case WriterReceive => KeepsWriterReceive(s);
    case WriterFlush(outcome) => KeepsWriterFlush(s, outcome);
    case WriterDies => KeepsWriterDies(s);
    case Restart(nextShock) => KeepsRestart(s, nextShock);
  }

  lemma InitKeeps(alpha: bool, nextShock: int)
    ensures Inv(Init(alpha, nextShock))
  {
    hide Gather;
    GatherEmpty(false, 0);
    assert Stages(Init(alpha, nextShock)) == multiset{};
    hide Held;
  }

  lemma {:induction false} KeepsRun(s: State, evs: seq<Event>)
    requires Inv(s)
    ensures Inv(Run(s, evs))
    decreases |evs|
  {
    hide Inv, Apply;
    if evs != [] {
      KeepsRun(s, evs[..|evs| - 1]);
      KeepsApply(Run(s, evs[..|evs| - 1]), evs[|evs| - 1]);
    }
  }

  lemma InvRun(alpha: bool, nextShock: int, evs: seq<Event>)
    ensures Inv(Run(Init(alpha, nextShock), evs))
  {
    hide Inv, Run;
    InitKeeps(alpha, nextShock);
    KeepsRun(Init(alpha, nextShock), evs);
  }

  // ----- the theorems -----

  /** The states of all runs, whatever failed, died or restarted on the way. */
  ghost predicate Reachable(s: State) {
    exists alpha: bool, nextShock: int, evs: seq<Event> :: s == Run(Init(alpha, nextShock), evs)
  }

  lemma ReachableKeeps(s: State)
    requires Reachable(s)
    ensures Inv(s)
  {
    hide Run, Apply, Init, Inv;
    var alpha: bool, nextShock: int, evs: seq<Event> :| s == Run(Init(alpha, nextShock), evs);
    InvRun(alpha, nextShock, evs);
  }

  /** After every commit the committed rows are downward closed among the rows that the writer persists:
      no gap, whatever failed or restarted in between. */
  lemma CommittedIdsHaveNoGaps(s: State, k: nat, i: nat, j: nat)
    requires Reachable(s) && k <= |s.txs| && i < j && Committed(s.txs[..k], j) && Tracked(s.alpha, s.log, i)
    ensures Committed(s.txs[..k], i)
  {
    hide Run, Apply, Reachable;
    ReachableKeeps(s);
    assert Closed(s.alpha, s.log, s.txs[..k], []);
    assert Settled(s.txs[..k], [], j);
    assert Settled(s.txs[..k], [], i);
  }

  /** A row that reached the table is still there, or committed, or not one the writer writes. */
  lemma NoRowIsLost(s: State, i: nat)
    requires Reachable(s) && 1 <= i <= |s.log| && s.log[i - 1].decodes && Persisted(s.alpha, s.log[i - 1].kind)
    ensures i in s.table || Committed(s.txs, i)
  {
    hide Run, Apply, Reachable;
    ReachableKeeps(s);
    assert Tracked(s.alpha, s.log, i);
  }

  /** While the writer lives, a decodable table row that has been fetched is in exactly one stage and any
      other row is in none. */
  lemma StagesPartitionFetchedRows(s: State, i: nat)
    requires Reachable(s) && s.open
    ensures |s.bufs| == SLOTS
    ensures Stages(s)[i] == if Fetched(s.log, s.table, s.lastSent, i) then 1 else 0
  {
    hide Run, Apply, Gather, Reachable;
    ReachableKeeps(s);
  }

  lemma CountersAreExact(s: State)
    requires Reachable(s) && s.open
    ensures |s.bufs| == SLOTS
    ensures s.inMem == |s.insertBuf| && s.diskPending == |s.table|
    ensures s.inFlight == |s.channel| + |Buffered(s.bufs)| + |s.acks|
  {
    hide Run, Apply, Gather, Reachable;
    ReachableKeeps(s);
  }

  /** No counter underflows, not even after the writer died. */
  lemma CountersNeverUnderflow(s: State)
    requires Reachable(s)
    ensures s.inMem >= |s.insertBuf| && s.diskPending == |s.table| && s.inFlight >= |s.acks|
  {
    hide Run, Apply, Gather, Reachable;
    ReachableKeeps(s);
  }

  /** The send loops never meet a full channel, nothing waits between pumps while the writer lives, and
      the ids of one process run enter the channel in increasing order. */
  lemma PumpNeverOverfills(s: State)
    requires Reachable(s)
    ensures !s.hitFull && |s.channel| <= 4096
    ensures s.open && s.pc.Idle? ==> s.pending == []
    ensures Increasing(s.sent)
    ensures |s.channel| <= |s.sent| && s.channel == s.sent[|s.sent| - |s.channel|..]
  {
    hide Run, Apply, Gather, Reachable;
    ReachableKeeps(s);
    IncreasingSplit(s.sent, s.pending);
  }

  lemma EventBeforeUpdate(log: seq<Msg>, orphans: set<nat>, update: nat) returns (event: nat)
    requires Causal(log, {}, orphans) && 1 <= update <= |log|
    requires log[update - 1].kind.ShockUpdate? && update !in orphans
    ensures 1 <= event < update && log[event - 1].kind.Shock? && log[event - 1].shockId == log[update - 1].shockId
  {
    var before := log[..update - 1];
    assert log[update - 1].shockId in ShockIds(before);
    var m :| m in before && m.kind.Shock? && m.shockId == log[update - 1].shockId;
    var p :| 0 <= p < update - 1 && before[p] == m;
    event := p + 1;
  }

  lemma LogIsCausal(s: State)
    requires Inv(s) && s.alpha
    ensures Causal(s.log, {}, s.orphans)
  {}

  /** With alpha capture on, a committed update has an older row with its event; when that row can be
      decoded it is committed in an earlier transaction, or earlier in the same one. Exempt are only the
      updates of a shock whose event the same process had failed to serialise. */
  lemma UpdateCommitsAfterEvent(s: State, k: nat, b: nat) returns (event: nat)
    requires Reachable(s) && s.alpha
    requires k < |s.txs| && b < |s.txs[k]| && 1 <= s.txs[k][b] <= |s.log|
    requires s.log[s.txs[k][b] - 1].kind.ShockUpdate? && s.txs[k][b] !in s.orphans
    ensures var update := s.txs[k][b];
            && 1 <= event < update
            && s.log[event - 1].kind.Shock?
            && s.log[event - 1].shockId == s.log[update - 1].shockId
            && (s.log[event - 1].decodes ==>
                  Committed(s.txs[..k], event) || exists a :: 0 <= a < b && s.txs[k][a] == event)
  {
    hide Run, Apply, Inv, Causal, Reachable, RankSorted;
    ReachableKeeps(s);
    var update := s.txs[k][b];
    LogIsCausal(s);
    event := EventBeforeUpdate(s.log, s.orphans, update);
    if s.log[event - 1].decodes {
      assert s.txs[..k + 1] == s.txs[..k] + [s.txs[k]];
      assert update in s.txs[k];
      CommittedGrows(s.txs[..k], s.txs[k], update);
      CommittedIdsHaveNoGaps(s, k + 1, event, update);
      CommittedGrows(s.txs[..k], s.txs[k], event);
      hide Committed;
      if !Committed(s.txs[..k], event) {
        TxIsRankSorted(s, k);
        EventRanksFirst(s.log, s.txs[k], b, event);
      }
    }
  }

  /** Within a transaction the statements of shock events come before those of updates. */
  lemma EventRanksFirst(log: seq<Msg>, tx: seq<nat>, b: nat, event: nat)
    requires RankSorted(log, tx) && b < |tx| && event in tx
    requires 1 <= tx[b] <= |log| && log[tx[b] - 1].kind.ShockUpdate?
    requires 1 <= event <= |log| && log[event - 1].kind.Shock?
    ensures exists a :: 0 <= a < b && tx[a] == event
  {
    var a :| 0 <= a < |tx| && tx[a] == event;
  }

  /** The order in which a transaction writes the kinds. */
  function StatementOrder(): seq<Kind> {
    [ClockOffset, Registry, Override, Resync, Health, Chain, RawEvent, TokenBar, PairBar, Shock, ShockUpdate, Response, Audit,
     CancelSnapshot]
  }

  /** The order in which the rows of a transaction are acked. */
  function AckOrder(): seq<Kind> {
    [RawEvent, TokenBar, PairBar, ClockOffset, Registry, Override, Resync, Health, Chain, Shock, ShockUpdate, Response, Audit,
     CancelSnapshot]
  }

  lemma RanksAre(kind: Kind)
    ensures TxRank(kind) < 14 && StatementOrder()[TxRank(kind)] == kind && AckOrder()[Slot(kind)] == kind
  {}

  /** In every committed transaction the rows of a kind come after those of all kinds written before it. */
  lemma TransactionsAreOrdered(s: State, k: nat, a: nat, b: nat, x: nat, y: nat)
    requires Reachable(s) && k < |s.txs| && a < b < |s.txs[k]| && x < 14 && y < 14
    ensures 1 <= s.txs[k][a] <= |s.log| && 1 <= s.txs[k][b] <= |s.log|
    ensures s.log[s.txs[k][a] - 1].kind == StatementOrder()[x] && s.log[s.txs[k][b] - 1].kind == StatementOrder()[y] ==> x <= y
  {
    hide Reachable, Inv, TxRank;
    ReachableKeeps(s);
    TxIsRankSorted(s, k);
    RanksAre(s.log[s.txs[k][a] - 1].kind);
    RanksAre(s.log[s.txs[k][b] - 1].kind);
    DistinctPlaces(x, TxRank(s.log[s.txs[k][a] - 1].kind));
    DistinctPlaces(y, TxRank(s.log[s.txs[k][b] - 1].kind));
  }

  lemma DistinctPlaces(x: nat, y: nat)
    requires x < 14 && y < 14
    ensures StatementOrder()[x] == StatementOrder()[y] ==> x == y
  {}

  lemma TxIsRankSorted(s: State, k: nat)
    requires Inv(s) && k < |s.txs|
    ensures RankSorted(s.log, s.txs[k])
  {}
}
