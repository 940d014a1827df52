/** What the committed transactions of a run leave in the two bar tables: pair bars end with their newest
    row or wait for it, and one token bar that comes again stops everything. */
module BarTables {
  import opened BatchUpsert
  import opened DeliveryOrder
  import opened Options
  import opened Redelivery
  import opened SpoolModel
  import opened SpoolSafety

  // ----- from ids to tables -----

  /** Those of the ids that are rows of this kind, in their order. */
  ghost function KindIds(log: seq<Msg>, ids: seq<nat>, kind: Kind): (kept: seq<nat>)
    ensures forall i :: i in kept <==> i in ids && OfKind(log, kind, i)
    decreases |ids|
  {
    if ids == [] then []
    else
      var last := ids[|ids| - 1];
      assert ids == ids[..|ids| - 1] + [last];
      KindIds(log, ids[..|ids| - 1], kind) + if OfKind(log, kind, last) then [last] else []
  }

  /** The bars of one kind that a transaction writes; row i of the log carries payload[i - 1]. */
  ghost function StageOf(payload: seq<Row>, log: seq<Msg>, tx: seq<nat>, kind: Kind): seq<Row>
    requires |log| <= |payload|
  {
    var ids := KindIds(log, tx, kind);
    assert forall a :: 0 <= a < |ids| ==> ids[a] in ids;
    Bars(payload, ids)
  }

  /** The table of pair bars after these transactions. */
  ghost function PairTable(payload: seq<Row>, log: seq<Msg>, txs: seq<seq<nat>>): map<Key, Stored>
    requires |log| <= |payload|
    decreases |txs|
  {
    if txs == [] then map[]
    else
      UpsertAll(PairTable(payload, log, txs[..|txs| - 1]), DedupeOf(StageOf(payload, log, txs[|txs| - 1], PairBar)))
  }

  /** The table of token bars after these transactions, none if one of them must have been refused. */
  ghost function TokenTable(payload: seq<Row>, log: seq<Msg>, txs: seq<seq<nat>>): Option<map<Key, Stored>>
    requires |log| <= |payload|
    decreases |txs|
  {
    if txs == [] then Some(map[])
    else match TokenTable(payload, log, txs[..|txs| - 1])
      case None => None
      case Some(table) => TokenStage(table, StageOf(payload, log, txs[|txs| - 1], TokenBar))
  }

  lemma OneMoreTx(txs: seq<seq<nat>>, tx: seq<nat>)
    ensures (txs + [tx])[..|txs + [tx]| - 1] == txs && (txs + [tx])[|txs + [tx]| - 1] == tx
  {}

  lemma {:induction false} KindIdsConcat(log: seq<Msg>, a: seq<nat>, b: seq<nat>, kind: Kind)
    ensures KindIds(log, a + b, kind) == KindIds(log, a, kind) + KindIds(log, b, kind)
    decreases |b|
  {
    hide OfKind;
    if b == [] {
      assert a + b == a;
    } else {
      assert (a + b)[..|a + b| - 1] == a + b[..|b| - 1];
      KindIdsConcat(log, a, b[..|b| - 1], kind);
    }
  }

  lemma SlotTellsKind(x: Kind, y: Kind)
    ensures Slot(x) == Slot(y) <==> x == y
  {}

  lemma {:induction false} KindIdsOfSlot(log: seq<Msg>, ids: seq<nat>, own: Kind, kind: Kind)
    requires forall i :: i in ids ==> OfKind(log, own, i)
    ensures KindIds(log, ids, kind) == if own == kind then ids else []
    decreases |ids|
  {
    if ids != [] {
      var front := ids[..|ids| - 1];
      assert ids == front + [ids[|ids| - 1]];
      assert forall i :: i in front ==> i in ids;
      KindIdsOfSlot(log, front, own, kind);
      assert ids[|ids| - 1] in ids;
    }
  }

  ghost predicate SlotsSorted(log: seq<Msg>, bufs: seq<seq<nat>>)
    requires |bufs| == SLOTS
  {
    forall k, i :: 0 <= k < SLOTS && i in bufs[k] ==> 1 <= i <= |log| && Slot(log[i - 1].kind) == k
  }

  lemma OneSlot(log: seq<Msg>, bufs: seq<seq<nat>>, slot: nat, kind: Kind)
    requires |bufs| == SLOTS && slot < SLOTS && SlotsSorted(log, bufs)
    ensures KindIds(log, bufs[slot], kind) == if slot == Slot(kind) then bufs[slot] else []
  {
    hide KindIds, Slot;
    if bufs[slot] == [] {
      KindIdsOfSlot(log, [], kind, kind);
    } else {
      assert bufs[slot][0] in bufs[slot];
      var own := log[bufs[slot][0] - 1].kind;
      forall i | i in bufs[slot] ensures OfKind(log, own, i) {
        SlotTellsKind(log[i - 1].kind, own);
      }
      SlotTellsKind(own, kind);
      KindIdsOfSlot(log, bufs[slot], own, kind);
    }
  }

  lemma {:induction false} KindIdsGathered(log: seq<Msg>, bufs: seq<seq<nat>>, r: nat, kind: Kind)
    requires |bufs| == SLOTS && r <= SLOTS && SlotsSorted(log, bufs)
    ensures KindIds(log, Gather(bufs, true, r), kind) == if PlaceOf(true, Slot(kind)) >= r then bufs[Slot(kind)] else []
    decreases SLOTS - r
  {
    hide SlotsSorted, Slot;
    if r == SLOTS {
      assert Gather(bufs, true, r) == [];
    } else {
      GatherUnfold(bufs, true, r);
      hide Gather;
      KindIdsGathered(log, bufs, r + 1, kind);
      OneSlot(log, bufs, Place(true, r), kind);
      KindIdsConcat(log, bufs[Place(true, r)], Gather(bufs, true, r + 1), kind);
      hide KindIds;
      assert Place(true, r) == Slot(kind) <==> PlaceOf(true, Slot(kind)) == r;
    }
  }

  /** A transaction writes the rows of a kind in the order of their buffer. */
  lemma StageIsBuffer(log: seq<Msg>, bufs: seq<seq<nat>>, kind: Kind)
    requires |bufs| == SLOTS && SlotsSorted(log, bufs)
    ensures KindIds(log, Statements(bufs), kind) == bufs[Slot(kind)]
  {
    hide KindIds, Gather, SlotsSorted, Slot;
    KindIdsGathered(log, bufs, 0, kind);
  }

  // ----- what one step leaves in its place -----

  /** The row is in the spool and its delete is not under way. */
  ghost predicate Waits(s: State, i: nat) {
    i in s.table && i !in s.acks && i !in s.ackBuf
  }

  lemma WaitsBeforePurge(s: State, ok: bool, i: nat)
    requires Inv(s) && Waits(s, i) && Decodes(s.log, i)
    ensures Waits(DoPumpPurge(s, ok), i)
  {
    hide Gather, Shape, Durable, Ordered, PrefixCommit, Closed, Acked, Partition, Counted, TxsSorted, ShocksKnown;
  }

  lemma WaitsBeforeFlush(s: State, oks: seq<bool>, i: nat)
    requires Inv(s) && Waits(s, i)
    ensures Waits(DoFlushAck(s, oks), i)
  {
    hide Inv, DoFlushAck;
    if s.pc.Idle? && s.ackBuf != [] {
      FlushAckSpec(s, oks);
    } else {
      NothingToAck(s, oks);
    }
  }

  lemma WaitsBeforeReceive(s: State, i: nat)
    requires Waits(s, i) && Tracked(s.alpha, s.log, i)
    ensures Waits(DoWriterReceive(s), i)
  {
    hide Persisted;
  }

  /** A waiting row goes on waiting until a transaction that writes it is reported as committed. */
  lemma WaitsOn(s: State, ev: Event, i: nat)
    requires Inv(s) && Waits(s, i) && Tracked(s.alpha, s.log, i)
    ensures Waits(Apply(s, ev), i)
            || (ev.WriterFlush? && |s.bufs| == SLOTS && i in Buffered(s.bufs) && Apply(s, ev).txs == s.txs + [Statements(s.bufs)])
  {
    hide Inv, Tracked, Gather, Encodable, DroppedShocks, Select, Decodable, Orphans, NoBufs, Statements, Buffered,
         DoPumpPurge, DoFlushAck, DoWriterReceive;
    match ev
    case PumpPurge(ok) => TrackedDecodes(s, i); WaitsBeforePurge(s, ok, i);
    case FlushAck(oks) => WaitsBeforeFlush(s, oks, i);
    case WriterReceive => WaitsBeforeReceive(s, i);
    case _ =>
  }

  lemma TrackedDecodes(s: State, i: nat)
    requires Tracked(s.alpha, s.log, i)
    ensures Decodes(s.log, i)
  {}

  // ----- pair bars -----

  /** Row i is the newest committed pair bar of its key. */
  ghost predicate Latest(payload: seq<Row>, log: seq<Msg>, txs: seq<seq<nat>>, i: nat)
    requires |log| <= |payload|
  {
    && OfKind(log, PairBar, i) && Committed(txs, i)
    && forall j: nat :: OfKind(log, PairBar, j) && Committed(txs, j) && payload[j - 1].key == payload[i - 1].key ==> j <= i
  }

  ghost predicate Holds(table: map<Key, Stored>, row: Row) {
    row.key in table && table[row.key].fields == row.fields
  }

  /** The table holds the columns of row i. */
  ghost predicate Shown(payload: seq<Row>, log: seq<Msg>, txs: seq<seq<nat>>, i: nat)
    requires 1 <= i <= |log| <= |payload|
  {
    Holds(PairTable(payload, log, txs), payload[i - 1])
  }

  ghost predicate StaleWaits(payload: seq<Row>, log: seq<Msg>, s: State)
    requires |log| <= |payload|
  {
    forall i: nat :: Latest(payload, log, s.txs, i) ==> Shown(payload, log, s.txs, i) || Waits(s, i)
  }

  /** A stage of pair bars leaves the last bar of each of its keys and no other key changes. */
  lemma StageHolds(table: map<Key, Stored>, rows: seq<Row>, row: Row)
    ensures var done := UpsertAll(table, DedupeOf(rows));
            if HasKey(rows, row.key) then Holds(done, rows[LastOf(rows, row.key)]) else Holds(done, row) == Holds(table, row)
  {
    hide FirstOf, LastOf, UpsertAll, DedupeOf;
    var out, key := DedupeOf(rows), row.key;
    UpsertAllAt(table, out, key);
    assert HasKey(out, key) <==> HasKey(rows, key);
    assert Lookup(UpsertAll(table, out), key) == After(table, out, key);
    if HasKey(rows, key) {
      assert Lookup(UpsertAll(table, out), key).Some?;
    }
  }

  lemma WrittenIsInStage(payload: seq<Row>, log: seq<Msg>, tx: seq<nat>, kind: Kind, i: nat)
    requires |log| <= |payload| && OfKind(log, kind, i) && i in tx
    ensures HasKey(StageOf(payload, log, tx, kind), payload[i - 1].key)
  {
    hide KindIds, Bars;
    var ids, rows := KindIds(log, tx, kind), StageOf(payload, log, tx, kind);
    var b :| 0 <= b < |ids| && ids[b] == i;
    assert rows[b].key == payload[i - 1].key;
  }

  /** A newest committed bar after one more transaction: it is shown, or it was the newest before and the
      transaction leaves its key alone, or the transaction writes an older bar of its key and not itself. */
  lemma CommitShows(payload: seq<Row>, log: seq<Msg>, txs: seq<seq<nat>>, tx: seq<nat>, i: nat) returns (x: nat)
    requires |log| <= |payload| && Increasing(KindIds(log, tx, PairBar)) && Latest(payload, log, txs + [tx], i)
    ensures Shown(payload, log, txs + [tx], i)
            || (i !in tx && Committed(txs, i)
                && ((Latest(payload, log, txs, i) && !Shown(payload, log, txs, i)) || (x in tx && x < i && OfKind(log, PairBar, x))))
  {
    hide FirstOf, LastOf, UpsertAll, DedupeOf, Committed, KindIds, Bars;
    var ids, rows, row := KindIds(log, tx, PairBar), StageOf(payload, log, tx, PairBar), payload[i - 1];
    OneMoreTx(txs, tx);
    StageHolds(PairTable(payload, log, txs), rows, row);
    CommittedGrows(txs, tx, i);
    if i in tx {
      WrittenIsInStage(payload, log, tx, PairBar, i);
    }
    x := 0;
    if HasKey(rows, row.key) {
      var a := LastOf(rows, row.key);
      x := ids[a];
      assert x in ids;
      CommittedGrows(txs, tx, x);
      if i in tx {
        var b :| 0 <= b < |ids| && ids[b] == i;
        assert rows[b].key == row.key;
        assert b <= a;
      }
    } else {
      forall j: nat | OfKind(log, PairBar, j) && Committed(txs, j) && payload[j - 1].key == row.key ensures j <= i {
        CommittedGrows(txs, tx, j);
      }
    }
  }

  /** A buffered row is in no later stage. */
  lemma BufferedOnly(s: State, x: nat)
    requires Inv(s) && |s.bufs| == SLOTS && x in Buffered(s.bufs)
    ensures x in s.table && Decodes(s.log, x) && x <= s.lastSent && x !in s.acks && x !in s.ackBuf
  {
    hide Gather, Shape, Durable, Ordered, PrefixCommit, Closed, Acked, Counted, Room, TxsSorted, ShocksKnown, Buffered;
    assert Stages(s)[x] <= 1;
    assert x in multiset(Buffered(s.bufs));
    assert x in Stages(s);
  }

  /** While an older row of its kind is buffered, a row waits. */
  lemma NewerWaits(s: State, x: nat, i: nat)
    requires Inv(s) && Order(s) && |s.bufs| == SLOTS && x in Buffered(s.bufs) && x < i
    requires OfKind(s.log, PairBar, i) && SameKind(s.log, x, i) && Decodes(s.log, i) && UpperTable(s, PairBar)
    ensures Waits(s, i)
  {
    BufferedOnly(s, x);
    hide Inv, Gather, Received, Sequenced, Buffered;
    assert Older(s.log, s.table, x, i);
  }

  /** The newest bars after the writer's buffers have been committed. */
  lemma NewestAfterCommit(payload: seq<Row>, log: seq<Msg>, s: State, i: nat)
    requires Inv(s) && Order(s) && CommitsTracked(s) && UpperTable(s, PairBar) && |s.bufs| == SLOTS
    requires s.log <= log && |log| <= |payload| && StaleWaits(payload, log, s)
    requires Latest(payload, log, s.txs + [Statements(s.bufs)], i)
    ensures Shown(payload, log, s.txs + [Statements(s.bufs)], i)
            || (Committed(s.txs, i) && Waits(s, i) && i !in Buffered(s.bufs))
  {
    hide *;
    var tx := Statements(s.bufs);
    StageIncreasing(log, s, PairBar);
    LatestIsOfKind(payload, log, s.txs + [tx], i);
    var x := CommitShows(payload, log, s.txs, tx, i);
    StatementsMembers(s.bufs, i);
    if !Shown(payload, log, s.txs + [tx], i) {
      if x in tx && x < i && OfKind(log, PairBar, x) {
        StatementsMembers(s.bufs, x);
        BufferedOnly(s, x);
        BothLogged(s, log, x, i);
        NewerWaits(s, x, i);
      } else {
        StaleIs(payload, log, s, i);
      }
    }
  }

  lemma StaleIs(payload: seq<Row>, log: seq<Msg>, s: State, i: nat)
    requires |log| <= |payload| && StaleWaits(payload, log, s) && Latest(payload, log, s.txs, i)
    ensures Shown(payload, log, s.txs, i) || Waits(s, i)
  {}

  lemma LatestIsOfKind(payload: seq<Row>, log: seq<Msg>, txs: seq<seq<nat>>, i: nat)
    requires |log| <= |payload| && Latest(payload, log, txs, i)
    ensures OfKind(log, PairBar, i) && Committed(txs, i)
  {}

  lemma WasTracked(s: State, i: nat)
    requires CommitsTracked(s) && Committed(s.txs, i)
    ensures Tracked(s.alpha, s.log, i)
  {
    hide Tracked;
  }

  /** Both are rows of the log so far, not only of what it will be. */
  lemma BothLogged(s: State, log: seq<Msg>, x: nat, i: nat)
    requires CommitsTracked(s) && Committed(s.txs, i) && Decodes(s.log, x) && s.log <= log
    requires OfKind(log, PairBar, x) && OfKind(log, PairBar, i)
    ensures OfKind(s.log, PairBar, i) && SameKind(s.log, x, i) && Decodes(s.log, i)
  {
    hide Persisted, Committed, CommitsTracked;
    WasTracked(s, i);
  }

  lemma StageIncreasing(log: seq<Msg>, s: State, kind: Kind)
    requires Inv(s) && Order(s) && s.log <= log && |s.bufs| == SLOTS
    ensures Increasing(KindIds(log, Statements(s.bufs), kind))
  {
    SlotsHold(s);
    hide Inv, Gather, Increasing, Received, Lined, KindIds, Buffered, Statements;
    StageIsBuffer(log, s.bufs, kind);
  }

  lemma StaleStep(payload: seq<Row>, log: seq<Msg>, s: State, ev: Event)
    requires Inv(s) && Order(s) && CommitsTracked(s) && UpperTable(s, PairBar)
    requires s.log <= log && |log| <= |payload| && StaleWaits(payload, log, s)
    ensures StaleWaits(payload, log, Apply(s, ev))
  {
    hide Inv, Order, UpperTable, KindIds, Gather, Statements, Shown, Buffered, Tracked, Waits, Apply, Committed, CommitsTracked;
    var t := Apply(s, ev);
    TxsGrow(s, ev);
    forall i: nat | Latest(payload, log, t.txs, i) ensures Shown(payload, log, t.txs, i) || Waits(t, i) {
      if t.txs == s.txs {
        LatestIsOfKind(payload, log, t.txs, i);
        if !Shown(payload, log, t.txs, i) {
          WasTracked(s, i);
          WaitsOn(s, ev, i);
        }
      } else {
        NewestAfterCommit(payload, log, s, i);
        if !Shown(payload, log, t.txs, i) {
          WasTracked(s, i);
          WaitsOn(s, ev, i);
        }
      }
    }
  }

  lemma {:induction false} StaleRun(payload: seq<Row>, log: seq<Msg>, alpha: bool, nextShock: int, evs: seq<Event>)
    requires AllInOrder(Init(alpha, nextShock), evs, PairBar)
    requires Run(Init(alpha, nextShock), evs).log <= log && |log| <= |payload|
    ensures StaleWaits(payload, log, Run(Init(alpha, nextShock), evs))
    decreases |evs|
  {
    var s := Init(alpha, nextShock);
    if evs == [] {
      NoStep(s);
      assert s.txs == [];
    } else {
      hide Inv, Order, Apply, Run, AllInOrder, CommitsTracked, UpperTable, StaleWaits, Init, DeletesInOrder;
      var front := evs[..|evs| - 1];
      var before := Run(s, front);
      LastStep(s, evs);
      LogGrows(before, evs[|evs| - 1]);
      FrontInOrder(s, evs, PairBar);
      StaleRun(payload, log, alpha, nextShock, front);
      InvRun(alpha, nextShock, front);
      OrderRun(alpha, nextShock, front);
      CommitsTrackedRun(alpha, nextShock, front);
      UpperRun(alpha, nextShock, front, PairBar);
      StaleStep(payload, log, before, evs[|evs| - 1]);
    }
  }

  /** In a run whose ack passes delete pair rows in order, whatever crashed on the way: when the table of pair
      bars does not hold the newest committed bar of a key, that bar is still in the spool and its delete is
      not under way, so that it is still to be written again. */
  lemma StaleBarIsToCome(payload: seq<Row>, s: State, i: nat)
    requires ReachedInOrder(s, PairBar) && |s.log| <= |payload| && Latest(payload, s.log, s.txs, i)
    ensures Shown(payload, s.log, s.txs, i) || (i in RowsToCome(s, PairBar) && i !in s.acks && i !in s.ackBuf)
  {
    hide Run, Init, AllInOrder, Shown, PairTable, RowsToCome, CommittedRows, Committed;
    var alpha: bool, nextShock: int, evs: seq<Event> :|
      s == Run(Init(alpha, nextShock), evs) && AllInOrder(Init(alpha, nextShock), evs, PairBar);
    StaleRun(payload, s.log, alpha, nextShock, evs);
    StaleIs(payload, s.log, s, i);
    RowsOfKind(s, PairBar);
  }

  /** Once every committed pair bar that is still in the spool has been written again and acked, the table
      holds the newest bar of every key. */
  lemma RedeliveryCompletes(payload: seq<Row>, s: State)
    requires ReachedInOrder(s, PairBar) && |s.log| <= |payload|
    requires forall i :: i in RowsToCome(s, PairBar) ==> i in s.acks || i in s.ackBuf
    ensures Known(payload, CommittedRows(s, PairBar))
    ensures HoldsNewest(PairTable(payload, s.log, s.txs), payload, CommittedRows(s, PairBar))
  {
    hide ReachedInOrder, PairTable, RowsToCome, CommittedRows, Committed, Bars, LastOf, Increasing;
    var ids, table := CommittedRows(s, PairBar), PairTable(payload, s.log, s.txs);
    RowsOfKind(s, PairBar);
    assert forall a :: 0 <= a < |ids| ==> ids[a] in ids;
    var rows := Bars(payload, ids);
    forall key | HasKey(rows, key) ensures NewestOf(table, rows, key) {
      var i := ids[LastOf(rows, key)];
      LastIsLatest(payload, s, key);
      StaleBarIsToCome(payload, s, i);
    }
  }

  lemma LastIsLatest(payload: seq<Row>, s: State, key: Key)
    requires |s.log| <= |payload| && Known(payload, CommittedRows(s, PairBar))
    requires HasKey(Bars(payload, CommittedRows(s, PairBar)), key)
    ensures Latest(payload, s.log, s.txs, CommittedRows(s, PairBar)[LastOf(Bars(payload, CommittedRows(s, PairBar)), key)])
  {
    hide CommittedRows, Committed, Bars, LastOf, Increasing;
    RowsOfKind(s, PairBar);
    var ids := CommittedRows(s, PairBar);
    var rows := Bars(payload, ids);
    var last := LastOf(rows, key);
    assert ids[last] in ids;
    forall j: nat | OfKind(s.log, PairBar, j) && Committed(s.txs, j) && payload[j - 1].key == key ensures j <= ids[last] {
      assert j in ids;
      var c :| 0 <= c < |ids| && ids[c] == j;
      assert rows[c].key == key;
      IncreasingUpTo(ids, c, last);
    }
  }

  lemma IncreasingUpTo(ids: seq<nat>, a: nat, b: nat)
    requires Increasing(ids) && a <= b < |ids|
    ensures ids[a] <= ids[b]
  {}

  // ----- token bars -----

  lemma {:induction false} TokenKeysStay(payload: seq<Row>, log: seq<Msg>, txs: seq<seq<nat>>, i: nat)
    requires |log| <= |payload| && TokenTable(payload, log, txs).Some? && OfKind(log, TokenBar, i) && Committed(txs, i)
    ensures payload[i - 1].key in TokenTable(payload, log, txs).value
    decreases |txs|
  {
    hide KindIds, Bars, UpsertAll, DedupeOf;
    var front, tx, key := txs[..|txs| - 1], txs[|txs| - 1], payload[i - 1].key;
    var rows, table := StageOf(payload, log, tx, TokenBar), TokenTable(payload, log, front);
    StageAddsKeys(table.value, rows, key);
    if i in tx {
      WrittenIsInStage(payload, log, tx, TokenBar, i);
    } else {
      TokenKeysStay(payload, log, front, i);
    }
  }

  lemma StageAddsKeys(table: map<Key, Stored>, rows: seq<Row>, key: Key)
    ensures key in UpsertAll(table, DedupeOf(rows)) <==> key in table || HasKey(rows, key)
  {
    hide FirstOf, LastOf, UpsertAll, DedupeOf;
    var out := DedupeOf(rows);
    UpsertAllAt(table, out, key);
    assert HasKey(out, key) <==> HasKey(rows, key);
  }

  /** The database refuses a transaction that writes a committed token bar again. */
  lemma SecondCommitIsRefused(payload: seq<Row>, log: seq<Msg>, txs: seq<seq<nat>>, tx: seq<nat>, i: nat)
    requires |log| <= |payload| && OfKind(log, TokenBar, i) && Committed(txs, i) && i in tx
    ensures TokenTable(payload, log, txs + [tx]) == None
  {
    hide KindIds, Bars, UpsertAll, DedupeOf, Committed;
    OneMoreTx(txs, tx);
    WrittenIsInStage(payload, log, tx, TokenBar, i);
    if TokenTable(payload, log, txs).Some? {
      TokenKeysStay(payload, log, txs, i);
    }
  }

  /** Row i is waiting since the transactions `base` and nothing from i on has been committed since. */
  ghost predicate Stuck(s: State, base: seq<seq<nat>>, i: nat) {
    Waits(s, i) && base <= s.txs && forall k, x :: |base| <= k < |s.txs| && x in s.txs[k] ==> x < i
  }

  /** The writer holds a waiting row with every later one. */
  lemma HeldWithLater(s: State, x: nat, i: nat)
    requires Inv(s) && Order(s) && s.open && |s.bufs| == SLOTS && x in Buffered(s.bufs) && i <= x
    requires Waits(s, i) && Decodes(s.log, i)
    ensures i in Buffered(s.bufs)
  {
    BufferedOnly(s, x);
    SentBeforeRest(s, x);
    hide Gather, Shape, Durable, Ordered, PrefixCommit, Closed, Acked, Counted, Room, TxsSorted, ShocksKnown, Buffered, Order;
    AckIdsHeld(s.pending, s.channel, Buffered(s.bufs), s.acks, s.ackBuf);
    hide Held;
    assert Fetched(s.log, s.table, s.lastSent, i);
    assert i in Stages(s);
    assert i in s.acks + s.ackBuf ==> i in s.acks || i in s.ackBuf;
  }

  lemma SentBeforeRest(s: State, x: nat)
    requires Inv(s) && Order(s) && |s.bufs| == SLOTS && x in Buffered(s.bufs)
    ensures forall y :: y in s.channel || y in s.pending ==> x < y
  {
    SentInOrder(s);
    TakenIsSent(s, x);
    hide *;
    TakenFirst(s.sent, s.pending, s.channel, x);
  }

  lemma TakenFirst(sent: seq<nat>, pending: seq<nat>, channel: seq<nat>, x: nat)
    requires Increasing(sent + pending) && |channel| <= |sent| && channel == sent[|sent| - |channel|..]
    requires x in sent[..|sent| - |channel|]
    ensures forall y :: y in channel || y in pending ==> x < y
  {
    var early := sent[..|sent| - |channel|];
    assert sent == early + channel;
    IncreasingSplit(sent, pending);
    IncreasingSplit(early, channel);
    hide Increasing;
    assert x in sent;
  }

  lemma SentInOrder(s: State)
    requires Inv(s)
    ensures Increasing(s.sent + s.pending) && |s.channel| <= |s.sent| && s.channel == s.sent[|s.sent| - |s.channel|..]
  {
    hide Gather, Increasing;
  }

  lemma TakenIsSent(s: State, x: nat)
    requires Order(s) && |s.bufs| == SLOTS && x in Buffered(s.bufs)
    ensures |s.channel| <= |s.sent| && x in s.sent[..|s.sent| - |s.channel|]
  {
    hide Gather, Sequenced, Lined;
  }

  /** An accepted transaction writes only rows below i. */
  lemma AcceptedIsLower(payload: seq<Row>, log: seq<Msg>, s: State, i: nat)
    requires Inv(s) && Order(s) && s.open && |s.bufs| == SLOTS && Waits(s, i) && Decodes(s.log, i)
    requires |log| <= |payload| && OfKind(log, TokenBar, i) && Committed(s.txs, i)
    requires TokenTable(payload, log, s.txs + [Statements(s.bufs)]).Some?
    ensures i !in Buffered(s.bufs) && forall x :: x in Statements(s.bufs) ==> x < i
  {
    hide *;
    var tx := Statements(s.bufs);
    if i in tx {
      SecondCommitIsRefused(payload, log, s.txs, tx, i);
    }
    StatementsMembers(s.bufs, i);
    forall x | x in tx ensures x < i {
      StatementsMembers(s.bufs, x);
      if i <= x {
        HeldWithLater(s, x, i);
      }
    }
  }

  lemma StuckGrows(s: State, t: State, tx: seq<nat>, base: seq<seq<nat>>, i: nat)
    requires Stuck(s, base, i) && Waits(t, i) && t.txs == s.txs + [tx] && forall x :: x in tx ==> x < i
    ensures Stuck(t, base, i)
  {
    hide Waits;
  }

  lemma StuckStep(payload: seq<Row>, log: seq<Msg>, s: State, ev: Event, base: seq<seq<nat>>, i: nat)
    requires Inv(s) && Order(s) && Stuck(s, base, i) && Tracked(s.alpha, s.log, i) && Committed(base, i)
    requires |log| <= |payload| && OfKind(log, TokenBar, i) && TokenTable(payload, log, Apply(s, ev).txs).Some?
    ensures Stuck(Apply(s, ev), base, i)
  {
    hide Inv, Order, Apply, Statements, Buffered, Tracked, Waits, Committed, TokenTable, OfKind;
    TxsGrow(s, ev);
    WaitsOn(s, ev, i);
    CommittedBefore(base, s.txs, i);
    TrackedDecodes(s, i);
    hide *;
    var t := Apply(s, ev);
    if t.txs == s.txs {
      StuckStays(s, t, base, i);
    } else {
      AcceptedIsLower(payload, log, s, i);
      StuckGrows(s, t, Statements(s.bufs), base, i);
    }
  }

  lemma StuckStays(s: State, t: State, base: seq<seq<nat>>, i: nat)
    requires Stuck(s, base, i) && Waits(t, i) && t.txs == s.txs
    ensures Stuck(t, base, i)
  {}

  lemma CommittedBefore(base: seq<seq<nat>>, txs: seq<seq<nat>>, i: nat)
    requires base <= txs && Committed(base, i)
    ensures Committed(txs, i)
  {}

  lemma ReachableSteps(s: State)
    requires Reachable(s)
    ensures Inv(s) && Order(s) && CommitsTracked(s)
  {
    hide Run, Init, Inv, Order, CommitsTracked;
    var alpha: bool, nextShock: int, evs: seq<Event> :| s == Run(Init(alpha, nextShock), evs);
    InvRun(alpha, nextShock, evs);
    OrderRun(alpha, nextShock, evs);
    CommitsTrackedRun(alpha, nextShock, evs);
  }

  lemma AcceptedBefore(payload: seq<Row>, log: seq<Msg>, s: State, ev: Event)
    requires |log| <= |payload| && TokenTable(payload, log, Apply(s, ev).txs).Some?
    ensures TokenTable(payload, log, s.txs).Some?
  {
    TxsGrow(s, ev);
    hide Apply, Statements, KindIds, UpsertAll;
    if Apply(s, ev).txs != s.txs {
      OneMoreTx(s.txs, Statements(s.bufs));
    }
  }

  lemma {:induction false} StuckRun(payload: seq<Row>, log: seq<Msg>, s: State, evs: seq<Event>, i: nat)
    requires Reachable(s) && Waits(s, i) && Committed(s.txs, i) && Tracked(s.alpha, s.log, i)
    requires |log| <= |payload| && OfKind(log, TokenBar, i) && TokenTable(payload, log, Run(s, evs).txs).Some?
    ensures Stuck(Run(s, evs), s.txs, i)
    decreases |evs|
  {
    if evs == [] {
      NoStep(s);
    } else {
      hide Reachable, Inv, Order, CommitsTracked, Apply, Run, Stuck, Waits, Committed, Tracked, TokenTable;
      var front := evs[..|evs| - 1];
      var before := Run(s, front);
      LastStep(s, evs);
      AcceptedBefore(payload, log, before, evs[|evs| - 1]);
      StuckRun(payload, log, s, front, i);
      RunOnward(s, front);
      ReachableSteps(before);
      TrackedStays(s.alpha, s.log, before.log, i);
      StuckStep(payload, log, before, evs[|evs| - 1], s.txs, i);
    }
  }

  /** Once a committed token bar waits in the spool, no row that is not committed yet ever will be, in any run
      that the database accepts, restarts included. */
  lemma NothingNewIsCommitted(payload: seq<Row>, s: State, evs: seq<Event>, i: nat)
    requires Reachable(s) && CommittedRow(s, TokenBar, i) && Waits(s, i)
    requires var t := Run(s, evs); |t.log| <= |payload| && TokenTable(payload, t.log, t.txs).Some?
    ensures Waits(Run(s, evs), i)
    ensures forall j: nat :: Committed(Run(s, evs).txs, j) <==> Committed(s.txs, j)
  {
    hide Reachable, Run, Inv, Order, CommitsTracked, Tracked, TokenTable, Committed, Waits;
    var t := Run(s, evs);
    CommittedTracked(s, i);
    RunOnward(s, evs);
    StuckRun(payload, t.log, s, evs, i);
    ReachableSteps(t);
    forall j: nat ensures Committed(t.txs, j) <==> Committed(s.txs, j) {
      if Committed(s.txs, j) {
        CommittedBefore(s.txs, t.txs, j);
      } else if Committed(t.txs, j) {
        EarlierOrLower(s, t, i, j);
        WasTracked(t, j);
        TrackedEarlier(s, t, j);
        assert s.txs[..|s.txs|] == s.txs;
        CommittedIdsHaveNoGaps(s, |s.txs|, j, i);
      }
    }
  }

  lemma EarlierOrLower(s: State, t: State, i: nat, j: nat)
    requires Stuck(t, s.txs, i) && Committed(t.txs, j)
    ensures Committed(s.txs, j) || j < i
  {
    var k :| 0 <= k < |t.txs| && j in t.txs[k];
    assert k < |s.txs| ==> s.txs[k] == t.txs[k];
  }

  lemma TrackedEarlier(s: State, t: State, j: nat)
    requires s.log <= t.log && t.alpha == s.alpha && j <= |s.log| && Tracked(t.alpha, t.log, j)
    ensures Tracked(s.alpha, s.log, j)
  {}

  /** While the writer holds such a bar, no transaction at all is accepted. */
  lemma HeldTokenBarBlocks(payload: seq<Row>, s: State, ev: Event, i: nat)
    requires |s.bufs| == SLOTS && CommittedRow(s, TokenBar, i) && i in Buffered(s.bufs)
    requires |Apply(s, ev).log| <= |payload| && TokenTable(payload, Apply(s, ev).log, Apply(s, ev).txs).Some?
    ensures Apply(s, ev).txs == s.txs
  {
    TxsGrow(s, ev);
    LogGrows(s, ev);
    StatementsMembers(s.bufs, i);
    hide Apply, Statements, Buffered, TokenTable, Committed;
    if Apply(s, ev).txs != s.txs {
      SecondCommitIsRefused(payload, Apply(s, ev).log, s.txs, Statements(s.bufs), i);
    }
  }

  /** After a restart with a committed token bar still in the spool nothing new is ever committed. */
  lemma RestartCommitsNothingNew(payload: seq<Row>, s: State, nextShock: int, evs: seq<Event>, i: nat)
    requires Reachable(s) && i in RowsToCome(s, TokenBar)
    requires var t := Run(Apply(s, Restart(nextShock)), evs);
             |t.log| <= |payload| && TokenTable(payload, t.log, t.txs).Some?
    ensures i in Run(Apply(s, Restart(nextShock)), evs).table
    ensures forall j: nat :: Committed(Run(Apply(s, Restart(nextShock)), evs).txs, j) <==> Committed(s.txs, j)
  {
    hide Reachable, RowsToCome, CommittedRows, Committed, Run, TokenTable;
    RowsOfKind(s, TokenBar);
    StepOnward(s, Restart(nextShock));
    NothingNewIsCommitted(payload, Apply(s, Restart(nextShock)), evs, i);
  }

  /** A commit that is reported as failed although it was applied leaves the spool in the same state, if it
      held a token bar. */
  lemma LostCommitStrands(s: State, i: nat)
    requires Reachable(s) && s.open && |s.bufs| == SLOTS && i in s.bufs[Slot(TokenBar)]
    ensures CommittedRow(Apply(s, WriterFlush(CommitLost)), TokenBar, i) && Waits(Apply(s, WriterFlush(CommitLost)), i)
  {
    hide Reachable, Gather, Inv, Order, CommitsTracked, Slot, Run;
    ReachableSteps(s);
    SlotMembers(s.bufs, Slot(TokenBar));
    BufferedOnly(s, i);
    StatementsMembers(s.bufs, i);
    SlotsHold(s);
    SlotTellsKind(s.log[i - 1].kind, TokenBar);
    CommittedGrows(s.txs, Statements(s.bufs), i);
  }
}
