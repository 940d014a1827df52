/** A run in which a restart does harm: 501 pair bars are committed and acked, the pass at the 500th ack fails,
    the one at the 501st fails on its first chunk and succeeds on its second, and the process dies. Row 501 is
    gone, rows 1 to 500 come again. */
module StaleReplay {
  import opened DeliveryOrder
  import opened Redelivery
  import opened SpoolModel
  import opened SpoolSafety

  const N: nat := 501
  const BAR: Msg := Msg(PairBar, 0, true, true)

  ghost function Copies(n: nat): (msgs: seq<Msg>)
    ensures |msgs| == n && forall a :: 0 <= a < n ==> msgs[a] == BAR
  {
    seq(n, _ => BAR)
  }

  /** The row ids from..from + n - 1. */
  ghost function Ids(from: nat, n: nat): (ids: seq<nat>)
    ensures |ids| == n && forall a :: 0 <= a < n ==> ids[a] == from + a
  {
    seq(n, a => from + a)
  }

  // ----- into the table -----

  lemma Published() returns (s: State)
    ensures Reachable(s) && s == Init(true, 1).(ingest := Copies(N))
  {
    hide Reachable;
    s := Init(true, 1);
    Start(true, 1);
    var k := 0;
    while k < N
      invariant 0 <= k <= N && Reachable(s) && s == Init(true, 1).(ingest := Copies(k))
    {
      assert Copies(k) + [BAR] == Copies(k + 1);
      StepOnward(s, Publish(BAR));
      s := Apply(s, Publish(BAR));
      k := k + 1;
    }
  }

  lemma Start(alpha: bool, nextShock: int)
    ensures Reachable(Init(alpha, nextShock))
  {
    assert Init(alpha, nextShock) == Run(Init(alpha, nextShock), []);
  }

  lemma {:induction false} AllEncode(n: nat)
    ensures Encodable(Copies(n)) == Copies(n) && DroppedShocks(Copies(n)) == {} && Orphans({}, 0, Copies(n)) == {}
  {
    if n > 0 {
      assert Copies(n)[1..] == Copies(n - 1) && [BAR] + Copies(n - 1) == Copies(n);
      AllEncode(n - 1);
    }
  }

  /** An insert that fails leaves such a buffer as it is. */
  lemma FailedInsert(s: State, n: nat)
    requires s.pc.Idle? && s.insertBuf == Copies(n) && s.lost == {}
    ensures Apply(s, FlushInsert(false)) == s
  {
    AllEncode(n);
    hide Encodable, DroppedShocks, IdRange, Orphans;
    assert s.lost + {} == s.lost;
  }

  /** All messages are received; the flushes from the 400th on fail. */
  lemma Ingested(start: State) returns (s: State)
    requires Reachable(start) && start == Init(true, 1).(ingest := Copies(N))
    ensures Reachable(s) && s == start.(ingest := [], insertBuf := Copies(N), inMem := N)
  {
    hide Reachable;
    s := start;
    var k := 0;
    while k < N
      invariant 0 <= k <= N && Reachable(s)
      invariant s == start.(ingest := Copies(N - k), insertBuf := Copies(k), inMem := k)
    {
      StepOnward(s, IngestReceive);
      OneIngested(s, N - k, k);
      s := Apply(s, IngestReceive);
      k := k + 1;
      hide Apply;
      if k >= INSERT_BATCH {
        StepOnward(s, FlushInsert(false));
        FailedInsert(s, k);
      }
    }
    assert Copies(0) == [];
  }

  lemma OneIngested(s: State, n: nat, k: nat)
    requires s.pc.Idle? && n > 0 && s.ingest == Copies(n) && s.insertBuf == Copies(k)
    ensures Apply(s, IngestReceive) == s.(ingest := Copies(n - 1), insertBuf := Copies(k + 1), inMem := s.inMem + 1)
  {
    assert Copies(n)[1..] == Copies(n - 1) && Copies(k) + [Copies(n)[0]] == Copies(k + 1);
  }

  lemma InsertedAll(s: State)
    requires s.pc.Idle? && s.insertBuf == Copies(N) && s.lost == {} && s.log == [] && s.table == {} && s.orphans == {}
    ensures Apply(s, FlushInsert(true))
            == s.(insertBuf := [], inMem := s.inMem - N, diskPending := s.diskPending + N, log := Copies(N), table := IdRange(0, N))
  {
    AllEncode(N);
    hide Encodable, DroppedShocks, Orphans, IdRange;
    assert {} + IdRange(0, N) == IdRange(0, N) && [] + Copies(N) == Copies(N);
  }

  lemma Inserted() returns (s: State)
    ensures Reachable(s)
    ensures s == Init(true, 1).(diskPending := N, log := Copies(N), table := IdRange(0, N))
  {
    hide Reachable, Apply, IdRange;
    var a := Published();
    var b := Ingested(a);
    InsertedAll(b);
    StepOnward(b, FlushInsert(true));
    s := Apply(b, FlushInsert(true));
  }

  // ----- through the writer -----

  lemma {:induction false} AllSelected(n: nat, from: nat, limit: nat)
    requires from <= n <= N && limit >= n - from
    ensures Select(IdRange(0, n), from, N, limit) == Ids(from + 1, n - from)
    decreases n - from
  {
    hide IdRange;
    if from < n {
      AllSelected(n, from + 1, limit - 1);
      assert [from + 1] + Ids(from + 2, n - from - 1) == Ids(from + 1, n - from);
    } else {
      NoneSelected(n, from, limit);
      assert Ids(from + 1, 0) == [];
    }
  }

  lemma {:induction false} NoneSelected(n: nat, from: nat, limit: nat)
    requires n <= from <= N
    ensures Select(IdRange(0, n), from, N, limit) == []
    decreases N - from
  {
    hide IdRange;
    if from < N {
      NoneSelected(n, from + 1, limit);
    }
  }

  lemma {:induction false} AllDecode(from: nat, n: nat)
    requires 1 <= from && from + n <= N + 1
    ensures Decodable(Ids(from, n), Copies(N), true) == Ids(from, n) && Decodable(Ids(from, n), Copies(N), false) == []
    decreases n
  {
    if n > 0 {
      var ids := Ids(from, n);
      assert ids[1..] == Ids(from + 1, n - 1) && [from] + Ids(from + 1, n - 1) == ids;
      AllDecode(from + 1, n - 1);
    }
  }

  lemma PumpOpens(s: State)
    requires s.pc.Idle? && s.pending == [] && s.channel == []
    ensures Apply(Apply(s, PumpBegin), TrySend) == s.(pc := Fetch(FETCH_BATCH))
  {}

  lemma PumpRowsIs(s: State)
    ensures Apply(s, PumpRows(true)) == DoPumpRows(s, true)
  {}

  lemma PumpReads(s: State)
    requires s.pc == Fetch(FETCH_BATCH) && s.pending == [] && s.table == IdRange(0, N) && s.log == Copies(N) && s.lastSent == 0
    ensures Apply(s, PumpRows(true)) == s.(pending := Ids(1, N), lastSent := N, pc := Purge([]))
  {
    hide IdRange, Select, Decodable, Ids, Copies, Apply, Decodes;
    AllSelected(N, 0, FETCH_BATCH);
    AllDecode(1, N);
    var ids := Ids(1, N);
    assert [] + ids == ids && ids != [] && ids[|ids| - 1] == N;
    PumpRowsIs(s);
  }

  lemma PumpPurges(s: State)
    requires s.pc == Purge([])
    ensures Apply(s, PumpPurge(true)) == s.(pc := Send)
  {
    assert s.table - Members([]) == s.table && s.table * Members([]) == {};
  }

  lemma FetchedAll() returns (s: State)
    ensures Reachable(s)
    ensures s == Init(true, 1).(diskPending := N, log := Copies(N), table := IdRange(0, N),
                                pending := Ids(1, N), lastSent := N, pc := Send)
  {
    hide Reachable, Apply, IdRange;
    s := Inserted();
    PumpOpens(s);
    StepOnward(s, PumpBegin);
    s := Apply(s, PumpBegin);
    StepOnward(s, TrySend);
    s := Apply(s, TrySend);
    PumpReads(s);
    StepOnward(s, PumpRows(true));
    s := Apply(s, PumpRows(true));
    PumpPurges(s);
    StepOnward(s, PumpPurge(true));
    s := Apply(s, PumpPurge(true));
  }

  lemma SentAll() returns (s: State)
    ensures Reachable(s)
    ensures s == Init(true, 1).(diskPending := N, log := Copies(N), table := IdRange(0, N),
                                lastSent := N, channel := Ids(1, N), sent := Ids(1, N), inFlight := N)
  {
    hide Reachable, IdRange;
    var start := FetchedAll();
    s := start;
    assert Ids(1, 0) == [];
    var k := 0;
    while k < N
      invariant 0 <= k <= N && Reachable(s)
      invariant s == start.(pending := Ids(k + 1, N - k), channel := Ids(1, k), sent := Ids(1, k), inFlight := k)
    {
      assert Ids(k + 1, N - k)[1..] == Ids(k + 2, N - k - 1) && Ids(1, k) + [k + 1] == Ids(1, k + 1);
      StepOnward(s, TrySend);
      s := Apply(s, TrySend);
      k := k + 1;
    }
    assert Ids(N + 1, 0) == [];
    StepOnward(s, TrySend);
    s := Apply(s, TrySend);
  }

  lemma Buffers(k: nat) returns (bufs: seq<seq<nat>>)
    ensures bufs == NoBufs()[2 := Ids(1, k)] && |bufs| == SLOTS
    ensures Buffered(bufs) == Ids(1, k) && Statements(bufs) == Ids(1, k)
  {
    bufs := NoBufs()[2 := Ids(1, k)];
    OneSlot(bufs, Ids(1, k), false, 0);
    OneSlot(bufs, Ids(1, k), true, 0);
  }

  lemma {:induction false} OneSlot(bufs: seq<seq<nat>>, ids: seq<nat>, inTxOrder: bool, r: nat)
    requires |bufs| == SLOTS && r <= SLOTS && bufs[2] == ids && forall k :: 0 <= k < SLOTS && k != 2 ==> bufs[k] == []
    ensures Gather(bufs, inTxOrder, r) == if r <= PlaceOf(inTxOrder, 2) then ids else []
    decreases SLOTS - r
  {
    if r < SLOTS {
      OneSlot(bufs, ids, inTxOrder, r + 1);
      assert Place(inTxOrder, r) == 2 <==> r == PlaceOf(inTxOrder, 2);
    }
  }

  lemma ReceivedAll() returns (s: State)
    ensures Reachable(s)
    ensures s == Init(true, 1).(diskPending := N, log := Copies(N), table := IdRange(0, N),
                                lastSent := N, sent := Ids(1, N), inFlight := N, bufs := NoBufs()[2 := Ids(1, N)])
  {
    hide Reachable, IdRange;
    var start := SentAll();
    s := start;
    assert Ids(1, 0) == [];
    assert start.bufs[2 := []] == start.bufs;
    var k := 0;
    while k < N
      invariant 0 <= k <= N && Reachable(s)
      invariant s == start.(channel := Ids(k + 1, N - k), bufs := NoBufs()[2 := Ids(1, k)])
    {
      assert Ids(k + 1, N - k)[1..] == Ids(k + 2, N - k - 1) && Ids(1, k) + [k + 1] == Ids(1, k + 1);
      assert NoBufs()[2 := Ids(1, k)][2 := Ids(1, k + 1)] == NoBufs()[2 := Ids(1, k + 1)];
      StepOnward(s, WriterReceive);
      s := Apply(s, WriterReceive);
      k := k + 1;
    }
    assert Ids(N + 1, 0) == [];
  }

  lemma CommittedAll() returns (s: State)
    ensures Reachable(s)
    ensures s == Init(true, 1).(diskPending := N, log := Copies(N), table := IdRange(0, N),
                                lastSent := N, sent := Ids(1, N), inFlight := N, acks := Ids(1, N), txs := [Ids(1, N)])
  {
    hide Reachable, IdRange, Apply;
    s := ReceivedAll();
    WriterCommits(s);
    StepOnward(s, WriterFlush(CommitOk));
    s := Apply(s, WriterFlush(CommitOk));
  }

  lemma WriterCommits(s: State)
    requires s.open && s.bufs == NoBufs()[2 := Ids(1, N)] && s.txs == [] && s.acks == []
    ensures Apply(s, WriterFlush(CommitOk)) == s.(txs := [Ids(1, N)], acks := Ids(1, N), bufs := NoBufs())
  {
    hide Gather, NoBufs, Ids, Statements, Buffered, Apply;
    var bufs := Buffers(N);
    var ids := Ids(1, N);
    NotEmpty(ids);
    assert [] + [ids] == [ids] && [] + ids == ids;
    WriterFlushIs(s);
  }

  lemma WriterFlushIs(s: State)
    ensures Apply(s, WriterFlush(CommitOk)) == DoWriterFlush(s, CommitOk)
  {}

  lemma NotEmpty(ids: seq<nat>)
    requires ids != []
    ensures |NoBufs()| == SLOTS && NoBufs()[2 := ids] != NoBufs()
  {
    assert NoBufs()[2 := ids][2] != NoBufs()[2];
  }

  // ----- the acks, and the failing pass -----

  lemma Sorted(n: nat)
    requires n <= N
    ensures SortDedup(Ids(1, n), N) == Ids(1, n)
  {
    IncreasingIds(n);
    assert Members(Ids(1, n)) == IdRange(0, n);
    AllSelected(n, 0, N);
  }

  lemma IncreasingIds(n: nat)
    ensures Increasing(Ids(1, n)) && forall i :: i in Ids(1, n) <==> 1 <= i <= n
  {
    forall i: nat | 1 <= i <= n ensures i in Ids(1, n) {
      assert Ids(1, n)[i - 1] == i;
    }
  }

  /** A pass whose only delete fails leaves a sorted buffer as it is. */
  lemma FailedPass(s: State)
    requires s.pc.Idle? && s.ackBuf == Ids(1, ACK_BATCH) && |s.log| == N
    ensures Apply(s, FlushAck([])) == s
  {
    Sorted(ACK_BATCH);
    hide SortDedup, IdRange;
    var ids := Ids(1, ACK_BATCH);
    assert ids[..ACK_BATCH] == ids && ids[ACK_BATCH..] == [] && ids + [] == ids;
    assert AckPass(ids, s.table, []) == AckResult(ids, s.table, 0);
    hide AckPass;
  }

  lemma OneAcked(s: State, n: nat, k: nat)
    requires s.pc.Idle? && n > 0 && s.acks == Ids(k + 1, n) && s.ackBuf == Ids(1, k)
    ensures Apply(s, AckReceive) == s.(acks := Ids(k + 2, n - 1), ackBuf := Ids(1, k + 1), inFlight := s.inFlight - 1)
  {
    assert Ids(k + 1, n)[1..] == Ids(k + 2, n - 1) && Ids(1, k) + [k + 1] == Ids(1, k + 1);
  }

  /** All acks are received; the pass at the 500th fails. */
  lemma AckedAll() returns (s: State)
    ensures Reachable(s)
    ensures s == Init(true, 1).(diskPending := N, log := Copies(N), table := IdRange(0, N),
                                lastSent := N, sent := Ids(1, N), ackBuf := Ids(1, N), txs := [Ids(1, N)])
  {
    hide Reachable, IdRange, Apply;
    var start := CommittedAll();
    s := start;
    assert Ids(1, 0) == [];
    var k := 0;
    while k < N
      invariant 0 <= k <= N && Reachable(s)
      invariant s == start.(acks := Ids(k + 1, N - k), ackBuf := Ids(1, k), inFlight := N - k)
    {
      StepOnward(s, AckReceive);
      OneAcked(s, N - k, k);
      s := Apply(s, AckReceive);
      k := k + 1;
      if k == ACK_BATCH {
        StepOnward(s, FlushAck([]));
        FailedPass(s);
      }
    }
    assert Ids(N + 1, 0) == [];
  }

  lemma FlushedAcks(s: State, oks: seq<bool>)
    requires s.pc.Idle? && s.ackBuf == Ids(1, N) && |s.log| == N
    ensures var t := Apply(s, FlushAck(oks)); t.table == AckPass(Ids(1, N), s.table, oks).table && t.log == s.log && t.txs == s.txs
  {
    Sorted(N);
    hide SortDedup, AckPass;
  }

  /** The next pass, at the 501st ack: row 1 is still there and row 501 is not, although both are committed. */
  lemma PassOutOfOrder() returns (s: State)
    ensures Reachable(s) && |s.log| == N && s.log[0].kind == s.log[N - 1].kind == PairBar
    ensures Committed(s.txs, 1) && Committed(s.txs, N) && 1 in s.table && N !in s.table
  {
    hide Reachable, Apply, AckPass, Increasing, IdRange;
    var t := AckedAll();
    var oks := [false, true];
    StepOnward(t, FlushAck(oks));
    FlushedAcks(t, oks);
    s := Apply(t, FlushAck(oks));
    IncreasingIds(N);
    PassDeletes(Ids(1, N), t.table, oks, 0);
    PassDeletes(Ids(1, N), t.table, oks, N - 1);
    assert Ids(1, N)[0] == 1 && Ids(1, N)[N - 1] == N;
    assert s.txs[0] == Ids(1, N) && 1 in s.txs[0] && N in s.txs[0];
  }

  /** So what comes again after the crash is no upper part of what was committed, and for some bars writing
      it again brings old columns back. */
  lemma RestartCanHarm() returns (s: State)
    ensures Reachable(s) && !UpperPart(CommittedRows(s, PairBar), RowsToCome(s, PairBar))
    ensures !Harmless(|s.log|, CommittedRows(s, PairBar), RowsToCome(s, PairBar))
  {
    hide Reachable, Harmless, CommittedRows, RowsToCome, Committed, Increasing;
    s := PassOutOfOrder();
    RowsOfKind(s, PairBar);
    assert CommittedRow(s, PairBar, 1) && CommittedRow(s, PairBar, N);
    HarmlessIffUpper(|s.log|, CommittedRows(s, PairBar), RowsToCome(s, PairBar));
  }
}
