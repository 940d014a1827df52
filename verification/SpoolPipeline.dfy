/** The spooler and writer as the program runs them: fields updated in place by loops. Every method is
    one event of SpoolModel or, where the program awaits in between, the run of events that it returns. */
module SpoolPipeline {
  import opened SpoolModel
  import opened SpoolPump
  import opened SpoolSafety

  lemma {:induction false} EncodableAppend(msgs: seq<Msg>, m: Msg)
    ensures Encodable(msgs + [m]) == Encodable(msgs) + if m.encodes then [m] else []
    decreases |msgs|
  {
    if msgs == [] {
      assert msgs + [m] == [m];
    } else {
      var head := if msgs[0].encodes then [msgs[0]] else [];
      assert (msgs + [m])[1..] == msgs[1..] + [m];
      assert Encodable(msgs + [m]) == head + Encodable(msgs[1..] + [m]);
      EncodableAppend(msgs[1..], m);
    }
  }

  lemma {:induction false} DecodableAppend(rows: seq<nat>, id: nat, log: seq<Msg>, decodes: bool)
    ensures Decodable(rows + [id], log, decodes)
            == Decodable(rows, log, decodes) + if Decodes(log, id) == decodes then [id] else []
    decreases |rows|
  {
    if rows == [] {
      assert rows + [id] == [id];
    } else {
      assert (rows + [id])[1..] == rows[1..] + [id];
      DecodableAppend(rows[1..], id, log, decodes);
    }
  }

  lemma AckPassUnfold(ids: seq<nat>, table: set<nat>, oks: seq<bool>)
    requires ids != []
    ensures var n := if |ids| < ACK_BATCH then |ids| else ACK_BATCH;
            var chunk, ok := Members(ids[..n]), oks != [] && oks[0];
            var deleted := if ok then |table * chunk| else 0;
            var rest := AckPass(ids[n..], if ok then table - chunk else table, if oks == [] then [] else oks[1..]);
            var r := AckPass(ids, table, oks);
            && r.table == rest.table && r.deleted == deleted + rest.deleted
            && (forall before :: before + r.remaining ==
                                 (if deleted == 0 then before + ids[..n] else before) + rest.remaining)
  {
    var n := if |ids| < ACK_BATCH then |ids| else ACK_BATCH;
    var ok := oks != [] && oks[0];
    var rest := AckPass(ids[n..], if ok then table - Members(ids[..n]) else table, if oks == [] then [] else oks[1..]);
    var r := AckPass(ids, table, oks);
    hide AckPass;
    forall before: seq<nat>
      ensures before + (ids[..n] + rest.remaining) == (before + ids[..n]) + rest.remaining
      ensures before + ([] + rest.remaining) == before + rest.remaining
    {}
  }

  lemma AckPassNone(table: set<nat>, oks: seq<bool>)
    ensures AckPass([], table, oks) == AckResult([], table, 0)
    ensures forall before: seq<nat> :: before + [] == before
  {}

  class Pipeline {
    const alpha: bool
    var shocks: map<int, int>
    var nextShock: int
    var ingest: seq<Msg>
    var insertBuf: seq<Msg>
    var pending: seq<nat>
    var ackBuf: seq<nat>
    var lastSent: nat
    var pc: PumpPc
    var open: bool
    var channel: seq<nat>
    var bufs: seq<seq<nat>>
    var acks: seq<nat>
    var inMem: int
    var diskPending: int
    var inFlight: int
    var log: seq<Msg>
    var table: set<nat>
    var txs: seq<seq<nat>>
    ghost var sent: seq<nat>
    ghost var hitFull: bool
    ghost var lost: set<int>
    ghost var orphans: set<nat>

    ghost function Snapshot(): State
      reads this
    {
      State(alpha, shocks, nextShock, ingest, insertBuf, pending, ackBuf, lastSent, pc, open, channel, bufs, acks,
            inMem, diskPending, inFlight, log, table, txs, sent, hitFull, lost, orphans)
    }

    constructor (alpha: bool, nextShock: int)
      ensures Snapshot() == Init(alpha, nextShock)
    {
      this.alpha := alpha;
      shocks, this.nextShock := map[], nextShock;
      ingest, insertBuf, pending, ackBuf, lastSent, pc := [], [], [], [], 0, Idle;
      open, channel, bufs, acks := true, [], NoBufs(), [];
      inMem, diskPending, inFlight := 0, 0, 0;
      log, table, txs := [], {}, [];
      sent, hitFull, lost, orphans := [], false, {}, {};
    }

    /** A new process over the same database: everything in memory is gone, the row count is read back. */
    constructor Restarted(before: Pipeline, nextShock: int)
      ensures Snapshot() == Apply(before.Snapshot(), Restart(nextShock))
    {
      alpha := before.alpha;
      shocks, this.nextShock := map[], nextShock;
      ingest, insertBuf, pending, ackBuf, lastSent, pc := [], [], [], [], 0, Idle;
      open, channel, bufs, acks := true, [], NoBufs(), [];
      inMem, diskPending, inFlight := 0, |before.table|, 0;
      log, table, txs := before.log, before.table, before.txs;
      sent, hitFull, lost, orphans := [], false, {}, before.orphans;
    }

    /** A message from a shard: buffered, and a full buffer is inserted at once. */
    method ReceiveIngest(ok: bool)
      requires pc.Idle? && ingest != []
      modifies this`ingest, this`insertBuf, this`inMem, this`lost, this`diskPending, this`table, this`log, this`orphans
      ensures var s := DoIngestReceive(old(Snapshot()));
              Snapshot() == if |s.insertBuf| >= 400 then DoFlushInsert(s, ok) else s
    {
      hide DoFlushInsert, DoIngestReceive;
      PushIngest();
      if |insertBuf| >= INSERT_BATCH {
        FlushInsert(ok);
      }
    }

    method PushIngest()
      requires pc.Idle? && ingest != []
      modifies this`ingest, this`insertBuf, this`inMem
      ensures Snapshot() == DoIngestReceive(old(Snapshot()))
    {
      insertBuf := insertBuf + [ingest[0]];
      ingest := ingest[1..];
      inMem := inMem + 1;
    }

    /** An ack from the writer: buffered, and a full buffer is deleted at once. */
    method ReceiveAck(oks: seq<bool>)
      requires pc.Idle? && acks != []
      modifies this`acks, this`ackBuf, this`inFlight, this`table, this`diskPending
      ensures var s := DoAckReceive(old(Snapshot()));
              Snapshot() == if |s.ackBuf| >= 500 then DoFlushAck(s, oks) else s
    {
      hide DoFlushAck, DoAckReceive;
      PushAck();
      if |ackBuf| >= ACK_BATCH {
        FlushAck(oks);
      }
    }

    method PushAck()
      requires pc.Idle? && acks != []
      modifies this`acks, this`ackBuf, this`inFlight
      ensures Snapshot() == DoAckReceive(old(Snapshot()))
    {
      ackBuf := ackBuf + [acks[0]];
      acks := acks[1..];
      inFlight := inFlight - 1;
    }

    /** Serialises messages; what cannot be serialised is dropped and no longer counted. */
    method Serialize(batch: seq<Msg>) returns (rows: seq<Msg>)
      modifies this`inMem
      ensures rows == Encodable(batch) && inMem == old(inMem) - (|batch| - |rows|)
    {
      rows := [];
      for i := 0 to |batch|
        invariant rows == Encodable(batch[..i]) && inMem == old(inMem) - (i - |rows|)
      {
        EncodableAppend(batch[..i], batch[i]);
        assert batch[..i + 1] == batch[..i] + [batch[i]];
        if batch[i].encodes {
          rows := rows + [batch[i]];
        } else {
          inMem := inMem - 1;
        }
      }
      assert batch[..|batch|] == batch;
    }

    /** Takes the insert buffer. */
    method TakeBatch() returns (rows: seq<Msg>)
      modifies this`insertBuf, this`inMem, this`lost
      ensures rows == Encodable(old(insertBuf))
      ensures Snapshot() == old(Snapshot()).(insertBuf := [], inMem := old(inMem) - (|old(insertBuf)| - |rows|),
                                             lost := old(lost) + DroppedShocks(old(insertBuf)))
    {
      hide Encodable, DroppedShocks;
      var batch := insertBuf;
      insertBuf, lost := [], lost + DroppedShocks(batch);
      rows := Serialize(batch);
    }

    /** Serialises the whole buffer and inserts it with one statement. */
    method FlushInsert(ok: bool)
      requires pc.Idle?
      modifies this`insertBuf, this`inMem, this`lost, this`diskPending, this`table, this`log, this`orphans
      ensures Snapshot() == DoFlushInsert(old(Snapshot()), ok)
    {
      hide Encodable, DroppedShocks, Orphans, IdRange;
      if insertBuf == [] { return; }
      var rows := TakeBatch();
      if rows == [] { return; }
      StoreRows(rows, ok);
    }

    method StoreRows(rows: seq<Msg>, ok: bool)
      requires insertBuf == []
      modifies this`insertBuf, this`inMem, this`diskPending, this`table, this`log, this`orphans
      ensures var s := old(Snapshot());
              Snapshot() == if ok then s.(inMem := s.inMem - |rows|, diskPending := s.diskPending + |rows|,
                                          table := s.table + IdRange(|s.log|, |rows|), log := s.log + rows,
                                          orphans := s.orphans + Orphans(s.lost, |s.log|, rows))
                            else s.(insertBuf := rows)
    {
      hide IdRange, Orphans;
      if ok {
        InsertRows(rows);
        return;
      }
      insertBuf := insertBuf + rows;
    }

    /** The insert statement, and the counters after it. */
    method InsertRows(rows: seq<Msg>)
      modifies this`inMem, this`diskPending, this`table, this`log, this`orphans
      ensures inMem == old(inMem) - |rows| && diskPending == old(diskPending) + |rows|
      ensures table == old(table) + IdRange(|old(log)|, |rows|) && log == old(log) + rows
      ensures orphans == old(orphans) + Orphans(lost, |old(log)|, rows)
    {
      hide IdRange, Orphans;
      inMem, diskPending := inMem - |rows|, diskPending + |rows|;
      orphans := orphans + Orphans(lost, |log|, rows);
      table, log := table + IdRange(|log|, |rows|), log + rows;
    }

    /** After the last queued envelope: stop, or work out how many rows there is room for. */
    method EndSend()
      requires (pc.Drain? || pc.Send?) && pending == []
      modifies this`pc
      ensures Snapshot() == DoTrySend(old(Snapshot()))
      ensures pc.Idle? || (old(pc).Drain? && pc.Fetch?)
    {
      var capacity := if |channel| >= WRITER_CAPACITY then 0 else WRITER_CAPACITY - |channel|;
      if pc.Send? || capacity == 0 {
        pc := Idle;
      } else {
        pc := Fetch(if capacity < FETCH_BATCH then capacity else FETCH_BATCH);
      }
    }

    /** One try_send of the front of the queue. */
    method SendFront()
      requires (pc.Drain? || pc.Send?) && pending != []
      modifies this`pending, this`channel, this`inFlight, this`pc, this`sent, this`hitFull
      ensures Snapshot() == DoTrySend(old(Snapshot()))
      ensures pc.Idle? || (pc == old(pc) && |pending| < |old(pending)|)
    {
      if open && |channel| < WRITER_CAPACITY {
        Push();
        return;
      }
      if open {
        hitFull, pc := true, Idle;
      } else {
        pending, pc := pending[1..], Idle;
      }
    }

    method Push()
      requires pending != []
      modifies this`pending, this`channel, this`inFlight, this`sent
      ensures pending == old(pending)[1..] && inFlight == old(inFlight) + 1
      ensures channel == old(channel) + [old(pending)[0]] && sent == old(sent) + [old(pending)[0]]
    {
      var id := pending[0];
      pending, channel, inFlight, sent := pending[1..], channel + [id], inFlight + 1, sent + [id];
    }

    /** Queues the rows that can be decoded, sets the others aside, and moves on over both. */
    method Decode(rows: seq<nat>) returns (bad: seq<nat>)
      modifies this`pending, this`lastSent
      ensures pending == old(pending) + Decodable(rows, log, true) && bad == Decodable(rows, log, false)
      ensures lastSent == if rows == [] then old(lastSent) else rows[|rows| - 1]
    {
      bad := [];
      for i := 0 to |rows|
        invariant pending == old(pending) + Decodable(rows[..i], log, true)
        invariant bad == Decodable(rows[..i], log, false)
        invariant lastSent == if i == 0 then old(lastSent) else rows[i - 1]
      {
        var id := rows[i];
        DecodableAppend(rows[..i], id, log, true);
        DecodableAppend(rows[..i], id, log, false);
        assert rows[..i + 1] == rows[..i] + [id];
        if Decodes(log, id) {
          pending := pending + [id];
        } else {
          bad := bad + [id];
        }
        lastSent := id;
      }
      assert rows[..|rows|] == rows;
    }

    /** Reads the next rows, up to the limit. */
    method FetchRows(ok: bool)
      requires pc.Fetch?
      modifies this`pending, this`lastSent, this`pc
      ensures Snapshot() == DoPumpRows(old(Snapshot()), ok)
      ensures pc.Idle? || pc.Purge?
    {
      hide Decodable, Select;
      var rows := Select(table, lastSent, |log|, pc.limit);
      if !ok || rows == [] {
        pc := Idle;
        return;
      }
      var bad := Decode(rows);
      pc := Purge(bad);
    }

    method DeleteIds(ids: seq<nat>, ok: bool) returns (deleted: nat)
      modifies this`table
      ensures deleted == if ok then |old(table) * Members(ids)| else 0
      ensures table == if ok then old(table) - Members(ids) else old(table)
    {
      if ids == [] || !ok {
        assert old(table) * Members(ids) == {} || !ok;
        return 0;
      }
      deleted := |table * Members(ids)|;
      table := table - Members(ids);
    }

    method PurgeBad(ok: bool)
      requires pc.Purge?
      modifies this`table, this`diskPending, this`pc
      ensures Snapshot() == DoPumpPurge(old(Snapshot()), ok)
      ensures pc.Send?
    {
      hide Members;
      DropRows(pc.bad, ok);
      pc := Send;
    }

    /** Deletes rows and no longer counts them. */
    method DropRows(ids: seq<nat>, ok: bool)
      modifies this`table, this`diskPending
      ensures var bad := if ok then Members(ids) else {};
              Snapshot() == old(Snapshot()).(table := old(table) - bad, diskPending := old(diskPending) - |old(table) * bad|)
    {
      hide Members;
      ghost var bad := if ok then Members(ids) else {};
      var deleted := DeleteIds(ids, ok);
      assert table == old(table) - bad && deleted == |old(table) * bad|;
      diskPending := diskPending - deleted;
    }

    /** Deletes `all` in chunks; a chunk whose delete fails is kept for the next pass. */
    method DeleteChunks(all: seq<nat>, oks: seq<bool>) returns (remaining: seq<nat>)
      modifies this`table, this`diskPending
      ensures var r := AckPass(all, old(table), oks);
              && remaining == r.remaining && table == r.table && diskPending == old(diskPending) - r.deleted
              && Snapshot() == old(Snapshot()).(table := r.table, diskPending := old(diskPending) - r.deleted)
    {
      hide AckPass;
      var ids, left := all, oks;
      remaining := [];
      while ids != []
        invariant remaining + AckPass(ids, table, left).remaining == AckPass(all, old(table), oks).remaining
        invariant AckPass(ids, table, left).table == AckPass(all, old(table), oks).table
        invariant diskPending - AckPass(ids, table, left).deleted
                  == old(diskPending) - AckPass(all, old(table), oks).deleted
        decreases |ids|
      {
        AckPassUnfold(ids, table, left);
        var n := if |ids| < ACK_BATCH then |ids| else ACK_BATCH;
        var chunk := ids[..n];
        var deleted := DeleteIds(chunk, left != [] && left[0]);
        ids, left := ids[n..], if left == [] then [] else left[1..];
        if deleted == 0 {
          remaining := remaining + chunk;
        } else {
          diskPending := diskPending - deleted;
        }
      }
      AckPassNone(table, left);
    }

    method FlushAck(oks: seq<bool>)
      requires pc.Idle?
      modifies this`ackBuf, this`table, this`diskPending
      ensures Snapshot() == DoFlushAck(old(Snapshot()), oks)
    {
      hide AckPass, SortDedup;
      if ackBuf == [] { return; }
      var remaining := DeleteChunks(SortDedup(ackBuf, |log|), oks);
      ackBuf := remaining;
    }

    /** The writer takes one envelope: buffers it, or acks it at once when it is not to be written. */
    method Receive()
      requires |bufs| == SLOTS
      modifies this`channel, this`bufs, this`acks
      ensures Snapshot() == DoWriterReceive(old(Snapshot()))
    {
      if !open || channel == [] || !(1 <= channel[0] <= |log|) { return; }
      var id := channel[0];
      channel := channel[1..];
      var kind := log[id - 1].kind;
      if alpha || !CaptureOnly(kind) {
        bufs := bufs[Slot(kind) := bufs[Slot(kind)] + [id]];
      } else {
        acks := acks + [id];
      }
    }

    method NothingBuffered() returns (empty: bool)
      requires |bufs| == SLOTS
      ensures empty <==> bufs == NoBufs()
    {
      empty := true;
      for k := 0 to SLOTS
        invariant empty <==> forall j :: 0 <= j < k ==> bufs[j] == []
      {
        empty := empty && bufs[k] == [];
      }
    }

    /** The rows of a transaction, in statement order. */
    method WriteRows(stage: seq<seq<nat>>) returns (tx: seq<nat>)
      requires |stage| == SLOTS
      ensures tx == Statements(stage)
    {
      tx := [];
      for r := 0 to SLOTS
        invariant tx + Gather(stage, true, r) == Statements(stage)
      {
        assert tx + Gather(stage, true, r) == (tx + stage[Place(true, r)]) + Gather(stage, true, r + 1);
        tx := tx + stage[Place(true, r)];
      }
      assert tx + [] == tx;
    }

    method SendAcks(stage: seq<seq<nat>>)
      requires |stage| == SLOTS
      modifies this`acks
      ensures acks == old(acks) + Buffered(stage)
    {
      for r := 0 to SLOTS
        invariant acks + Gather(stage, false, r) == old(acks) + Buffered(stage)
      {
        assert acks + Gather(stage, false, r) == (acks + stage[Place(false, r)]) + Gather(stage, false, r + 1);
        acks := acks + stage[Place(false, r)];
      }
      assert acks + [] == acks;
    }

    /** Writes all buffers in one transaction and acks them only after the commit. */
    method FlushBuffers(outcome: Outcome)
      requires |bufs| == SLOTS
      modifies this`bufs, this`acks, this`txs
      ensures Snapshot() == DoWriterFlush(old(Snapshot()), outcome)
    {
      hide Gather, NoBufs;
      var empty := NothingBuffered();
      if !open || empty { return; }
      WriteStage(outcome);
    }

    method WriteStage(outcome: Outcome)
      requires open && |bufs| == SLOTS && bufs != NoBufs()
      modifies this`bufs, this`acks, this`txs
      ensures Snapshot() == DoWriterFlush(old(Snapshot()), outcome)
    {
      hide Gather, NoBufs, Statements, Buffered, DoWriterFlush;
      FlushOutcome(Snapshot(), outcome);
      var stage := bufs;
      bufs := NoBufs();
      var tx := WriteRows(stage);
      if outcome.CommitOk? {
        txs := txs + [tx];
        SendAcks(stage);
        return;
      }
      bufs := stage;
      if outcome.CommitLost? {
        txs := txs + [tx];
      }
    }

    method ShockStarts(key: int, encodes: bool, decodes: bool)
      modifies this`shocks, this`nextShock, this`ingest
      ensures Snapshot() == DoShardPending(old(Snapshot()), key, encodes, decodes)
    {
      hide Post;
      var id := nextShock;
      nextShock, shocks := id + 1, shocks[key := id];
      PostMsg(Msg(Shock, id, encodes, decodes));
    }

    /** Shocks are published only when alpha capture is on. */
    method PostMsg(msg: Msg)
      modifies this`ingest
      ensures Snapshot() == Post(old(Snapshot()), msg)
    {
      if alpha { ingest := ingest + [msg]; }
    }

    method ShockEnds(key: int, encodes: bool, decodes: bool)
      modifies this`shocks, this`ingest
      ensures Snapshot() == DoShardFinal(old(Snapshot()), key, encodes, decodes)
    {
      hide Post;
      if key !in shocks { return; }
      var id := shocks[key];
      shocks := shocks - {key};
      PostMsg(Msg(ShockUpdate, id, encodes, decodes));
    }

    method PublishOther(msg: Msg)
      modifies this`ingest
      ensures Snapshot() == DoPublish(old(Snapshot()), msg)
    {
      if !msg.kind.Shock? && !msg.kind.ShockUpdate? { ingest := ingest + [msg]; }
    }

    /** A shard reports a shock or its end, or any task publishes another message. */
    method ShardStep(ev: Event)
      requires ev.ShardPending? || ev.ShardFinal? || ev.Publish?
      modifies this`shocks, this`nextShock, this`ingest
      ensures Snapshot() == Apply(old(Snapshot()), ev)
    {
      hide DoShardPending, DoShardFinal, DoPublish;
      match ev {
        case ShardPending(key, encodes, decodes) => ShockStarts(key, encodes, decodes);
        case ShardFinal(key, encodes, decodes) => ShockEnds(key, encodes, decodes);
        case Publish(msg) => PublishOther(msg);
      }
    }

    method WriterStep(ev: Event)
      requires |bufs| == SLOTS && (ev.WriterReceive? || ev.WriterFlush? || ev.WriterDies?)
      modifies this`open, this`channel, this`bufs, this`acks, this`txs
      ensures Snapshot() == Apply(old(Snapshot()), ev)
    {
      hide DoWriterReceive, DoWriterFlush, DoWriterDies;
      match ev {
        case WriterReceive => Receive();
        case WriterFlush(outcome) => FlushBuffers(outcome);
        case WriterDies => Die();
      }
    }

    method Die()
      modifies this`open, this`channel, this`bufs
      ensures Snapshot() == DoWriterDies(old(Snapshot()))
    {
      open, channel, bufs := false, [], NoBufs();
    }

    /** One step of another task. */
    method OtherStep(ev: Event)
      requires |bufs| == SLOTS && Elsewhere(ev)
      modifies this`shocks, this`nextShock, this`ingest, this`open, this`channel, this`bufs, this`acks, this`txs
      ensures Snapshot() == Apply(old(Snapshot()), ev)
    {
      hide Apply;
      if ev.WriterReceive? || ev.WriterFlush? || ev.WriterDies? {
        WriterStep(ev);
      } else {
        ShardStep(ev);
      }
    }

    /** Lets the other tasks run: `acts` is what they do. */
    method Interleave(acts: seq<Event>)
      requires Inv(Snapshot())
      requires AllElsewhere(acts)
      modifies this`shocks, this`nextShock, this`ingest, this`open, this`channel, this`bufs, this`acks, this`txs
      ensures Inv(Snapshot()) && Snapshot() == Run(old(Snapshot()), acts)
    {
      hide Inv, Apply, Run, Elsewhere;
      RunNone(Snapshot());
      for i := 0 to |acts|
        invariant Inv(Snapshot()) && Snapshot() == Run(old(Snapshot()), acts[..i])
      {
        KeepsApply(Snapshot(), acts[i]);
        HasBufs(Snapshot());
        RunOne(old(Snapshot()), acts[..i], acts[i]);
        assert acts[..i + 1] == acts[..i] + [acts[i]];
        OtherStep(acts[i]);
      }
      assert acts[..|acts|] == acts;
    }

    /** One send loop; `turns` is what the other tasks do before each try_send. */
    method SendLoop(turns: seq<seq<Event>>) returns (ghost evs: seq<Event>)
      requires Inv(Snapshot()) && Sending(pc) && TurnsElsewhere(turns)
      modifies this
      ensures Inv(Snapshot()) && Snapshot() == Run(old(Snapshot()), evs)
      ensures evs == WholeLoop(old(Snapshot()), turns)
      ensures pc.Idle? || (old(pc).Drain? && pc.Fetch?)
    {
      hide Inv, Apply, Run, DoTrySend, AllElsewhere, LoopEvents;
      RunNone(Snapshot());
      evs := [];
      var left := turns;
      ghost var fuel: nat := |pending| + 1;
      while Sending(pc)
        invariant Inv(Snapshot()) && Snapshot() == Run(old(Snapshot()), evs) && TurnsElsewhere(left)
        invariant pc == old(pc) || pc.Idle? || (old(pc).Drain? && pc.Fetch?)
        invariant evs + LoopEvents(Snapshot(), left, fuel) == WholeLoop(old(Snapshot()), turns)
        invariant Sending(pc) ==> fuel > |pending|
        decreases fuel
      {
        LoopUnfold(Snapshot(), left, fuel, evs);
        ghost var more := Turn(left);
        RunConcat(old(Snapshot()), evs, more);
        evs, left, fuel := evs + more, RestOf(left), fuel - 1;
      }
      LoopOver(Snapshot(), left, fuel);
    }

    /** One turn of a send loop: the other tasks, then one try_send. */
    method Turn(turns: seq<seq<Event>>) returns (ghost evs: seq<Event>)
      requires Inv(Snapshot()) && Sending(pc) && TurnsElsewhere(turns)
      modifies this
      ensures Inv(Snapshot()) && Snapshot() == Run(old(Snapshot()), evs) && evs == FirstOf(turns) + [TrySend]
      ensures TurnsElsewhere(RestOf(turns))
      ensures pc.Idle? || (old(pc).Drain? && pc.Fetch?) || (pc == old(pc) && |pending| < |old(pending)|)
    {
      hide Inv, Apply, Run, DoTrySend, TurnsElsewhere;
      TurnByTurn(turns);
      hide AllElsewhere;
      TurnKeepsSpool(Snapshot(), FirstOf(turns));
      SamePc(Snapshot(), Run(Snapshot(), FirstOf(turns)));
      Interleave(FirstOf(turns));
      KeepsApply(Snapshot(), TrySend);
      StepIsApply(Snapshot(), TrySend);
      RunOne(old(Snapshot()), FirstOf(turns), TrySend);
      evs := FirstOf(turns) + [TrySend];
      if pending == [] { EndSend(); } else { SendFront(); }
    }

    /** The fetch of pump_send, after whatever the other tasks did. */
    method FetchTurn(ok: bool, turn: seq<Event>) returns (ghost evs: seq<Event>)
      requires Inv(Snapshot()) && pc.Fetch? && AllElsewhere(turn)
      modifies this
      ensures Inv(Snapshot()) && Snapshot() == Run(old(Snapshot()), evs) && evs == turn + [PumpRows(ok)]
      ensures pc.Idle? || pc.Purge?
    {
      hide Inv, Apply, Run, DoPumpRows;
      Interleave(turn);
      KeepsApply(Snapshot(), PumpRows(ok));
      StepIsApply(Snapshot(), PumpRows(ok));
      RunOne(old(Snapshot()), turn, PumpRows(ok));
      FetchRows(ok);
      evs := turn + [PumpRows(ok)];
    }

    /** The delete of undecodable rows, after whatever the other tasks did. */
    method PurgeTurn(ok: bool, turn: seq<Event>) returns (ghost evs: seq<Event>)
      requires Inv(Snapshot()) && pc.Purge? && AllElsewhere(turn)
      modifies this
      ensures Inv(Snapshot()) && Snapshot() == Run(old(Snapshot()), evs) && evs == turn + [PumpPurge(ok)]
      ensures pc.Send?
    {
      hide Inv, Apply, Run, DoPumpPurge;
      Interleave(turn);
      KeepsApply(Snapshot(), PumpPurge(ok));
      StepIsApply(Snapshot(), PumpPurge(ok));
      RunOne(old(Snapshot()), turn, PumpPurge(ok));
      PurgeBad(ok);
      evs := turn + [PumpPurge(ok)];
    }

    /** From the first send loop to the fetch, or to the end when there is no room. */
    method DrainQueue(turns: seq<seq<Event>>) returns (ghost evs: seq<Event>)
      requires Inv(Snapshot()) && pc.Idle? && TurnsElsewhere(turns)
      modifies this
      ensures Inv(Snapshot()) && Snapshot() == Run(old(Snapshot()), evs)
      ensures evs == [PumpBegin] + WholeLoop(Run(old(Snapshot()), [PumpBegin]), turns)
      ensures pc.Idle? || pc.Fetch?
    {
      hide Inv, Apply, Run, DoPumpBegin, WholeLoop, AllElsewhere, TurnsElsewhere;
      ghost var start := Snapshot();
      KeepsApply(start, PumpBegin);
      StepIsApply(start, PumpBegin);
      RunNone(start);
      RunOne(start, [], PumpBegin);
      assert [] + [PumpBegin] == [PumpBegin];
      Begin();
      evs := SendLoop(turns);
      RunConcat(start, [PumpBegin], evs);
      evs := [PumpBegin] + evs;
    }

    method Begin()
      requires pc.Idle?
      modifies this`pc
      ensures Snapshot() == DoPumpBegin(old(Snapshot())) && pc.Drain?
    {
      pc := Drain;
    }

    /** pump_send under any interleaving. The events are exactly those of a pump, with what the other tasks do
        in between; it takes the rows there is room for, drops the undecodable ones, never finds the channel
        full, and while the writer lives it leaves nothing unsent. */
    method PumpSend(fetchOk: bool, purgeOk: bool, turns1: seq<seq<Event>>, turns2: seq<Event>, turns3: seq<Event>,
                    turns4: seq<seq<Event>>) returns (ghost evs: seq<Event>)
      requires Inv(Snapshot()) && pc.Idle?
      requires TurnsElsewhere(turns1) && AllElsewhere(turns2) && AllElsewhere(turns3) && TurnsElsewhere(turns4)
      modifies this
      ensures Inv(Snapshot()) && Snapshot() == Run(old(Snapshot()), evs)
      ensures evs == PumpEvents(old(Snapshot()), fetchOk, purgeOk, turns1, turns2, turns3, turns4)
      ensures Pumped(old(Snapshot()), Snapshot(), fetchOk, purgeOk, RoomFor(Run(old(Snapshot()), FirstOf(turns1)).channel))
      ensures pc.Idle? && !hitFull
      ensures open ==> pending == []
    {
      hide Inv, Run, LoopEvents, AllElsewhere, TurnsElsewhere, Pumped, RoomFor;
      PumpDelivers(Snapshot(), fetchOk, purgeOk, turns1, turns2, turns3, turns4);
      ghost var start, more := Snapshot(), [];
      evs := DrainQueue(turns1);
      assert forall done: seq<Event> :: done + [] == done;
      if pc.Fetch? {
        more := FetchTurn(fetchOk, turns2);
        RunConcat(start, evs, more);
        evs := evs + more;
      }
      if pc.Purge? {
        more := PurgeTurn(purgeOk, turns3);
        RunConcat(start, evs, more);
        evs := evs + more;
      }
      if pc.Send? {
        more := SendLoop(turns4);
        RunConcat(start, evs, more);
        evs := evs + more;
      } else {
        LoopOver(Snapshot(), turns4, |pending| + 1);
      }
      IdleHasSentAll(Snapshot());
    }
  }

  lemma FlushOutcome(s: State, outcome: Outcome)
    requires s.open && |s.bufs| == SLOTS && s.bufs != NoBufs()
    ensures DoWriterFlush(s, outcome)
            == match outcome
               case Refused => s
               case CommitLost => s.(txs := s.txs + [Statements(s.bufs)])
               case CommitOk => s.(txs := s.txs + [Statements(s.bufs)], acks := s.acks + Buffered(s.bufs), bufs := NoBufs())
  {
    hide Gather, NoBufs;
  }

  lemma IdleHasSentAll(s: State)
    requires Inv(s) && s.pc.Idle?
    ensures !s.hitFull && (s.open ==> s.pending == [])
  {}
}
