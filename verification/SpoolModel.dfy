/** The durable message pipeline as a state machine: shard -> ingest channel -> insert buffer ->
    SQLite table -> bounded channel -> writer buffers -> one Postgres transaction -> ack channel ->
    ack buffer -> delete. One `Event` is one stretch of code without an await point, so every
    interleaving of the spooler task and the writer task is a sequence of events. */
module SpoolModel {

  datatype Kind =
    | RawEvent | TokenBar | PairBar | ClockOffset | Registry | Override | Resync | Health | Chain
    | Shock | ShockUpdate | Response | Audit | CancelSnapshot

  const WRITER_CAPACITY: nat := 4096
  const FETCH_BATCH: nat := 1000
  const ACK_BATCH: nat := 500
  const INSERT_BATCH: nat := 400
  const SLOTS: nat := 14

  /** The index of the writer buffer that holds messages of this kind; buffers are acked in this order. */
  function Slot(kind: Kind): (slot: nat)
    ensures slot < SLOTS
  {
    match kind
    case RawEvent => 0
    case TokenBar => 1
    case PairBar => 2
    case ClockOffset => 3
    case Registry => 4
    case Override => 5
    case Resync => 6
    case Health => 7
    case Chain => 8
    case Shock => 9
    case ShockUpdate => 10
    case Response => 11
    case Audit => 12
    case CancelSnapshot => 13
  }

  /** The buffer at place r of the ack order, or of the statement order of a transaction. */
  function Place(inTxOrder: bool, r: nat): (slot: nat)
    requires r < SLOTS
    ensures slot < SLOTS
  {
    if !inTxOrder then r else if r < 6 then r + 3 else if r < 9 then r - 6 else r
  }

  /** Where a buffer stands in that order: the inverse of Place. */
  function PlaceOf(inTxOrder: bool, slot: nat): (r: nat)
    requires slot < SLOTS
    ensures r < SLOTS && Place(inTxOrder, r) == slot
    ensures forall q: nat :: q < SLOTS && Place(inTxOrder, q) == slot ==> q == r
  {
    if !inTxOrder then slot else if slot < 3 then slot + 6 else if slot < 9 then slot - 3 else slot
  }

  /** The place of a kind in the statement order of a transaction. */
  function TxRank(kind: Kind): nat {
    PlaceOf(true, Slot(kind))
  }

  /** Kinds that the writer acks without writing when alpha capture is off. */
  predicate CaptureOnly(kind: Kind) {
    kind in {RawEvent, TokenBar, PairBar, Resync, Shock, ShockUpdate, Response}
  }

  /** `encodes`: serialisation into the table succeeds; `decodes`: the stored bytes can be read back. */
  datatype Msg = Msg(kind: Kind, shockId: int, encodes: bool, decodes: bool)

  /** The program counter of the spooler between the await points of pump_send. */
  datatype PumpPc = Idle | Drain | Fetch(limit: nat) | Purge(bad: seq<nat>) | Send

  datatype Outcome = Refused | CommitLost | CommitOk

  /** Row ids are 1, 2, 3, ...: the payload of row i is log[i - 1], and `log` keeps the payload of
      every row ever written. An envelope is represented by its id. */
  datatype State = State(
    alpha: bool,
    // shards, lost on a restart
    shocks: map<int, int>,
    nextShock: int,
    // spooler task, lost on a restart
    ingest: seq<Msg>,
    insertBuf: seq<Msg>,
    pending: seq<nat>,
    ackBuf: seq<nat>,
    lastSent: nat,
    pc: PumpPc,
    // channels and writer task, lost on a restart
    open: bool,
    channel: seq<nat>,
    bufs: seq<seq<nat>>,
    acks: seq<nat>,
    // counters, recomputed on a restart
    inMem: int,
    diskPending: int,
    inFlight: int,
    // durable
    log: seq<Msg>,
    table: set<nat>,
    txs: seq<seq<nat>>,
    // bookkeeping for statements only
    sent: seq<nat>,
    hitFull: bool,
    lost: set<int>,
    orphans: set<nat>
  )

  datatype Event =
    | ShardPending(key: int, encodes: bool, decodes: bool)
    | ShardFinal(key: int, encodes: bool, decodes: bool)
    | Publish(msg: Msg)
    | IngestReceive
    | FlushInsert(ok: bool)
    | PumpBegin
    | TrySend
    | PumpRows(ok: bool)
    | PumpPurge(ok: bool)
    | AckReceive
    | FlushAck(oks: seq<bool>)
    | WriterReceive
    | WriterFlush(outcome: Outcome)
    | WriterDies
    | Restart(nextShock: int)

  function NoBufs(): seq<seq<nat>> {
    seq(SLOTS, _ => [])
  }

  function Fresh(alpha: bool, nextShock: int, log: seq<Msg>, table: set<nat>, txs: seq<seq<nat>>, orphans: set<nat>): State {
    State(alpha, map[], nextShock, [], [], [], [], 0, Idle, true, [], NoBufs(), [],
          0, |table|, 0, log, table, txs, [], false, {}, orphans)
  }

  function Init(alpha: bool, nextShock: int): State {
    Fresh(alpha, nextShock, [], {}, [], {})
  }

  // ----- sequences of ids -----

  predicate Increasing(ids: seq<nat>) {
    forall a, b :: 0 <= a < b < |ids| ==> ids[a] < ids[b]
  }

  function Members(ids: seq<nat>): set<nat> {
    set i | i in ids
  }

  /** The ids that AUTOINCREMENT gives to n rows after row `last`. */
  function IdRange(last: nat, n: nat): (ids: set<nat>)
    ensures |ids| == n
    ensures forall i :: i in ids <==> last < i <= last + n
  {
    if n == 0 then {} else IdRange(last, n - 1) + {last + n}
  }

  /** The rows of `table` with from < id <= top, ascending, at most `limit` of them. */
  function Select(table: set<nat>, from: nat, top: nat, limit: nat): (rows: seq<nat>)
    decreases top - from
  {
    if limit == 0 || from >= top then []
    else if from + 1 in table then [from + 1] + Select(table, from + 1, top, limit - 1)
    else Select(table, from + 1, top, limit)
  }

  function SortDedup(ids: seq<nat>, top: nat): seq<nat> {
    Select(Members(ids), 0, top, top)
  }

  /** The buffers in places r, r + 1, ... one after the other. */
  function Gather(bufs: seq<seq<nat>>, inTxOrder: bool, r: nat): seq<nat>
    requires |bufs| == SLOTS && r <= SLOTS
    decreases SLOTS - r
  {
    if r == SLOTS then []
    else bufs[Place(inTxOrder, r)] + Gather(bufs, inTxOrder, r + 1)
  }

  /** All buffered ids in ack order. */
  function Buffered(bufs: seq<seq<nat>>): seq<nat>
    requires |bufs| == SLOTS
  {
    Gather(bufs, false, 0)
  }

  /** All buffered ids in the order in which the transaction writes them. */
  function Statements(bufs: seq<seq<nat>>): seq<nat>
    requires |bufs| == SLOTS
  {
    Gather(bufs, true, 0)
  }

  function Encodable(msgs: seq<Msg>): (kept: seq<Msg>)
    ensures |kept| <= |msgs|
  {
    if msgs == [] then []
    else (if msgs[0].encodes then [msgs[0]] else []) + Encodable(msgs[1..])
  }

  /** Shock ids whose ShockEvent is in `msgs` but cannot be serialised. */
  function DroppedShocks(msgs: seq<Msg>): set<int> {
    set m | m in msgs && m.kind.Shock? && !m.encodes :: m.shockId
  }

  /** The rows after row `base` whose update is of a shock in `lost`. */
  function Orphans(lost: set<int>, base: nat, batch: seq<Msg>): set<nat> {
    set p: nat | 0 <= p < |batch| && batch[p].kind.ShockUpdate? && batch[p].shockId in lost :: base + p + 1
  }

  predicate Decodes(log: seq<Msg>, id: nat) {
    1 <= id <= |log| && log[id - 1].decodes
  }

  function Decodable(rows: seq<nat>, log: seq<Msg>, decodes: bool): (kept: seq<nat>) {
    if rows == [] then []
    else (if Decodes(log, rows[0]) == decodes then [rows[0]] else []) + Decodable(rows[1..], log, decodes)
  }

  datatype AckResult = AckResult(remaining: seq<nat>, table: set<nat>, deleted: nat)

  /** Deletes `ids` chunk by chunk; a chunk whose statement fails stays to be retried. */
  function AckPass(ids: seq<nat>, table: set<nat>, oks: seq<bool>): AckResult
    decreases |ids|
  {
    if ids == [] then AckResult([], table, 0)
    else
      var n := if |ids| < ACK_BATCH then |ids| else ACK_BATCH;
      var chunk := Members(ids[..n]);
      var ok := oks != [] && oks[0];
      var deleted := if ok then |table * chunk| else 0;
      var rest := AckPass(ids[n..], if ok then table - chunk else table, if oks == [] then [] else oks[1..]);
      AckResult((if deleted == 0 then ids[..n] else []) + rest.remaining, rest.table, deleted + rest.deleted)
  }

  // ----- one step -----

  function Post(s: State, msg: Msg): State {
    if s.alpha then s.(ingest := s.ingest + [msg]) else s
  }

  function DoShardPending(s: State, key: int, encodes: bool, decodes: bool): State {
    var id := s.nextShock;
    Post(s.(nextShock := id + 1, shocks := s.shocks[key := id]), Msg(Shock, id, encodes, decodes))
  }

  function DoShardFinal(s: State, key: int, encodes: bool, decodes: bool): State {
    if key in s.shocks then
      Post(s.(shocks := s.shocks - {key}), Msg(ShockUpdate, s.shocks[key], encodes, decodes))
    else s
  }

  function DoPublish(s: State, msg: Msg): State {
    if msg.kind.Shock? || msg.kind.ShockUpdate? then s else s.(ingest := s.ingest + [msg])
  }

  function DoIngestReceive(s: State): State {
    if s.pc.Idle? && s.ingest != [] then
      s.(ingest := s.ingest[1..], insertBuf := s.insertBuf + [s.ingest[0]], inMem := s.inMem + 1)
    else s
  }

  function DoFlushInsert(s: State, ok: bool): State {
    if !s.pc.Idle? || s.insertBuf == [] then s
    else
      var batch := Encodable(s.insertBuf);
      var lost := s.lost + DroppedShocks(s.insertBuf);
      if batch == [] || !ok then
        s.(insertBuf := batch, inMem := s.inMem - (|s.insertBuf| - |batch|), lost := lost)
      else
        s.(insertBuf := [], inMem := s.inMem - |s.insertBuf|, diskPending := s.diskPending + |batch|,
           log := s.log + batch, table := s.table + IdRange(|s.log|, |batch|), lost := lost,
           orphans := s.orphans + Orphans(lost, |s.log|, batch))
  }

  function DoPumpBegin(s: State): State {
    if s.pc.Idle? then s.(pc := Drain) else s
  }

  function Min(a: nat, b: nat): (m: nat)
    ensures m <= a && m <= b && (m == a || m == b)
  {
    if a < b then a else b
  }

  /** One turn of either send loop, with the code after the loop when nothing is left to send. */
  function DoTrySend(s: State): State {
    if !s.pc.Drain? && !s.pc.Send? then s
    else if s.pending == [] then
      var free := if |s.channel| >= WRITER_CAPACITY then 0 else WRITER_CAPACITY - |s.channel|;
      s.(pc := if s.pc.Send? || free == 0 then Idle else Fetch(Min(FETCH_BATCH, free)))
    else if !s.open then s.(pending := s.pending[1..], pc := Idle)
    else if |s.channel| >= WRITER_CAPACITY then s.(hitFull := true, pc := Idle)
    else s.(pending := s.pending[1..], channel := s.channel + [s.pending[0]],
            sent := s.sent + [s.pending[0]], inFlight := s.inFlight + 1)
  }

  function DoPumpRows(s: State, ok: bool): State {
    if !s.pc.Fetch? then s
    else
      var rows := Select(s.table, s.lastSent, |s.log|, s.pc.limit);
      if !ok || rows == [] then s.(pc := Idle)
      else s.(pending := s.pending + Decodable(rows, s.log, true),
              lastSent := rows[|rows| - 1],
              pc := Purge(Decodable(rows, s.log, false)))
  }

  function DoPumpPurge(s: State, ok: bool): State {
    if !s.pc.Purge? then s
    else
      var bad := if ok then Members(s.pc.bad) else {};
      s.(table := s.table - bad, diskPending := s.diskPending - |s.table * bad|, pc := Send)
  }

  function DoAckReceive(s: State): State {
    if s.pc.Idle? && s.acks != [] then
      s.(acks := s.acks[1..], ackBuf := s.ackBuf + [s.acks[0]], inFlight := s.inFlight - 1)
    else s
  }

  function DoFlushAck(s: State, oks: seq<bool>): State {
    if !s.pc.Idle? || s.ackBuf == [] then s
    else
      var r := AckPass(SortDedup(s.ackBuf, |s.log|), s.table, oks);
      s.(ackBuf := r.remaining, table := r.table, diskPending := s.diskPending - r.deleted)
  }

  predicate Persisted(alpha: bool, kind: Kind) {
    alpha || !CaptureOnly(kind)
  }

  function DoWriterReceive(s: State): State {
    if !s.open || s.channel == [] || |s.bufs| != SLOTS || !(1 <= s.channel[0] <= |s.log|) then s
    else
      var id := s.channel[0];
      var kind := s.log[id - 1].kind;
      var rest := s.(channel := s.channel[1..]);
      if Persisted(s.alpha, kind) then rest.(bufs := s.bufs[Slot(kind) := s.bufs[Slot(kind)] + [id]])
      else rest.(acks := s.acks + [id])
  }

  function DoWriterFlush(s: State, outcome: Outcome): State {
    if !s.open || |s.bufs| != SLOTS || s.bufs == NoBufs() then s
    else match outcome
      case Refused => s
      case CommitLost => s.(txs := s.txs + [Statements(s.bufs)])
      case CommitOk => s.(txs := s.txs + [Statements(s.bufs)], acks := s.acks + Buffered(s.bufs), bufs := NoBufs())
  }

  function DoWriterDies(s: State): State {
    s.(open := false, channel := [], bufs := NoBufs())
  }

  function Apply(s: State, ev: Event): State {
    match ev
    case ShardPending(key, encodes, decodes) => DoShardPending(s, key, encodes, decodes)
    case ShardFinal(key, encodes, decodes) => DoShardFinal(s, key, encodes, decodes)
    case Publish(msg) => DoPublish(s, msg)
    case IngestReceive => DoIngestReceive(s)
    case FlushInsert(ok) => DoFlushInsert(s, ok)
    case PumpBegin => DoPumpBegin(s)
    case TrySend => DoTrySend(s)
    case PumpRows(ok) => DoPumpRows(s, ok)
    case PumpPurge(ok) => DoPumpPurge(s, ok)
    case AckReceive => DoAckReceive(s)
    case FlushAck(oks) => DoFlushAck(s, oks)
    case WriterReceive => DoWriterReceive(s)
    case WriterFlush(outcome) => DoWriterFlush(s, outcome)
    case WriterDies => DoWriterDies(s)
    case Restart(nextShock) => Fresh(s.alpha, nextShock, s.log, s.table, s.txs, s.orphans)
  }

  function Run(s: State, evs: seq<Event>): State
    decreases |evs|
  {
    if evs == [] then s else Apply(Run(s, evs[..|evs| - 1]), evs[|evs| - 1])
  }

  lemma {:induction false} RunConcat(s: State, a: seq<Event>, b: seq<Event>)
    ensures Run(s, a + b) == Run(Run(s, a), b)
    decreases |b|
  {
    hide Apply;
    if b == [] {
      assert a + b == a;
    } else {
      var c := a + b;
      assert c[..|c| - 1] == a + b[..|b| - 1];
      RunConcat(s, a, b[..|b| - 1]);
    }
  }
}
