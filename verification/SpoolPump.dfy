/** One pump of the spooler, with everything the other tasks do between its steps: which events it is, and
    what it has done to the rows when it ends. */
module SpoolPump {
  import opened SpoolModel
  import opened SpoolSafety

  /** Events of the other tasks, which may happen while the spooler is inside pump_send. */
  predicate Elsewhere(ev: Event) {
    ev.ShardPending? || ev.ShardFinal? || ev.Publish? || ev.WriterReceive? || ev.WriterFlush? || ev.WriterDies?
  }

  predicate AllElsewhere(evs: seq<Event>) {
    forall j :: 0 <= j < |evs| ==> Elsewhere(evs[j])
  }

  predicate TurnsElsewhere(turns: seq<seq<Event>>) {
    forall k :: 0 <= k < |turns| ==> AllElsewhere(turns[k])
  }

  lemma RunNone(s: State)
    ensures Run(s, []) == s
  {
    hide Apply;
  }

  lemma RunOne(s: State, evs: seq<Event>, ev: Event)
    ensures Run(s, evs + [ev]) == Apply(Run(s, evs), ev)
  {
    hide Apply;
    assert (evs + [ev])[..|evs|] == evs;
  }

  lemma StepIsApply(s: State, ev: Event)
    ensures ev.TrySend? ==> Apply(s, ev) == DoTrySend(s)
    ensures ev.PumpBegin? ==> Apply(s, ev) == DoPumpBegin(s)
    ensures ev.PumpRows? ==> Apply(s, ev) == DoPumpRows(s, ev.ok)
    ensures ev.PumpPurge? ==> Apply(s, ev) == DoPumpPurge(s, ev.ok)
  {}

  // ----- the events of a pump -----

  predicate Sending(pc: PumpPc) {
    pc.Drain? || pc.Send?
  }

  function FirstOf(turns: seq<seq<Event>>): seq<Event> {
    if turns == [] then [] else turns[0]
  }

  function RestOf(turns: seq<seq<Event>>): seq<seq<Event>> {
    if turns == [] then [] else turns[1..]
  }

  /** A send loop: one try_send a turn, after what the others do in that turn, until the loop ends. */
  ghost function LoopEvents(s: State, turns: seq<seq<Event>>, fuel: nat): seq<Event>
    decreases fuel
  {
    if fuel == 0 || !Sending(s.pc) then []
    else
      var evs := FirstOf(turns) + [TrySend];
      evs + LoopEvents(Run(s, evs), RestOf(turns), fuel - 1)
  }

  /** A loop takes no more turns than there are queued envelopes, and one to find the queue empty. */
  ghost function WholeLoop(s: State, turns: seq<seq<Event>>): seq<Event> {
    LoopEvents(s, turns, |s.pending| + 1)
  }

  ghost function FetchEvents(s: State, fetchOk: bool, turn: seq<Event>): seq<Event> {
    if s.pc.Fetch? then turn + [PumpRows(fetchOk)] else []
  }

  ghost function PurgeEvents(s: State, purgeOk: bool, turn: seq<Event>): seq<Event> {
    if s.pc.Purge? then turn + [PumpPurge(purgeOk)] else []
  }

  /** Whatever the others do: send what is queued, fetch if there is room, purge, send. */
  ghost function PumpEvents(s: State, fetchOk: bool, purgeOk: bool, turns1: seq<seq<Event>>, turns2: seq<Event>,
                            turns3: seq<Event>, turns4: seq<seq<Event>>): seq<Event> {
    var a := [PumpBegin] + WholeLoop(Run(s, [PumpBegin]), turns1);
    var b := a + FetchEvents(Run(s, a), fetchOk, turns2);
    var c := b + PurgeEvents(Run(s, b), purgeOk, turns3);
    c + WholeLoop(Run(s, c), turns4)
  }

  // ----- what the other tasks leave alone -----

  /** What belongs to the spooler and to the disk. */
  ghost predicate SameSpool(s: State, t: State) {
    && t.alpha == s.alpha && t.insertBuf == s.insertBuf && t.pending == s.pending && t.ackBuf == s.ackBuf
    && t.lastSent == s.lastSent && t.pc == s.pc && t.inMem == s.inMem && t.diskPending == s.diskPending
    && t.inFlight == s.inFlight && t.log == s.log && t.table == s.table && t.sent == s.sent
    && t.hitFull == s.hitFull && t.lost == s.lost && t.orphans == s.orphans && (t.open ==> s.open)
  }

  lemma ShardsKeepSpool(s: State, key: int, encodes: bool, decodes: bool, msg: Msg)
    ensures SameSpool(s, DoShardPending(s, key, encodes, decodes)) && SameSpool(s, DoShardFinal(s, key, encodes, decodes))
    ensures SameSpool(s, DoPublish(s, msg))
  {}

  lemma WriterKeepsSpool(s: State, outcome: Outcome)
    ensures SameSpool(s, DoWriterReceive(s)) && SameSpool(s, DoWriterFlush(s, outcome)) && SameSpool(s, DoWriterDies(s))
  {
    hide Slot, Persisted, Gather, NoBufs, Statements, Buffered;
  }

  lemma OthersKeepSpool(s: State, ev: Event)
    requires Elsewhere(ev)
    ensures SameSpool(s, Apply(s, ev))
  {
    hide DoShardPending, DoShardFinal, DoPublish, DoWriterReceive, DoWriterFlush, DoWriterDies, SameSpool;
    match ev
    case ShardPending(key, encodes, decodes) => ShardsKeepSpool(s, key, encodes, decodes, Msg(Shock, 0, true, true));
    case ShardFinal(key, encodes, decodes) => ShardsKeepSpool(s, key, encodes, decodes, Msg(Shock, 0, true, true));
    case Publish(msg) => ShardsKeepSpool(s, 0, true, true, msg);
    case WriterReceive => WriterKeepsSpool(s, Refused);
    case WriterFlush(outcome) => WriterKeepsSpool(s, outcome);
    case WriterDies => WriterKeepsSpool(s, Refused);
  }

  lemma {:induction false} TurnKeepsSpool(s: State, turn: seq<Event>)
    requires Inv(s) && AllElsewhere(turn)
    ensures Inv(Run(s, turn)) && SameSpool(s, Run(s, turn))
    decreases |turn|
  {
    hide Inv, Apply, SameSpool, Elsewhere;
    if turn == [] {
      RunNone(s);
      SameItself(s);
    } else {
      var front, ev := turn[..|turn| - 1], turn[|turn| - 1];
      TurnKeepsSpool(s, front);
      KeepsApply(Run(s, front), ev);
      OthersKeepSpool(Run(s, front), ev);
      SameTwice(s, Run(s, front), Apply(Run(s, front), ev));
    }
  }

  lemma SameItself(s: State)
    ensures SameSpool(s, s)
  {}

  lemma SameTwice(s: State, t: State, u: State)
    requires SameSpool(s, t) && SameSpool(t, u)
    ensures SameSpool(s, u)
  {}

  // ----- one send loop -----

  /** The parts of the spool that a send loop leaves alone. */
  ghost predicate SameRest(s: State, t: State) {
    && t.alpha == s.alpha && t.insertBuf == s.insertBuf && t.ackBuf == s.ackBuf && t.lastSent == s.lastSent
    && t.inMem == s.inMem && t.diskPending == s.diskPending && t.log == s.log && t.table == s.table
    && t.lost == s.lost && t.orphans == s.orphans && (t.open ==> s.open)
  }

  /** Envelopes went from the front of the queue into the channel, all of them while the writer lives. */
  ghost predicate SentSome(s: State, t: State) {
    && SameRest(s, t)
    && s.sent <= t.sent && t.sent <= s.sent + s.pending
    && t.inFlight == s.inFlight + |t.sent| - |s.sent|
    && (t.open ==> t.sent == s.sent + s.pending && t.pending == [])
  }

  /** A try_send when the queue is not empty: the envelope goes, or the channel is closed and it is dropped. */
  lemma TrySendIs(s: State)
    requires Sending(s.pc) && s.pending != [] && (s.open ==> |s.channel| < WRITER_CAPACITY)
    ensures DoTrySend(s) ==
            if s.open then s.(pending := s.pending[1..], channel := s.channel + [s.pending[0]],
                              sent := s.sent + [s.pending[0]], inFlight := s.inFlight + 1)
            else s.(pending := s.pending[1..], pc := Idle)
  {}

  lemma TrySendMoves(s: State)
    requires Inv(s) && Sending(s.pc) && s.pending != []
    ensures var t := DoTrySend(s);
            && SameRest(s, t) && t.open == s.open && t.pending == s.pending[1..]
            && (if s.open then t.pc == s.pc && t.sent == s.sent + [s.pending[0]] && t.inFlight == s.inFlight + 1
                else t.pc.Idle? && t.sent == s.sent && t.inFlight == s.inFlight)
  {
    hide Inv, DoTrySend;
    if s.open {
      NeverFull(s);
    }
    TrySendIs(s);
  }

  lemma NeverFull(s: State)
    requires Inv(s) && Sending(s.pc) && s.open && s.pending != []
    ensures |s.channel| < WRITER_CAPACITY
  {
    hide Gather, Shape, Durable, Ordered, PrefixCommit, Closed, Acked, Partition, Counted, TxsSorted, ShocksKnown;
  }

  /** A try_send when the queue is empty: the loop is over. */
  lemma TrySendEnds(s: State)
    requires Sending(s.pc) && s.pending == []
    ensures var t, free := DoTrySend(s), if |s.channel| >= 4096 then 0 else 4096 - |s.channel|;
            t == s.(pc := if s.pc.Send? || free == 0 then Idle else Fetch(if free < 1000 then free else 1000))
  {}

  /** One turn of the loop on a queue that is not empty, then the rest of it. */
  lemma SentOneMore(s: State, m: State, t: State, u: State)
    requires SameSpool(s, m) && m.pending != [] && SentSome(t, u)
    requires SameRest(m, t) && t.open == m.open && t.pending == m.pending[1..]
    requires if m.open then t.sent == m.sent + [m.pending[0]] && t.inFlight == m.inFlight + 1
             else t.sent == m.sent && t.inFlight == m.inFlight && u.sent == t.sent && u.pending == t.pending
    ensures SentSome(s, u)
  {
    assert s.pending == [s.pending[0]] + s.pending[1..];
    if m.open {
      assert t.sent + t.pending == s.sent + s.pending;
    }
  }

  lemma TurnByTurn(turns: seq<seq<Event>>)
    requires TurnsElsewhere(turns)
    ensures AllElsewhere(FirstOf(turns)) && TurnsElsewhere(RestOf(turns))
  {
    hide Elsewhere;
  }

  lemma NothingLeft(s: State, m: State, t: State)
    requires SameSpool(s, m) && m.pending == [] && t == m.(pc := t.pc)
    ensures SentSome(s, t)
  {}

  lemma NothingSent(t: State)
    requires !t.open
    ensures SentSome(t, t)
  {}

  lemma SamePc(s: State, m: State)
    requires SameSpool(s, m)
    ensures m.pc == s.pc && m.pending == s.pending
  {}

  /** The first turn of a send loop. */
  lemma LoopTurn(s: State, turns: seq<seq<Event>>, fuel: nat)
    requires Inv(s) && Sending(s.pc) && TurnsElsewhere(turns) && fuel > 0
    ensures var m, t := Run(s, FirstOf(turns)), Run(s, FirstOf(turns) + [TrySend]);
            && t == DoTrySend(m) && Inv(m) && Inv(t) && SameSpool(s, m)
            && Run(s, LoopEvents(s, turns, fuel)) == Run(t, LoopEvents(t, RestOf(turns), fuel - 1))
  {
    hide Inv, Apply, Run, SameSpool, DoTrySend, AllElsewhere;
    TurnByTurn(turns);
    var turn, evs := FirstOf(turns), FirstOf(turns) + [TrySend];
    TurnKeepsSpool(s, turn);
    RunOne(s, turn, TrySend);
    StepIsApply(Run(s, turn), TrySend);
    KeepsApply(Run(s, turn), TrySend);
    RunConcat(s, evs, LoopEvents(Run(s, evs), RestOf(turns), fuel - 1));
  }

  lemma LoopUnfold(s: State, turns: seq<seq<Event>>, fuel: nat, done: seq<Event>)
    requires Sending(s.pc) && fuel > 0
    ensures var evs := FirstOf(turns) + [TrySend];
            done + LoopEvents(s, turns, fuel) == done + evs + LoopEvents(Run(s, evs), RestOf(turns), fuel - 1)
  {
    var evs := FirstOf(turns) + [TrySend];
    hide Run;
    assert LoopEvents(s, turns, fuel) == evs + LoopEvents(Run(s, evs), RestOf(turns), fuel - 1);
  }

  lemma LoopOver(s: State, turns: seq<seq<Event>>, fuel: nat)
    requires !Sending(s.pc)
    ensures LoopEvents(s, turns, fuel) == [] && Run(s, LoopEvents(s, turns, fuel)) == s
  {
    RunNone(s);
  }

  lemma {:induction false} LoopSends(s: State, turns: seq<seq<Event>>, fuel: nat)
    requires Inv(s) && Sending(s.pc) && TurnsElsewhere(turns) && fuel > |s.pending|
    ensures var t := Run(s, LoopEvents(s, turns, fuel));
            && Inv(t) && SentSome(s, t)
            && (t.pc.Idle? || (s.pc.Drain? && t.pc.Fetch?))
    decreases fuel
  {
    hide Inv, Apply, Run, SameSpool, SameRest, SentSome, DoTrySend, TurnsElsewhere, LoopEvents;
    var m, t := Run(s, FirstOf(turns)), Run(s, FirstOf(turns) + [TrySend]);
    LoopTurn(s, turns, fuel);
    SamePc(s, m);
    TurnByTurn(turns);
    if m.pending == [] {
      TrySendEnds(m);
      LoopOver(t, RestOf(turns), fuel - 1);
      NothingLeft(s, m, t);
    } else {
      TrySendMoves(m);
      if m.open {
        LoopSends(t, RestOf(turns), fuel - 1);
      } else {
        LoopOver(t, RestOf(turns), fuel - 1);
        NothingSent(t);
      }
      SentOneMore(s, m, t, Run(t, LoopEvents(t, RestOf(turns), fuel - 1)));
    }
  }

  // ----- from the first loop to the last -----

  lemma StartIgnoresPc(s: State, key: int, encodes: bool, decodes: bool, pc: PumpPc)
    ensures DoShardPending(s.(pc := pc), key, encodes, decodes) == DoShardPending(s, key, encodes, decodes).(pc := pc)
  {}

  lemma EndIgnoresPc(s: State, key: int, encodes: bool, decodes: bool, pc: PumpPc)
    ensures DoShardFinal(s.(pc := pc), key, encodes, decodes) == DoShardFinal(s, key, encodes, decodes).(pc := pc)
  {}

  lemma PublishIgnoresPc(s: State, msg: Msg, pc: PumpPc)
    ensures DoPublish(s.(pc := pc), msg) == DoPublish(s, msg).(pc := pc)
  {}

  lemma ReceiveIgnoresPc(s: State, pc: PumpPc)
    ensures DoWriterReceive(s.(pc := pc)) == DoWriterReceive(s).(pc := pc)
  {
    hide Slot, Persisted, Apply;
    if !s.open || s.channel == [] || |s.bufs| != SLOTS || !(1 <= s.channel[0] <= |s.log|) { return; }
    var id := s.channel[0];
    var kind := s.log[id - 1].kind;
    var more := s.bufs[Slot(kind) := s.bufs[Slot(kind)] + [id]];
    assert DoWriterReceive(s) == if Persisted(s.alpha, kind) then s.(channel := s.channel[1..], bufs := more)
                                 else s.(channel := s.channel[1..], acks := s.acks + [id]);
  }

  lemma FlushIgnoresPc(s: State, outcome: Outcome, pc: PumpPc)
    ensures DoWriterFlush(s.(pc := pc), outcome) == DoWriterFlush(s, outcome).(pc := pc)
  {
    hide Gather, NoBufs, Statements, Buffered;
  }

  /** The other tasks do not see how far the spooler is. */
  lemma OthersIgnorePc(s: State, ev: Event, pc: PumpPc)
    requires Elsewhere(ev)
    ensures Apply(s.(pc := pc), ev) == Apply(s, ev).(pc := pc)
  {
    hide DoShardPending, DoShardFinal, DoPublish, DoWriterReceive, DoWriterFlush, NoBufs;
    match ev
    case ShardPending(key, encodes, decodes) => StartIgnoresPc(s, key, encodes, decodes, pc);
    case ShardFinal(key, encodes, decodes) => EndIgnoresPc(s, key, encodes, decodes, pc);
    case Publish(msg) => PublishIgnoresPc(s, msg, pc);
    case WriterReceive => ReceiveIgnoresPc(s, pc);
    case WriterFlush(outcome) => FlushIgnoresPc(s, outcome, pc);
    case WriterDies =>
  }

  lemma {:induction false} TurnIgnoresPc(s: State, turn: seq<Event>, pc: PumpPc)
    requires AllElsewhere(turn)
    ensures Run(s.(pc := pc), turn) == Run(s, turn).(pc := pc)
    decreases |turn|
  {
    hide Apply, Elsewhere;
    if turn != [] {
      TurnIgnoresPc(s, turn[..|turn| - 1], pc);
      OthersIgnorePc(Run(s, turn[..|turn| - 1]), turn[|turn| - 1], pc);
    }
  }

  /** How many rows there is room for: places free in the channel, at most 1000. */
  function RoomFor(channel: seq<nat>): nat {
    var free := if |channel| >= 4096 then 0 else 4096 - |channel|;
    if free < 1000 then free else 1000
  }

  /** The first loop: with nothing queued it only finds out how many rows there is room for; a queue left over
      by a dead writer loses its front. */
  lemma DrainEnds(s: State, turns: seq<seq<Event>>)
    requires Inv(s) && s.pc.Idle? && TurnsElsewhere(turns)
    ensures var t, room := Run(s, [PumpBegin] + WholeLoop(Run(s, [PumpBegin]), turns)), RoomFor(Run(s, FirstOf(turns)).channel);
            && Inv(t)
            && (if s.pending == [] then SameSpool(s.(pc := t.pc), t) && t.pc == if room == 0 then Idle else Fetch(room)
                else !s.open && SentSome(s, t) && t.sent == s.sent && t.pending == s.pending[1..] && t.pc.Idle?)
  {
    hide Inv, Apply, Run, SameSpool, SameRest, SentSome, DoTrySend, TurnsElsewhere, LoopEvents, RoomFor;
    var begun, turn := Run(s, [PumpBegin]), FirstOf(turns);
    Begun(s);
    RunConcat(s, [PumpBegin], WholeLoop(begun, turns));
    LoopTurn(begun, turns, |begun.pending| + 1);
    TurnByTurn(turns);
    TurnIgnoresPc(s, turn, Drain);
    var m, t := Run(begun, turn), Run(begun, turn + [TrySend]);
    SamePc(begun, m);
    if s.pending == [] {
      TrySendEnds(m);
      RoomIs(m.channel);
      LoopOver(t, RestOf(turns), |begun.pending|);
      OnlyPc(begun, m, s, t);
    } else {
      ClosedWhenLeftOver(s);
      StaysClosed(begun, m);
      TrySendMoves(m);
      LoopOver(t, RestOf(turns), |begun.pending|);
      DroppedFront(s, begun, m, t);
    }
  }

  lemma RoomIs(channel: seq<nat>)
    ensures var free := if |channel| >= 4096 then 0 else 4096 - |channel|;
            RoomFor(channel) == (if free < 1000 then free else 1000) && (RoomFor(channel) == 0 <==> free == 0)
  {}

  lemma Begun(s: State)
    requires Inv(s) && s.pc.Idle?
    ensures Run(s, [PumpBegin]) == s.(pc := Drain) && Inv(Run(s, [PumpBegin]))
  {
    hide Inv, Apply;
    RunNone(s);
    RunOne(s, [], PumpBegin);
    assert [] + [PumpBegin] == [PumpBegin];
    StepIsApply(s, PumpBegin);
    KeepsApply(s, PumpBegin);
  }

  lemma OnlyPc(begun: State, m: State, s: State, t: State)
    requires begun == s.(pc := begun.pc) && SameSpool(begun, m) && t == m.(pc := t.pc)
    ensures SameSpool(s.(pc := t.pc), t)
  {}

  lemma ClosedWhenLeftOver(s: State)
    requires Inv(s) && s.pc.Idle? && s.pending != []
    ensures !s.open
  {
    hide Gather, Shape, Durable, Ordered, PrefixCommit, Closed, Acked, Partition, Counted, TxsSorted, ShocksKnown;
  }

  lemma StaysClosed(s: State, m: State)
    requires SameSpool(s, m) && !s.open
    ensures !m.open
  {}

  lemma DroppedFront(s: State, begun: State, m: State, t: State)
    requires begun == s.(pc := begun.pc) && SameSpool(begun, m) && SameRest(m, t) && !t.open
    requires t.sent == m.sent && t.inFlight == m.inFlight
    ensures SentSome(s, t) && t.sent == s.sent
  {}

  /** The fetch, after whatever the others did. */
  lemma FetchEnds(s: State, ok: bool, turn: seq<Event>)
    requires Inv(s) && s.pc.Fetch? && AllElsewhere(turn)
    ensures var t, rows := Run(s, turn + [PumpRows(ok)]), Select(s.table, s.lastSent, |s.log|, s.pc.limit);
            && Inv(t)
            && (if !ok || rows == [] then SameSpool(s.(pc := Idle), t)
                else SameSpool(s.(pending := s.pending + Decodable(rows, s.log, true), lastSent := rows[|rows| - 1],
                                  pc := Purge(Decodable(rows, s.log, false))), t))
  {
    hide Inv, Apply, Run, Select, Decodable;
    var m := Run(s, turn);
    TurnKeepsSpool(s, turn);
    RunOne(s, turn, PumpRows(ok));
    StepIsApply(m, PumpRows(ok));
    KeepsApply(m, PumpRows(ok));
  }

  /** The delete of undecodable rows, after whatever the others did. */
  lemma PurgeEnds(s: State, ok: bool, turn: seq<Event>)
    requires Inv(s) && s.pc.Purge? && AllElsewhere(turn)
    ensures var t, bad := Run(s, turn + [PumpPurge(ok)]), if ok then Members(s.pc.bad) else {};
            && Inv(t)
            && SameSpool(s.(table := s.table - bad, diskPending := s.diskPending - |s.table * bad|, pc := Send), t)
  {
    hide Inv, Apply, Run, Members;
    var m := Run(s, turn);
    TurnKeepsSpool(s, turn);
    RunOne(s, turn, PumpPurge(ok));
    StepIsApply(m, PumpPurge(ok));
    KeepsApply(m, PumpPurge(ok));
  }

  /** What a pump has done to the rows when it ends, if there was room for `room` of them when it looked. */
  ghost predicate Pumped(s: State, t: State, fetchOk: bool, purgeOk: bool, room: nat) {
    var rows := Select(s.table, s.lastSent, |s.log|, room);
    var good, bad := Decodable(rows, s.log, true), Decodable(rows, s.log, false);
    && t.log == s.log && t.insertBuf == s.insertBuf && t.ackBuf == s.ackBuf && t.inMem == s.inMem
    && t.inFlight == s.inFlight + |t.sent| - |s.sent|
    && (if s.pending != [] then
          t.lastSent == s.lastSent && t.table == s.table && t.sent == s.sent && t.pending == s.pending[1..]
        else if !fetchOk || rows == [] then
          t.lastSent == s.lastSent && t.table == s.table && t.sent == s.sent && t.pending == []
        else
          && t.lastSent == rows[|rows| - 1] && t.table == s.table - (if purgeOk then Members(bad) else {})
          && s.sent <= t.sent && t.sent <= s.sent + good
          && (t.open ==> t.sent == s.sent + good && t.pending == []))
  }

  lemma PumpedLeftOver(s: State, t: State, fetchOk: bool, purgeOk: bool, room: nat)
    requires s.pending != [] && SentSome(s, t) && t.sent == s.sent && t.pending == s.pending[1..]
    ensures Pumped(s, t, fetchOk, purgeOk, room)
  {
    hide Select, Decodable;
  }

  lemma NoRoomNoRows(s: State)
    ensures Select(s.table, s.lastSent, |s.log|, 0) == []
  {}

  lemma PumpedNothing(s: State, a: State, t: State, fetchOk: bool, purgeOk: bool, room: nat)
    requires s.pending == [] && SameSpool(s.(pc := a.pc), a) && SameSpool(a.(pc := t.pc), t)
    requires !fetchOk || Select(s.table, s.lastSent, |s.log|, room) == []
    ensures Pumped(s, t, fetchOk, purgeOk, room)
  {
    hide Select, Decodable;
  }

  lemma PumpedRows(s: State, a: State, b: State, c: State, t: State, purgeOk: bool, room: nat)
    requires s.pending == [] && SameSpool(s.(pc := a.pc), a)
    requires var rows := Select(s.table, s.lastSent, |s.log|, room);
             && rows != []
             && SameSpool(a.(pending := a.pending + Decodable(rows, a.log, true), lastSent := rows[|rows| - 1],
                             pc := Purge(Decodable(rows, a.log, false))), b)
    requires b.pc.Purge?
    requires var bad := if purgeOk then Members(b.pc.bad) else {};
             SameSpool(b.(table := b.table - bad, diskPending := b.diskPending - |b.table * bad|, pc := Send), c)
    requires SentSome(c, t)
    ensures Pumped(s, t, true, purgeOk, room)
  {
    hide Select, Decodable, Members;
  }

  /** The four stretches of a pump one after the other. */
  lemma PumpSplits(s: State, fetchOk: bool, purgeOk: bool, turns1: seq<seq<Event>>, turns2: seq<Event>,
                   turns3: seq<Event>, turns4: seq<seq<Event>>) returns (a: State, b: State, c: State)
    ensures a == Run(s, [PumpBegin] + WholeLoop(Run(s, [PumpBegin]), turns1))
    ensures b == Run(a, FetchEvents(a, fetchOk, turns2))
    ensures c == Run(b, PurgeEvents(b, purgeOk, turns3))
    ensures Run(s, PumpEvents(s, fetchOk, purgeOk, turns1, turns2, turns3, turns4)) == Run(c, WholeLoop(c, turns4))
  {
    hide Run, Apply, WholeLoop, FetchEvents, PurgeEvents;
    var x := [PumpBegin] + WholeLoop(Run(s, [PumpBegin]), turns1);
    a := Run(s, x);
    RunConcat(s, x, FetchEvents(a, fetchOk, turns2));
    var y := x + FetchEvents(a, fetchOk, turns2);
    b := Run(s, y);
    RunConcat(s, y, PurgeEvents(b, purgeOk, turns3));
    var z := y + PurgeEvents(b, purgeOk, turns3);
    c := Run(s, z);
    RunConcat(s, z, WholeLoop(c, turns4));
  }

  /** A pump that has stopped early does nothing more. */
  lemma StoppedEarly(s: State, fetchOk: bool, purgeOk: bool, turns2: seq<Event>, turns3: seq<Event>, turns4: seq<seq<Event>>)
    requires s.pc.Idle?
    ensures Run(s, FetchEvents(s, fetchOk, turns2)) == s && Run(s, PurgeEvents(s, purgeOk, turns3)) == s
    ensures Run(s, WholeLoop(s, turns4)) == s
  {
    RunNone(s);
    hide Run;
  }

  lemma NotYet(s: State, fetchOk: bool, purgeOk: bool, turns2: seq<Event>, turns3: seq<Event>)
    ensures s.pc.Fetch? ==> FetchEvents(s, fetchOk, turns2) == turns2 + [PumpRows(fetchOk)]
    ensures s.pc.Purge? ==> PurgeEvents(s, purgeOk, turns3) == turns3 + [PumpPurge(purgeOk)]
  {}

  lemma SamePool(s: State, t: State)
    requires SameSpool(s, t)
    ensures t.pc == s.pc && t.pending == s.pending && t.table == s.table && t.lastSent == s.lastSent && t.log == s.log
  {}

  /** Whatever the other tasks do meanwhile: the pump takes the first rows above the last sent one for which
      there is room, drops the undecodable ones, and while the writer lives leaves none of the others unsent. */
  lemma PumpDelivers(s: State, fetchOk: bool, purgeOk: bool, turns1: seq<seq<Event>>, turns2: seq<Event>,
                     turns3: seq<Event>, turns4: seq<seq<Event>>)
    requires Inv(s) && s.pc.Idle?
    requires TurnsElsewhere(turns1) && AllElsewhere(turns2) && AllElsewhere(turns3) && TurnsElsewhere(turns4)
    ensures var t := Run(s, PumpEvents(s, fetchOk, purgeOk, turns1, turns2, turns3, turns4));
            Inv(t) && t.pc.Idle? && Pumped(s, t, fetchOk, purgeOk, RoomFor(Run(s, FirstOf(turns1)).channel))
  {
    hide Inv, Run, Apply, SameSpool, SentSome, FetchEvents, PurgeEvents, LoopEvents, Pumped, RoomFor, Select, Decodable,
         PumpEvents, AllElsewhere, TurnsElsewhere, Members;
    var room := RoomFor(Run(s, FirstOf(turns1)).channel);
    var a, b, c := PumpSplits(s, fetchOk, purgeOk, turns1, turns2, turns3, turns4);
    DrainEnds(s, turns1);
    if a.pc.Idle? {
      StoppedEarly(a, fetchOk, purgeOk, turns2, turns3, turns4);
      if s.pending != [] {
        PumpedLeftOver(s, a, fetchOk, purgeOk, room);
      } else {
        NoRoomNoRows(s);
        SameItself(a);
        PumpedNothing(s, a, a, fetchOk, purgeOk, room);
      }
    } else {
      NotYet(a, fetchOk, purgeOk, turns2, turns3);
      FetchEnds(a, fetchOk, turns2);
      SamePool(s.(pc := a.pc), a);
      FetchedOrNot(s, a, b, c, fetchOk, purgeOk, room, turns2, turns3, turns4);
    }
  }

  lemma FetchedOrNot(s: State, a: State, b: State, c: State, fetchOk: bool, purgeOk: bool, room: nat, turns2: seq<Event>,
                     turns3: seq<Event>, turns4: seq<seq<Event>>)
    requires Inv(b) && AllElsewhere(turns3) && TurnsElsewhere(turns4) && s.pending == [] && SameSpool(s.(pc := a.pc), a)
    requires c == Run(b, PurgeEvents(b, purgeOk, turns3))
    requires var rows := Select(s.table, s.lastSent, |s.log|, room);
             if !fetchOk || rows == [] then SameSpool(a.(pc := Idle), b)
             else SameSpool(a.(pending := a.pending + Decodable(rows, a.log, true), lastSent := rows[|rows| - 1],
                               pc := Purge(Decodable(rows, a.log, false))), b)
    ensures var t := Run(c, WholeLoop(c, turns4)); Inv(t) && t.pc.Idle? && Pumped(s, t, fetchOk, purgeOk, room)
  {
    hide Inv, Run, Apply, SameSpool, SentSome, FetchEvents, PurgeEvents, LoopEvents, Pumped, Select, Decodable,
         AllElsewhere, TurnsElsewhere, Members;
    var rows := Select(s.table, s.lastSent, |s.log|, room);
    if !fetchOk || rows == [] {
      SamePool(a.(pc := Idle), b);
      StoppedEarly(b, fetchOk, purgeOk, turns2, turns3, turns4);
      StillPc(a, b);
      PumpedNothing(s, a, b, fetchOk, purgeOk, room);
    } else {
      SamePool(a.(pending := a.pending + Decodable(rows, a.log, true), lastSent := rows[|rows| - 1],
                  pc := Purge(Decodable(rows, a.log, false))), b);
      NotYet(b, fetchOk, purgeOk, turns2, turns3);
      PurgeEnds(b, purgeOk, turns3);
      var bad := if purgeOk then Members(b.pc.bad) else {};
      SamePool(b.(table := b.table - bad, diskPending := b.diskPending - |b.table * bad|, pc := Send), c);
      LoopSends(c, turns4, |c.pending| + 1);
      PumpedRows(s, a, b, c, Run(c, WholeLoop(c, turns4)), purgeOk, room);
    }
  }

  lemma StillPc(a: State, b: State)
    requires SameSpool(a.(pc := Idle), b)
    ensures SameSpool(a.(pc := b.pc), b)
  {}

  // ----- when nobody interferes -----

  predicate Own(ev: Event) {
    ev.PumpBegin? || ev.TrySend? || ev.PumpRows? || ev.PumpPurge?
  }

  predicate AllOwn(evs: seq<Event>) {
    forall j :: 0 <= j < |evs| ==> Own(evs[j])
  }

  ghost predicate SameWriter(s: State, t: State) {
    t.open == s.open && t.bufs == s.bufs && t.acks == s.acks && t.txs == s.txs
  }

  lemma OwnStepKeepsWriter(s: State, ev: Event)
    requires Own(ev)
    ensures SameWriter(s, Apply(s, ev))
  {
    hide Select, Decodable, Members;
    match ev
    case _ =>
  }

  lemma {:induction false} OwnRunKeepsWriter(s: State, evs: seq<Event>)
    requires AllOwn(evs)
    ensures SameWriter(s, Run(s, evs))
    decreases |evs|
  {
    hide Apply, Own;
    if evs != [] {
      OwnRunKeepsWriter(s, evs[..|evs| - 1]);
      OwnStepKeepsWriter(Run(s, evs[..|evs| - 1]), evs[|evs| - 1]);
    }
  }

  lemma {:induction false} LoopIsOwn(s: State, fuel: nat)
    ensures AllOwn(LoopEvents(s, [], fuel))
    decreases fuel
  {
    hide Run;
    if fuel > 0 && Sending(s.pc) {
      assert FirstOf([]) + [TrySend] == [TrySend];
      LoopIsOwn(Run(s, [TrySend]), fuel - 1);
    }
  }

  lemma PumpIsOwn(s: State, fetchOk: bool, purgeOk: bool)
    ensures AllOwn(PumpEvents(s, fetchOk, purgeOk, [], [], [], []))
  {
    hide Run, Apply, LoopEvents;
    var begun := Run(s, [PumpBegin]);
    LoopIsOwn(begun, |begun.pending| + 1);
    var a := [PumpBegin] + WholeLoop(begun, []);
    var b := a + FetchEvents(Run(s, a), fetchOk, []);
    var c := b + PurgeEvents(Run(s, b), purgeOk, []);
    LoopIsOwn(Run(s, c), |Run(s, c).pending| + 1);
  }

  lemma ChannelIs(s: State)
    requires Inv(s) && s.open
    ensures |s.bufs| == SLOTS && |s.channel| <= |s.sent| && s.channel == s.sent[|s.sent| - |s.channel|..]
    ensures s.inFlight == |s.channel| + |Buffered(s.bufs)| + |s.acks|
  {
    hide Gather, Shape, Durable, PrefixCommit, Closed, Acked, Partition, TxsSorted, ShocksKnown, Room;
    HasBufs(s);
  }

  /** A pump that nobody interferes with, while the writer lives: the decodable ones of the first rows above
      the last sent one, as many as there is room for, are now at the end of the channel, in id order. */
  lemma PumpAlone(s: State, purgeOk: bool)
    requires Inv(s) && s.pc.Idle? && s.open
    ensures var t := Run(s, PumpEvents(s, true, purgeOk, [], [], [], []));
            var rows := Select(s.table, s.lastSent, |s.log|, RoomFor(s.channel));
            && t.open && t.channel == s.channel + Decodable(rows, s.log, true) && t.sent == s.sent + Decodable(rows, s.log, true)
            && t.lastSent == (if rows == [] then s.lastSent else rows[|rows| - 1])
            && t.table == s.table - (if purgeOk then Members(Decodable(rows, s.log, false)) else {})
  {
    var evs := PumpEvents(s, true, purgeOk, [], [], [], []);
    var t := Run(s, evs);
    hide *;
    FirstOfNone();
    PumpDelivers(s, true, purgeOk, [], [], [], []);
    RunNone(s);
    PumpIsOwn(s, true, purgeOk);
    OwnRunKeepsWriter(s, evs);
    QueueIsEmpty(s);
    PumpedOpen(s, t, purgeOk, RoomFor(s.channel));
    WriterSame(s, t);
    ChannelIs(s);
    ChannelIs(t);
    var rows := Select(s.table, s.lastSent, |s.log|, RoomFor(s.channel));
    ChannelGrows(s.sent, s.channel, t.sent, t.channel, Decodable(rows, s.log, true));
  }

  lemma FirstOfNone()
    ensures FirstOf([]) == [] && TurnsElsewhere([]) && AllElsewhere([])
  {}

  lemma WriterSame(s: State, t: State)
    requires SameWriter(s, t)
    ensures t.open == s.open && t.bufs == s.bufs && t.acks == s.acks
  {}

  lemma ChannelGrows(sent: seq<nat>, channel: seq<nat>, sent': seq<nat>, channel': seq<nat>, good: seq<nat>)
    requires |channel| <= |sent| && channel == sent[|sent| - |channel|..]
    requires |channel'| <= |sent'| && channel' == sent'[|sent'| - |channel'|..]
    requires sent' == sent + good && |channel'| == |channel| + |good|
    ensures channel' == channel + good
  {}

  /** A whole pump while the writer lives. */
  lemma PumpedOpen(s: State, t: State, purgeOk: bool, room: nat)
    requires Pumped(s, t, true, purgeOk, room) && s.pending == [] && (SameWriter(s, t) && s.open)
    ensures var rows := Select(s.table, s.lastSent, |s.log|, room);
            && t.sent == s.sent + Decodable(rows, s.log, true)
            && t.inFlight == s.inFlight + |Decodable(rows, s.log, true)|
            && t.lastSent == (if rows == [] then s.lastSent else rows[|rows| - 1])
            && t.table == s.table - (if purgeOk then Members(Decodable(rows, s.log, false)) else {})
  {
    hide Select, Decodable, Members;
    DecodableNone(s.log);
    MembersNone();
  }

  lemma QueueIsEmpty(s: State)
    requires Inv(s) && s.pc.Idle? && s.open
    ensures s.pending == []
  {
    if s.pending != [] {
      ClosedWhenLeftOver(s);
    }
  }

  lemma DecodableNone(log: seq<Msg>)
    ensures Decodable([], log, true) == [] && Decodable([], log, false) == []
  {}

  lemma MembersNone()
    ensures Members([]) == {}
  {}
}
