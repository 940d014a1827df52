/** What a restart does to the bars that were written already: which committed rows come again, and when
    writing them again leaves the tables as they are. */
module Redelivery {
  import opened BatchUpsert
  import opened DeliveryOrder
  import opened Options
  import opened SpoolModel
  import opened SpoolSafety

  // ----- bars by row id -----

  ghost predicate Known(payload: seq<Row>, ids: seq<nat>) {
    forall a :: 0 <= a < |ids| ==> 1 <= ids[a] <= |payload|
  }

  /** The bars of some rows; row i carries payload[i - 1]. */
  ghost function Bars(payload: seq<Row>, ids: seq<nat>): (rows: seq<Row>)
    requires Known(payload, ids)
    ensures |rows| == |ids| && forall a :: 0 <= a < |ids| ==> rows[a] == payload[ids[a] - 1]
  {
    seq(|ids|, a requires 0 <= a < |ids| => payload[ids[a] - 1])
  }

  ghost predicate NewestOf(table: map<Key, Stored>, rows: seq<Row>, key: Key) {
    HasKey(rows, key) ==> key in table && table[key].fields == rows[LastOf(rows, key)].fields
  }

  /** Every key of these rows is stored with the columns of its newest row. */
  ghost predicate HoldsNewest(table: map<Key, Stored>, payload: seq<Row>, ids: seq<nat>)
    requires Known(payload, ids)
  {
    forall key :: NewestOf(table, Bars(payload, ids), key)
  }

  /** `again` is an upper part of `committed`: with a row, every newer one. */
  ghost predicate UpperPart(committed: seq<nat>, again: seq<nat>) {
    && (forall i :: i in again ==> i in committed)
    && (forall i, j :: i in again && j in committed && i < j ==> j in again)
  }

  /** Of an upper part the newest bar of a key is the newest of all. */
  lemma SameLast(payload: seq<Row>, committed: seq<nat>, again: seq<nat>, key: Key)
    requires Known(payload, committed) && Known(payload, again) && Increasing(committed) && Increasing(again)
    requires UpperPart(committed, again) && HasKey(Bars(payload, again), key)
    ensures HasKey(Bars(payload, committed), key)
    ensures var all, some := Bars(payload, committed), Bars(payload, again);
            all[LastOf(all, key)] == some[LastOf(some, key)]
  {
    hide Bars;
    var all, some := Bars(payload, committed), Bars(payload, again);
    var a := LastOf(some, key);
    assert again[a] in again;
    var c :| 0 <= c < |committed| && committed[c] == again[a];
    assert all[c].key == key;
    var last := LastOf(all, key);
    assert c <= last && (c < last ==> committed[c] < committed[last]);
    assert committed[last] in committed && committed[last] in again;
    var b :| 0 <= b < |again| && again[b] == committed[last];
    assert some[b].key == key;
    NotBefore(again, a, b);
  }

  lemma NotBefore(ids: seq<nat>, a: nat, b: nat)
    requires Increasing(ids) && a < |ids| && b < |ids| && ids[a] <= ids[b]
    ensures a <= b
  {}

  /** Writing an upper part of the committed bars again brings every key to its newest bar, if the keys that
      do not come again hold theirs. */
  lemma UpperPartRestores(table: map<Key, Stored>, payload: seq<Row>, committed: seq<nat>, again: seq<nat>)
    requires Known(payload, committed) && Known(payload, again) && Increasing(committed) && Increasing(again)
    requires UpperPart(committed, again)
    requires forall key :: HasKey(Bars(payload, again), key) || NewestOf(table, Bars(payload, committed), key)
    ensures HoldsNewest(UpsertAll(table, Bars(payload, again)), payload, committed)
  {
    hide FirstOf, LastOf, UpsertAll, UpperPart, Increasing, Bars;
    var all, some := Bars(payload, committed), Bars(payload, again);
    var done := UpsertAll(table, some);
    forall key ensures NewestOf(done, all, key) {
      UpsertAllAt(table, some, key);
      if HasKey(some, key) {
        SameLast(payload, committed, again, key);
        assert Lookup(done, key).Some?;
      } else {
        assert NewestOf(table, all, key);
        assert Lookup(done, key) == Lookup(table, key);
      }
    }
  }

  lemma UpperPartIsNoOp(table: map<Key, Stored>, payload: seq<Row>, committed: seq<nat>, again: seq<nat>)
    requires Known(payload, committed) && Known(payload, again) && Increasing(committed) && Increasing(again)
    requires UpperPart(committed, again) && HoldsNewest(table, payload, committed)
    ensures UpsertAll(table, Bars(payload, again)) == table
  {
    hide FirstOf, LastOf, UpsertAll, UpperPart, Increasing, Bars;
    var all, some := Bars(payload, committed), Bars(payload, again);
    forall key | HasKey(some, key) ensures key in table && table[key].fields == some[LastOf(some, key)].fields {
      SameLast(payload, committed, again, key);
      assert NewestOf(table, all, key);
    }
    ReplayIsNoOpIffNewest(table, some);
  }

  /** The payload in which rows i and j carry the same key and every other row its own. */
  ghost function Clash(n: nat, i: nat, j: nat): (payload: seq<Row>)
    ensures |payload| == n
    ensures forall a :: 0 <= a < n ==> payload[a] == Row(PairKey(if a + 1 == j then i else a + 1, 0, 0), a + 1, 0)
  {
    seq(n, x => Row(PairKey(if x + 1 == j then i else x + 1, 0, 0), x + 1, 0))
  }

  lemma LastIs(rows: seq<Row>, key: Key, a: nat)
    requires a < |rows| && rows[a].key == key && forall b :: a < b < |rows| ==> rows[b].key != key
    ensures HasKey(rows, key) && LastOf(rows, key) == a
  {}

  /** A newer bar that does not come again is overwritten by the older one that does. */
  lemma MissingNewerHarms(n: nat, committed: seq<nat>, again: seq<nat>, i: nat, j: nat)
    requires Increasing(committed) && Increasing(again) && Known(Clash(n, i, j), committed)
    requires (forall x :: x in again ==> x in committed) && i in again && j in committed && i < j && j !in again
    ensures Known(Clash(n, i, j), again)
    ensures var payload := Clash(n, i, j);
            var table := UpsertAll(map[], Bars(payload, committed));
            HoldsNewest(table, payload, committed) && UpsertAll(table, Bars(payload, again)) != table
  {
    var payload, key := Clash(n, i, j), PairKey(i, 0, 0);
    forall a | 0 <= a < |again| ensures 1 <= again[a] <= n {
      assert again[a] in committed;
    }
    var all, some := Bars(payload, committed), Bars(payload, again);
    var table := UpsertAll(map[], all);
    ClashLast(n, i, j, committed, j);
    ClashLast(n, i, j, again, i);
    hide LastOf, UpsertAll, Increasing, Bars, Clash;
    forall k ensures NewestOf(table, all, k) {
      UpsertAllAt(map[], all, k);
      assert HasKey(all, k) ==> Lookup(table, k).Some?;
    }
    ReplayIsNoOpIffNewest(table, some);
    assert NewestOf(table, all, key);
  }

  /** Which row of the clashing key comes last: j when it is there, else i. */
  lemma ClashLast(n: nat, i: nat, j: nat, ids: seq<nat>, x: nat)
    requires Increasing(ids) && Known(Clash(n, i, j), ids) && i < j && x in ids
    requires x == j || (x == i && j !in ids)
    ensures var rows, key := Bars(Clash(n, i, j), ids), PairKey(i, 0, 0);
            HasKey(rows, key) && rows[LastOf(rows, key)].fields == x
  {
    var rows, key := Bars(Clash(n, i, j), ids), PairKey(i, 0, 0);
    var c :| 0 <= c < |ids| && ids[c] == x;
    forall b | c < b < |ids| ensures rows[b].key != key {
      assert ids[c] < ids[b] && ids[b] in ids;
    }
    hide Clash, Bars, Increasing;
    LastIs(rows, key, c);
  }

  /** Exactly when writing `again` after a restart leaves every newest table as it is, whatever the bars
      are: `again` is an upper part of what was committed. */
  lemma HarmlessIffUpper(n: nat, committed: seq<nat>, again: seq<nat>)
    requires Increasing(committed) && Increasing(again) && forall i :: i in again ==> i in committed
    requires forall i :: i in committed ==> 1 <= i <= n
    ensures UpperPart(committed, again) <==> Harmless(n, committed, again)
  {
    hide UpsertAll, Bars, Increasing;
    if UpperPart(committed, again) {
      forall payload: seq<Row>, table: map<Key, Stored>
        | |payload| == n && Known(payload, committed) && Known(payload, again) && HoldsNewest(table, payload, committed)
        ensures UpsertAll(table, Bars(payload, again)) == table
      {
        UpperPartIsNoOp(table, payload, committed, again);
      }
    } else {
      forall a | 0 <= a < |committed| ensures 1 <= committed[a] <= n {
        assert committed[a] in committed;
      }
      var i, j :| i in again && j in committed && i < j && j !in again;
      MissingNewerHarms(n, committed, again, i, j);
    }
  }

  ghost predicate Harmless(n: nat, committed: seq<nat>, again: seq<nat>) {
    forall payload: seq<Row>, table: map<Key, Stored> ::
      |payload| == n && Known(payload, committed) && Known(payload, again) && HoldsNewest(table, payload, committed)
      ==> UpsertAll(table, Bars(payload, again)) == table
  }

  // ----- rows of the spool -----

  ghost predicate CommittedRow(s: State, kind: Kind, i: nat) {
    1 <= i <= |s.log| && s.log[i - 1].kind == kind && Committed(s.txs, i)
  }

  /** The committed rows of a kind, oldest first. */
  ghost function CommittedRows(s: State, kind: Kind): seq<nat> {
    Select(set i: nat | 1 <= i <= |s.log| && CommittedRow(s, kind, i), 0, |s.log|, |s.log|)
  }

  /** Those of them that are still in the table: the ones a restart delivers again. */
  ghost function RowsToCome(s: State, kind: Kind): seq<nat> {
    Select(set i: nat | 1 <= i <= |s.log| && CommittedRow(s, kind, i) && i in s.table, 0, |s.log|, |s.log|)
  }

  lemma RowsOfKind(s: State, kind: Kind)
    ensures Increasing(CommittedRows(s, kind)) && Increasing(RowsToCome(s, kind))
    ensures forall i :: i in CommittedRows(s, kind) <==> CommittedRow(s, kind, i)
    ensures forall i :: i in RowsToCome(s, kind) <==> CommittedRow(s, kind, i) && i in s.table
  {
    hide Select, Increasing, Committed;
    SelectAll(set i: nat | 1 <= i <= |s.log| && CommittedRow(s, kind, i), |s.log|);
    SelectAll(set i: nat | 1 <= i <= |s.log| && CommittedRow(s, kind, i) && i in s.table, |s.log|);
  }

  /** Of every kind, a committed row that is sent again after a restart is one of those. */
  lemma OnlyRowsToCome(s: State, nextShock: int, evs: seq<Event>, i: nat)
    requires Reachable(s) && Committed(s.txs, i) && i in Run(Apply(s, Restart(nextShock)), evs).sent
    ensures Decodes(s.log, i) && i in RowsToCome(s, s.log[i - 1].kind)
  {
    hide Run, Apply, Reachable, Committed, RowsToCome, CommittedRows;
    CommittedTracked(s, i);
    OnlyTableRowsComeAgain(s, nextShock, evs, i);
    RowsOfKind(s, s.log[i - 1].kind);
  }

  lemma StepOnward(s: State, ev: Event)
    requires Reachable(s)
    ensures Reachable(Apply(s, ev)) && s.log <= Apply(s, ev).log && Apply(s, ev).alpha == s.alpha
  {
    hide Init, Apply;
    LogGrows(s, ev);
    AlphaStays(s, ev);
    var alpha: bool, nextShock: int, evs: seq<Event> :| s == Run(Init(alpha, nextShock), evs);
    assert (evs + [ev])[..|evs|] == evs;
    assert Apply(s, ev) == Run(Init(alpha, nextShock), evs + [ev]);
  }

  lemma {:induction false} RunOnward(s: State, evs: seq<Event>)
    requires Reachable(s)
    ensures Reachable(Run(s, evs)) && s.log <= Run(s, evs).log && Run(s, evs).alpha == s.alpha
    decreases |evs|
  {
    hide Reachable, Apply;
    if evs != [] {
      RunOnward(s, evs[..|evs| - 1]);
      StepOnward(Run(s, evs[..|evs| - 1]), evs[|evs| - 1]);
    }
  }

  /** While the writer of the new process lives, all of them have come again once it has fetched that far,
      as long as they are not deleted. */
  lemma AllRowsToComeAreHeld(s: State, nextShock: int, evs: seq<Event>, kind: Kind, i: nat)
    requires Reachable(s) && i in RowsToCome(s, kind)
    requires var t := Run(Apply(s, Restart(nextShock)), evs); t.open && i <= t.lastSent && i in t.table
    ensures var t := Run(Apply(s, Restart(nextShock)), evs); |t.bufs| == SLOTS && i in Stages(t)
  {
    hide Run, Apply, Reachable, Committed, RowsToCome, CommittedRows, Stages;
    StepOnward(s, Restart(nextShock));
    RunOnward(Apply(s, Restart(nextShock)), evs);
    RowsOfKind(s, kind);
    CommittedTracked(s, i);
    StagesPartitionFetchedRows(Run(Apply(s, Restart(nextShock)), evs), i);
  }

  /** In a run in which no ack pass deletes a row of a kind after an older one whose delete failed, a restart
      delivers an upper part of what was committed of that kind; so pair bars written again do no harm. */
  lemma RestartIsHarmless(s: State, kind: Kind)
    requires ReachedInOrder(s, kind)
    ensures UpperPart(CommittedRows(s, kind), RowsToCome(s, kind))
    ensures Harmless(|s.log|, CommittedRows(s, kind), RowsToCome(s, kind))
  {
    hide CommittedRows, RowsToCome, Harmless, Increasing, Committed, Decodes;
    InOrderIsReachable(s, kind);
    hide ReachedInOrder, Reachable;
    RowsOfKind(s, kind);
    forall i, j | i in RowsToCome(s, kind) && j in CommittedRows(s, kind) && i < j ensures j in RowsToCome(s, kind) {
      CommittedTracked(s, i);
      CommittedTracked(s, j);
      RowsGoInOrder(s, i, j);
    }
    HarmlessIffUpper(|s.log|, CommittedRows(s, kind), RowsToCome(s, kind));
  }

  lemma InOrderIsReachable(s: State, kind: Kind)
    requires ReachedInOrder(s, kind)
    ensures Reachable(s)
  {
    hide Run, Init, AllInOrder;
  }
}
