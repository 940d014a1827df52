/** Writing bars: a stage is deduplicated, cut into statements and upserted (pair bars) or inserted (token
    bars). What one transaction does to the table, and what a redelivered row does to it. */
module BatchUpsert {
  import opened Options

  /** The primary key of a token bar or of a pair bar. */
  datatype Key =
    | TokenKey(venue: int, token: int, second: int)
    | PairKey(pair: int, side: int, second: int)

  /** `samples` is rolling_corr_samples_5m, the one column that the conflict clause of pair bars leaves
      alone; `fields` stands for all the others. */
  datatype Row = Row(key: Key, fields: int, samples: int)
  datatype Stored = Stored(fields: int, samples: int)

  predicate HasKey(rows: seq<Row>, key: Key) {
    exists i :: 0 <= i < |rows| && rows[i].key == key
  }

  function FirstOf(rows: seq<Row>, key: Key): (i: nat)
    requires HasKey(rows, key)
    ensures i < |rows| && rows[i].key == key
    ensures forall j :: 0 <= j < i ==> rows[j].key != key
  {
    if rows[0].key == key then 0
    else
      assert HasKey(rows[1..], key) by {
        var i :| 0 <= i < |rows| && rows[i].key == key;
        assert rows[1..][i - 1] == rows[i];
      }
      var i := FirstOf(rows[1..], key);
      assert forall j :: 0 < j < i + 1 ==> rows[j] == rows[1..][j - 1];
      i + 1
  }

  function LastOf(rows: seq<Row>, key: Key): (i: nat)
    requires HasKey(rows, key)
    ensures i < |rows| && rows[i].key == key
    ensures forall j :: i < j < |rows| ==> rows[j].key != key
  {
    if rows[|rows| - 1].key == key then |rows| - 1 else LastOf(rows[..|rows| - 1], key)
  }

  predicate Distinct(rows: seq<Row>) {
    forall i, j :: 0 <= i < j < |rows| ==> rows[i].key != rows[j].key
  }

  /** The last bar of every key, in the order in which the keys first appeared. */
  ghost predicate IsDedupe(rows: seq<Row>, out: seq<Row>) {
    && (forall i :: 0 <= i < |out| ==> HasKey(rows, out[i].key) && out[i] == rows[LastOf(rows, out[i].key)])
    && (forall key :: HasKey(rows, key) ==> HasKey(out, key))
    && (forall i, j :: 0 <= i < j < |out| ==> FirstOf(rows, out[i].key) < FirstOf(rows, out[j].key))
  }

  lemma DedupeIsDistinct(rows: seq<Row>, out: seq<Row>)
    requires IsDedupe(rows, out)
    ensures Distinct(out)
  {}

  lemma SameFirst(rows: seq<Row>, row: Row, key: Key)
    ensures HasKey(rows + [row], key) <==> HasKey(rows, key) || row.key == key
    ensures HasKey(rows, key) ==> FirstOf(rows + [row], key) == FirstOf(rows, key)
    ensures row.key == key && !HasKey(rows, key) ==> FirstOf(rows + [row], key) == |rows|
    ensures row.key == key ==> LastOf(rows + [row], key) == |rows|
    ensures row.key != key && HasKey(rows, key) ==> LastOf(rows + [row], key) == LastOf(rows, key)
  {
    var more := rows + [row];
    assert more[|rows|] == row && forall i :: 0 <= i < |rows| ==> more[i] == rows[i];
    if HasKey(rows, key) {
      assert more[FirstOf(rows, key)].key == key;
    }
  }

  lemma ReplaceKeepsKeys(rows: seq<Row>, out: seq<Row>, row: Row, at: nat)
    requires forall key :: HasKey(rows, key) ==> HasKey(out, key)
    requires at < |out| && out[at].key == row.key
    ensures forall key :: HasKey(rows + [row], key) ==> HasKey(out[at := row], key)
  {
    forall key | HasKey(rows + [row], key) ensures HasKey(out[at := row], key) {
      SameFirst(rows, row, key);
      SameKeys(out, at, row);
      assert HasKey(out, row.key);
    }
  }

  /** One step of the loop on a key already seen: its bar is replaced where it stands. */
  lemma ReplaceKeeps(rows: seq<Row>, out: seq<Row>, row: Row, at: nat)
    requires IsDedupe(rows, out) && at < |out| && out[at].key == row.key
    ensures IsDedupe(rows + [row], out[at := row])
  {
    hide FirstOf, LastOf, HasKey;
    var next := out[at := row];
    ReplaceKeepsKeys(rows, out, row, at);
    forall i | 0 <= i < |next|
      ensures HasKey(rows + [row], next[i].key) && next[i] == (rows + [row])[LastOf(rows + [row], next[i].key)]
      ensures FirstOf(rows + [row], next[i].key) == FirstOf(rows, out[i].key)
    {
      SameFirst(rows, row, next[i].key);
      DedupeIsDistinct(rows, out);
    }
  }

  lemma AppendKeeps(rows: seq<Row>, out: seq<Row>, row: Row)
    requires IsDedupe(rows, out) && !HasKey(out, row.key)
    ensures IsDedupe(rows + [row], out + [row])
  {
    hide FirstOf, LastOf;
    var next := out + [row];
    forall key ensures HasKey(rows + [row], key) ==> HasKey(next, key) {
      SameFirst(rows, row, key);
      if HasKey(rows, key) {
        var i :| 0 <= i < |out| && out[i].key == key;
        assert next[i].key == key;
      } else {
        assert next[|out|] == row;
      }
    }
    forall i | 0 <= i < |next|
      ensures HasKey(rows + [row], next[i].key) && next[i] == (rows + [row])[LastOf(rows + [row], next[i].key)]
      ensures i < |out| ==> FirstOf(rows + [row], next[i].key) == FirstOf(rows, out[i].key)
      ensures i == |out| ==> FirstOf(rows + [row], next[i].key) == |rows|
    {
      SameFirst(rows, row, next[i].key);
      assert i < |out| ==> next[i] == out[i] && out[i].key != row.key;
    }
  }

  lemma SingleIsDedupe(rows: seq<Row>)
    requires |rows| < 2
    ensures IsDedupe(rows, rows)
  {}

  /** The deduplicated list. */
  ghost function DedupeOf(rows: seq<Row>): (out: seq<Row>)
    ensures IsDedupe(rows, out)
    decreases |rows|
  {
    if rows == [] then
      SingleIsDedupe([]);
      []
    else
      var init, row := rows[..|rows| - 1], rows[|rows| - 1];
      var out := DedupeOf(init);
      assert rows == init + [row];
      if HasKey(out, row.key) then
        ReplaceKeeps(init, out, row, FirstOf(out, row.key));
        out[FirstOf(out, row.key) := row]
      else
        AppendKeeps(init, out, row);
        out + [row]
  }

  /** The map from keys to places agrees with the list. */
  ghost predicate Placed(places: map<Key, nat>, deduped: seq<Row>) {
    && (forall key :: key in places <==> HasKey(deduped, key))
    && (forall key :: key in places ==> places[key] < |deduped| && deduped[places[key]].key == key)
  }

  lemma PlacedReplace(places: map<Key, nat>, deduped: seq<Row>, bar: Row)
    requires Placed(places, deduped) && bar.key in places
    ensures places[bar.key] < |deduped| && deduped[places[bar.key]].key == bar.key
    ensures Placed(places, deduped[places[bar.key] := bar])
  {
    SameKeys(deduped, places[bar.key], bar);
    hide HasKey;
  }

  lemma PlacedAppend(places: map<Key, nat>, deduped: seq<Row>, bar: Row)
    requires Placed(places, deduped) && bar.key !in places
    ensures Placed(places[bar.key := |deduped|], deduped + [bar]) && !HasKey(deduped, bar.key)
  {
    OneMoreKey(deduped, bar);
    hide HasKey;
  }

  method DedupeBars(bars: seq<Row>) returns (deduped: seq<Row>)
    ensures deduped == DedupeOf(bars)
  {
    if |bars| < 2 {
      SingleIsDedupe(bars);
      DedupeIsUnique(bars, bars, DedupeOf(bars));
      return bars;
    }
    var places: map<Key, nat> := map[];
    deduped := [];
    SingleIsDedupe([]);
    assert Placed(places, deduped);
    hide IsDedupe, Placed, HasKey, DedupeOf;
    for i := 0 to |bars|
      invariant IsDedupe(bars[..i], deduped)
      invariant Placed(places, deduped)
    {
      var bar := bars[i];
      assert bars[..i + 1] == bars[..i] + [bar];
      if bar.key in places {
        PlacedReplace(places, deduped, bar);
        ReplaceKeeps(bars[..i], deduped, bar, places[bar.key]);
        deduped := deduped[places[bar.key] := bar];
      } else {
        PlacedAppend(places, deduped, bar);
        AppendKeeps(bars[..i], deduped, bar);
        places := places[bar.key := |deduped|];
        deduped := deduped + [bar];
      }
    }
    assert bars[..|bars|] == bars;
    DedupeIsUnique(bars, deduped, DedupeOf(bars));
  }

  lemma SameKeys(rows: seq<Row>, at: nat, row: Row)
    requires at < |rows| && rows[at].key == row.key
    ensures forall key :: HasKey(rows[at := row], key) <==> HasKey(rows, key)
  {
    forall key ensures HasKey(rows[at := row], key) <==> HasKey(rows, key) {
      assert forall i :: 0 <= i < |rows| ==> rows[at := row][i].key == rows[i].key;
    }
  }

  lemma OneMoreKey(rows: seq<Row>, row: Row)
    ensures forall key :: HasKey(rows + [row], key) <==> HasKey(rows, key) || key == row.key
  {
    forall key ensures HasKey(rows + [row], key) <==> HasKey(rows, key) || key == row.key {
      SameFirst(rows, row, key);
    }
  }

  // ----- upserts -----

  function Upsert(table: map<Key, Stored>, row: Row): map<Key, Stored> {
    table[row.key := Stored(row.fields, if row.key in table then table[row.key].samples else row.samples)]
  }

  function UpsertAll(table: map<Key, Stored>, rows: seq<Row>): map<Key, Stored>
    decreases |rows|
  {
    if rows == [] then table else Upsert(UpsertAll(table, rows[..|rows| - 1]), rows[|rows| - 1])
  }

  /** What a key holds after a list of upserts: the last bar's fields, but the samples it had first. */
  function After(table: map<Key, Stored>, rows: seq<Row>, key: Key): Option<Stored> {
    if HasKey(rows, key) then
      Some(Stored(rows[LastOf(rows, key)].fields,
                  if key in table then table[key].samples else rows[FirstOf(rows, key)].samples))
    else Lookup(table, key)
  }

  function Lookup(table: map<Key, Stored>, key: Key): Option<Stored> {
    if key in table then Some(table[key]) else None
  }

  lemma OneUpsert(table: map<Key, Stored>, row: Row, key: Key)
    ensures Lookup(Upsert(table, row), key) ==
            if key != row.key then Lookup(table, key)
            else Some(Stored(row.fields, if key in table then table[key].samples else row.samples))
  {}

  lemma {:induction false} UpsertAllAt(table: map<Key, Stored>, rows: seq<Row>, key: Key)
    ensures Lookup(UpsertAll(table, rows), key) == After(table, rows, key)
    decreases |rows|
  {
    if rows != [] {
      var init, row := rows[..|rows| - 1], rows[|rows| - 1];
      assert rows == init + [row];
      UpsertAllAt(table, init, key);
      SameFirst(init, row, key);
      OneUpsert(UpsertAll(table, init), row, key);
      hide FirstOf, LastOf, HasKey, UpsertAll, Upsert;
    }
  }

  lemma SameTable(a: map<Key, Stored>, b: map<Key, Stored>)
    requires forall key :: Lookup(a, key) == Lookup(b, key)
    ensures a == b
  {
    forall key ensures key in a <==> key in b {
      assert Lookup(a, key) == Lookup(b, key);
    }
    forall key | key in a ensures a[key] == b[key] {
      assert Lookup(a, key) == Lookup(b, key);
    }
  }

  /** Writing the deduplicated stage is writing every bar one by one, if and only if no new key changes its
      sample count within the stage: the conflict clause leaves that column out. */
  lemma DedupeMatchesOneByOne(table: map<Key, Stored>, rows: seq<Row>)
    ensures UpsertAll(table, DedupeOf(rows)) == UpsertAll(table, rows) <==>
            forall key :: HasKey(rows, key) && key !in table ==>
                            rows[FirstOf(rows, key)].samples == rows[LastOf(rows, key)].samples
  {
    hide FirstOf, LastOf, UpsertAll, DedupeOf;
    var out := DedupeOf(rows);
    forall key
      ensures HasKey(out, key) <==> HasKey(rows, key)
      ensures HasKey(rows, key) ==> out[FirstOf(out, key)] == out[LastOf(out, key)] == rows[LastOf(rows, key)]
      ensures Lookup(UpsertAll(table, out), key) == After(table, out, key)
      ensures Lookup(UpsertAll(table, rows), key) == After(table, rows, key)
    {
      UpsertAllAt(table, out, key);
      UpsertAllAt(table, rows, key);
      DedupeIsDistinct(rows, out);
    }
    if forall key :: HasKey(rows, key) && key !in table ==>
                       rows[FirstOf(rows, key)].samples == rows[LastOf(rows, key)].samples {
      SameTable(UpsertAll(table, out), UpsertAll(table, rows));
    }
  }

  /** A sample count that changes within a stage: the batch keeps the last one, writing bar by bar the first. */
  lemma DedupeDiffers()
    ensures var rows := [Row(PairKey(1, 0, 5), 1, 10), Row(PairKey(1, 0, 5), 2, 11)];
            UpsertAll(map[], DedupeOf(rows)) != UpsertAll(map[], rows)
  {
    var rows := [Row(PairKey(1, 0, 5), 1, 10), Row(PairKey(1, 0, 5), 2, 11)];
    assert rows[0].key == PairKey(1, 0, 5);
    assert HasKey(rows, PairKey(1, 0, 5));
    DedupeMatchesOneByOne(map[], rows);
    hide UpsertAll, DedupeOf;
    assert FirstOf(rows, PairKey(1, 0, 5)) == 0 && LastOf(rows, PairKey(1, 0, 5)) == 1;
  }

  /** Redelivered pair bars leave the table alone if and only if each is stored with its last delivery's
      fields; so replaying the newest bars of the keys does no harm, replaying older ones does. */
  lemma ReplayIsNoOpIffNewest(table: map<Key, Stored>, again: seq<Row>)
    ensures UpsertAll(table, again) == table <==>
            forall key :: HasKey(again, key) ==> key in table && table[key].fields == again[LastOf(again, key)].fields
  {
    hide FirstOf, LastOf, UpsertAll;
    forall key ensures Lookup(UpsertAll(table, again), key) == After(table, again, key) {
      UpsertAllAt(table, again, key);
    }
    if forall key :: HasKey(again, key) ==> key in table && table[key].fields == again[LastOf(again, key)].fields {
      forall key ensures Lookup(UpsertAll(table, again), key) == Lookup(table, key) {}
      SameTable(UpsertAll(table, again), table);
    } else {
      var key :| HasKey(again, key) && !(key in table && table[key].fields == again[LastOf(again, key)].fields);
      assert Lookup(UpsertAll(table, again), key) != Lookup(table, key);
    }
  }

  lemma {:induction false} UpsertConcat(table: map<Key, Stored>, a: seq<Row>, b: seq<Row>)
    ensures UpsertAll(table, a + b) == UpsertAll(UpsertAll(table, a), b)
    decreases |b|
  {
    if b == [] {
      assert a + b == a;
    } else {
      assert (a + b)[..|a + b| - 1] == a + b[..|b| - 1];
      UpsertConcat(table, a, b[..|b| - 1]);
    }
  }

  /** An older bar that comes again alone puts the old columns back. */
  lemma OlderReplayChanges()
    ensures var older, newer := Row(PairKey(1, 0, 5), 1, 10), Row(PairKey(1, 0, 5), 2, 10);
            var table := UpsertAll(map[], [older, newer]);
            table[older.key].fields == 2 && UpsertAll(table, [older])[older.key].fields == 1
  {
    var older, newer := Row(PairKey(1, 0, 5), 1, 10), Row(PairKey(1, 0, 5), 2, 10);
    assert [older, newer][..1] == [older];
    assert UpsertAll(map[], [older]) == Upsert(map[], older);
  }

  /** After a lost commit the same buffers, or more, are written again: replaying the tail of what was
      written changes nothing. What comes again after a crash need not be a tail: see Redelivery. */
  lemma ReplayedTailIsNoOp(table: map<Key, Stored>, a: seq<Row>, b: seq<Row>)
    ensures var done := UpsertAll(table, a + b); UpsertAll(done, b) == done
  {
    UpsertConcat(table, a, b);
    var done := UpsertAll(table, a + b);
    forall key | HasKey(b, key) ensures key in done && done[key].fields == b[LastOf(b, key)].fields {
      UpsertAllAt(UpsertAll(table, a), b, key);
      assert Lookup(done, key).Some?;
    }
    ReplayIsNoOpIffNewest(done, b);
  }

  // ----- the statements of one transaction -----

  /** One upsert statement: the database refuses to touch a row twice in it. */
  function UpsertStatement(table: map<Key, Stored>, chunk: seq<Row>): Option<map<Key, Stored>> {
    if Distinct(chunk) then Some(UpsertAll(table, chunk)) else None
  }

  /** One plain insert: no key may repeat or be there already. */
  function InsertStatement(table: map<Key, Stored>, chunk: seq<Row>): Option<map<Key, Stored>> {
    if Distinct(chunk) && forall i :: 0 <= i < |chunk| ==> chunk[i].key !in table
    then Some(UpsertAll(table, chunk)) else None
  }

  /** Writes a stage of pair bars in statements of at most `most` rows. None of them is refused. */
  method WritePairBars(table: map<Key, Stored>, stage: seq<Row>, most: nat) returns (result: Option<map<Key, Stored>>)
    requires most >= 1
    ensures result == Some(UpsertAll(table, DedupeOf(stage)))
  {
    hide IsDedupe, DedupeOf;
    var rows := DedupeBars(stage);
    DedupeIsDistinct(stage, rows);
    var now, at := table, 0;
    while at < |rows|
      invariant 0 <= at <= |rows| && now == UpsertAll(table, rows[..at])
    {
      var next := if at + most <= |rows| then at + most else |rows|;
      match UpsertStatement(now, rows[at..next]) {
        case None => return None;
        case Some(after) => now := after;
      }
      UpsertConcat(table, rows[..at], rows[at..next]);
      assert rows[..at] + rows[at..next] == rows[..next];
      at := next;
    }
    assert rows[..|rows|] == rows;
    return Some(now);
  }

  /** What a stage of token bars does: all of it is inserted, or one stored key refuses it. */
  ghost function TokenStage(table: map<Key, Stored>, stage: seq<Row>): Option<map<Key, Stored>> {
    if forall i :: 0 <= i < |stage| ==> stage[i].key !in table then Some(UpsertAll(table, DedupeOf(stage))) else None
  }

  /** After a stage of token bars is in, another one, or any part of it again, is accepted if and only if it
      shares no key with it and none with what was there before. */
  lemma SecondDelivery(table: map<Key, Stored>, stage: seq<Row>, again: seq<Row>)
    requires TokenStage(table, stage).Some?
    ensures TokenStage(TokenStage(table, stage).value, again).Some? <==>
            forall i :: 0 <= i < |again| ==> again[i].key !in table && !HasKey(stage, again[i].key)
  {
    hide UpsertAll, DedupeOf, FirstOf, LastOf;
    var out := DedupeOf(stage);
    forall key ensures key in UpsertAll(table, out) <==> key in table || HasKey(stage, key) {
      UpsertAllAt(table, out, key);
      assert HasKey(out, key) <==> HasKey(stage, key);
    }
  }

  /** The bar that blocks: once committed, the same token bar is refused. */
  lemma RedeliveredTokenBarIsRefused()
    ensures var bar := Row(TokenKey(0, 7, 5), 1, 0);
            TokenStage(map[], [bar]).Some? && TokenStage(TokenStage(map[], [bar]).value, [bar]) == None
  {
    var bar := Row(TokenKey(0, 7, 5), 1, 0);
    assert [bar][0].key == bar.key;
    SecondDelivery(map[], [bar], [bar]);
  }

  /** Writes a stage of token bars: it succeeds exactly when none of its keys is stored. */
  method WriteTokenBars(table: map<Key, Stored>, stage: seq<Row>, most: nat) returns (result: Option<map<Key, Stored>>)
    requires most >= 1
    ensures result == TokenStage(table, stage)
    ensures result.Some? <==> forall i :: 0 <= i < |stage| ==> stage[i].key !in table
  {
    hide IsDedupe, DedupeOf;
    var rows := DedupeBars(stage);
    DedupeIsDistinct(stage, rows);
    DedupeKeepsKeys(stage, rows, table);
    var now, at := table, 0;
    while at < |rows|
      invariant 0 <= at <= |rows| && now == UpsertAll(table, rows[..at])
      invariant forall i :: 0 <= i < at ==> rows[i].key !in table
    {
      var next := if at + most <= |rows| then at + most else |rows|;
      ghost var before := now;
      ChunkMeetsTable(table, rows, at, next);
      match InsertStatement(now, rows[at..next]) {
        case None => return None;
        case Some(after) => now := after;
      }
      UpsertConcat(table, rows[..at], rows[at..next]);
      assert rows[..at] + rows[at..next] == rows[..next];
      at := next;
    }
    assert rows[..|rows|] == rows;
    return Some(now);
  }

  /** Rows inserted by earlier statements are never in the way of a later one. */
  lemma ChunkMeetsTable(table: map<Key, Stored>, rows: seq<Row>, at: nat, next: nat)
    requires Distinct(rows) && at <= next <= |rows|
    ensures InsertStatement(UpsertAll(table, rows[..at]), rows[at..next]).Some?
            <==> forall i :: at <= i < next ==> rows[i].key !in table
  {
    hide FirstOf, LastOf, UpsertAll;
    var now, chunk := UpsertAll(table, rows[..at]), rows[at..next];
    forall i | at <= i < next ensures rows[i].key in now <==> rows[i].key in table {
      UpsertAllAt(table, rows[..at], rows[i].key);
    }
    forall i | at <= i < next ensures chunk[i - at] == rows[i] {}
    assert (forall i :: 0 <= i < |chunk| ==> chunk[i].key !in now) ==> forall i :: at <= i < next ==> rows[i].key !in table by {
      forall i | at <= i < next && forall k :: 0 <= k < |chunk| ==> chunk[k].key !in now ensures rows[i].key !in table {
        assert chunk[i - at] == rows[i];
      }
    }
  }

  lemma DedupeKeepsKeys(stage: seq<Row>, rows: seq<Row>, table: map<Key, Stored>)
    requires IsDedupe(stage, rows)
    ensures (forall i :: 0 <= i < |stage| ==> stage[i].key !in table) <==> (forall i :: 0 <= i < |rows| ==> rows[i].key !in table)
  {
    hide FirstOf, LastOf;
    forall i | 0 <= i < |stage| ensures HasKey(rows, stage[i].key) {
      assert HasKey(stage, stage[i].key);
    }
  }

  /** The deduplicated stage is determined: same bars, same order. */
  lemma {:induction false} DedupeIsUnique(rows: seq<Row>, a: seq<Row>, b: seq<Row>)
    requires IsDedupe(rows, a) && IsDedupe(rows, b)
    ensures a == b
  {
    hide FirstOf, LastOf;
    forall k: nat | k <= |a| && k <= |b| ensures a[..k] == b[..k] {
      SamePrefix(rows, a, b, k);
    }
    var n := if |a| < |b| then |a| else |b|;
    assert a[..n] == b[..n];
    if n < |a| { FreshKey(rows, a, n); } else if n < |b| { FreshKey(rows, b, n); }
    assert b == b[..|b|] && a == a[..|a|];
  }

  lemma {:induction false} SamePrefix(rows: seq<Row>, a: seq<Row>, b: seq<Row>, k: nat)
    requires IsDedupe(rows, a) && IsDedupe(rows, b) && k <= |a| && k <= |b|
    ensures a[..k] == b[..k]
    decreases k
  {
    hide FirstOf, LastOf;
    if k > 0 {
      assert HasKey(rows, a[k - 1].key) && HasKey(rows, b[k - 1].key);
      assert a[k - 1] == rows[LastOf(rows, a[k - 1].key)] && b[k - 1] == rows[LastOf(rows, b[k - 1].key)];
      hide IsDedupe, HasKey;
      SamePrefix(rows, a, b, k - 1);
      NotBefore(rows, a, b, k - 1);
      NotBefore(rows, b, a, k - 1);
      SameFirstSameKey(rows, a[k - 1].key, b[k - 1].key);
      assert a[..k] == a[..k - 1] + [a[k - 1]] && b[..k] == b[..k - 1] + [b[k - 1]];
    }
  }

  lemma SameFirstSameKey(rows: seq<Row>, x: Key, y: Key)
    requires HasKey(rows, x) && HasKey(rows, y) && FirstOf(rows, x) == FirstOf(rows, y)
    ensures x == y
  {}

  lemma NotBefore(rows: seq<Row>, a: seq<Row>, b: seq<Row>, k: nat)
    requires IsDedupe(rows, a) && IsDedupe(rows, b) && k < |a| && k < |b| && a[..k] == b[..k]
    ensures FirstOf(rows, a[k].key) >= FirstOf(rows, b[k].key)
  {
    hide FirstOf, LastOf;
    FreshKey(rows, a, k);
    var i := Standing(rows, b, a[k].key);
    assert k < i ==> FirstOf(rows, b[k].key) < FirstOf(rows, b[i].key);
    hide IsDedupe;
    assert i >= k by {
      assert forall j :: 0 <= j < k ==> b[j] == b[..k][j];
    }
  }

  lemma Standing(rows: seq<Row>, out: seq<Row>, key: Key) returns (i: nat)
    requires IsDedupe(rows, out) && HasKey(rows, key)
    ensures i < |out| && out[i].key == key
  {
    hide FirstOf, LastOf;
    assert HasKey(out, key);
    i :| 0 <= i < |out| && out[i].key == key;
  }

  lemma FreshKey(rows: seq<Row>, out: seq<Row>, n: nat)
    requires IsDedupe(rows, out) && n < |out|
    ensures !HasKey(out[..n], out[n].key)
  {
    hide FirstOf, LastOf;
  }
}
