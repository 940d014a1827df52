/** Price levels as plain maps: what a snapshot or a delta means, which levels are the best n, and the
    comparison of two books that the drift check makes. */
module BookModel {
  import opened Fnv
  import opened Numbers
  import opened Options

  /** A float that arrives from a venue. */
  datatype Num = NotFinite | Finite(r: real)

  datatype Level = Level(price: Num, size: Num)

  datatype Side = Bid | Ask

  const PRICE_MAX_IDX: nat := 10_000
  const PRICE_LEVELS: nat := PRICE_MAX_IDX + 1
  const I64_MAX: int := 0x7fff_ffff_ffff_ffff

  /** Size in millionths by price index; a level without size is absent. */
  type Depth = map<nat, int>

  function SaturateI64(x: int): int {
    if x > I64_MAX then I64_MAX else if x < -I64_MAX - 1 then -I64_MAX - 1 else x
  }

  function PriceToIdx(price: Num): (idx: Option<nat>)
    ensures idx.Some? ==> idx.value <= PRICE_MAX_IDX
  {
    match price
    case NotFinite => None
    case Finite(r) =>
      var idx := SaturateI64(RoundHalfAway(r * 10_000.0));
      if idx < 0 || idx > PRICE_MAX_IDX then None else Some(idx)
  }

  function SizeToInt(size: Num): (n: Option<int>)
    ensures n.Some? ==> n.value <= I64_MAX
  {
    match size
    case NotFinite => None
    case Finite(r) => Some(SaturateI64(RoundHalfAway(r * 1_000_000.0)))
  }

  /** A price stands at the tick of 1/10,000 nearest to it, if that is one of 0..10,000. */
  ghost predicate AtTick(price: Num, idx: int) {
    price.Finite? && 0 <= idx <= 10_000 && IsNearest(10_000.0 * price.r, idx)
  }

  /** A size counts in millionths, to the nearest one, cut off at the bounds of a 64-bit integer. */
  ghost predicate InUnits(size: Num, n: int) {
    && size.Finite? && -0x8000_0000_0000_0000 <= n <= 0x7fff_ffff_ffff_ffff
    && (|| IsNearest(1_000_000.0 * size.r, n)
        || (n == 0x7fff_ffff_ffff_ffff && 1_000_000.0 * size.r > n as real)
        || (n == -0x8000_0000_0000_0000 && 1_000_000.0 * size.r < n as real))
  }

  lemma PriceIsAtTick(price: Num, idx: int)
    ensures AtTick(price, idx) <==> PriceToIdx(price).Some? && PriceToIdx(price).value == idx
  {
    if price.Finite? {
      RoundIsNearest(price.r * 10_000.0, idx);
      RoundIsNearest(price.r * 10_000.0, RoundHalfAway(price.r * 10_000.0));
    }
  }

  lemma SizeIsInUnits(size: Num, n: int)
    ensures InUnits(size, n) <==> SizeToInt(size) == Some(n)
  {
    if size.Finite? {
      RoundIsNearest(size.r * 1_000_000.0, n);
      RoundIsNearest(size.r * 1_000_000.0, RoundHalfAway(size.r * 1_000_000.0));
      hide RoundHalfAway;
    }
  }

  /** What a delta's price and size stand for is determined. */
  lemma DeltaLands(price: Num, size: Num)
    ensures PriceToIdx(price).None? <==> forall i :: !AtTick(price, i)
    ensures forall i, n :: AtTick(price, i) && InUnits(size, n) ==>
                             PriceToIdx(price).Some? && PriceToIdx(price).value == i && SizeToInt(size) == Some(n)
  {
    forall i ensures AtTick(price, i) <==> PriceToIdx(price).Some? && PriceToIdx(price).value == i {
      PriceIsAtTick(price, i);
    }
    forall n ensures InUnits(size, n) <==> SizeToInt(size) == Some(n) {
      SizeIsInUnits(size, n);
    }
    hide AtTick, InUnits, PriceToIdx, SizeToInt;
    if PriceToIdx(price).Some? {
      assert AtTick(price, PriceToIdx(price).value);
    }
  }

  /** Two prices share a level exactly when the same tick is nearest to both. */
  lemma SameLevelIffSameTick(p: Num, q: Num)
    ensures PriceToIdx(p).Some? && PriceToIdx(p) == PriceToIdx(q) <==> exists i :: AtTick(p, i) && AtTick(q, i)
  {
    forall i
      ensures AtTick(p, i) <==> PriceToIdx(p).Some? && PriceToIdx(p).value == i
      ensures AtTick(q, i) <==> PriceToIdx(q).Some? && PriceToIdx(q).value == i
    {
      PriceIsAtTick(p, i);
      PriceIsAtTick(q, i);
    }
    hide AtTick, PriceToIdx;
    if PriceToIdx(p).Some? && PriceToIdx(p) == PriceToIdx(q) {
      assert AtTick(p, PriceToIdx(p).value);
    }
  }

  function Put(m: Depth, level: Level): Depth {
    match (PriceToIdx(level.price), SizeToInt(level.size))
    case (Some(idx), Some(size)) => if size > 0 then m[idx := size] else m
    case _ => m
  }

  /** The last good entry for a price wins; an entry without size is skipped, it does not erase. */
  function FromSnapshot(levels: seq<Level>): Depth {
    if levels == [] then map[]
    else Put(FromSnapshot(levels[..|levels| - 1]), levels[|levels| - 1])
  }

  /** Entry k gives level idx the size n. */
  ghost predicate Gives(level: Level, idx: int, n: int) {
    AtTick(level.price, idx) && InUnits(level.size, n) && n > 0
  }

  /** What a snapshot means: a level has the size of the last entry that gives it one. */
  lemma {:induction false} SnapshotLevel(levels: seq<Level>, idx: nat, n: int)
    ensures idx in FromSnapshot(levels) && FromSnapshot(levels)[idx] == n <==>
            exists k :: 0 <= k < |levels| && Gives(levels[k], idx, n)
                        && forall l, m :: k < l < |levels| ==> !Gives(levels[l], idx, m)
    decreases |levels|
  {
    if levels != [] {
      var front, last := levels[..|levels| - 1], levels[|levels| - 1];
      SnapshotLevel(front, idx, n);
      PutGives(FromSnapshot(front), last, idx, n);
      hide Gives, Put;
      forall k | 0 <= k < |levels| ensures levels[k] == if k < |front| then front[k] else last {}
      if idx in FromSnapshot(levels) && FromSnapshot(levels)[idx] == n {
        if forall m :: !Gives(last, idx, m) {
          var k :| 0 <= k < |front| && Gives(front[k], idx, n) && forall l, m :: k < l < |front| ==> !Gives(front[l], idx, m);
          assert Gives(levels[k], idx, n) && forall l, m :: k < l < |levels| ==> !Gives(levels[l], idx, m);
        } else {
          assert Gives(levels[|front|], idx, n);
        }
      }
    }
  }

  lemma PutGives(m: Depth, level: Level, idx: nat, n: int)
    ensures (forall k :: !Gives(level, idx, k)) ==>
              (idx in Put(m, level) && Put(m, level)[idx] == n <==> idx in m && m[idx] == n)
    ensures (exists k :: Gives(level, idx, k)) ==>
              (idx in Put(m, level) && Put(m, level)[idx] == n <==> Gives(level, idx, n))
  {
    forall k ensures Gives(level, idx, k) <==>
                     PriceToIdx(level.price) == Some(idx) && SizeToInt(level.size) == Some(k) && k > 0 {
      PriceIsAtTick(level.price, idx);
      SizeIsInUnits(level.size, k);
    }
    hide Gives, PriceToIdx, SizeToInt;
  }

  function BadPrices(levels: seq<Level>): nat {
    if levels == [] then 0
    else BadPrices(levels[..|levels| - 1]) + if PriceToIdx(levels[|levels| - 1].price).None? then 1 else 0
  }

  function SetTo(m: Depth, idx: nat, size: int): Depth {
    if size > 0 then m[idx := size] else m - {idx}
  }

  // ----- best levels -----

  /** 0 is the best possible price of a side. */
  function Rank(side: Side, idx: nat): int {
    if side.Bid? then PRICE_MAX_IDX - idx else idx
  }

  function AtRank(side: Side, r: nat): nat
    requires r <= PRICE_MAX_IDX
  {
    if side.Bid? then PRICE_MAX_IDX - r else r
  }

  ghost predicate InRange(m: Depth) {
    forall idx :: idx in m ==> idx <= PRICE_MAX_IDX && m[idx] > 0
  }

  ghost predicate IsBest(m: Depth, side: Side, best: Option<nat>) {
    match best
    case None => m == map[]
    case Some(b) => b in m && forall idx :: idx in m ==> Rank(side, b) <= Rank(side, idx)
  }

  lemma BestOfMore(m: Depth, side: Side, best: Option<nat>, idx: nat, size: int)
    requires IsBest(m, side, best)
    ensures IsBest(m[idx := size], side, if best.None? || Rank(side, idx) < Rank(side, best.value) then Some(idx) else best)
  {}

  lemma BestOfLess(m: Depth, side: Side, best: Option<nat>, idx: nat)
    requires IsBest(m, side, best) && best != Some(idx)
    ensures IsBest(m - {idx}, side, best)
  {
    if best.None? {
      assert m - {idx} == map[];
    }
  }

  lemma BestAfterBest(m: Depth, side: Side, b: nat, next: Option<nat>)
    requires IsBest(m, side, Some(b)) && forall idx :: idx in m ==> idx <= PRICE_MAX_IDX
    requires next.Some? ==> next.value in m && Rank(side, b) < Rank(side, next.value)
    requires forall idx :: idx in m && Rank(side, b) < Rank(side, idx) ==>
                             next.Some? && Rank(side, next.value) <= Rank(side, idx)
    ensures IsBest(m - {b}, side, next)
  {
    forall idx | idx in m && idx != b ensures Rank(side, b) < Rank(side, idx) {}
    if next.None? {
      assert m - {b} == map[];
    }
  }

  /** `t` lists the n best levels of m, best first (all of them when there are fewer). */
  ghost predicate IsTop(t: seq<(nat, int)>, m: Depth, side: Side, n: nat) {
    && |t| <= n
    && (forall i :: 0 <= i < |t| ==> t[i].0 in m && m[t[i].0] == t[i].1)
    && (forall i, j :: 0 <= i < j < |t| ==> Rank(side, t[i].0) < Rank(side, t[j].0))
    && (forall idx :: idx in m ==> Listed(t, idx) || (|t| == n && Beyond(t, side, idx)))
  }

  ghost predicate Listed(t: seq<(nat, int)>, idx: nat) {
    exists i :: 0 <= i < |t| && t[i].0 == idx
  }

  ghost predicate Beyond(t: seq<(nat, int)>, side: Side, idx: nat) {
    forall i :: 0 <= i < |t| ==> Rank(side, t[i].0) < Rank(side, idx)
  }

  /** The first n levels met when walking from rank r to the worst price. */
  function Scan(m: Depth, side: Side, r: nat, n: nat): seq<(nat, int)>
    decreases PRICE_LEVELS - r
  {
    if n == 0 || r > PRICE_MAX_IDX then []
    else
      var idx := AtRank(side, r);
      if idx in m then [(idx, m[idx])] + Scan(m, side, r + 1, n - 1) else Scan(m, side, r + 1, n)
  }

  function Top(m: Depth, side: Side, n: nat): seq<(nat, int)> {
    Scan(m, side, 0, n)
  }

  lemma {:induction false} ScanRanks(m: Depth, side: Side, r: nat, n: nat)
    requires InRange(m)
    ensures var t := Scan(m, side, r, n);
            && |t| <= n
            && (forall i :: 0 <= i < |t| ==> t[i].0 in m && m[t[i].0] == t[i].1 && r <= Rank(side, t[i].0))
            && (forall i, j :: 0 <= i < j < |t| ==> Rank(side, t[i].0) < Rank(side, t[j].0))
    decreases PRICE_LEVELS - r
  {
    if n != 0 && r <= PRICE_MAX_IDX {
      ScanRanks(m, side, r + 1, if AtRank(side, r) in m then n - 1 else n);
    }
  }

  lemma {:induction false} ScanComplete(m: Depth, side: Side, r: nat, n: nat, idx: nat)
    requires InRange(m) && idx in m && r <= Rank(side, idx)
    ensures var t := Scan(m, side, r, n);
            Listed(t, idx) || (|t| == n && Beyond(t, side, idx))
    decreases PRICE_LEVELS - r
  {
    if n != 0 {
      var here := AtRank(side, r);
      var t := Scan(m, side, r, n);
      if here !in m {
        ScanComplete(m, side, r + 1, n, idx);
      } else if here == idx {
        assert t[0].0 == idx;
      } else {
        var rest := Scan(m, side, r + 1, n - 1);
        ScanComplete(m, side, r + 1, n - 1, idx);
        if Listed(rest, idx) {
          var i :| 0 <= i < |rest| && rest[i].0 == idx;
          assert t[i + 1].0 == idx;
        }
      }
    }
  }

  /** Walking the book finds the n best levels. */
  lemma TopIsTop(m: Depth, side: Side, n: nat)
    requires InRange(m)
    ensures IsTop(Top(m, side, n), m, side, n)
  {
    ScanRanks(m, side, 0, n);
    forall idx | idx in m ensures var t := Top(m, side, n); Listed(t, idx) || (|t| == n && Beyond(t, side, idx)) {
      ScanComplete(m, side, 0, n, idx);
    }
  }

  lemma {:induction false} TopAgree(a: seq<(nat, int)>, b: seq<(nat, int)>, m: Depth, side: Side, n: nat, i: nat)
    requires IsTop(a, m, side, n) && IsTop(b, m, side, n) && i < |a|
    ensures i < |b| && a[i] == b[i]
    decreases i
  {
    forall j | 0 <= j < i ensures j < |b| && a[j] == b[j] {
      TopAgree(a, b, m, side, n, j);
    }
    if Listed(b, a[i].0) {
      var k :| 0 <= k < |b| && b[k].0 == a[i].0;
      if k > i {
        AtMost(b, a, m, side, n, i);
      }
    } else {
      AtMost(b, a, m, side, n, i);
    }
  }

  /** When two top lists agree before i, the i-th entry of one cannot be strictly better. */
  lemma AtMost(b: seq<(nat, int)>, a: seq<(nat, int)>, m: Depth, side: Side, n: nat, i: nat)
    requires IsTop(a, m, side, n) && IsTop(b, m, side, n) && i < |a| && i < |b|
    requires forall j :: 0 <= j < i ==> a[j] == b[j]
    ensures !(Rank(side, b[i].0) < Rank(side, a[i].0))
  {
    assert Listed(a, b[i].0) || Beyond(a, side, b[i].0);
  }

  /** The n best levels of a book are one list. */
  lemma TopUnique(a: seq<(nat, int)>, b: seq<(nat, int)>, m: Depth, side: Side, n: nat)
    requires IsTop(a, m, side, n) && IsTop(b, m, side, n)
    ensures a == b
  {
    forall i | 0 <= i < |a| ensures i < |b| && a[i] == b[i] {
      TopAgree(a, b, m, side, n, i);
    }
    if |a| < |b| {
      TopAgree(b, a, m, side, n, |a|);
    } else if |b| < |a| {
      TopAgree(a, b, m, side, n, |b|);
    }
  }

  lemma {:induction false} ScanSkips(m: Depth, side: Side, r: nat, to: nat, n: nat)
    requires r <= to <= PRICE_LEVELS
    requires forall q: nat :: r <= q < to ==> AtRank(side, q) !in m
    ensures Scan(m, side, r, n) == Scan(m, side, to, n)
    decreases PRICE_LEVELS - r
  {
    if r < to {
      ScanSkips(m, side, r + 1, to, n);
    }
  }

  /** A shorter top list is a prefix of a longer one. */
  lemma {:induction false} ScanPrefix(m: Depth, side: Side, r: nat, n: nat, k: nat)
    requires k <= n
    ensures var t := Scan(m, side, r, n);
            Scan(m, side, r, k) == if k <= |t| then t[..k] else t
    decreases PRICE_LEVELS - r
  {
    if k != 0 && r <= PRICE_MAX_IDX {
      if AtRank(side, r) in m {
        ScanPrefix(m, side, r + 1, n - 1, k - 1);
      } else {
        ScanPrefix(m, side, r + 1, n, k);
      }
    }
  }

  function FirstIdx(t: seq<(nat, int)>): Option<nat> {
    if t == [] then None else Some(t[0].0)
  }

  lemma BestIsFirst(m: Depth, side: Side, best: Option<nat>, n: nat)
    requires InRange(m) && IsBest(m, side, best) && n > 0
    ensures best == FirstIdx(Top(m, side, n))
  {
    TopIsTop(m, side, n);
    var t := Top(m, side, n);
    if best.Some? {
      assert Listed(t, best.value) || |t| == n;
    }
  }

  // ----- one more level of a snapshot -----

  lemma ReplaceKeepsTop(t: seq<(nat, int)>, m: Depth, side: Side, n: nat, i: nat, size: int)
    requires IsTop(t, m, side, n) && i < |t|
    ensures IsTop(t[i := (t[i].0, size)], m[t[i].0 := size], side, n)
  {
    var idx := t[i].0;
    var u := t[i := (idx, size)];
    forall k | k in m[idx := size] ensures Listed(u, k) || (|u| == n && Beyond(u, side, k)) {
      if k == idx {
        assert u[i].0 == idx;
      } else if Listed(t, k) {
        var j :| 0 <= j < |t| && t[j].0 == k;
        assert u[j].0 == k;
      }
    }
  }

  function InsertAt(t: seq<(nat, int)>, pos: nat, x: (nat, int)): (u: seq<(nat, int)>)
    requires pos <= |t|
    ensures |u| == |t| + 1
    ensures forall i :: 0 <= i < |u| ==> u[i] == if i < pos then t[i] else if i == pos then x else t[i - 1]
  {
    t[..pos] + [x] + t[pos..]
  }

  ghost predicate Fits(t: seq<(nat, int)>, side: Side, pos: nat, idx: nat) {
    && pos < |t| && !Listed(t, idx)
    && Rank(side, idx) < Rank(side, t[pos].0)
    && (forall i :: 0 <= i < pos ==> Rank(side, t[i].0) < Rank(side, idx))
  }

  lemma InsertedEntries(t: seq<(nat, int)>, m: Depth, side: Side, n: nat, pos: nat, idx: nat, size: int)
    requires IsTop(t, m, side, n) && Fits(t, side, pos, idx)
    ensures var u, m' := InsertAt(t, pos, (idx, size)), m[idx := size];
            && (forall i :: 0 <= i < |u| ==> u[i].0 in m' && m'[u[i].0] == u[i].1)
            && (forall i, j :: 0 <= i < j < |u| ==> Rank(side, u[i].0) < Rank(side, u[j].0))
  {
    hide Rank;
    var u, m' := InsertAt(t, pos, (idx, size)), m[idx := size];
    forall i | 0 <= i < |u| ensures u[i].0 in m' && m'[u[i].0] == u[i].1 {
      if i != pos {
        var j := if i < pos then i else i - 1;
        assert u[i] == t[j] && (t[j].0 == idx ==> Listed(t, idx));
      }
    }
  }

  lemma InsertedCovers(t: seq<(nat, int)>, m: Depth, side: Side, n: nat, pos: nat, idx: nat, size: int, k: nat)
    requires IsTop(t, m, side, n) && Fits(t, side, pos, idx) && k in m[idx := size]
    ensures var u := InsertAt(t, pos, (idx, size));
            Listed(u, k) || (|t| == n && Beyond(u, side, k))
  {
    hide Rank;
    var u := InsertAt(t, pos, (idx, size));
    if k == idx {
      assert u[pos].0 == idx;
    } else if Listed(t, k) {
      hide Fits, IsTop;
      var j :| 0 <= j < |t| && t[j].0 == k;
      assert u[if j < pos then j else j + 1].0 == k;
    } else {
      assert |t| == n && Beyond(t, side, k);
      hide IsTop;
      assert Rank(side, t[pos].0) < Rank(side, k);
    }
  }

  /** Inserting in order, before any cut: a list of one more level. */
  lemma InsertGrowsTop(t: seq<(nat, int)>, m: Depth, side: Side, n: nat, pos: nat, idx: nat, size: int)
    requires IsTop(t, m, side, n) && Fits(t, side, pos, idx)
    ensures IsTop(InsertAt(t, pos, (idx, size)), m[idx := size], side, if |t| < n then n else n + 1)
  {
    InsertedEntries(t, m, side, n, pos, idx, size);
    var u := InsertAt(t, pos, (idx, size));
    forall k | k in m[idx := size] ensures Listed(u, k) || (|t| == n && Beyond(u, side, k)) {
      InsertedCovers(t, m, side, n, pos, idx, size, k);
    }
    hide Rank, Listed, Beyond;
  }

  lemma CutKeepsTop(t: seq<(nat, int)>, m: Depth, side: Side, n: nat)
    requires IsTop(t, m, side, n + 1) && |t| == n + 1
    ensures IsTop(t[..n], m, side, n)
  {
    forall k | k in m ensures Listed(t[..n], k) || Beyond(t[..n], side, k) {
      if Listed(t, k) {
        var j :| 0 <= j < |t| && t[j].0 == k;
        assert j < n ==> t[..n][j].0 == k;
      }
    }
  }

  lemma AppendKeepsTop(t: seq<(nat, int)>, m: Depth, side: Side, n: nat, idx: nat, size: int)
    requires IsTop(t, m, side, n) && !Listed(t, idx)
    requires forall i :: 0 <= i < |t| ==> Rank(side, t[i].0) < Rank(side, idx)
    ensures IsTop(if |t| < n then t + [(idx, size)] else t, m[idx := size], side, n)
  {
    var u := if |t| < n then t + [(idx, size)] else t;
    forall i | 0 <= i < |u| ensures u[i].0 in m[idx := size] && m[idx := size][u[i].0] == u[i].1 {
      assert i < |t| ==> u[i] == t[i] && t[i].0 != idx;
    }
    forall k | k in m[idx := size] ensures Listed(u, k) || (|u| == n && Beyond(u, side, k)) {
      if k == idx {
        if |t| < n {
          assert u[|t|].0 == idx;
        }
      } else if Listed(t, k) {
        var j :| 0 <= j < |t| && t[j].0 == k;
        assert u[j].0 == k;
      }
    }
  }

  lemma {:induction false} SnapshotInRange(levels: seq<Level>)
    ensures InRange(FromSnapshot(levels))
    decreases |levels|
  {
    if levels != [] {
      SnapshotInRange(levels[..|levels| - 1]);
    }
  }

  // ----- what is computed from the best levels -----

  /** Price times size in units of 10^-10. */
  function Notional(t: seq<(nat, int)>): int {
    if t == [] then 0 else t[0].0 * t[0].1 + Notional(t[1..])
  }

  function Notionals(t: seq<(nat, int)>): (out: seq<int>)
    ensures |out| == |t|
  {
    if t == [] then [] else [t[0].0 * t[0].1] + Notionals(t[1..])
  }

  lemma NotionalCons(x: (nat, int), rest: seq<(nat, int)>)
    ensures Notional([x] + rest) == x.0 * x.1 + Notional(rest)
    ensures Notionals([x] + rest) == [x.0 * x.1] + Notionals(rest)
  {
    assert ([x] + rest)[1..] == rest;
  }

  function TopHash(bids: seq<(nat, int)>, asks: seq<(nat, int)>): Option<bv64> {
    if bids == [] && asks == [] then None else Some(HashPairs(HashPairs(HASH_SEED, bids), asks))
  }

  // ----- drift -----

  /** The relative depth test of the drift check, on notionals in units of 10^-10. */
  predicate DepthDrifted(local: int, snap: int) {
    if local > 0 && snap > 0 then
      var l, s := local as real / 10_000_000_000.0, snap as real / 10_000_000_000.0;
      (if s >= l then s - l else l - s) / (if l > 0.000000001 then l else 0.000000001) >= 0.05
    else (local > 0) != (snap > 0)
  }

  /** The depths differ by a twentieth of the local one or more, or only one of them is positive. */
  lemma DepthDriftIsATwentieth(local: int, snap: int)
    ensures local > 0 && snap > 0 ==>
              (DepthDrifted(local, snap) <==>
               20 * (if snap >= local then snap - local else local - snap) >= if local > 10 then local else 10)
    ensures local <= 0 || snap <= 0 ==> (DepthDrifted(local, snap) <==> (local > 0) != (snap > 0))
  {
    if local > 0 && snap > 0 {
      var apart := if snap >= local then snap - local else local - snap;
      var l, s := local as real / 10_000_000_000.0, snap as real / 10_000_000_000.0;
      var d := if s >= l then s - l else l - s;
      var base := if l > 0.000000001 then l else 0.000000001;
      assert d == apart as real / 10_000_000_000.0;
      assert base == (if local > 10 then local else 10) as real / 10_000_000_000.0;
      QuotientAtLeast(d, base);
    }
  }

  lemma QuotientAtLeast(d: real, base: real)
    requires base > 0.0
    ensures d / base >= 0.05 <==> 20.0 * d >= base
  {
    assert (d / base) * base == d;
  }

  predicate HashDrifted(local: Option<bv64>, snap: Option<bv64>) {
    local.Some? && snap.Some? && local.value != snap.value
  }

  /** When the check reports that a snapshot (bids', asks') disagrees with the local book (bids, asks). */
  predicate Drifted(bids: Depth, asks: Depth, bids': Depth, asks': Depth) {
    || FirstIdx(Top(bids, Bid, 20)) != FirstIdx(Top(bids', Bid, 20))
    || FirstIdx(Top(asks, Ask, 20)) != FirstIdx(Top(asks', Ask, 20))
    || DepthDrifted(Notional(Top(bids, Bid, 10)) + Notional(Top(asks, Ask, 10)),
                    Notional(Top(bids', Bid, 10)) + Notional(Top(asks', Ask, 10)))
    || HashDrifted(TopHash(Top(bids, Bid, 20), Top(asks, Ask, 20)), TopHash(Top(bids', Bid, 20), Top(asks', Ask, 20)))
  }

  /** A snapshot never drifts from the book that it has just replaced. */
  lemma NoDriftFromItself(bids: Depth, asks: Depth)
    ensures !Drifted(bids, asks, bids, asks)
  {
    var local := Notional(Top(bids, Bid, 10)) + Notional(Top(asks, Ask, 10));
    hide Top, Notional, HashPairs;
    assert !DepthDrifted(local, local);
  }

  /** Books whose twenty best levels of a side differ in one byte of one price or size are always reported. */
  lemma OneLevelDriftIsReported(bids: Depth, asks: Depth, bids': Depth, asks': Depth,
                                before: seq<(nat, int)>, p: (nat, int), q: (nat, int), after: seq<(nat, int)>)
    requires LevelApart(p, q)
    requires (Top(bids, Bid, 20) == before + [p] + after && Top(bids', Bid, 20) == before + [q] + after
              && Top(asks, Ask, 20) == Top(asks', Ask, 20))
             || (Top(asks, Ask, 20) == before + [p] + after && Top(asks', Ask, 20) == before + [q] + after
                 && Top(bids, Bid, 20) == Top(bids', Bid, 20))
    ensures Drifted(bids, asks, bids', asks')
  {
    hide Top, HashPairs, LevelApart, DepthDrifted, Notional;
    if Top(asks, Ask, 20) == Top(asks', Ask, 20) {
      OneLevelShows(HASH_SEED, before, p, q, after);
      SameLevelsAfter(HashPairs(HASH_SEED, before + [p] + after), HashPairs(HASH_SEED, before + [q] + after), Top(asks, Ask, 20));
    } else {
      OneLevelShows(HashPairs(HASH_SEED, Top(bids, Bid, 20)), before, p, q, after);
    }
  }

  /** Books that differ in the best price of a side are always reported. */
  lemma BestPriceDriftIsReported(bids: Depth, asks: Depth, bids': Depth, asks': Depth, side: Side, b: Option<nat>, b': Option<nat>)
    requires var local, snap := if side.Bid? then bids else asks, if side.Bid? then bids' else asks';
             InRange(local) && InRange(snap) && IsBest(local, side, b) && IsBest(snap, side, b') && b != b'
    ensures Drifted(bids, asks, bids', asks')
  {
    BestIsFirst(if side.Bid? then bids else asks, side, b, 20);
    BestIsFirst(if side.Bid? then bids' else asks', side, b', 20);
  }
}
