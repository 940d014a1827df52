/** The whole book, the streaming top-n over a snapshot, and the check that compares the two. */
module BookDrift {
  import opened Numbers
  import opened Options
  import opened BookModel
  import opened Fnv
  import opened BookSides

  /** One pass over the raw levels of a snapshot, keeping only the n best seen so far. */
  method CollectTopLevels(levels: seq<Level>, side: Side, n: nat) returns (top: seq<(nat, int)>)
    ensures top == Top(FromSnapshot(levels), side, n)
  {
    top := [];
    for i := 0 to |levels|
      invariant IsTop(top, FromSnapshot(levels[..i]), side, n)
    {
      assert levels[..i + 1][..i] == levels[..i];
      var idx, size := PriceToIdx(levels[i].price), SizeToInt(levels[i].size);
      if idx.Some? && size.Some? && size.value > 0 {
        top := Offer(top, FromSnapshot(levels[..i]), idx.value, size.value, side, n);
      }
    }
    assert levels[..|levels|] == levels;
    SnapshotInRange(levels);
    TopIsTop(FromSnapshot(levels), side, n);
    TopUnique(top, Top(FromSnapshot(levels), side, n), FromSnapshot(levels), side, n);
  }

  method Find(t: seq<(nat, int)>, idx: nat) returns (i: nat)
    ensures i <= |t| && (i < |t| ==> t[i].0 == idx) && (i == |t| ==> !Listed(t, idx))
  {
    i := 0;
    while i < |t| && t[i].0 != idx
      invariant i <= |t| && forall j :: 0 <= j < i ==> t[j].0 != idx
    {
      i := i + 1;
    }
  }

  /** The first entry that `idx` beats. */
  method Position(t: seq<(nat, int)>, side: Side, idx: nat) returns (pos: nat)
    ensures pos <= |t| && (pos < |t| ==> Rank(side, idx) < Rank(side, t[pos].0))
    ensures forall j :: 0 <= j < pos ==> Rank(side, t[j].0) <= Rank(side, idx)
  {
    pos := 0;
    while pos < |t| && !(if side.Bid? then idx > t[pos].0 else idx < t[pos].0)
      invariant pos <= |t| && forall j :: 0 <= j < pos ==> Rank(side, t[j].0) <= Rank(side, idx)
    {
      pos := pos + 1;
    }
  }

  lemma StrictlyBefore(t: seq<(nat, int)>, side: Side, idx: nat, pos: nat)
    requires !Listed(t, idx) && pos <= |t| && forall j :: 0 <= j < pos ==> Rank(side, t[j].0) <= Rank(side, idx)
    ensures forall j :: 0 <= j < pos ==> Rank(side, t[j].0) < Rank(side, idx)
  {
    forall j | 0 <= j < pos ensures Rank(side, t[j].0) < Rank(side, idx) {
      assert t[j].0 == idx ==> Listed(t, idx);
    }
  }

  /** Takes one good level into the list: in place, inserted with the last one cut off, or appended. */
  method Offer(t: seq<(nat, int)>, ghost m: Depth, idx: nat, size: int, side: Side, n: nat) returns (top: seq<(nat, int)>)
    requires IsTop(t, m, side, n)
    ensures IsTop(top, m[idx := size], side, n)
  {
    hide IsTop, Listed, Rank, InsertAt;
    var i := Find(t, idx);
    if i < |t| {
      ReplaceKeepsTop(t, m, side, n, i, size);
      return t[i := (idx, size)];
    }
    var pos := Position(t, side, idx);
    StrictlyBefore(t, side, idx, pos);
    TopIsShort(t, m, side, n);
    if pos < |t| {
      top := InsertAt(t, pos, (idx, size));
      InsertGrowsTop(t, m, side, n, pos, idx, size);
      if |top| > n {
        CutKeepsTop(top, m[idx := size], side, n);
        top := top[..|top| - 1];
      }
    } else {
      AppendKeepsTop(t, m, side, n, idx, size);
      top := if |t| < n then t + [(idx, size)] else t;
    }
  }

  lemma TopIsShort(t: seq<(nat, int)>, m: Depth, side: Side, n: nat)
    requires IsTop(t, m, side, n)
    ensures |t| <= n
  {}

  method SumTopLevels(levels: seq<(nat, int)>, n: nat) returns (sum: int)
    ensures sum == Notional(if n < |levels| then levels[..n] else levels)
  {
    hide Notional;
    var kept := if n < |levels| then levels[..n] else levels;
    NotionalNil();
    sum := 0;
    var i := 0;
    while i < |kept|
      invariant 0 <= i <= |kept| && sum + Notional(kept[i..]) == Notional(kept)
    {
      NotionalCons(kept[i], kept[i + 1..]);
      assert kept[i..] == [kept[i]] + kept[i + 1..];
      sum := sum + kept[i].0 * kept[i].1;
      i := i + 1;
    }
    assert kept[i..] == [];
  }

  datatype SnapshotMetrics = SnapshotMetrics(bestBid: Option<nat>, bestAsk: Option<nat>, hash: Option<bv64>, depthTop10: int)

  function Metrics(b: Depth, a: Depth): SnapshotMetrics {
    SnapshotMetrics(FirstIdx(Top(b, Bid, 20)), FirstIdx(Top(a, Ask, 20)), TopHash(Top(b, Bid, 20), Top(a, Ask, 20)),
                    Notional(Top(b, Bid, 10)) + Notional(Top(a, Ask, 10)))
  }

  method MeasureSnapshot(bids: seq<Level>, asks: seq<Level>) returns (r: SnapshotMetrics)
    ensures r == Metrics(FromSnapshot(bids), FromSnapshot(asks))
  {
    hide Scan, Notional, HashPairs;
    var bidLevels := CollectTopLevels(bids, Bid, 20);
    var askLevels := CollectTopLevels(asks, Ask, 20);
    var bidDepth := SumTopLevels(bidLevels, 10);
    var askDepth := SumTopLevels(askLevels, 10);
    ScanPrefix(FromSnapshot(bids), Bid, 0, 20, 10);
    ScanPrefix(FromSnapshot(asks), Ask, 0, 20, 10);
    assert |bidLevels| == 10 ==> bidLevels[..10] == bidLevels;
    assert |askLevels| == 10 ==> askLevels[..10] == askLevels;
    r := SnapshotMetrics(FirstIdx(bidLevels), FirstIdx(askLevels), TopHash(bidLevels, askLevels), bidDepth + askDepth);
  }

  predicate Differ(local: SnapshotMetrics, snap: SnapshotMetrics) {
    || local.bestBid != snap.bestBid || local.bestAsk != snap.bestAsk
    || DepthDrifted(local.depthTop10, snap.depthTop10) || HashDrifted(local.hash, snap.hash)
  }

  lemma DriftIsDifference(b: Depth, a: Depth, b': Depth, a': Depth)
    ensures Drifted(b, a, b', a') <==> Differ(Metrics(b, a), Metrics(b', a'))
  {
    hide Top, Notional, DepthDrifted, FirstIdx, TopHash, HashDrifted;
  }

  class DenseBook {
    const bids: BookSide
    const asks: BookSide
    var lastUpdateMs: int

    ghost predicate Valid()
      reads this, bids, bids.slots, asks, asks.slots
    {
      && bids != asks && bids.slots != asks.slots
      && bids.side.Bid? && asks.side.Ask?
      && bids.Valid() && asks.Valid()
    }

    constructor ()
      ensures Valid() && fresh(bids) && fresh(bids.slots) && fresh(asks) && fresh(asks.slots)
      ensures bids.Depth() == map[] && asks.Depth() == map[] && lastUpdateMs == 0
    {
      bids := new BookSide(Bid);
      asks := new BookSide(Ask);
      lastUpdateMs := 0;
    }

    /** Replaces the sides that the snapshot carries and leaves the other alone. */
    method ApplySnapshot(newBids: Option<seq<Level>>, newAsks: Option<seq<Level>>, ts: int) returns (invalid: nat)
      requires Valid()
      modifies this, bids, bids.slots, asks, asks.slots
      ensures Valid() && lastUpdateMs == ts
      ensures bids.Depth() == if newBids.Some? then FromSnapshot(newBids.value) else old(bids.Depth())
      ensures asks.Depth() == if newAsks.Some? then FromSnapshot(newAsks.value) else old(asks.Depth())
      ensures invalid == (if newBids.Some? then BadPrices(newBids.value) else 0)
                         + (if newAsks.Some? then BadPrices(newAsks.value) else 0)
    {
      lastUpdateMs, invalid := ts, 0;
      if newBids.Some? {
        invalid := bids.Load(newBids.value);
      }
      if newAsks.Some? {
        var more := asks.Load(newAsks.value);
        invalid := invalid + more;
      }
    }

    /** Sets the level nearest to the price on one side; reports a price that is off the book or a number that
        is not finite, and then changes nothing. */
    method ApplyDelta(side: Side, price: Num, size: Num, ts: int) returns (bad: bool)
      requires Valid()
      modifies this, bids, bids.slots, asks, asks.slots
      ensures Valid()
      ensures bad <==> size.NotFinite? || forall i :: !AtTick(price, i)
      ensures lastUpdateMs == if bad then old(lastUpdateMs) else ts
      ensures bad || side.Ask? ==> bids.Depth() == old(bids.Depth())
      ensures bad || side.Bid? ==> asks.Depth() == old(asks.Depth())
      ensures forall i: nat, n :: AtTick(price, i) && InUnits(size, n) ==>
                (if side.Bid? then bids.Depth() == SetTo(old(bids.Depth()), i, n)
                 else asks.Depth() == SetTo(old(asks.Depth()), i, n))
    {
      DeltaLands(price, size);
      hide AtTick, InUnits, PriceToIdx, RoundHalfAway;
      var idx, n := PriceToIdx(price), SizeToInt(size);
      if idx.None? || n.None? { return true; }
      lastUpdateMs := ts;
      SetSide(side, idx.value, if n.value <= 0 then 0 else n.value);
      return false;
    }

    method SetSide(side: Side, idx: nat, size: int)
      requires Valid() && idx <= PRICE_MAX_IDX && size >= 0
      modifies bids, bids.slots, asks, asks.slots
      ensures Valid()
      ensures bids.Depth() == if side.Bid? then SetTo(old(bids.Depth()), idx, size) else old(bids.Depth())
      ensures asks.Depth() == if side.Ask? then SetTo(old(asks.Depth()), idx, size) else old(asks.Depth())
    {
      match side {
        case Bid => bids.SetLevel(idx, size);
        case Ask => asks.SetLevel(idx, size);
      }
    }

    method TopnHash(n: nat) returns (hash: Option<bv64>)
      requires Valid() && n > 0
      ensures hash == TopHash(Top(bids.Depth(), Bid, n), Top(asks.Depth(), Ask, n))
    {
      hide HashPairs, Scan, Levels;
      EmptyTop(bids, n);
      EmptyTop(asks, n);
      if bids.nonzero + asks.nonzero == 0 { return None; }
      var h := bids.HashTop(HASH_SEED, n);
      h := asks.HashTop(h, n);
      return Some(h);
    }

    /** The local side of the comparison, from the cached indices and the walks over the arrays. */
    method MeasureLocal() returns (r: SnapshotMetrics)
      requires Valid()
      ensures r == Metrics(bids.Depth(), asks.Depth())
    {
      hide HashPairs, Scan, Levels, Notional;
      BestTop(bids);
      BestTop(asks);
      var hash := TopnHash(20);
      var bidDepth := bids.DepthTopN(10);
      var askDepth := asks.DepthTopN(10);
      hide Top, FirstIdx, TopHash;
      r := SnapshotMetrics(bids.best, asks.best, hash,
                           (if bidDepth.Some? then bidDepth.value else 0) + (if askDepth.Some? then askDepth.value else 0));
    }

    /** Compares a full snapshot with the local book before it is applied. */
    method CheckSnapshotDrift(newBids: Option<seq<Level>>, newAsks: Option<seq<Level>>) returns (mismatch: bool)
      requires Valid()
      ensures mismatch <==> newBids.Some? && newAsks.Some?
                            && Drifted(bids.Depth(), asks.Depth(), FromSnapshot(newBids.value), FromSnapshot(newAsks.value))
    {
      if newBids.None? || newAsks.None? { return false; }
      var local := MeasureLocal();
      var snap := MeasureSnapshot(newBids.value, newAsks.value);
      hide Metrics, Drifted, DepthDrifted, HashDrifted;
      mismatch := local.bestBid != snap.bestBid || local.bestAsk != snap.bestAsk
                  || DepthDrifted(local.depthTop10, snap.depthTop10) || HashDrifted(local.hash, snap.hash);
      DriftIsDifference(bids.Depth(), asks.Depth(), FromSnapshot(newBids.value), FromSnapshot(newAsks.value));
    }

    /** A full snapshot, applied and checked again, never reports drift. */
    method ApplyThenCheck(newBids: seq<Level>, newAsks: seq<Level>, ts: int) returns (mismatch: bool)
      requires Valid()
      modifies this, bids, bids.slots, asks, asks.slots
      ensures Valid() && !mismatch
    {
      var _ := ApplySnapshot(Some(newBids), Some(newAsks), ts);
      NoDriftFromItself(bids.Depth(), asks.Depth());
      mismatch := CheckSnapshotDrift(Some(newBids), Some(newAsks));
    }
  }

  lemma EmptyTop(half: BookSide, n: nat)
    requires half.Valid() && n > 0
    ensures Top(half.Depth(), half.side, n) == [] <==> half.nonzero == 0
  {
    if half.nonzero == 0 {
      assert half.Depth() == map[];
      TopOfNothing(half.side, n);
    } else {
      LevelsBounded(half.slots[..]);
      BestIsFirst(half.Depth(), half.side, half.best, n);
    }
  }

  /** What the cached best index and an empty side say about the best levels. */
  lemma BestTop(half: BookSide)
    requires half.Valid()
    ensures half.best == FirstIdx(Top(half.Depth(), half.side, 20))
    ensures half.Depth() == map[] ==> Notional(Top(half.Depth(), half.side, 10)) == 0
  {
    LevelsBounded(half.slots[..]);
    BestIsFirst(half.Depth(), half.side, half.best, 20);
    if half.Depth() == map[] {
      TopOfNothing(half.side, 10);
    }
  }
}
