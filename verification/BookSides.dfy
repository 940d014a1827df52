/** One side of the order book as the program keeps it: a dense array, with the best index and the number of
    levels cached and updated in place. */
module BookSides {
  import opened Options
  import opened BookModel
  import opened Fnv

  /** The map that an array stands for. */
  ghost function Levels(slots: seq<int>): Depth {
    map idx: nat | idx < |slots| && slots[idx] > 0 :: slots[idx]
  }

  lemma LevelsSet(slots: seq<int>, idx: nat, size: int)
    requires idx < |slots| && size >= 0
    ensures Levels(slots[idx := size]) == SetTo(Levels(slots), idx, size)
    ensures |Levels(slots[idx := size])|
            == |Levels(slots)| + (if size > 0 then 1 else 0) - (if slots[idx] > 0 then 1 else 0)
  {
    var m, m' := Levels(slots), Levels(slots[idx := size]);
    assert m' == SetTo(m, idx, size);
    assert m'.Keys == if size > 0 then m.Keys + {idx} else m.Keys - {idx};
  }

  lemma LevelsBounded(slots: seq<int>)
    ensures forall idx :: idx in Levels(slots) ==> idx < |slots|
  {}

  /** One side of the book; both sides run the same code with the price order reversed. */
  class BookSide {
    const side: Side
    const slots: array<int>
    var nonzero: nat
    var best: Option<nat>

    ghost function Depth(): Depth
      reads this, slots
    {
      Levels(slots[..])
    }

    ghost predicate Valid()
      reads this, slots
    {
      && slots.Length == PRICE_LEVELS
      && (forall i :: 0 <= i < slots.Length ==> slots[i] >= 0)
      && nonzero == |Depth()|
      && IsBest(Depth(), side, best)
    }

    constructor (side: Side)
      ensures Valid() && fresh(slots) && this.side == side && Depth() == map[]
    {
      this.side := side;
      slots := new int[PRICE_LEVELS](_ => 0);
      nonzero, best := 0, None;
      new;
      assert Levels(slots[..]) == map[];
    }

    method Clear()
      requires Valid()
      modifies this, slots
      ensures Valid() && Depth() == map[]
    {
      forall i | 0 <= i < slots.Length {
        slots[i] := 0;
      }
      nonzero, best := 0, None;
      assert Levels(slots[..]) == map[];
    }

    /** Replaces the side by a snapshot; returns how many entries had a bad price. */
    method Load(levels: seq<Level>) returns (invalid: nat)
      requires Valid()
      modifies this, slots
      ensures Valid() && Depth() == FromSnapshot(levels) && invalid == BadPrices(levels)
    {
      Clear();
      invalid := 0;
      for i := 0 to |levels|
        invariant Valid() && Depth() == FromSnapshot(levels[..i]) && invalid == BadPrices(levels[..i])
      {
        assert levels[..i + 1][..i] == levels[..i];
        var idx := PriceToIdx(levels[i].price);
        if idx.None? {
          invalid := invalid + 1;
        } else {
          var size := SizeToInt(levels[i].size);
          if size.Some? && size.value > 0 {
            Store(idx.value, size.value);
          }
        }
      }
      assert levels[..|levels|] == levels;
    }

    /** A positive size from a snapshot. */
    method Store(idx: nat, size: int)
      requires Valid() && idx <= PRICE_MAX_IDX && size > 0
      modifies this, slots
      ensures Valid() && Depth() == old(Depth())[idx := size]
    {
      LevelsSet(slots[..], idx, size);
      BestOfMore(Depth(), side, best, idx, size);
      hide Levels, IsBest;
      if slots[idx] == 0 {
        nonzero := nonzero + 1;
      }
      slots[idx] := size;
      assert slots[..] == old(slots[..])[idx := size];
      if best.None? || (if side.Bid? then idx > best.value else idx < best.value) {
        best := Some(idx);
      }
    }

    /** Sets one level; size 0 removes it. */
    method SetLevel(idx: nat, size: int)
      requires Valid() && idx <= PRICE_MAX_IDX && size >= 0
      modifies this, slots
      ensures Valid() && Depth() == SetTo(old(Depth()), idx, size)
    {
      LevelsSet(slots[..], idx, size);
      LevelsBounded(slots[..]);
      ghost var m := Depth();
      hide Levels, IsBest;
      var prev := slots[idx];
      if prev == 0 && size > 0 {
        nonzero := nonzero + 1;
      } else if prev > 0 && size == 0 {
        nonzero := nonzero - 1;
      }
      slots[idx] := size;
      assert slots[..] == old(slots[..])[idx := size];
      UpdateBest(m, idx, size);
    }

    /** Repairs the cached best index after level `idx` of book `m` became `size`. */
    method UpdateBest(ghost m: Depth, idx: nat, size: int)
      requires slots.Length == PRICE_LEVELS && idx <= PRICE_MAX_IDX && size >= 0
      requires IsBest(m, side, best) && Depth() == SetTo(m, idx, size)
      requires forall i :: i in m ==> i <= PRICE_MAX_IDX
      modifies this`best
      ensures IsBest(Depth(), side, best)
    {
      hide Levels, IsBest;
      if size > 0 {
        BestOfMore(m, side, best, idx, size);
      } else if best != Some(idx) {
        BestOfLess(m, side, best, idx);
      }
      match best {
        case None =>
          if size > 0 {
            best := Some(idx);
          }
        case Some(b) =>
          if size > 0 && (if side.Bid? then idx > b else idx < b) {
            best := Some(idx);
          } else if idx == b && size == 0 {
            var next := FindNext(b);
            BestAfterBest(m, side, b, next);
            best := next;
          }
      }
    }

    /** The best level strictly worse than `start`. */
    method FindNext(start: nat) returns (next: Option<nat>)
      requires slots.Length == PRICE_LEVELS && start <= PRICE_MAX_IDX
      ensures next.Some? ==> next.value in Depth() && Rank(side, start) < Rank(side, next.value)
      ensures forall i :: i in Depth() && Rank(side, start) < Rank(side, i) ==>
                            next.Some? && Rank(side, next.value) <= Rank(side, i)
    {
      if side.Bid? {
        if start == 0 { return None; }
        var idx := start - 1;
        while true
          invariant 0 <= idx < start
          invariant forall i :: idx < i < start ==> slots[i] <= 0
          decreases idx
        {
          if slots[idx] > 0 { return Some(idx); }
          if idx == 0 { break; }
          idx := idx - 1;
        }
        return None;
      } else {
        var idx := start + 1;
        while idx <= PRICE_MAX_IDX
          invariant start < idx <= PRICE_LEVELS
          invariant forall i :: start < i < idx ==> slots[i] <= 0
        {
          if slots[idx] > 0 { return Some(idx); }
          idx := idx + 1;
        }
        return None;
      }
    }

    /** Walking on from the best index meets every level. */
    lemma StartAtBest(n: nat)
      requires Valid() && best.Some?
      ensures best.value <= PRICE_MAX_IDX && best.value in Depth() && slots[best.value] > 0
      ensures 0 <= Rank(side, best.value) && Top(Depth(), side, n) == Scan(Depth(), side, Rank(side, best.value), n)
    {
      forall q: nat | q < Rank(side, best.value) ensures AtRank(side, q) !in Depth() {
        assert Rank(side, AtRank(side, q)) == q;
      }
      ScanSkips(Depth(), side, 0, Rank(side, best.value), n);
    }

    /** What the walk sees at one index. */
    lemma WalkStep(m: Depth, idx: nat, n: nat)
      requires slots.Length == PRICE_LEVELS && idx <= PRICE_MAX_IDX && n > 0 && m == Depth()
      ensures var r := Rank(side, idx);
              && 0 <= r <= PRICE_MAX_IDX
              && Scan(m, side, r, n) == (if slots[idx] > 0 then [(idx, slots[idx])] + Scan(m, side, r + 1, n - 1)
                                         else Scan(m, side, r + 1, n))
              && Scan(m, side, r + 1, 0) == []
              && (r == PRICE_MAX_IDX ==> Scan(m, side, r + 1, n) == [] && Scan(m, side, r + 1, n - 1) == [])
    {
      assert AtRank(side, Rank(side, idx)) == idx;
      assert idx in Depth() <==> slots[idx] > 0;
    }

    /** The next index of the walk; none at the worst price. */
    function Onward(idx: nat): (next: Option<nat>)
      requires idx <= PRICE_MAX_IDX
      ensures next.Some? ==> next.value <= PRICE_MAX_IDX && Rank(side, next.value) == Rank(side, idx) + 1
      ensures next.None? ==> Rank(side, idx) == PRICE_MAX_IDX
    {
      if side.Bid? then
        if idx == 0 then None else Some(idx - 1)
      else
        if idx >= PRICE_MAX_IDX then None else Some(idx + 1)
    }

    /** The notional of the n best levels (of one level when n is 0); none on an empty side. */
    method DepthTopN(n: nat) returns (sum: Option<int>)
      requires Valid()
      ensures sum == if Depth() == map[] then None else Some(Notional(Top(Depth(), side, if n == 0 then 1 else n)))
    {
      hide Levels, Scan, Notional, Rank, Onward;
      if best.None? { return None; }
      ghost var m, cap := Depth(), if n == 0 then 1 else n;
      ghost var goal := Notional(Top(m, side, cap));
      StartAtBest(cap);
      NotionalNil();
      var idx: nat, total: int, count: nat := best.value, 0, 0;
      while true
        invariant idx <= PRICE_MAX_IDX && 0 <= count < cap
        invariant count > 0 || slots[idx] > 0
        invariant 0 <= Rank(side, idx) && total + Notional(Scan(m, side, Rank(side, idx), cap - count)) == goal
        decreases PRICE_MAX_IDX - Rank(side, idx)
      {
        WalkStep(m, idx, cap - count);
        var size := slots[idx];
        if size > 0 {
          NotionalCons((idx, size), Scan(m, side, Rank(side, idx) + 1, cap - count - 1));
          total, count := total + idx * size, count + 1;
          if count >= n { break; }
        }
        var next := Onward(idx);
        if next.None? { break; }
        idx := next.value;
      }
      return if count == 0 then None else Some(total);
    }

    /** The notionals of the best levels one by one, padded with zeros. */
    method TopLevelsNotional(levels: nat) returns (out: seq<int>)
      requires Valid()
      ensures var top := if Depth() == map[] then [] else Notionals(Top(Depth(), side, if levels == 0 then 1 else levels));
              out == top + seq(if levels > |top| then levels - |top| else 0, _ => 0)
    {
      out := [];
      if best.Some? {
        out := WalkNotionals(levels);
      }
      if |out| < levels {
        out := out + seq(levels - |out|, _ => 0);
      }
    }

    method WalkNotionals(levels: nat) returns (out: seq<int>)
      requires Valid() && best.Some?
      ensures out == Notionals(Top(Depth(), side, if levels == 0 then 1 else levels))
    {
      hide Levels, Scan, Notionals, Rank, Onward;
      ghost var m, cap := Depth(), if levels == 0 then 1 else levels;
      ghost var goal := Notionals(Top(m, side, cap));
      StartAtBest(cap);
      NotionalNil();
      var idx: nat := best.value;
      out := [];
      while true
        invariant idx <= PRICE_MAX_IDX && |out| < cap
        invariant 0 <= Rank(side, idx) && out + Notionals(Scan(m, side, Rank(side, idx), cap - |out|)) == goal
        decreases PRICE_MAX_IDX - Rank(side, idx)
      {
        WalkStep(m, idx, cap - |out|);
        var size := slots[idx];
        if size > 0 {
          ghost var rest := Scan(m, side, Rank(side, idx) + 1, cap - |out| - 1);
          NotionalCons((idx, size), rest);
          AppendOne(out, idx * size, Notionals(rest));
          out := out + [idx * size];
          if |out| >= levels { break; }
        }
        var next := Onward(idx);
        if next.None? { break; }
        idx := next.value;
      }
      assert out + [] == out;
    }

    /** Feeds the n best levels to the hash. */
    method HashTop(hash: bv64, n: nat) returns (h: bv64)
      requires Valid()
      ensures h == HashPairs(hash, Top(Depth(), side, if n == 0 then 1 else n))
    {
      hide HashPair, Levels, Scan, Rank, Onward;
      ghost var m, cap := Depth(), if n == 0 then 1 else n;
      h := hash;
      if best.None? {
        TopOfNothing(side, cap);
        return;
      }
      ghost var goal := HashPairs(hash, Top(m, side, cap));
      StartAtBest(cap);
      var idx: nat, count: nat := best.value, 0;
      while true
        invariant idx <= PRICE_MAX_IDX && 0 <= count < cap
        invariant 0 <= Rank(side, idx) && HashPairs(h, Scan(m, side, Rank(side, idx), cap - count)) == goal
        decreases PRICE_MAX_IDX - Rank(side, idx)
      {
        WalkStep(m, idx, cap - count);
        var size := slots[idx];
        if size > 0 {
          HashCons(h, (idx, size), Scan(m, side, Rank(side, idx) + 1, cap - count - 1));
          h, count := HashPair(h, idx, size), count + 1;
          if count >= n { break; }
        }
        var next := Onward(idx);
        if next.None? { break; }
        idx := next.value;
      }
    }
  }

  lemma NotionalNil()
    ensures Notional([]) == 0 && Notionals([]) == []
  {}

  lemma AppendOne(out: seq<int>, x: int, rest: seq<int>)
    ensures out + ([x] + rest) == (out + [x]) + rest
  {}

  lemma TopOfNothing(side: Side, n: nat)
    ensures Top(map[], side, n) == []
  {
    ScanSkips(map[], side, 0, PRICE_LEVELS, n);
  }
}
