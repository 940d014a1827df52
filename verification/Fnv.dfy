/** The 64-bit FNV-1a hash over price and size pairs by which two books are compared. */
module Fnv {
  const HASH_SEED: bv64 := 0xcbf29ce484222325

  function Xor(hash: bv64, b: bv64): bv64 {
    hash ^ b
  }

  /** One multiplication by the prime of the hash. */
  function Times(x: bv64): bv64 {
    x * 0x100000001b3
  }

  function HashByte(hash: bv64, b: bv64): bv64 {
    Times(Xor(hash, b))
  }

  function LowByte(x: int): bv64 {
    (x % 256) as bv64
  }

  /** Feeds the k low bytes of x, least significant first. */
  function HashBytes(hash: bv64, x: int, k: nat): bv64
    decreases k
  {
    if k == 0 then hash
    else HashBytes(HashByte(hash, LowByte(x)), x / 256, k - 1)
  }

  function HashPair(hash: bv64, idx: nat, size: int): bv64 {
    HashBytes(HashBytes(hash, idx, 8), size, 8)
  }

  function HashPairs(hash: bv64, t: seq<(nat, int)>): bv64
    decreases |t|
  {
    if t == [] then hash else HashPairs(HashPair(hash, t[0].0, t[0].1), t[1..])
  }

  lemma HashCons(hash: bv64, x: (nat, int), rest: seq<(nat, int)>)
    ensures HashPairs(hash, [x] + rest) == HashPairs(HashPair(hash, x.0, x.1), rest)
  {
    hide HashPair;
    assert ([x] + rest)[1..] == rest;
  }

  /** The published value of the hash of the text "fo". */
  lemma HashIsFnv1a()
    ensures HashBytes(HASH_SEED, 0x66 + 256 * 0x6f, 2) == 0x8985907b541d342
  {
    hide HashByte, LowByte;
    FirstLetter();
    LowByteIs(0x66 + 256 * 0x6f, 0x66);
    LowByteIs(0x6f, 0x6f);
    assert (0x66 + 256 * 0x6f) / 256 == 0x6f;
  }

  lemma FirstLetter()
    ensures HashByte(HASH_SEED, 0x66) == 0xaf63db4c8601ead9
    ensures HashByte(0xaf63db4c8601ead9, 0x6f) == 0x8985907b541d342
  {}

  lemma LowByteIs(x: int, b: bv64)
    requires x % 256 == b as int
    ensures LowByte(x) == b
  {}

  /** Multiplying by the inverse of the hash's prime. */
  function Undo(x: bv64): bv64 {
    x * 0xce965057aff6957b
  }

  lemma PrimeUndone(x: bv64)
    ensures Undo(Times(x)) == x
  {
    hide Undo, Times;
    ProductUndone(x);
    TimesIs(x);
  }

  lemma ProductUndone(x: bv64)
    ensures Undo(x * 0x100000001b3) == x
  {}

  lemma TimesIs(x: bv64)
    ensures Undo(x * 0x100000001b3) == Undo(Times(x))
  {
    hide Undo;
  }

  lemma ByteUndone(h: bv64, b: bv64)
    ensures Undo(HashByte(h, b)) == Xor(h, b)
  {
    hide Undo, Times, Xor;
    PrimeUndone(Xor(h, b));
  }

  lemma XorUndone(h: bv64, b: bv64)
    ensures Xor(Xor(h, b), b) == h && Xor(Xor(h, b), h) == b
  {}

  /** No two states meet on the same byte, and no two bytes from the same state. */
  lemma BytesStayApart(h: bv64, g: bv64, b: bv64, c: bv64)
    ensures HashByte(h, b) == HashByte(g, b) ==> h == g
    ensures HashByte(h, b) == HashByte(h, c) ==> b == c
  {
    hide HashByte, Undo, Xor;
    ByteUndone(h, b);
    ByteUndone(g, b);
    ByteUndone(h, c);
    XorUndone(h, b);
    XorUndone(g, b);
    XorUndone(h, c);
  }

  /** Exactly one of the k low bytes differs, and nothing above. */
  ghost predicate OneByteApart(x: int, y: int, k: nat)
    decreases k
  {
    k > 0 && if LowByte(x) == LowByte(y) then OneByteApart(x / 256, y / 256, k - 1) else x / 256 == y / 256
  }

  lemma {:induction false} SameTail(h: bv64, g: bv64, x: int, k: nat)
    requires h != g
    ensures HashBytes(h, x, k) != HashBytes(g, x, k)
    decreases k
  {
    hide HashByte, LowByte;
    if k > 0 {
      var b := LowByte(x);
      BytesStayApart(h, g, b, b);
      SameTail(HashByte(h, b), HashByte(g, b), x / 256, k - 1);
    }
  }

  lemma {:induction false} OneByteShows(h: bv64, x: int, y: int, k: nat)
    requires OneByteApart(x, y, k)
    ensures HashBytes(h, x, k) != HashBytes(h, y, k)
    decreases k
  {
    hide HashByte, LowByte;
    var b, c := LowByte(x), LowByte(y);
    if b == c {
      OneByteShows(HashByte(h, b), x / 256, y / 256, k - 1);
    } else {
      BytesStayApart(h, h, b, c);
      SameTail(HashByte(h, b), HashByte(h, c), x / 256, k - 1);
    }
  }

  /** Two levels that differ in one byte of the price index or of the size. */
  ghost predicate LevelApart(p: (nat, int), q: (nat, int)) {
    (p.0 == q.0 && OneByteApart(p.1, q.1, 8)) || (p.1 == q.1 && OneByteApart(p.0, q.0, 8))
  }

  lemma LevelShows(h: bv64, p: (nat, int), q: (nat, int))
    requires LevelApart(p, q)
    ensures HashPair(h, p.0, p.1) != HashPair(h, q.0, q.1)
  {
    hide HashBytes, OneByteApart;
    if p.0 == q.0 && OneByteApart(p.1, q.1, 8) {
      OneByteShows(HashBytes(h, p.0, 8), p.1, q.1, 8);
    } else {
      OneByteShows(h, p.0, q.0, 8);
      SameTail(HashBytes(h, p.0, 8), HashBytes(h, q.0, 8), p.1, 8);
    }
  }

  lemma {:induction false} SameLevelsAfter(h: bv64, g: bv64, t: seq<(nat, int)>)
    requires h != g
    ensures HashPairs(h, t) != HashPairs(g, t)
    decreases |t|
  {
    if t != [] {
      SameTail(h, g, t[0].0, 8);
      SameTail(HashBytes(h, t[0].0, 8), HashBytes(g, t[0].0, 8), t[0].1, 8);
      SameLevelsAfter(HashPair(h, t[0].0, t[0].1), HashPair(g, t[0].0, t[0].1), t[1..]);
    }
  }

  /** A change of one byte in one level always changes the hash of a list. */
  lemma {:induction false} OneLevelShows(h: bv64, before: seq<(nat, int)>, p: (nat, int), q: (nat, int), after: seq<(nat, int)>)
    requires LevelApart(p, q)
    ensures HashPairs(h, before + [p] + after) != HashPairs(h, before + [q] + after)
    decreases |before|
  {
    hide HashPair, LevelApart;
    if before == [] {
      assert [] + [p] + after == [p] + after && [] + [q] + after == [q] + after;
      HashCons(h, p, after);
      HashCons(h, q, after);
      LevelShows(h, p, q);
      SameLevelsAfter(HashPair(h, p.0, p.1), HashPair(h, q.0, q.1), after);
    } else {
      var head, tail := before[0], before[1..];
      assert before + [p] + after == [head] + (tail + [p] + after) && before + [q] + after == [head] + (tail + [q] + after);
      HashCons(h, head, tail + [p] + after);
      HashCons(h, head, tail + [q] + after);
      OneLevelShows(HashPair(h, head.0, head.1), tail, p, q, after);
    }
  }
}
