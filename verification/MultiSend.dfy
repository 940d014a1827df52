/** The packed byte string that batches several calls into one MultiSend transaction, and the reader that
    shows nothing is lost or ambiguous in it. */
module MultiSend {
  import opened Options

  type Byte = b: int | 0 <= b < 256

  const WORD_BYTES: nat := 32
  const HEADER_BYTES: nat := 85

  function Power256(n: nat): (p: nat)
    ensures p > 0
  {
    if n == 0 then 1 else 256 * Power256(n - 1)
  }

  type U256 = v: int | 0 <= v < Power256(32)

  type Address = a: seq<Byte> | |a| == 20 witness seq(20, _ => 0)

  /** One call of the batch; `data` is shorter than 2^64 bytes because it lives in memory. */
  datatype Call = Call(operation: Byte, recipient: Address, value: U256, data: seq<Byte>)

  predicate Fits(call: Call) {
    |call.data| < Power256(8)
  }

  // ----- big-endian words -----

  function BigEndian(v: nat, n: nat): (s: seq<Byte>)
    ensures |s| == n
  {
    if n == 0 then [] else BigEndian(v / 256, n - 1) + [v % 256]
  }

  function Number(s: seq<Byte>): nat {
    if s == [] then 0 else Number(s[..|s| - 1]) * 256 + s[|s| - 1]
  }

  lemma {:induction false} NumberOfWord(v: nat, n: nat)
    requires v < Power256(n)
    ensures Number(BigEndian(v, n)) == v
  {
    if n > 0 {
      NumberOfWord(v / 256, n - 1);
      assert BigEndian(v, n)[..n - 1] == BigEndian(v / 256, n - 1);
    }
  }

  lemma {:induction false} WordOfNumber(s: seq<Byte>)
    ensures Number(s) < Power256(|s|) && BigEndian(Number(s), |s|) == s
  {
    if s != [] {
      WordOfNumber(s[..|s| - 1]);
      assert s == s[..|s| - 1] + [s[|s| - 1]];
    }
  }

  lemma {:induction false} PowerGrows(m: nat, n: nat)
    requires m <= n
    ensures Power256(m) <= Power256(n)
    decreases n - m
  {
    if m < n {
      PowerGrows(m + 1, n);
    }
  }

  // ----- the packed form -----

  function Packed(call: Call): seq<Byte> {
    [call.operation] + call.recipient + BigEndian(call.value, WORD_BYTES) + BigEndian(|call.data|, WORD_BYTES) + call.data
  }

  function PackedAll(calls: seq<Call>): seq<Byte> {
    if calls == [] then [] else Packed(calls[0]) + PackedAll(calls[1..])
  }

  /** Reads a packed string from the front; anything that is cut short is refused. */
  function Unpack(bytes: seq<Byte>): Option<seq<Call>>
    decreases |bytes|
  {
    if bytes == [] then Some([])
    else if |bytes| < HEADER_BYTES then None
    else
      var n, rest := Number(bytes[53..85]), bytes[85..];
      if |rest| < n then None
      else match Unpack(rest[n..])
        case None => None
        case Some(more) => Some([First(bytes, rest[..n])] + more)
  }

  /** The call whose header starts `bytes`. */
  function First(bytes: seq<Byte>, data: seq<Byte>): (call: Call)
    requires |bytes| >= HEADER_BYTES
  {
    Call(bytes[0], bytes[1..21], Word(bytes[21..53]), data)
  }

  function Word(s: seq<Byte>): (v: U256)
    requires |s| == WORD_BYTES
    ensures v == Number(s)
  {
    WordOfNumber(s);
    Number(s)
  }

  lemma FirstFits(bytes: seq<Byte>, data: seq<Byte>)
    requires |bytes| >= HEADER_BYTES
    ensures var call := First(bytes, data);
            [call.operation] + call.recipient + BigEndian(call.value, WORD_BYTES) == bytes[..53]
  {
    WordOfNumber(bytes[21..53]);
    hide BigEndian, Number, Power256;
    assert bytes[..53] == [bytes[0]] + bytes[1..21] + bytes[21..53];
  }

  lemma HeaderParts(call: Call, rest: seq<Byte>)
    requires Fits(call)
    ensures var b := Packed(call) + rest;
            && |b| >= HEADER_BYTES && Number(b[53..85]) == |call.data|
            && b[85..] == call.data + rest && First(b, call.data) == call
  {
    hide BigEndian, Number, Power256;
    var b := Packed(call) + rest;
    var value, length := BigEndian(call.value, WORD_BYTES), BigEndian(|call.data|, WORD_BYTES);
    assert b[..1] == [call.operation] && b[1..21] == call.recipient && b[21..53] == value;
    assert b[53..85] == length && b[85..] == call.data + rest;
    PowerGrows(8, WORD_BYTES);
    NumberOfWord(call.value, WORD_BYTES);
    NumberOfWord(|call.data|, WORD_BYTES);
  }

  /** Packing loses nothing: the reader gets back the very calls, in order. */
  lemma {:induction false} UnpackPacked(calls: seq<Call>)
    requires forall c :: c in calls ==> Fits(c)
    ensures Unpack(PackedAll(calls)) == Some(calls)
  {
    hide BigEndian, Number, Power256;
    if calls != [] {
      var rest := PackedAll(calls[1..]);
      HeaderParts(calls[0], rest);
      UnpackPacked(calls[1..]);
      var b := Packed(calls[0]) + rest;
      assert b[85..][..|calls[0].data|] == calls[0].data && b[85..][|calls[0].data|..] == rest;
      assert calls == [calls[0]] + calls[1..];
    }
  }

  lemma Cut(bytes: seq<Byte>, n: nat)
    requires |bytes| >= HEADER_BYTES && n <= |bytes| - HEADER_BYTES
    ensures bytes == bytes[..53] + bytes[53..85] + bytes[85..][..n] + bytes[85..][n..]
  {}

  /** And nothing else reads as those calls: the form is canonical. */
  lemma {:induction false} PackedUnpacked(bytes: seq<Byte>)
    requires Unpack(bytes).Some?
    ensures PackedAll(Unpack(bytes).value) == bytes
    decreases |bytes|
  {
    hide BigEndian, Number, Power256;
    if bytes != [] {
      var n, rest := Number(bytes[53..85]), bytes[85..];
      PackedUnpacked(rest[n..]);
      WordOfNumber(bytes[53..85]);
      var call := First(bytes, rest[..n]);
      FirstFits(bytes, rest[..n]);
      var calls := Unpack(bytes).value;
      assert calls == [call] + Unpack(rest[n..]).value;
      Cut(bytes, n);
      assert Packed(call) == bytes[..53] + bytes[53..85] + rest[..n];
      assert calls[1..] == Unpack(rest[n..]).value;
    }
  }

  /** Two batches pack to the same bytes only when they are the same batch. */
  lemma PackingIsUnambiguous(a: seq<Call>, b: seq<Call>)
    requires forall c :: c in a || c in b ==> Fits(c)
    ensures PackedAll(a) == PackedAll(b) <==> a == b
  {
    UnpackPacked(a);
    UnpackPacked(b);
  }

  lemma {:induction false} PackedAppend(calls: seq<Call>, call: Call)
    ensures PackedAll(calls + [call]) == PackedAll(calls) + Packed(call)
  {
    if calls == [] {
      assert calls + [call] == [call];
      assert Packed(call) + [] == Packed(call);
    } else {
      assert (calls + [call])[1..] == calls[1..] + [call];
      PackedAppend(calls[1..], call);
    }
  }

  /** Writes the low n bytes of v, most significant first. */
  method WriteWord(v: nat, n: nat) returns (word: seq<Byte>)
    ensures word == BigEndian(v, n)
  {
    var left: nat, k: nat := v, n;
    word := [];
    while k > 0
      invariant k <= n && BigEndian(left, k) + word == BigEndian(v, n)
    {
      assert BigEndian(left, k) + word == BigEndian(left / 256, k - 1) + ([left % 256] + word);
      word := [left % 256] + word;
      left, k := left / 256, k - 1;
    }
    assert [] + word == word;
  }

  method EncodeTransactions(calls: seq<Call>) returns (out: seq<Byte>)
    ensures out == PackedAll(calls)
    ensures (forall c :: c in calls ==> Fits(c)) ==> Unpack(out) == Some(calls)
  {
    hide BigEndian, Number, Power256, Unpack, Fits;
    out := [];
    for i := 0 to |calls|
      invariant out == PackedAll(calls[..i])
    {
      var call := calls[i];
      ghost var before := out;
      out := out + [call.operation];
      out := out + call.recipient;
      var value := WriteWord(call.value, WORD_BYTES);
      out := out + value;
      var length := WriteWord(|call.data|, WORD_BYTES);
      out := out + length;
      out := out + call.data;
      assert out == before + Packed(call);
      PackedAppend(calls[..i], call);
      assert calls[..i + 1] == calls[..i] + [call];
    }
    assert calls[..|calls|] == calls;
    if forall c :: c in calls ==> Fits(c) {
      UnpackPacked(calls);
    }
  }
}
