/**
 * Base 128 varints and length-delimited payloads, as the sections "Base 128 Varints" and
 * "Length-Delimited Records" of the Protocol Buffers Encoding specification define them.
 * A reading function takes the bytes that are left and answers with the value and the number of bytes used.
 */
module Varint {
  import opened Wrappers

  type byte = b: int | 0 <= b < 256
  type Bytes = seq<byte>

  const UINT32: nat := 0x1_0000_0000

  datatype Read<+T> = Got(value: T, size: nat) | Bad

  function EncodeVarint(v: nat): (s: Bytes)
    ensures |s| > 0
  {
    if v < 128 then [v] else [v % 128 + 128] + EncodeVarint(v / 128)
  }

  // `used` bytes of the varint came before s; a varint has at most ten.
  function ReadVarint(s: Bytes, used: nat): (r: Read<nat>)
    ensures r.Got? ==> 0 < r.size <= |s|
    decreases |s|
  {
    if s == [] then Bad
    else if s[0] < 128 then Got(s[0], 1)
    else if used >= 9 then Bad
    else match ReadVarint(s[1..], used + 1)
      case Bad => Bad
      case Got(v, n) => Got(s[0] - 128 + 128 * v, n + 1)
  }

  // reader.uint32(): a varint cut to its low 32 bits
  function ReadUint32(s: Bytes): (r: Read<nat>)
    ensures r.Got? ==> 0 < r.size <= |s| && r.value < UINT32
  {
    match ReadVarint(s, 0)
    case Bad => Bad
    case Got(v, n) => Got(v % UINT32, n)
  }

  // writer.uint32(v)
  function PutUint32(v: nat): Bytes {
    EncodeVarint(v % UINT32)
  }

  // writer.bytes(b), and writer.string(b) for text held as its UTF-8 bytes
  function PutBytes(b: Bytes): Bytes {
    PutUint32(|b|) + b
  }

  // reader.bytes()
  function ReadBytes(s: Bytes): (r: Read<Bytes>)
    ensures r.Got? ==> 0 < r.size <= |s| && |r.value| < UINT32
  {
    match ReadUint32(s)
    case Bad => Bad
    case Got(len, n) => if n + len > |s| then Bad else Got(s[n..n + len], n + len)
  }

  // ---- lemmas ----

  lemma {:induction false} VarintRoundTrip(v: nat, used: nat, rest: Bytes)
    requires used + |EncodeVarint(v)| <= 10
    ensures ReadVarint(EncodeVarint(v) + rest, used) == Got(v, |EncodeVarint(v)|)
  {
    var e := EncodeVarint(v);
    if v < 128 {
      assert (e + rest)[0] == v;
    } else {
      VarintRoundTrip(v / 128, used + 1, rest);
      assert (e + rest)[1..] == EncodeVarint(v / 128) + rest;
      assert (e + rest)[0] == v % 128 + 128;
    }
  }

  lemma VarintSize(v: nat)
    requires v < UINT32
    ensures |EncodeVarint(v)| <= 5
  {
    var a := v / 128;
    var b := a / 128;
    var c := b / 128;
    var d := c / 128;
    assert d < 128;
    assert |EncodeVarint(d)| <= 1;
    assert |EncodeVarint(c)| <= 2;
    assert |EncodeVarint(b)| <= 3;
    assert |EncodeVarint(a)| <= 4;
  }

  lemma Uint32RoundTrip(v: nat, rest: Bytes)
    requires v < UINT32
    ensures ReadUint32(PutUint32(v) + rest) == Got(v, |PutUint32(v)|)
  {
    VarintSize(v);
    VarintRoundTrip(v, 0, rest);
  }

  lemma BytesRoundTrip(b: Bytes, rest: Bytes)
    requires |b| < UINT32
    ensures ReadBytes(PutBytes(b) + rest) == Got(b, |PutBytes(b)|)
  {
    Uint32RoundTrip(|b|, b + rest);
    assert PutBytes(b) + rest == PutUint32(|b|) + (b + rest);
    assert (PutBytes(b) + rest)[|PutUint32(|b|)|..|PutBytes(b)|] == b;
  }

  // A read that succeeds never looks past the bytes it uses.
  lemma {:induction false} VarintLocal(s: Bytes, used: nat, rest: Bytes)
    requires ReadVarint(s, used).Got?
    ensures ReadVarint(s + rest, used) == ReadVarint(s, used)
    decreases |s|
  {
    assert (s + rest)[0] == s[0];
    if s[0] >= 128 {
      VarintLocal(s[1..], used + 1, rest);
      assert (s + rest)[1..] == s[1..] + rest;
    }
  }

  lemma Uint32Local(s: Bytes, rest: Bytes)
    requires ReadUint32(s).Got?
    ensures ReadUint32(s + rest) == ReadUint32(s)
  {
    VarintLocal(s, 0, rest);
  }

  lemma BytesLocal(s: Bytes, rest: Bytes)
    requires ReadBytes(s).Got?
    ensures ReadBytes(s + rest) == ReadBytes(s)
  {
    Uint32Local(s, rest);
    var n, len := ReadUint32(s).size, ReadUint32(s).value;
    assert (s + rest)[n..n + len] == s[n..n + len];
  }

  // ---- what a varint is ----

  function Pow128(k: nat): (p: nat)
    ensures p > 0
  {
    if k == 0 then 1 else 128 * Pow128(k - 1)
  }

  // Groups of seven bits, the low ones first, each but the last marked as going on
  lemma {:induction false} VarintGroups(v: nat)
    ensures var s := EncodeVarint(v);
      && (forall k :: 0 <= k < |s| ==> s[k] == v / Pow128(k) % 128 + if k < |s| - 1 then 128 else 0)
      && v < Pow128(|s|) && (|s| > 1 ==> v >= Pow128(|s| - 1))
  {
    if v >= 128 {
      VarintGroups(v / 128);
      var s, rest := EncodeVarint(v), EncodeVarint(v / 128);
      forall k | 1 <= k < |s| ensures s[k] == v / Pow128(k) % 128 + if k < |s| - 1 then 128 else 0 {
        assert s[k] == rest[k - 1];
        DivideTwice(v, Pow128(k - 1));
      }
      assert Pow128(|s|) == 128 * Pow128(|rest|);
      if |rest| > 1 { assert Pow128(|s| - 1) == 128 * Pow128(|rest| - 1); }
    }
  }

  lemma DivideTwice(v: nat, p: nat)
    requires p > 0
    ensures v / 128 / p == v / (128 * p)
  {
    var q := v / 128 / p;
    var r := v / 128 % p;
    assert v / 128 == q * p + r;
    assert v == 128 * (q * p + r) + v % 128;
    assert 128 * r + v % 128 < 128 * p;
    assert v == q * (128 * p) + (128 * r + v % 128);
    QuotientIs(v, 128 * p, q, 128 * r + v % 128);
  }

  lemma QuotientIs(v: nat, d: nat, q: nat, r: nat)
    requires r < d && v == q * d + r
    ensures v / d == q
  {
    assert (v / d - q) * d == r - v % d;
    if v / d > q { AtLeastOnce(v / d - q, d); }
    if v / d < q { AtLeastOnce(q - v / d, d); }
  }

  lemma AtLeastOnce(n: nat, d: nat)
    requires n > 0
    ensures n * d >= d
  {}

  // The number a run of groups stands for
  function GroupsValue(s: Bytes): nat {
    if s == [] then 0 else s[0] % 128 + 128 * GroupsValue(s[1..])
  }

  // A varint is read exactly if one of the first ten bytes ends it, and then it has the value of its groups, of which
  // a reader of 32 bits keeps the low ones.
  lemma {:induction false} VarintReadsExactly(s: Bytes, used: nat)
    requires used < 10
    ensures ReadVarint(s, used).Got? <==> exists k :: 0 <= k < |s| && k < 10 - used && s[k] < 128
    ensures ReadVarint(s, used).Got? ==>
      var n := ReadVarint(s, used).size;
      && s[n - 1] < 128 && (forall k :: 0 <= k < n - 1 ==> s[k] >= 128)
      && ReadVarint(s, used).value == GroupsValue(s[..n])
    decreases |s|
  {
    if s != [] && s[0] >= 128 && used < 9 {
      VarintReadsExactly(s[1..], used + 1);
      if k :| 0 <= k < |s| && k < 10 - used && s[k] < 128 {
        assert s[1..][k - 1] < 128;
      }
      if ReadVarint(s, used).Got? {
        var n := ReadVarint(s, used).size;
        assert s[..n][1..] == s[1..][..n - 1];
        assert forall k :: 1 <= k < n ==> s[k] == s[1..][k - 1];
      }
    } else if s != [] && s[0] < 128 {
      assert s[..1][1..] == [];
    }
  }

  lemma Uint32ReadsExactly(s: Bytes)
    ensures ReadUint32(s).Got? <==> exists k :: 0 <= k < |s| && k < 10 && s[k] < 128
    ensures ReadUint32(s).Got? ==> ReadUint32(s).value == GroupsValue(s[..ReadUint32(s).size]) % 0x1_0000_0000
  {
    VarintReadsExactly(s, 0);
  }
}
