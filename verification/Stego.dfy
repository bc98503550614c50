/**
 * Steganography in the lowest bits of audio bytes (node/stego.go): the data, after its length, is written bit by
 * bit along an index order shuffled from a key, and read back along the same order.
 */
module Stego {
  import opened Common

  const HEADER_SIZE := 44

  /**
   * The generator's choices: at step i of shuffling n indices under a key, some j with 0 <= j <= i. SHA-256 and
   * math/rand are behind this parameter.
   */
  type Choices = (seq<byte>, nat, nat) -> nat

  // ---------- the shuffled order ----------

  function Identity(n: nat): (s: seq<nat>)
    ensures |s| == n && forall i :: 0 <= i < n ==> s[i] == i
  {
    seq(n, i => i)
  }

  function Swapped(s: seq<nat>, i: nat, j: nat): seq<nat>
    requires i < |s| && j < |s|
  {
    s[i := s[j]][j := s[i]]
  }

  function Pick(ch: Choices, key: seq<byte>, n: nat, i: nat): (j: nat)
    ensures j <= i
  {
    ch(key, n, i) % (i + 1)
  }

  /** The steps of the shuffle from position i down. */
  function ShuffledFrom(ch: Choices, key: seq<byte>, s: seq<nat>, i: nat): (r: seq<nat>)
    requires i < |s| || i == 0
    ensures |r| == |s|
    decreases i
  {
    if i == 0 then s else ShuffledFrom(ch, key, Swapped(s, i, Pick(ch, key, |s|, i)), i - 1)
  }

  function Order(ch: Choices, key: seq<byte>, n: nat): seq<nat> {
    ShuffledFrom(ch, key, Identity(n), if n == 0 then 0 else n - 1)
  }

  /** Every index once. */
  ghost predicate IsOrder(s: seq<nat>) {
    && (forall i :: 0 <= i < |s| ==> s[i] < |s|)
    && (forall i, j :: 0 <= i < j < |s| ==> s[i] != s[j])
  }

  lemma {:induction false} ShuffleKeepsOrder(ch: Choices, key: seq<byte>, s: seq<nat>, i: nat)
    requires IsOrder(s) && (i < |s| || i == 0)
    ensures IsOrder(ShuffledFrom(ch, key, s, i))
    decreases i
  {
    if i > 0 {
      ShuffleKeepsOrder(ch, key, Swapped(s, i, Pick(ch, key, |s|, i)), i - 1);
    }
  }

  lemma OrderIsOrder(ch: Choices, key: seq<byte>, n: nat)
    ensures IsOrder(Order(ch, key, n)) && |Order(ch, key, n)| == n
  {
    ShuffleKeepsOrder(ch, key, Identity(n), if n == 0 then 0 else n - 1);
  }

  /** The choices at the steps up to |c| - 1. */
  predicate Chooses(ch: Choices, key: seq<byte>, n: nat, c: seq<nat>) {
    forall i :: 0 <= i < |c| ==> Pick(ch, key, n, i) == c[i]
  }

  /** These choices lead from s to t. */
  ghost predicate LeadTo(key: seq<byte>, s: seq<nat>, i: nat, c: seq<nat>, t: seq<nat>)
    requires i < |s|
  {
    forall ch :: Chooses(ch, key, |s|, c) ==> ShuffledFrom(ch, key, s, i) == t
  }

  lemma OneChoice(key: seq<byte>, s: seq<nat>, t: seq<nat>, i: nat, j: nat, front: seq<nat>)
    requires j <= i && 0 < i < |s| && |front| == i && LeadTo(key, Swapped(s, i, j), i - 1, front, t)
    ensures LeadTo(key, s, i, front + [j], t)
  {
    var c := front + [j];
    forall ch | Chooses(ch, key, |s|, c) ensures ShuffledFrom(ch, key, s, i) == t {
      assert Pick(ch, key, |s|, i) == c[i] == j;
      assert forall m :: 0 <= m < i ==> front[m] == c[m];
      assert Chooses(ch, key, |s|, front);
    }
  }

  /** From an order that agrees with t above i, some choices lead to t. */
  lemma {:induction false} ReachesFrom(key: seq<byte>, s: seq<nat>, t: seq<nat>, i: nat) returns (c: seq<nat>)
    requires IsOrder(s) && IsOrder(t) && |s| == |t| && i < |s|
    requires forall k :: i < k < |s| ==> s[k] == t[k]
    ensures |c| == i + 1 && LeadTo(key, s, i, c, t) && forall m :: 0 <= m < |c| ==> c[m] <= m
    decreases i
  {
    OrderCovers(s, t[i]);
    var j :| 0 <= j < |s| && s[j] == t[i];
    assert j <= i;
    if i == 0 {
      c := [0];
      assert s == t;
    } else {
      SwapKeepsOrder(s, i, j);
      hide IsOrder, Swapped, LeadTo;
      var front := ReachesFrom(key, Swapped(s, i, j), t, i - 1);
      OneChoice(key, s, t, i, j, front);
      c := front + [j];
    }
  }

  lemma SwapKeepsOrder(s: seq<nat>, i: nat, j: nat)
    requires IsOrder(s) && j <= i < |s|
    ensures var r := Swapped(s, i, j);
            IsOrder(r) && |r| == |s| && r[i] == s[j] && forall k :: i < k < |s| ==> r[k] == s[k]
  {
  }

  /** The shuffle favours no order by its shape: some choices of the generator lead to any given one. */
  lemma EveryOrderIsReached(key: seq<byte>, t: seq<nat>) returns (ch: Choices)
    requires IsOrder(t)
    ensures Order(ch, key, |t|) == t
  {
    ch := (k, n, i) => 0;
    if t != [] {
      var c := ReachesFrom(key, Identity(|t|), t, |t| - 1);
      ch := (k: seq<byte>, n: nat, i: nat) => if i < |c| then c[i] else 0;
      forall i | 0 <= i < |c| ensures Pick(ch, key, |t|, i) == c[i] {
        assert c[i] % (i + 1) == c[i];
      }
      assert Chooses(ch, key, |t|, c) && LeadTo(key, Identity(|t|), |t| - 1, c, t);
    }
  }

  method Shuffle(ch: Choices, key: seq<byte>, n: nat) returns (indices: array<nat>)
    ensures fresh(indices) && indices[..] == Order(ch, key, n)
  {
    indices := new nat[n];
    for i := 0 to n
      invariant forall k :: 0 <= k < i ==> indices[k] == k
    {
      indices[i] := i;
    }
    assert indices[..] == Identity(n);
    ShuffleInPlace(ch, key, indices);
  }

  method ShuffleInPlace(ch: Choices, key: seq<byte>, indices: array<nat>)
    modifies indices
    ensures indices[..] ==
            ShuffledFrom(ch, key, old(indices[..]), if indices.Length == 0 then 0 else indices.Length - 1)
  {
    var n := indices.Length;
    var i := if n == 0 then 0 else n - 1;
    ghost var result := ShuffledFrom(ch, key, indices[..], i);
    while i > 0
      invariant 0 <= i && (i < n || i == 0)
      invariant ShuffledFrom(ch, key, indices[..], i) == result
    {
      var j := Pick(ch, key, n, i);
      ghost var s := indices[..];
      indices[i], indices[j] := indices[j], indices[i];
      assert indices[..] == Swapped(s, i, j);
      i := i - 1;
    }
  }

  // ---------- bits ----------

  function Pow2(i: nat): (p: nat)
    ensures p > 0
  {
    if i == 0 then 1 else 2 * Pow2(i - 1)
  }

  /** Bit number k of a byte string, lowest bit of each byte first. */
  function Bit(d: seq<byte>, k: nat): (b: int)
    requires k < 8 * |d|
    ensures b == 0 || b == 1
  {
    BitOf(d[k / 8], k % 8)
  }

  function BitOf(x: nat, m: nat): (b: int)
    ensures b == 0 || b == 1
  {
    x / Pow2(m) % 2
  }

  /** The number made of the lowest m bits. */
  function LowPart(x: nat, m: nat): nat {
    x % Pow2(m)
  }

  function WithLowBit(x: byte, b: int): (y: byte)
    requires b == 0 || b == 1
    ensures y as int / 2 == x as int / 2 && y as int % 2 == b
  {
    x as int - x as int % 2 + b
  }

  /** The byte whose first m bits are the low bits found along the order from position at. */
  function Gathered(audio: seq<byte>, order: seq<nat>, at: nat, m: nat): (x: nat)
    requires m <= 8 && at + m <= |order| && forall i :: 0 <= i < |order| ==> order[i] < |audio|
    ensures x < Pow2(m)
  {
    if m == 0 then 0
    else Gathered(audio, order, at, m - 1) + audio[order[at + m - 1]] as int % 2 * Pow2(m - 1)
  }

  function ReadBytes(audio: seq<byte>, order: seq<nat>, at: nat, n: nat): seq<byte>
    requires at + 8 * n <= |order| && forall i :: 0 <= i < |order| ==> order[i] < |audio|
  {
    seq(n, b requires 0 <= b < n => Gathered(audio, order, at + 8 * b, 8))
  }

  lemma DivisionUnique(x: nat, n: nat, q: nat, r: nat)
    requires r < n && x == q * n + r
    ensures x % n == r
  {
    var k := q - x / n;
    assert k * n == x % n - r;
    assert (k >= 1 ==> k * n >= n) && (k <= -1 ==> k * n + n <= 0);
  }

  lemma Pow2Bound(m: nat)
    requires m <= 8
    ensures Pow2(m) <= 256 && Pow2(8) == 256
  {
    assert Pow2(1) == 2 && Pow2(2) == 4 && Pow2(3) == 8;
    assert Pow2(4) == 16 && Pow2(5) == 32 && Pow2(6) == 64;
    assert Pow2(7) == 128 && Pow2(8) == 256;
  }

  lemma LowPartOfByte(x: byte)
    ensures LowPart(x, 8) == x as nat && LowPart(x, 0) == 0
  {
    Pow2Bound(8);
  }

  lemma LowBits(x: nat, m: nat)
    ensures LowPart(x, m + 1) == LowPart(x, m) + BitOf(x, m) * Pow2(m)
  {
    var p := Pow2(m);
    var q, r := x / p, x % p;
    var h, b := q / 2, q % 2;
    assert x == q * p + r && q == 2 * h + b;
    assert q * p == h * (2 * p) + b * p;
    DivisionUnique(x, 2 * p, h, b * p + r);
  }

  // ---------- embedding ----------

  /** What is written: the length, truncated to 32 bits, and the data. */
  function Framed(data: seq<byte>): (d: seq<byte>)
    ensures |d| == 4 + |data|
  {
    PutUint32(|data|) + data
  }

  /** after carries the bits of d along the order, and is otherwise before. */
  ghost predicate Carries(before: seq<byte>, after: seq<byte>, order: seq<nat>, d: seq<byte>, bits: nat)
    requires bits <= 8 * |d| && bits <= |order| == |before| && forall i :: 0 <= i < |order| ==> order[i] < |order|
  {
    && |after| == |before|
    && (forall k :: 0 <= k < bits ==> after[order[k]] == WithLowBit(before[order[k]], Bit(d, k)))
    && (forall k :: bits <= k < |order| ==> after[order[k]] == before[order[k]])
  }

  predicate Fits(wav: seq<byte>, data: seq<byte>) {
    |wav| >= HEADER_SIZE && 8 * (4 + |data|) <= |wav| - HEADER_SIZE
  }

  ghost predicate IsEmbedding(ch: Choices, key: seq<byte>, wav: seq<byte>, out: seq<byte>, data: seq<byte>)
    requires Fits(wav, data)
  {
    OrderIsOrder(ch, key, |wav| - HEADER_SIZE);
    && |out| == |wav|
    && out[..HEADER_SIZE] == wav[..HEADER_SIZE]
    && Carries(wav[HEADER_SIZE..], out[HEADER_SIZE..], Order(ch, key, |wav| - HEADER_SIZE), Framed(data),
               8 * (4 + |data|))
  }

  datatype StegoError = WavTooSmall | WavTooSmallForData | InvalidLength | IndexOutOfRange

  method EmbedLSB(ch: Choices, wav: seq<byte>, data: seq<byte>, key: seq<byte>)
    returns (r: Result<seq<byte>, StegoError>)
    ensures r.Ok? <==> Fits(wav, data)
    ensures r.Ok? ==> IsEmbedding(ch, key, wav, r.value, data)
    ensures r.Err? ==> r.error == if |wav| < HEADER_SIZE then WavTooSmall else WavTooSmallForData
  {
    if |wav| < HEADER_SIZE {
      return Err(WavTooSmall);
    }
    var n := |wav| - HEADER_SIZE;
    var framed := Framed(data);
    var bitCount := |framed| * 8;
    if bitCount > n {
      return Err(WavTooSmallForData);
    }
    var audio := new byte[n](i requires 0 <= i < n => wav[HEADER_SIZE + i]);
    assert audio[..] == wav[HEADER_SIZE..];
    var indices := Shuffle(ch, key, n);
    OrderIsOrder(ch, key, n);
    WriteBits(audio, indices, framed);
    var out := wav[..HEADER_SIZE] + audio[..];
    assert out[HEADER_SIZE..] == audio[..];
    return Ok(out);
  }

  /** The writing loop. */
  method WriteBits(audio: array<byte>, indices: array<nat>, framed: seq<byte>)
    requires indices.Length == audio.Length && IsOrder(indices[..]) && 8 * |framed| <= audio.Length
    modifies audio
    ensures Carries(old(audio[..]), audio[..], indices[..], framed, 8 * |framed|)
  {
    ghost var order, before := indices[..], audio[..];
    for bitIdx := 0 to 8 * |framed|
      invariant indices[..] == order
      invariant Carries(before, audio[..], order, framed, bitIdx)
    {
      var bitVal := BitOf(framed[bitIdx / 8], bitIdx % 8);
      DivisionUnique(bitIdx, indices.Length, 0, bitIdx);
      var sampleIdx := indices[bitIdx % indices.Length];
      assert sampleIdx == order[bitIdx] && audio[sampleIdx] == before[order[bitIdx]];
      audio[sampleIdx] := WithLowBit(audio[sampleIdx], bitVal);
    }
  }

  // ---------- extracting ----------

  /** extractLSB; reading past the audio, which the code does not guard against, is an error of its own. */
  function Extracted(ch: Choices, wav: seq<byte>, key: seq<byte>): Result<seq<byte>, StegoError> {
    if |wav| < HEADER_SIZE then Err(WavTooSmall)
    else
      var audio := wav[HEADER_SIZE..];
      var order := Order(ch, key, |audio|);
      OrderIsOrder(ch, key, |audio|);
      if |audio| < 32 then Err(IndexOutOfRange)
      else
        var dataLen := Uint32(ReadBytes(audio, order, 0, 4));
        if dataLen > |audio| / 8 % TWO_32 then Err(InvalidLength)
        else if 32 + 8 * dataLen > |audio| then Err(IndexOutOfRange)
        else Ok(ReadBytes(audio, order, 32, dataLen))
  }

  lemma GatheredStep(audio: seq<byte>, order: seq<nat>, at: nat, m: nat)
    requires m < 8 && at + m < |order| && forall i :: 0 <= i < |order| ==> order[i] < |audio|
    ensures Gathered(audio, order, at, m + 1) ==
            Gathered(audio, order, at, m) + (if audio[order[at + m]] as int % 2 == 1 then Pow2(m) else 0) < 256
    ensures Gathered(audio, order, at, 0) == 0
  {
    Pow2Bound(m + 1);
  }

  /** The first i bits have been read into the bytes; the rest of them is still zero. */
  ghost predicate ReadSoFar(audio: seq<byte>, order: seq<nat>, at: nat, bytes: seq<byte>, i: nat)
    requires at + 8 * |bytes| <= |order| && i <= 8 * |bytes| && forall k :: 0 <= k < |order| ==> order[k] < |audio|
  {
    && (forall b :: 0 <= b < i / 8 ==> bytes[b] == Gathered(audio, order, at + 8 * b, 8))
    && (i < 8 * |bytes| ==> bytes[i / 8] == Gathered(audio, order, at + 8 * (i / 8), i % 8))
    && (forall b :: i / 8 < b < |bytes| ==> bytes[b] == 0)
  }

  lemma ReadBit(audio: seq<byte>, order: seq<nat>, at: nat, bytes: seq<byte>, i: nat, value: byte)
    requires at + 8 * |bytes| <= |order| && i < 8 * |bytes| && forall k :: 0 <= k < |order| ==> order[k] < |audio|
    requires ReadSoFar(audio, order, at, bytes, i)
    requires value == Gathered(audio, order, at + 8 * (i / 8), i % 8 + 1)
    ensures ReadSoFar(audio, order, at, bytes[i / 8 := value], i + 1)
  {
    var k := i / 8;
    GatheredStep(audio, order, at + 8 * k, 0);
    if k + 1 < |bytes| {
      GatheredStep(audio, order, at + 8 * (k + 1), 0);
    }
    hide Gathered;
    assert if i % 8 == 7 then (i + 1) / 8 == k + 1 && (i + 1) % 8 == 0
           else (i + 1) / 8 == k && (i + 1) % 8 == i % 8 + 1;
  }

  /** One iteration of the reading loop. */
  method ReadInto(audio: seq<byte>, indices: array<nat>, at: nat, bytes: array<byte>, i: nat)
    requires at + 8 * bytes.Length <= indices.Length && i < 8 * bytes.Length
    requires forall k :: 0 <= k < indices.Length ==> indices[k] < |audio|
    requires forall k :: 0 <= k < indices.Length ==> indices[..][k] < |audio|
    requires ReadSoFar(audio, indices[..], at, bytes[..], i)
    modifies bytes
    ensures ReadSoFar(audio, indices[..], at, bytes[..], i + 1)
  {
    var byteIdx, bitPos := i / 8, i % 8;
    ghost var order, before := indices[..], bytes[..];
    assert at + i == at + 8 * byteIdx + bitPos;
    assert before[byteIdx] as int == Gathered(audio, order, at + 8 * byteIdx, bitPos);
    hide Gathered, Pow2, ReadSoFar;
    GatheredStep(audio, order, at + 8 * byteIdx, bitPos);
    if audio[indices[at + i]] as int % 2 == 1 {
      bytes[byteIdx] := bytes[byteIdx] as int + Pow2(bitPos);
    }
    ReadBit(audio, order, at, before, i, bytes[byteIdx]);
    assert bytes[..] == before[byteIdx := bytes[byteIdx]];
  }

  lemma NothingRead(audio: seq<byte>, order: seq<nat>, at: nat, bytes: seq<byte>)
    requires at + 8 * |bytes| <= |order| && forall k :: 0 <= k < |order| ==> order[k] < |audio|
    requires forall b :: 0 <= b < |bytes| ==> bytes[b] == 0
    ensures ReadSoFar(audio, order, at, bytes, 0)
  {
    if bytes != [] {
      GatheredStep(audio, order, at, 0);
    }
  }

  lemma AllRead(audio: seq<byte>, order: seq<nat>, at: nat, bytes: seq<byte>)
    requires at + 8 * |bytes| <= |order| && forall k :: 0 <= k < |order| ==> order[k] < |audio|
    requires ReadSoFar(audio, order, at, bytes, 8 * |bytes|)
    ensures bytes == ReadBytes(audio, order, at, |bytes|)
  {
    hide Gathered;
  }

  /** One reading loop: bit after bit into zeroed bytes. */
  method ReadLoop(audio: seq<byte>, indices: array<nat>, at: nat, n: nat) returns (bytes: array<byte>)
    requires at + 8 * n <= indices.Length && forall i :: 0 <= i < indices.Length ==> indices[i] < |audio|
    ensures fresh(bytes) && bytes[..] == ReadBytes(audio, indices[..], at, n)
  {
    hide ReadSoFar, ReadBytes;
    bytes := new byte[n](i => 0);
    NothingRead(audio, indices[..], at, bytes[..]);
    for i := 0 to 8 * n
      invariant indices[..] == old(indices[..])
      invariant ReadSoFar(audio, indices[..], at, bytes[..], i)
    {
      ReadInto(audio, indices, at, bytes, i);
    }
    AllRead(audio, indices[..], at, bytes[..]);
  }

  method ExtractLSB(ch: Choices, wav: seq<byte>, key: seq<byte>) returns (r: Result<seq<byte>, StegoError>)
    ensures r == Extracted(ch, wav, key)
    ensures r.Ok? ==> Fits(wav, r.value) && IsEmbedding(ch, key, wav, wav, r.value)
  {
    ExtractedIsThere(ch, key, wav);
    if |wav| < HEADER_SIZE {
      return Err(WavTooSmall);
    }
    var audio := wav[HEADER_SIZE..];
    var indices := Shuffle(ch, key, |audio|);
    OrderIsOrder(ch, key, |audio|);
    if |audio| < 32 {
      return Err(IndexOutOfRange);
    }
    assert forall i :: 0 <= i < indices.Length ==> indices[i] == indices[..][i];
    var sizeBytes := ReadLoop(audio, indices, 0, 4);
    var dataLen := Uint32(sizeBytes[..]);
    if dataLen > |audio| / 8 % TWO_32 {
      return Err(InvalidLength);
    }
    if 32 + 8 * dataLen > |audio| {
      return Err(IndexOutOfRange);
    }
    var result := ReadLoop(audio, indices, 32, dataLen);
    return Ok(result[..]);
  }

  // ---------- extracting inverts embedding ----------

  lemma {:induction false} GathersByte(before: seq<byte>, after: seq<byte>, order: seq<nat>, d: seq<byte>, bits: nat,
                                       b: nat, m: nat)
    requires bits == 8 * |d| <= |order| == |before| && IsOrder(order)
    requires Carries(before, after, order, d, bits) && b < |d| && m <= 8
    ensures Gathered(after, order, 8 * b, m) == LowPart(d[b], m)
  {
    hide LowPart, BitOf, Pow2;
    LowPartOfByte(d[b]);
    if m > 0 {
      GathersByte(before, after, order, d, bits, b, m - 1);
      LowBits(d[b], m - 1);
      var k := 8 * b + m - 1;
      assert k / 8 == b && k % 8 == m - 1;
      assert after[order[k]] == WithLowBit(before[order[k]], Bit(d, k));
    }
  }

  lemma ReadsByte(before: seq<byte>, after: seq<byte>, order: seq<nat>, d: seq<byte>, at: nat)
    requires 8 * |d| <= |order| == |before| && IsOrder(order) && at < |d|
    requires Carries(before, after, order, d, 8 * |d|)
    ensures |after| == |before| && Gathered(after, order, 8 * at, 8) == d[at] as int
  {
    assert |after| == |before|;
    hide Gathered, Carries, LowPart, IsOrder;
    GathersByte(before, after, order, d, 8 * |d|, at, 8);
    LowPartOfByte(d[at]);
  }

  lemma ReadsBack(before: seq<byte>, after: seq<byte>, order: seq<nat>, d: seq<byte>, from: nat, n: nat)
    requires 8 * |d| <= |order| == |before| && IsOrder(order) && from + n <= |d|
    requires Carries(before, after, order, d, 8 * |d|)
    ensures |after| == |before| && ReadBytes(after, order, 8 * from, n) == d[from..from + n]
  {
    assert |after| == |before|;
    var read := ReadBytes(after, order, 8 * from, n);
    assert |read| == n && forall b :: 0 <= b < n ==> read[b] as int == Gathered(after, order, 8 * from + 8 * b, 8);
    hide Gathered, Carries, ReadBytes, IsOrder;
    forall b | 0 <= b < n ensures read[b] == d[from + b] {
      ReadsByte(before, after, order, d, from + b);
      assert 8 * from + 8 * b == 8 * (from + b);
    }
  }

  /**
   * Extraction with the same key gives back exactly the data, if and only if its length survives the two 32-bit
   * truncations in the code: it is below 2^32, and no more than the truncated bound it is checked against.
   */
  lemma ExtractInvertsEmbed(ch: Choices, key: seq<byte>, wav: seq<byte>, out: seq<byte>, data: seq<byte>)
    requires Fits(wav, data) && IsEmbedding(ch, key, wav, out, data)
    ensures Extracted(ch, out, key) == Ok(data) <==>
            |data| < TWO_32 && |data| <= (|wav| - HEADER_SIZE) / 8 % TWO_32
  {
    var after := out[HEADER_SIZE..];
    var order, dataLen := Order(ch, key, |after|), |data| % TWO_32;
    TruncationShortens(|data|);
    OrderIsOrder(ch, key, |after|);
    ReadsLengthAndData(wav[HEADER_SIZE..], after, order, data, dataLen);
    hide Order, ReadBytes, Carries, IsEmbedding, IsOrder, Framed, Uint32;
    assert |data[..dataLen]| == dataLen;
    assert dataLen == |data| ==> data[..dataLen] == data;
  }

  lemma TruncationShortens(n: nat)
    ensures n % TWO_32 <= n
    ensures n % TWO_32 == n <==> n < TWO_32
  {
  }

  /** The first 32 bits give the truncated length, and the bits after them that much of the data. */
  lemma ReadsLengthAndData(before: seq<byte>, after: seq<byte>, order: seq<nat>, data: seq<byte>, dataLen: nat)
    requires 8 * (4 + |data|) <= |order| == |before| && IsOrder(order)
    requires Carries(before, after, order, Framed(data), 8 * (4 + |data|))
    requires dataLen <= |data| && dataLen == |data| % TWO_32
    ensures |after| == |order|
    ensures Uint32(ReadBytes(after, order, 0, 4)) == dataLen
    ensures ReadBytes(after, order, 32, dataLen) == data[..dataLen]
  {
    hide Carries, Order, IsOrder, Gathered;
    CarriesShape(before, after, order, data);
    ReadsBack(before, after, order, Framed(data), 0, 4);
    assert Framed(data)[0..4] == PutUint32(|data|);
    Uint32OfPut(|data|);
    ReadsBack(before, after, order, Framed(data), 4, dataLen);
    assert Framed(data)[4..4 + dataLen] == data[..dataLen];
  }

  lemma CarriesShape(before: seq<byte>, after: seq<byte>, order: seq<nat>, data: seq<byte>)
    requires 8 * (4 + |data|) <= |order| == |before| && IsOrder(order)
    requires Carries(before, after, order, Framed(data), 8 * (4 + |data|))
    ensures |after| == |before| && forall i :: 0 <= i < |order| ==> order[i] < |order|
  {
  }

  /** For every file below 32 GiB the bound is no obstacle, so whatever was embedded is extracted. */
  lemma ExtractInvertsEmbedBelow32GiB(ch: Choices, key: seq<byte>, wav: seq<byte>, out: seq<byte>, data: seq<byte>)
    requires Fits(wav, data) && IsEmbedding(ch, key, wav, out, data) && |wav| - HEADER_SIZE < 8 * TWO_32
    ensures Extracted(ch, out, key) == Ok(data)
  {
    hide Extracted, IsEmbedding;
    ExtractInvertsEmbed(ch, key, wav, out, data);
  }

  // ---------- what is extracted is there ----------

  lemma Pow2Product(a: nat, b: nat)
    ensures Pow2(a + b) == Pow2(a) * Pow2(b)
  {
    if a > 0 {
      Pow2Product(a - 1, b);
    }
  }

  /** A multiple of a higher power of two does not show in the lowest m bits. */
  lemma AddMultiple(y: nat, k: nat, p: nat)
    requires p > 0
    ensures (y + k * p) % p == y % p
  {
    assert y == y / p * p + y % p;
    assert y + k * p == (y / p + k) * p + y % p;
    DivisionUnique(y + k * p, p, y / p + k, y % p);
  }

  lemma HigherBits(y: nat, b: nat, m: nat, n: nat)
    requires m <= n
    ensures LowPart(y + b * Pow2(n), m) == LowPart(y, m)
  {
    var p, c, big := Pow2(m), Pow2(n - m), Pow2(n);
    Pow2Product(m, n - m);
    hide Pow2;
    assert big == p * c;
    Regroup(b, p, c);
    AddMultiple(y, b * c, p);
  }

  lemma Regroup(b: nat, p: nat, c: nat)
    ensures b * (p * c) == b * c * p
  {
  }

  lemma {:induction false} GatheredLow(audio: seq<byte>, order: seq<nat>, at: nat, m: nat, n: nat)
    requires m <= n <= 8 && at + n <= |order| && forall i :: 0 <= i < |order| ==> order[i] < |audio|
    ensures LowPart(Gathered(audio, order, at, n), m) == Gathered(audio, order, at, m)
  {
    if m < n {
      GatheredLow(audio, order, at, m, n - 1);
      HigherBits(Gathered(audio, order, at, n - 1), audio[order[at + n - 1]] as int % 2, m, n - 1);
    } else {
      BelowModulus(Gathered(audio, order, at, n), Pow2(n));
    }
  }

  lemma BelowModulus(x: nat, p: nat)
    requires x < p
    ensures x % p == x
  {
  }

  lemma SameBit(a: nat, b: nat, p: nat)
    requires a < 2 && b < 2 && p > 0 && a * p == b * p
    ensures a == b
  {
  }

  /** The bits of a byte read are the low bits it was read from. */
  lemma GatheredBit(audio: seq<byte>, order: seq<nat>, at: nat, m: nat)
    requires m < 8 && at + 8 <= |order| && forall i :: 0 <= i < |order| ==> order[i] < |audio|
    ensures BitOf(Gathered(audio, order, at, 8), m) == audio[order[at + m]] as int % 2
  {
    var x, p := Gathered(audio, order, at, 8), Pow2(m);
    GatheredLow(audio, order, at, m, 8);
    GatheredLow(audio, order, at, m + 1, 8);
    LowBits(x, m);
    var b, bit := audio[order[at + m]] as int % 2, BitOf(x, m);
    assert Gathered(audio, order, at, m + 1) == Gathered(audio, order, at, m) + b * p;
    assert bit * p == b * p;
    hide Gathered, LowPart, BitOf, Pow2;
    SameBit(bit, b, p);
  }

  /** Bytes that are read from an audio are carried by it. */
  lemma CarriesWhatIsRead(audio: seq<byte>, order: seq<nat>, d: seq<byte>)
    requires 8 * |d| <= |order| == |audio| && IsOrder(order)
    requires forall b :: 0 <= b < |d| ==> d[b] as int == Gathered(audio, order, 8 * b, 8)
    ensures Carries(audio, audio, order, d, 8 * |d|)
  {
    forall k | 0 <= k < 8 * |d| ensures audio[order[k]] == WithLowBit(audio[order[k]], Bit(d, k)) {
      var b, m := k / 8, k % 8;
      assert k == 8 * b + m && b < |d|;
      GatheredBit(audio, order, 8 * b, m);
    }
  }

  lemma FramedRead(audio: seq<byte>, order: seq<nat>, n: nat, b: nat)
    requires 32 + 8 * n <= |order| == |audio| && IsOrder(order) && b < 4 + n
    requires n == Uint32(ReadBytes(audio, order, 0, 4))
    ensures Framed(ReadBytes(audio, order, 32, n))[b] as int == Gathered(audio, order, 8 * b, 8)
  {
    var head := ReadBytes(audio, order, 0, 4);
    PutOfUint32(head);
    hide Gathered, PutUint32, Uint32, IsOrder;
    if b >= 4 {
      assert 32 + 8 * (b - 4) == 8 * b;
    }
  }

  /** Extraction makes nothing up: the file already carries what comes out of it, with its length, along the order. */
  lemma ExtractedIsThere(ch: Choices, key: seq<byte>, wav: seq<byte>)
    ensures var r := Extracted(ch, wav, key);
            r.Ok? ==> Fits(wav, r.value) && IsEmbedding(ch, key, wav, wav, r.value)
  {
    var r := Extracted(ch, wav, key);
    if r.Ok? {
      var audio := wav[HEADER_SIZE..];
      var order, n := Order(ch, key, |audio|), |r.value|;
      OrderIsOrder(ch, key, |audio|);
      assert n == Uint32(ReadBytes(audio, order, 0, 4)) && r.value == ReadBytes(audio, order, 32, n);
      hide Extracted, Order, IsOrder, ReadBytes, Uint32, Gathered, Framed, Carries;
      forall b | 0 <= b < 4 + n ensures Framed(r.value)[b] as int == Gathered(audio, order, 8 * b, 8) {
        FramedRead(audio, order, n, b);
      }
      CarriesWhatIsRead(audio, order, Framed(r.value));
    }
  }

  /** The number whose 32 bits the first low bits along the order spell. */
  ghost predicate SpellsLength(ch: Choices, key: seq<byte>, wav: seq<byte>, n: nat) {
    |wav| >= HEADER_SIZE + 32 && n < TWO_32 &&
    (OrderIsOrder(ch, key, |wav| - HEADER_SIZE);
     var order := Order(ch, key, |wav| - HEADER_SIZE);
     forall k :: 0 <= k < 32 ==> wav[HEADER_SIZE + order[k]] as int % 2 == Bit(PutUint32(n), k))
  }

  lemma SpelledIsRead(ch: Choices, key: seq<byte>, wav: seq<byte>, n: nat)
    requires SpellsLength(ch, key, wav, n)
    ensures (OrderIsOrder(ch, key, |wav| - HEADER_SIZE);
             Uint32(ReadBytes(wav[HEADER_SIZE..], Order(ch, key, |wav| - HEADER_SIZE), 0, 4)) == n)
  {
    var audio, d := wav[HEADER_SIZE..], PutUint32(n);
    var order := Order(ch, key, |audio|);
    OrderIsOrder(ch, key, |audio|);
    assert forall p :: 0 <= p < |audio| ==> audio[p] == wav[HEADER_SIZE + p];
    assert Carries(audio, audio, order, d, 32);
    hide SpellsLength, Order, IsOrder, Carries, ReadBytes, Uint32;
    ReadsBack(audio, audio, order, d, 0, 4);
    assert d[0..4] == d;
    Uint32OfPut(n);
    BelowModulus(n, TWO_32);
  }

  /** Every file with room for a length spells one. */
  lemma SomeLengthIsSpelled(ch: Choices, key: seq<byte>, wav: seq<byte>) returns (n: nat)
    requires |wav| >= HEADER_SIZE + 32
    ensures SpellsLength(ch, key, wav, n)
  {
    hide Order, ReadBytes, Bit, Uint32, PutUint32, IsOrder;
    OrderIsOrder(ch, key, |wav| - HEADER_SIZE);
    var order := Order(ch, key, |wav| - HEADER_SIZE);
    n := LengthOf(wav, order);
    assert forall k :: 0 <= k < 32 ==> wav[HEADER_SIZE + order[k]] as int % 2 == Bit(PutUint32(n), k);
  }

  lemma LengthOf(wav: seq<byte>, order: seq<nat>) returns (n: nat)
    requires |wav| == HEADER_SIZE + |order| && |order| >= 32 && IsOrder(order)
    ensures n < TWO_32
    ensures forall k :: 0 <= k < 32 ==> wav[HEADER_SIZE + order[k]] as int % 2 == Bit(PutUint32(n), k)
  {
    var head := ReadBytes(wav[HEADER_SIZE..], order, 0, 4);
    n := Uint32(head);
    PutOfUint32(head);
    HeadIsSpelled(wav, order);
    hide Bit, Uint32, PutUint32, ReadBytes, IsOrder;
  }

  lemma HeadIsSpelled(wav: seq<byte>, order: seq<nat>)
    requires |wav| == HEADER_SIZE + |order| && |order| >= 32 && IsOrder(order)
    ensures forall k :: 0 <= k < 32 ==>
              wav[HEADER_SIZE + order[k]] as int % 2 == Bit(ReadBytes(wav[HEADER_SIZE..], order, 0, 4), k)
  {
    var audio := wav[HEADER_SIZE..];
    forall k | 0 <= k < 32 ensures audio[order[k]] as int % 2 == Bit(ReadBytes(audio, order, 0, 4), k) {
      assert k == 8 * (k / 8) + k % 8;
      GatheredBit(audio, order, 8 * (k / 8), k % 8);
    }
    hide Bit, ReadBytes, IsOrder;
  }

  /**
   * The outcome for any file, by its size and the length it spells: an error while there is no room for a length, for a
   * length above the truncated bound, and for one that runs past the audio; else as many bytes as it says.
   */
  lemma ExtractionByLength(ch: Choices, key: seq<byte>, wav: seq<byte>, n: nat)
    ensures var r := Extracted(ch, wav, key);
            && (r == Err(WavTooSmall) <==> |wav| < 44)
            && (44 <= |wav| < 76 ==> r == Err(IndexOutOfRange))
            && (SpellsLength(ch, key, wav, n) ==>
                  if n > (|wav| - 44) / 8 % 0x1_0000_0000 then r == Err(InvalidLength)
                  else if 32 + 8 * n > |wav| - 44 then r == Err(IndexOutOfRange)
                  else r.Ok? && |r.value| == n)
  {
    if SpellsLength(ch, key, wav, n) {
      SpelledIsRead(ch, key, wav, n);
      assert |wav[HEADER_SIZE..]| == |wav| - 44;
      hide SpellsLength, Order, ReadBytes, Uint32;
    }
  }

  // ---------- what embedding leaves alone ----------

  ghost predicate Injective(s: seq<nat>) {
    forall i, j :: 0 <= i < j < |s| ==> s[i] != s[j]
  }

  function Image(s: seq<nat>, n: nat): set<nat>
    requires n <= |s|
  {
    set k | 0 <= k < n :: s[k]
  }

  lemma {:induction false} ImageSize(s: seq<nat>, n: nat)
    requires Injective(s) && n <= |s|
    ensures |Image(s, n)| == n
  {
    if n > 0 {
      ImageStep(s, n);
      hide Image, Injective;
      ImageSize(s, n - 1);
    }
  }

  lemma ImageStep(s: seq<nat>, n: nat)
    requires Injective(s) && 0 < n <= |s|
    ensures Image(s, n) == Image(s, n - 1) + {s[n - 1]} && s[n - 1] !in Image(s, n - 1)
  {
  }

  /** An order of n indices takes every value below n. */
  lemma OrderCovers(order: seq<nat>, p: nat)
    requires IsOrder(order) && p < |order|
    ensures exists k :: 0 <= k < |order| && order[k] == p
  {
    var n, all := |order|, Identity(|order|);
    ImageSize(order, n);
    ImageSize(all, n);
    if p !in Image(order, n) {
      assert all[p] == p;
      forall x | x in Image(order, n) ensures x in Image(all, n) - {p} {
        assert all[x] == x;
      }
      SubsetSize(Image(order, n), Image(all, n) - {p});
    }
  }

  /** The positions where two files of one length differ. */
  function Changed(a: seq<byte>, b: seq<byte>): set<nat>
    requires |a| == |b|
  {
    set p: nat | p < |a| && a[p] != b[p]
  }

  /** Only lowest bits change, of at most one byte per embedded bit, and never in the header. */
  lemma EmbeddingIsSlight(ch: Choices, key: seq<byte>, wav: seq<byte>, out: seq<byte>, data: seq<byte>)
    requires Fits(wav, data) && IsEmbedding(ch, key, wav, out, data)
    ensures |out| == |wav| && out[..HEADER_SIZE] == wav[..HEADER_SIZE]
    ensures forall p :: 0 <= p < |wav| ==> out[p] as int / 2 == wav[p] as int / 2
    ensures |Changed(wav, out)| <= 8 * (4 + |data|)
  {
    var before, after, bits := wav[HEADER_SIZE..], out[HEADER_SIZE..], 8 * (4 + |data|);
    var order := Order(ch, key, |before|);
    OrderIsOrder(ch, key, |before|);
    var shifted: seq<nat> := seq(|order|, k requires 0 <= k < |order| => order[k] + HEADER_SIZE);
    ImageSize(shifted, bits);
    forall p | 0 <= p < |wav|
      ensures out[p] as int / 2 == wav[p] as int / 2
      ensures out[p] != wav[p] ==> p in Image(shifted, bits)
    {
      if p < HEADER_SIZE {
        assert out[..HEADER_SIZE][p] == wav[..HEADER_SIZE][p];
      } else {
        OrderCovers(order, p - HEADER_SIZE);
        var k :| 0 <= k < |order| && order[k] == p - HEADER_SIZE;
        assert after[order[k]] == out[p] && before[order[k]] == wav[p];
        assert shifted[k] == p;
      }
    }
    SubsetSize(Changed(wav, out), Image(shifted, bits));
  }

  /** There is one embedding, and embedding the same data again changes nothing. */
  lemma ReEmbeddingChangesNothing(ch: Choices, key: seq<byte>, wav: seq<byte>, out: seq<byte>, again: seq<byte>,
                                  data: seq<byte>)
    requires Fits(wav, data) && IsEmbedding(ch, key, wav, out, data)
    requires IsEmbedding(ch, key, out, again, data)
    ensures again == out
  {
    var order := Order(ch, key, |wav| - HEADER_SIZE);
    OrderIsOrder(ch, key, |wav| - HEADER_SIZE);
    var before, after, last := wav[HEADER_SIZE..], out[HEADER_SIZE..], again[HEADER_SIZE..];
    forall p | 0 <= p < |after| ensures last[p] == after[p] {
      OrderCovers(order, p);
      var k :| 0 <= k < |order| && order[k] == p;
      assert k < 8 * (4 + |data|) ==>
          last[order[k]] == WithLowBit(WithLowBit(before[order[k]], Bit(Framed(data), k)), Bit(Framed(data), k));
    }
    assert last == after;
    assert again == again[..HEADER_SIZE] + last && out == out[..HEADER_SIZE] + after;
  }

  // ---------- the container ----------

  predicate IsWAV(data: seq<byte>) {
    |data| >= 12 && data[0..4] == [0x52, 0x49, 0x46, 0x46] && data[8..12] == [0x57, 0x41, 0x56, 0x45]
  }

  lemma WAVIsRiffWave(data: seq<byte>)
    ensures IsWAV(data) <==>
              && |data| >= 12
              && data[0] == 'R' as int && data[1] == 'I' as int && data[2] == 'F' as int && data[3] == 'F' as int
              && data[8] == 'W' as int && data[9] == 'A' as int && data[10] == 'V' as int && data[11] == 'E' as int
  {
    if |data| >= 12 {
      assert data[0..4] == [data[0], data[1], data[2], data[3]];
      assert data[8..12] == [data[8], data[9], data[10], data[11]];
    }
  }

  lemma EmbeddingKeepsWAV(ch: Choices, key: seq<byte>, wav: seq<byte>, out: seq<byte>, data: seq<byte>)
    requires Fits(wav, data) && IsEmbedding(ch, key, wav, out, data)
    ensures IsWAV(out) <==> IsWAV(wav)
  {
    assert out[0..4] == out[..HEADER_SIZE][0..4] && out[8..12] == out[..HEADER_SIZE][8..12];
    assert wav[0..4] == wav[..HEADER_SIZE][0..4] && wav[8..12] == wav[..HEADER_SIZE][8..12];
  }
}
