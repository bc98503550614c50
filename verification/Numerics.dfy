/**
 * Similarity and weights (node/utils.go, node/node_p2p.go): Newton's square root, cosine similarity, text and
 * hash vectors, and the weight a message starts with. Reals stand for float64; rounding is idealised.
 */
module Numerics {
  import opened Common

  const NEWTON_STEPS := 20

  // ---------- square root ----------

  /** The k-th iterate of the loop in sqrt. */
  function Newton(x: real, k: nat): (z: real)
    requires x > 0.0
    ensures z > 0.0
  {
    if k == 0 then x
    else
      var z := Newton(x, k - 1);
      NewtonStep(x, z);
      Next(x, z)
  }

  /** The assignment the loop repeats. */
  function Next(x: real, z: real): real
    requires z > 0.0
  {
    z - (z * z - x) / (2.0 * z)
  }

  function Excess(x: real, z: real): real {
    z * z - x
  }

  /** One step leaves a square that is too large by the square of the correction. */
  lemma NewtonStep(x: real, z: real)
    requires x > 0.0 && z > 0.0
    ensures var d := (z * z - x) / (2.0 * z); z - d > 0.0 && (z - d) * (z - d) - x == d * d
  {
    var d := (z * z - x) / (2.0 * z);
    assert d * (2.0 * z) == z * z - x;
    assert (z - d) * (2.0 * z) == z * z + x > 0.0;
    assert (z - d) * (z - d) == z * z - d * (2.0 * z) + d * d;
    PositiveFactor(z - d, 2.0 * z);
  }

  lemma PositiveFactor(a: real, c: real)
    requires c > 0.0 && a * c > 0.0
    ensures a > 0.0
  {
  }

  lemma PositiveOrZero(a: real, c: real)
    requires c > 0.0 && a * c >= 0.0
    ensures a >= 0.0
  {
  }

  lemma SquareNonNegative(t: real)
    ensures t * t >= 0.0
  {
  }

  function Quotient(a: real, c: real): (q: real)
    requires c != 0.0
    ensures q * c == a
  {
    a / c
  }

  function Pow4(k: nat): (p: real)
    ensures p >= 1.0
  {
    if k == 0 then 1.0 else 4.0 * Pow4(k - 1)
  }

  /** From the second iterate on the correction is at most half the error's root, so the error falls fourfold. */
  lemma ErrorQuarters(x: real, z: real)
    requires x > 0.0 && z > 0.0 && z * z >= x
    ensures var d := (z * z - x) / (2.0 * z); 0.0 <= 4.0 * (d * d) <= z * z - x
  {
    var e := z * z - x;
    var d := e / (2.0 * z);
    assert d * (2.0 * z) == e;
    assert 4.0 * (d * d) * (z * z) == e * e by {
      assert (d * (2.0 * z)) * (d * (2.0 * z)) == 4.0 * (d * d) * (z * z);
    }
    assert e * e <= e * (z * z);
    assert d * d >= 0.0;
    Cancel(4.0 * (d * d), e, z * z);
  }

  lemma Cancel(a: real, b: real, c: real)
    requires c > 0.0 && a * c <= b * c
    ensures a <= b
  {
  }

  lemma FirstError(x: real)
    requires x > 0.0
    ensures var d := (x * x - x) / (2.0 * x); 4.0 * (d * d) == (x - 1.0) * (x - 1.0)
  {
    var d, h := (x * x - x) / (2.0 * x), (x - 1.0) / 2.0;
    assert d == Quotient(x * x - x, 2.0 * x);
    assert h * (2.0 * x) == x * x - x;
    Cancel(d, h, 2.0 * x);
    Cancel(h, d, 2.0 * x);
    assert 4.0 * (h * h) == (x - 1.0) * (x - 1.0);
  }

  lemma FirstStep(x: real)
    requires x > 0.0
    ensures 0.0 <= 4.0 * Excess(x, Next(x, x)) <= (x - 1.0) * (x - 1.0)
  {
    NewtonStep(x, x);
    FirstError(x);
    SquareNonNegative((x * x - x) / (2.0 * x));
  }

  lemma LaterStep(x: real, z: real)
    requires x > 0.0 && z > 0.0 && Excess(x, z) >= 0.0
    ensures 0.0 <= 4.0 * Excess(x, Next(x, z)) <= Excess(x, z)
  {
    NewtonStep(x, z);
    ErrorQuarters(x, z);
  }

  lemma {:induction false} NewtonError(x: real, k: nat)
    requires x > 0.0 && k > 0
    ensures 0.0 <= Excess(x, Newton(x, k)) * Pow4(k) <= (x - 1.0) * (x - 1.0)
    ensures Excess(x, Newton(x, k)) >= 0.0
  {
    hide Next, Excess;
    var z, e := Newton(x, k - 1), Excess(x, Newton(x, k));
    assert Newton(x, k) == Next(x, z) && Pow4(k) == 4.0 * Pow4(k - 1);
    if k == 1 {
      assert z == x && Pow4(0) == 1.0;
      hide *;
      FirstStep(x);
    } else {
      hide *;
      NewtonError(x, k - 1);
      LaterStep(x, z);
      Scale(4.0 * e, Excess(x, z), Pow4(k - 1));
      assert e * (4.0 * Pow4(k - 1)) == 4.0 * e * Pow4(k - 1);
    }
  }

  lemma Scale(a: real, b: real, p: real)
    requires 0.0 <= a <= b && p > 0.0
    ensures 0.0 <= a * p <= b * p
  {
  }

  method Sqrt(x: real) returns (r: real)
    ensures r == SqrtOf(x)
  {
    hide Next;
    if x <= 0.0 {
      return 0.0;
    }
    var z := x;
    for i := 0 to NEWTON_STEPS
      invariant z == Newton(x, i)
    {
      z := Next(x, z);
    }
    return z;
  }

  function SqrtOf(x: real): real {
    if x <= 0.0 then 0.0 else Newton(x, NEWTON_STEPS)
  }

  /** The result's square is never below x, and above it by at most (x-1)^2 / 4^20. */
  lemma SqrtAccuracy(x: real)
    requires x > 0.0
    ensures SqrtOf(x) > 0.0
    ensures 0.0 <= SqrtOf(x) * SqrtOf(x) - x <= (x - 1.0) * (x - 1.0) / 1099511627776.0
  {
    var z := SqrtOf(x);
    NewtonError(x, NEWTON_STEPS);
    assert Pow4(5) == 1024.0;
    assert Pow4(10) == 1048576.0;
    assert Pow4(15) == 1073741824.0;
    assert Pow4(20) == 1099511627776.0;
    assert (z * z - x) * 1099511627776.0 <= (x - 1.0) * (x - 1.0);
  }

  // ---------- cosine similarity ----------

  type Vector = seq<real>

  function Dot(a: Vector, b: Vector): real
    requires |a| == |b|
  {
    if a == [] then 0.0
    else Dot(a[..|a| - 1], b[..|b| - 1]) + a[|a| - 1] * b[|b| - 1]
  }

  function Cosine(a: Vector, b: Vector): real {
    if |a| != |b| || |a| == 0 then 0.0
    else if Dot(a, a) == 0.0 || Dot(b, b) == 0.0 then 0.0
    else CosineOf(Dot(a, b), Dot(a, a), Dot(b, b))
  }

  function CosineOf(dot: real, normA: real, normB: real): real {
    var roots := SqrtOf(normA) * SqrtOf(normB);
    if roots == 0.0 then 0.0 else dot / roots
  }

  method CosineSimilarity(a: Vector, b: Vector) returns (r: real)
    ensures r == Cosine(a, b)
    ensures -1.0 <= r <= 1.0
    ensures NonNegative(a) && NonNegative(b) ==> r >= 0.0
  {
    CosineBounded(a, b);
    if |a| != |b| || |a| == 0 {
      return 0.0;
    }
    var dot, normA, normB := 0.0, 0.0, 0.0;
    for i := 0 to |a|
      invariant dot == Dot(a[..i], b[..i]) && normA == Dot(a[..i], a[..i]) && normB == Dot(b[..i], b[..i])
    {
      DotStep(a, b, i);
      DotStep(a, a, i);
      DotStep(b, b, i);
      dot := dot + a[i] * b[i];
      normA := normA + a[i] * a[i];
      normB := normB + b[i] * b[i];
    }
    assert a[..|a|] == a && b[..|b|] == b;
    if normA == 0.0 || normB == 0.0 {
      return 0.0;
    }
    DotSelfNonNegative(a);
    DotSelfNonNegative(b);
    var rootA := Sqrt(normA);
    var rootB := Sqrt(normB);
    SqrtAccuracy(normA);
    SqrtAccuracy(normB);
    assert rootA * rootB > 0.0;
    return dot / (rootA * rootB);
  }

  lemma DotStep(a: Vector, b: Vector, i: nat)
    requires |a| == |b| && i < |a|
    ensures Dot(a[..i + 1], b[..i + 1]) == Dot(a[..i], b[..i]) + a[i] * b[i]
  {
    assert a[..i + 1][..i] == a[..i] && b[..i + 1][..i] == b[..i];
  }

  lemma {:induction false} DotSelfNonNegative(a: Vector)
    ensures Dot(a, a) >= 0.0
  {
    if a != [] {
      DotSelfNonNegative(a[..|a| - 1]);
      SquareNonNegative(a[|a| - 1]);
    }
  }

  /** The squared length of s*a + b, which cannot be negative. */
  lemma {:induction false} QuadraticNonNegative(a: Vector, b: Vector, s: real)
    requires |a| == |b|
    ensures Dot(a, a) * (s * s) + 2.0 * (s * Dot(a, b)) + Dot(b, b) >= 0.0
  {
    if a != [] {
      var n := |a| - 1;
      QuadraticNonNegative(a[..n], b[..n], s);
      SquareTerm(Dot(a[..n], a[..n]), Dot(a[..n], b[..n]), Dot(b[..n], b[..n]), a[n], b[n], s);
    }
  }

  lemma SquareTerm(aa: real, ab: real, bb: real, x: real, y: real, s: real)
    ensures (aa + x * x) * (s * s) + 2.0 * (s * (ab + x * y)) + (bb + y * y)
            >= aa * (s * s) + 2.0 * (s * ab) + bb
  {
    assert (s * x + y) * (s * x + y) == x * x * (s * s) + 2.0 * (s * (x * y)) + y * y;
    SquareNonNegative(s * x + y);
    assert (aa + x * x) * (s * s) == aa * (s * s) + x * x * (s * s);
    assert s * (ab + x * y) == s * ab + s * (x * y);
  }

  lemma ZeroNormZeroDot(a: Vector, b: Vector)
    requires |a| == |b| && Dot(a, a) == 0.0
    ensures Dot(a, b) == 0.0
  {
    var d, nb := Dot(a, b), Dot(b, b);
    hide Dot;
    if d != 0.0 {
      var s := Quotient(-(nb + 1.0), 2.0 * d);
      QuadraticNonNegative(a, b, s);
      NegativeLine(d, nb, s);
    }
  }

  lemma NegativeLine(d: real, nb: real, s: real)
    requires s * (2.0 * d) == -(nb + 1.0)
    ensures 0.0 * (s * s) + 2.0 * (s * d) + nb < 0.0
  {
  }

  /** Cauchy-Schwarz for vectors of any length. */
  lemma CauchySchwarz(a: Vector, b: Vector)
    requires |a| == |b|
    ensures Dot(a, b) * Dot(a, b) <= Dot(a, a) * Dot(b, b)
  {
    hide Dot;
    var d, na, nb := Dot(a, b), Dot(a, a), Dot(b, b);
    DotSelfNonNegative(a);
    if na == 0.0 {
      ZeroNormZeroDot(a, b);
      assert d * d == 0.0 && na * nb == 0.0;
    } else {
      var s := Quotient(-d, na);
      QuadraticNonNegative(a, b, s);
      AtMinimum(d, na, nb, s);
    }
  }

  lemma AtMinimum(d: real, na: real, nb: real, s: real)
    requires na > 0.0 && s * na == -d && na * (s * s) + 2.0 * (s * d) + nb >= 0.0
    ensures d * d <= na * nb
  {
    assert na * (s * s) == (s * na) * s == -(s * d);
    assert s * d + nb >= 0.0;
    assert (s * d) * na == -(d * d) by {
      assert (s * d) * na == (s * na) * d;
    }
    assert (s * d + nb) * na >= 0.0;
  }

  lemma AbsFromSquares(d: real, r: real)
    requires r > 0.0 && d * d <= r * r
    ensures -r <= d <= r
  {
    if d > r {
      LargerSquare(d, r);
    } else if d < -r {
      LargerSquare(-d, r);
    }
  }

  lemma LargerSquare(d: real, r: real)
    requires d > r > 0.0
    ensures d * d > r * r
  {
    assert d * d > d * r > r * r;
  }

  predicate NonNegative(a: Vector) {
    forall i :: 0 <= i < |a| ==> a[i] >= 0.0
  }

  lemma {:induction false} DotNonNegative(a: Vector, b: Vector)
    requires |a| == |b| && NonNegative(a) && NonNegative(b)
    ensures Dot(a, b) >= 0.0
  {
    if a != [] {
      DotNonNegative(a[..|a| - 1], b[..|b| - 1]);
      assert a[|a| - 1] * b[|b| - 1] >= 0.0;
    }
  }

  /** The roots are never too small, so the quotient never leaves [-1, 1]. */
  lemma CosineBounded(a: Vector, b: Vector)
    ensures -1.0 <= Cosine(a, b) <= 1.0
    ensures NonNegative(a) && NonNegative(b) ==> Cosine(a, b) >= 0.0
  {
    hide Dot, CosineOf;
    if |a| == |b| && |a| > 0 && Dot(a, a) != 0.0 && Dot(b, b) != 0.0 {
      DotSelfNonNegative(a);
      DotSelfNonNegative(b);
      CauchySchwarz(a, b);
      if NonNegative(a) && NonNegative(b) {
        DotNonNegative(a, b);
      }
      CosineOfBounded(Dot(a, b), Dot(a, a), Dot(b, b));
    }
  }

  lemma CosineOfBounded(d: real, na: real, nb: real)
    requires na > 0.0 && nb > 0.0 && d * d <= na * nb
    ensures -1.0 <= CosineOf(d, na, nb) <= 1.0
    ensures d >= 0.0 ==> CosineOf(d, na, nb) >= 0.0
  {
    SqrtAccuracy(na);
    SqrtAccuracy(nb);
    hide SqrtOf;
    var ra, rb := SqrtOf(na), SqrtOf(nb);
    QuotientBounded(d, na, nb, ra, rb);
    assert CosineOf(d, na, nb) == d / (ra * rb);
  }

  lemma QuotientBounded(d: real, na: real, nb: real, ra: real, rb: real)
    requires na > 0.0 && nb > 0.0 && ra > 0.0 && rb > 0.0 && ra * ra >= na && rb * rb >= nb && d * d <= na * nb
    ensures ra * rb > 0.0 && -1.0 <= d / (ra * rb) <= 1.0
    ensures d >= 0.0 ==> d / (ra * rb) >= 0.0
  {
    var r := ra * rb;
    assert r > 0.0;
    assert r * r == (ra * ra) * (rb * rb);
    assert (ra * ra) * (rb * rb) >= na * (rb * rb) >= na * nb;
    AbsFromSquares(d, r);
    var q := Quotient(d, r);
    assert q * r == d;
    Cancel(q, 1.0, r);
    assert (-1.0) * r == -r;
    Cancel(-1.0, q, r);
    if d >= 0.0 {
      PositiveOrZero(q, r);
    }
  }

  lemma BetweenSquares(r: real, d: real, ra: real, rb: real, na: real, nb: real, ea: real, eb: real)
    requires r * (ra * rb) == d && 0.0 <= na <= ra * ra <= na + ea && 0.0 <= nb <= rb * rb <= nb + eb
    ensures r * r * (na * nb) <= d * d <= r * r * ((na + ea) * (nb + eb))
  {
    var p, q, k := ra * ra, rb * rb, r * r;
    SquareOfProduct(r, ra, rb);
    SquareNonNegative(r);
    hide *;
    ProductBounds(p, q, na, nb, ea, eb);
    ScaleUp(k, na * nb, p * q);
    ScaleUp(k, p * q, (na + ea) * (nb + eb));
  }

  lemma SquareOfProduct(r: real, a: real, b: real)
    ensures (r * (a * b)) * (r * (a * b)) == r * r * ((a * a) * (b * b))
  {
  }

  lemma ProductBounds(p: real, q: real, na: real, nb: real, ea: real, eb: real)
    requires 0.0 <= na <= p <= na + ea && 0.0 <= nb <= q <= nb + eb
    ensures na * nb <= p * q <= (na + ea) * (nb + eb)
  {
    assert na * nb <= p * nb <= p * q;
    assert p * q <= (na + ea) * q <= (na + ea) * (nb + eb);
  }

  lemma ScaleUp(k: real, a: real, b: real)
    requires k >= 0.0 && a <= b
    ensures k * a <= k * b
  {
  }

  /** What the roots of the norms may be off by, as a square. */
  function RootError(x: real): (e: real)
    ensures e >= 0.0
  {
    SquareNonNegative(x - 1.0);
    (x - 1.0) * (x - 1.0) / 1099511627776.0
  }

  lemma RootOf(x: real) returns (r: real)
    requires x > 0.0
    ensures r == SqrtOf(x) && r > 0.0 && x <= r * r <= x + RootError(x)
  {
    r := SqrtOf(x);
    SqrtAccuracy(x);
  }

  /**
   * The cosine has the sign of the dot product, and its square is the dot product's over the squared norms, but for the
   * error of the roots. Vectors of different lengths, and zero vectors, are not similar at all.
   */
  lemma CosineAccuracy(a: Vector, b: Vector)
    ensures |a| != |b| || a == [] ==> Cosine(a, b) == 0.0
    ensures |a| == |b| && a != [] ==>
              var r, d, na, nb := Cosine(a, b), Dot(a, b), Dot(a, a), Dot(b, b);
              if na == 0.0 || nb == 0.0 then r == 0.0
              else && r * r * (na * nb) <= d * d <= r * r * ((na + RootError(na)) * (nb + RootError(nb)))
                   && (d > 0.0 ==> r > 0.0) && (d < 0.0 ==> r < 0.0)
  {
    hide Dot, CosineOf;
    if |a| == |b| && a != [] && Dot(a, a) != 0.0 && Dot(b, b) != 0.0 {
      DotSelfNonNegative(a);
      DotSelfNonNegative(b);
      CosineOfAccuracy(Dot(a, b), Dot(a, a), Dot(b, b));
    }
  }

  lemma CosineOfAccuracy(d: real, na: real, nb: real)
    requires na > 0.0 && nb > 0.0
    ensures var r := CosineOf(d, na, nb);
            && r * r * (na * nb) <= d * d <= r * r * ((na + RootError(na)) * (nb + RootError(nb)))
            && (d > 0.0 ==> r > 0.0) && (d < 0.0 ==> r < 0.0)
  {
    var r := CosineOf(d, na, nb);
    var ra := RootOf(na);
    var rb := RootOf(nb);
    var k := ra * rb;
    CosineTimesRoots(d, na, nb, ra, rb);
    hide *;
    BetweenSquares(r, d, ra, rb, na, nb, RootError(na), RootError(nb));
    SignOfQuotient(r, d, k);
  }

  lemma CosineTimesRoots(d: real, na: real, nb: real, ra: real, rb: real)
    requires ra == SqrtOf(na) > 0.0 && rb == SqrtOf(nb) > 0.0
    ensures ra * rb > 0.0 && CosineOf(d, na, nb) * (ra * rb) == d
  {
    hide SqrtOf;
    var k := ra * rb;
    assert k > 0.0;
    assert CosineOf(d, na, nb) == Quotient(d, k);
  }

  lemma SignOfQuotient(r: real, d: real, k: real)
    requires k > 0.0 && r * k == d
    ensures (d > 0.0 ==> r > 0.0) && (d < 0.0 ==> r < 0.0)
  {
    if d > 0.0 {
      PositiveFactor(r, k);
    } else if d < 0.0 {
      assert (-r) * k == -d;
      PositiveFactor(-r, k);
    }
  }

  // ---------- vectors of texts and hashes ----------

  /** A string as Go ranges over it: each rune with its byte offset. */
  datatype Rune = Rune(offset: nat, code: nat)

  /** SHA-256 of a byte pair. */
  type PairHash = (byte, byte) -> seq<byte>

  predicate UnitVector(v: Vector) {
    |v| == VECTOR_DIM && forall i :: 0 <= i < |v| ==> 0.0 <= v[i] <= 1.0
  }

  /** Go's range gives the runes in the order of their offsets. */
  predicate Ascending(runes: seq<Rune>) {
    forall i, j :: 0 <= i < j < |runes| ==> runes[i].offset < runes[j].offset
  }

  /** The code of the rune at byte i, as a share of 255. */
  function HashEntry(runes: seq<Rune>, i: nat): (x: real)
    ensures x >= 0.0
  {
    if runes == [] then 0.0
    else
      var last := runes[|runes| - 1];
      if last.offset == i then last.code as real / 255.0 else HashEntry(runes[..|runes| - 1], i)
  }

  function HashVector(runes: seq<Rune>): (v: Vector)
    ensures |v| == VECTOR_DIM && NonNegative(v)
  {
    seq(VECTOR_DIM, i requires 0 <= i < VECTOR_DIM => HashEntry(runes, i))
  }

  lemma {:induction false} LateRunes(runes: seq<Rune>, k: nat, i: nat)
    requires k <= |runes| && forall j :: k <= j < |runes| ==> runes[j].offset > i
    ensures HashEntry(runes, i) == HashEntry(runes[..k], i)
  {
    if k < |runes| {
      var front := runes[..|runes| - 1];
      LateRunes(front, k, i);
      assert front[..k] == runes[..k];
    } else {
      assert runes[..k] == runes;
    }
  }

  /** Entry i is the code of the rune that begins at byte i, over 255, and zero if none does. */
  lemma {:induction false} HashEntryIs(runes: seq<Rune>, i: nat)
    requires Ascending(runes)
    ensures forall k :: 0 <= k < |runes| && runes[k].offset == i ==>
              HashEntry(runes, i) * 255.0 == runes[k].code as real
    ensures (forall k :: 0 <= k < |runes| ==> runes[k].offset != i) ==> HashEntry(runes, i) == 0.0
  {
    if runes != [] {
      HashEntryIs(runes[..|runes| - 1], i);
    }
  }

  method HashToVector(runes: seq<Rune>) returns (vec: array<real>)
    requires Ascending(runes)
    ensures fresh(vec) && vec[..] == HashVector(runes)
  {
    vec := new real[VECTOR_DIM](i => 0.0);
    var k := 0;
    while k < |runes| && runes[k].offset < VECTOR_DIM
      invariant k <= |runes|
      invariant forall i :: 0 <= i < VECTOR_DIM ==> vec[i] == HashEntry(runes[..k], i)
    {
      assert runes[..k + 1][..k] == runes[..k];
      vec[runes[k].offset] := runes[k].code as real / 255.0;
      k := k + 1;
    }
    forall i | 0 <= i < VECTOR_DIM ensures vec[i] == HashEntry(runes, i) {
      LateRunes(runes, k, i);
    }
  }

  /** What the runes add to entry i. */
  function RuneShare(runes: seq<Rune>, i: nat): (x: real)
    ensures x >= 0.0
  {
    if runes == [] then 0.0
    else
      var last := runes[|runes| - 1];
      RuneShare(runes[..|runes| - 1], i) + if last.offset % VECTOR_DIM == i then last.code as real * 0.3 else 0.0
  }

  /** What the first n byte pairs add to entry i: a byte of each pair's hash. */
  function PairShare(bytes: seq<byte>, hash: PairHash, n: nat, i: nat): (x: real)
    requires n == 0 || n < |bytes|
    requires forall x, y :: |hash(x, y)| == 32
    ensures x >= 0.0
  {
    if n == 0 then 0.0
    else PairShare(bytes, hash, n - 1, i) + hash(bytes[n - 1], bytes[n])[i % 32] as real / 255.0 * 0.7
  }

  /** The shares of two stretches of runes add up, and one rune adds three tenths of its code at its own entry. */
  lemma {:induction false} RunesAdd(a: seq<Rune>, b: seq<Rune>, i: nat)
    ensures RuneShare(a + b, i) == RuneShare(a, i) + RuneShare(b, i)
    ensures |b| == 1 ==>
              RuneShare(b, i) * 10.0 == if b[0].offset % VECTOR_DIM == i then 3.0 * b[0].code as real else 0.0
  {
    if b == [] {
      assert a + b == a;
    } else {
      assert (a + b)[..|a + b| - 1] == a + b[..|b| - 1];
      RunesAdd(a, b[..|b| - 1], i);
    }
  }

  /** Each further pair adds seven tenths of one byte of its hash, over 255, to every entry. */
  lemma PairsAdd(bytes: seq<byte>, hash: PairHash, n: nat, i: nat)
    requires n + 1 < |bytes| && forall x, y :: |hash(x, y)| == 32
    ensures (PairShare(bytes, hash, n + 1, i) - PairShare(bytes, hash, n, i)) * 2550.0
            == 7.0 * hash(bytes[n], bytes[n + 1])[i % 32] as real
    ensures PairShare(bytes, hash, 0, i) == 0.0
  {
  }

  function Pairs(bytes: seq<byte>): nat {
    if |bytes| == 0 then 0 else |bytes| - 1
  }

  function RawVector(runes: seq<Rune>, bytes: seq<byte>, hash: PairHash): (v: Vector)
    requires forall x, y :: |hash(x, y)| == 32
    ensures |v| == VECTOR_DIM && NonNegative(v)
  {
    seq(VECTOR_DIM, i requires 0 <= i < VECTOR_DIM => RuneShare(runes, i) + PairShare(bytes, hash, Pairs(bytes), i))
  }

  /** The greatest entry, or zero. */
  function MaxOf(v: Vector): (m: real)
    ensures m >= 0.0 && forall i :: 0 <= i < |v| ==> v[i] <= m
    ensures m == 0.0 || exists i :: 0 <= i < |v| && v[i] == m
  {
    if v == [] then 0.0
    else
      var m := MaxOf(v[..|v| - 1]);
      if v[|v| - 1] > m then v[|v| - 1] else m
  }

  function NormalisedBy(v: Vector, max: real): (r: Vector)
    ensures |r| == |v|
  {
    if max <= 0.0 then v else seq(|v|, i requires 0 <= i < |v| => AtMostOne(v[i] / max))
  }

  function TextVector(runes: seq<Rune>, bytes: seq<byte>, hash: PairHash): Vector
    requires forall x, y :: |hash(x, y)| == 32
  {
    var raw := RawVector(runes, bytes, hash);
    NormalisedBy(raw, MaxOf(raw))
  }

  /** Every entry of a text's vector is between zero and one, and one of them is one unless all are zero. */
  lemma TextVectorIsUnit(runes: seq<Rune>, bytes: seq<byte>, hash: PairHash)
    requires forall x, y :: |hash(x, y)| == 32
    ensures var v := TextVector(runes, bytes, hash);
            && UnitVector(v)
            && ((forall i :: 0 <= i < |v| ==> v[i] == 0.0) || (exists i :: 0 <= i < |v| && v[i] == 1.0))
  {
    NormalisedIsUnit(RawVector(runes, bytes, hash));
  }

  lemma NormalisedIsUnit(v: Vector)
    requires |v| == VECTOR_DIM && NonNegative(v)
    ensures var r := NormalisedBy(v, MaxOf(v));
            && UnitVector(r)
            && ((forall i :: 0 <= i < |r| ==> r[i] == 0.0) || (exists i :: 0 <= i < |r| && r[i] == 1.0))
  {
    var max := MaxOf(v);
    var r := NormalisedBy(v, max);
    if max > 0.0 {
      forall i | 0 <= i < |v| ensures 0.0 <= r[i] <= 1.0 && (v[i] == max ==> r[i] == 1.0) {
        ShareOfMax(v[i], max);
      }
    }
  }

  /** Runes and hashes of byte pairs are summed up, and the whole vector is divided by its largest entry. */
  method TextToVector(runes: seq<Rune>, bytes: seq<byte>, hash: PairHash) returns (vec: array<real>)
    requires forall x, y :: |hash(x, y)| == 32
    ensures fresh(vec) && vec[..] == TextVector(runes, bytes, hash)
  {
    vec := new real[VECTOR_DIM](i => 0.0);
    AddRunes(vec, runes);
    AddPairs(vec, runes, bytes, hash);
    assert vec[..] == RawVector(runes, bytes, hash);
    Normalise(vec);
  }

  method AddRunes(vec: array<real>, runes: seq<Rune>)
    requires vec.Length == VECTOR_DIM && forall i :: 0 <= i < VECTOR_DIM ==> vec[i] == 0.0
    modifies vec
    ensures forall i :: 0 <= i < VECTOR_DIM ==> vec[i] == RuneShare(runes, i)
  {
    for k := 0 to |runes|
      invariant forall i :: 0 <= i < VECTOR_DIM ==> vec[i] == RuneShare(runes[..k], i)
    {
      assert runes[..k + 1][..k] == runes[..k];
      var at := runes[k].offset % VECTOR_DIM;
      vec[at] := vec[at] + runes[k].code as real * 0.3;
    }
    assert runes[..|runes|] == runes;
  }

  method AddPairs(vec: array<real>, runes: seq<Rune>, bytes: seq<byte>, hash: PairHash)
    requires vec.Length == VECTOR_DIM && forall i :: 0 <= i < VECTOR_DIM ==> vec[i] == RuneShare(runes, i)
    requires forall x, y :: |hash(x, y)| == 32
    modifies vec
    ensures forall i :: 0 <= i < VECTOR_DIM ==> vec[i] == RuneShare(runes, i) + PairShare(bytes, hash, Pairs(bytes), i)
  {
    hide RuneShare;
    for k := 0 to Pairs(bytes)
      invariant forall i :: 0 <= i < VECTOR_DIM ==> vec[i] == RuneShare(runes, i) + PairShare(bytes, hash, k, i)
    {
      var h := hash(bytes[k], bytes[k + 1]);
      for j := 0 to VECTOR_DIM
        invariant forall i :: j <= i < VECTOR_DIM ==> vec[i] == RuneShare(runes, i) + PairShare(bytes, hash, k, i)
        invariant forall i :: 0 <= i < j ==> vec[i] == RuneShare(runes, i) + PairShare(bytes, hash, k + 1, i)
      {
        vec[j] := vec[j] + h[j % |h|] as real / 255.0 * 0.7;
      }
    }
  }

  method Normalise(vec: array<real>)
    requires vec.Length == VECTOR_DIM
    modifies vec
    ensures vec[..] == NormalisedBy(old(vec[..]), MaxOf(old(vec[..])))
  {
    var max := 0.0;
    for i := 0 to vec.Length
      invariant max == MaxOf(vec[..i])
    {
      assert vec[..i + 1][..i] == vec[..i];
      if vec[i] > max {
        max := vec[i];
      }
    }
    assert vec[..vec.Length] == vec[..];
    if max > 0.0 {
      for i := 0 to vec.Length
        invariant forall j :: 0 <= j < i ==> vec[j] == AtMostOne(old(vec[j]) / max)
        invariant forall j :: i <= j < vec.Length ==> vec[j] == old(vec[j])
      {
        vec[i] := AtMostOne(vec[i] / max);
      }
    }
  }

  /** The guard against rounding. */
  function AtMostOne(v: real): real {
    if v > 1.0 then 1.0 else v
  }

  lemma ShareOfMax(v: real, max: real)
    requires 0.0 <= v <= max && max > 0.0
    ensures 0.0 <= v / max <= 1.0 && (v == max ==> v / max == 1.0)
  {
    var q := Quotient(v, max);
    assert q * max == v;
    Cancel(q, 1.0, max);
    PositiveOrZero(q, max);
    if v == max {
      assert 1.0 * max <= q * max;
      Cancel(1.0, q, max);
    }
  }

  // ---------- the initial weight ----------

  /** What similarity to the anti hash leaves of a weight. */
  function AntiFactor(anti: real): real {
    1.0 - (0.3 + anti * 0.5) * 0.8
  }

  function Damped(w: real, anti: real): real {
    var damped := w * AntiFactor(anti);
    if damped < 0.1 then 0.1 else damped
  }

  /** The formula, from the similarities of a message to the ethics hash and to the optional pre and anti hashes. */
  function WeightFrom(ethics: real, pre: Option<real>, anti: Option<real>): real {
    var w := WithPre(0.3 + ethics * 0.5, pre);
    if anti.Some? then Damped(w, anti.value) else w
  }

  function WithPre(w: real, pre: Option<real>): real {
    if pre.Some? then w * 0.4 + (0.2 + pre.value * 0.6) * 0.6 else w
  }

  lemma Shrinks(w: real, f: real)
    requires w >= 0.0 && 0.0 <= f <= 1.0
    ensures 0.0 <= w * f <= w
  {
    assert w * (1.0 - f) == w - w * f;
    ProductNonNegative(w, 1.0 - f);
    ProductNonNegative(w, f);
  }

  lemma ProductNonNegative(a: real, b: real)
    requires a >= 0.0 && b >= 0.0
    ensures a * b >= 0.0
  {
  }

  lemma WeightInRange(ethics: real, pre: Option<real>, anti: Option<real>)
    requires 0.0 <= ethics <= 1.0
    requires pre.Some? ==> 0.0 <= pre.value <= 1.0
    requires anti.Some? ==> 0.0 <= anti.value <= 1.0
    ensures 0.1 <= WeightFrom(ethics, pre, anti) <= 0.8
  {
    assert 0.1 <= WithPre(0.3 + ethics * 0.5, pre) <= 0.8;
    hide WithPre, Damped;
    if anti.Some? {
      DampedInRange(WithPre(0.3 + ethics * 0.5, pre), anti.value);
    }
  }

  lemma DampedInRange(w: real, anti: real)
    requires 0.1 <= w <= 0.8 && 0.0 <= anti <= 1.0
    ensures 0.1 <= Damped(w, anti) <= 0.8
  {
    assert 0.0 <= AntiFactor(anti) <= 1.0;
    hide AntiFactor;
    Shrinks(w, AntiFactor(anti));
  }

  /** The weight grows with the similarity to the ethics and pre hashes and falls with that to the anti hash. */
  lemma WeightIsMonotone(ethics: real, ethics': real, pre: real, pre': real, anti: real, anti': real)
    requires 0.0 <= ethics <= ethics' <= 1.0 && 0.0 <= pre <= pre' <= 1.0 && 0.0 <= anti <= anti' <= 1.0
    ensures WeightFrom(ethics, None, None) <= WeightFrom(ethics', None, None)
    ensures WeightFrom(ethics, Some(pre), None) <= WeightFrom(ethics', Some(pre'), None)
    ensures WeightFrom(ethics, None, Some(anti')) <= WeightFrom(ethics', None, Some(anti))
    ensures WeightFrom(ethics, Some(pre), Some(anti')) <= WeightFrom(ethics', Some(pre'), Some(anti))
  {
    DampedIsMonotone(0.3 + ethics * 0.5, 0.3 + ethics' * 0.5, anti, anti');
    DampedIsMonotone(WithPre(0.3 + ethics * 0.5, Some(pre)), WithPre(0.3 + ethics' * 0.5, Some(pre')), anti, anti');
    hide Damped;
  }

  lemma DampedIsMonotone(w: real, w': real, anti: real, anti': real)
    requires 0.0 <= w <= w' && 0.0 <= anti <= anti' <= 1.0
    ensures Damped(w, anti') <= Damped(w', anti)
  {
    var f, f' := AntiFactor(anti), AntiFactor(anti');
    assert 0.0 <= f' <= f;
    assert w * f' <= w' * f by {
      ScaleUp(w, f', f);
      ScaleUp(f, w, w');
    }
    FloorIsMonotone(w * f', w' * f);
  }

  lemma FloorIsMonotone(a: real, b: real)
    requires a <= b
    ensures (if a < 0.1 then 0.1 else a) <= (if b < 0.1 then 0.1 else b)
  {
  }

  /** The weights at no similarity and at full similarity; between these the formula is linear in each of the three. */
  lemma WeightCorners()
    ensures WeightFrom(0.0, None, None) == 0.3 && WeightFrom(1.0, None, None) == 0.8
    ensures WeightFrom(0.0, Some(0.0), None) == 0.24 && WeightFrom(1.0, Some(0.0), None) == 0.44
    ensures WeightFrom(0.0, Some(1.0), None) == 0.6 && WeightFrom(1.0, Some(1.0), None) == 0.8
    ensures WeightFrom(1.0, None, Some(0.0)) == 0.608 && WeightFrom(1.0, None, Some(1.0)) == 0.288
    ensures WeightFrom(0.0, Some(0.0), Some(1.0)) == 0.1
  {
  }

  function HashScoreOf(hash: seq<Rune>, msgVec: Vector): real {
    Cosine(HashVector(hash), msgVec)
  }

  /** The similarity of a message to a hash is a share of one. */
  lemma HashScoreIsShare(hash: seq<Rune>, msgVec: Vector)
    requires UnitVector(msgVec)
    ensures 0.0 <= HashScoreOf(hash, msgVec) <= 1.0
  {
    hide Cosine, HashVector;
    CosineBounded(HashVector(hash), msgVec);
  }

  method HashScore(hash: seq<Rune>, msgVec: Vector) returns (score: real)
    requires Ascending(hash)
    ensures score == HashScoreOf(hash, msgVec)
  {
    hide Cosine, HashVector;
    var vec := HashToVector(hash);
    score := CosineSimilarity(vec[..], msgVec);
  }

  function WeightOf(ethHash: seq<Rune>, preHash: seq<Rune>, antiHash: seq<Rune>, msgVec: Vector): real {
    WeightFrom(HashScoreOf(ethHash, msgVec),
               if preHash == [] then None else Some(HashScoreOf(preHash, msgVec)),
               if antiHash == [] then None else Some(HashScoreOf(antiHash, msgVec)))
  }

  /** Whatever the hashes and the text, a message starts with a weight in [0.1, 0.8]. */
  lemma WeightOfInRange(ethHash: seq<Rune>, preHash: seq<Rune>, antiHash: seq<Rune>, runes: seq<Rune>, bytes: seq<byte>,
                        hash: PairHash)
    requires forall x, y :: |hash(x, y)| == 32
    ensures 0.1 <= WeightOf(ethHash, preHash, antiHash, TextVector(runes, bytes, hash)) <= 0.8
  {
    var msgVec := TextVector(runes, bytes, hash);
    TextVectorIsUnit(runes, bytes, hash);
    HashScoreIsShare(ethHash, msgVec);
    HashScoreIsShare(preHash, msgVec);
    HashScoreIsShare(antiHash, msgVec);
    hide HashScoreOf, WeightFrom, TextVector;
    WeightInRange(HashScoreOf(ethHash, msgVec),
                  if preHash == [] then None else Some(HashScoreOf(preHash, msgVec)),
                  if antiHash == [] then None else Some(HashScoreOf(antiHash, msgVec)));
  }

  /** An empty pre or anti hash leaves its part of the formula out. */
  method InitialWeight(ethHash: seq<Rune>, preHash: seq<Rune>, antiHash: seq<Rune>, runes: seq<Rune>, bytes: seq<byte>,
                       hash: PairHash)
    returns (weight: real)
    requires Ascending(ethHash) && Ascending(preHash) && Ascending(antiHash)
    requires forall x, y :: |hash(x, y)| == 32
    ensures weight == WeightOf(ethHash, preHash, antiHash, TextVector(runes, bytes, hash))
    ensures 0.1 <= weight <= 0.8
  {
    hide HashScoreOf, WeightFrom, TextVector;
    var vec := TextToVector(runes, bytes, hash);
    var msgVec := vec[..];
    var ethicsScore := HashScore(ethHash, msgVec);
    var pre, anti := None, None;
    if preHash != [] {
      var preScore := HashScore(preHash, msgVec);
      pre := Some(preScore);
    }
    if antiHash != [] {
      var antiScore := HashScore(antiHash, msgVec);
      anti := Some(antiScore);
    }
    WeightOfInRange(ethHash, preHash, antiHash, runes, bytes, hash);
    weight := WeightFrom(ethicsScore, pre, anti);
  }
}
