/**
 * The layers of weights and their gossip (node/layers.go): the forward pass, training, the delta a node sends, and
 * the three formats a node receives. Reals stand for float64; a layer index in a delta is a natural number.
 */
module Gossip {
  import opened Common

  const DEFAULT_TTL: nat := 3
  const CHANGE_THRESHOLD: real := 0.005

  type Layer = seq<real>

  /** A layer in a delta, as a value. */
  datatype Delta = Delta(index: nat, data: Layer)

  function Clamped(v: real): (r: real)
    ensures -1.0 <= r <= 1.0
  {
    if v > 1.0 then 1.0 else if v < -1.0 then -1.0 else v
  }

  function Scaled(v: real, w: real): (r: real)
    ensures -1.0 <= r <= 1.0
  {
    Clamped(v * w)
  }

  // ---------- forward pass ----------

  function Through(current: Layer, layer: Layer): (r: Layer)
    requires |layer| == |current|
    ensures |r| == |current|
    ensures forall i :: 0 <= i < |r| ==> -1.0 <= r[i] <= 1.0
  {
    seq(|current|, i requires 0 <= i < |current| => Scaled(current[i], layer[i]))
  }

  function ForwardOf(input: Layer, layers: seq<Layer>): (r: Layer)
    ensures |r| == |input|
  {
    if layers == [] then input
    else
      var before, last := ForwardOf(input, layers[..|layers| - 1]), layers[|layers| - 1];
      if |last| != |input| then before else Through(before, last)
  }

  method Forward(input: Layer, layers: seq<Layer>) returns (output: Layer)
    ensures output == ForwardOf(input, layers)
  {
    var current := new real[|input|](i requires 0 <= i < |input| => input[i]);
    assert current[..] == input;
    hide Scaled;
    for k := 0 to |layers|
      invariant current[..] == ForwardOf(input, layers[..k])
    {
      assert layers[..k + 1][..k] == layers[..k];
      if |layers[k]| == current.Length {
        ghost var before := current[..];
        for i := 0 to current.Length
          invariant forall j :: 0 <= j < i ==> current[j] == Scaled(before[j], layers[k][j])
          invariant forall j :: i <= j < current.Length ==> current[j] == before[j]
        {
          current[i] := Scaled(current[i], layers[k][i]);
        }
        assert current[..] == Through(before, layers[k]);
      }
    }
    assert layers[..|layers|] == layers;
    return current[..];
  }

  predicate InRange(v: Layer, lo: real, hi: real) {
    forall i :: 0 <= i < |v| ==> lo <= v[i] <= hi
  }

  predicate AllInRange(layers: seq<Layer>, lo: real, hi: real) {
    forall i :: 0 <= i < |layers| ==> InRange(layers[i], lo, hi)
  }

  /** One layer of the input's length is enough to bring the output into [-1,1]; without one the input comes out. */
  lemma {:induction false} ForwardRange(input: Layer, layers: seq<Layer>)
    ensures if exists k :: 0 <= k < |layers| && |layers[k]| == |input|
            then InRange(ForwardOf(input, layers), -1.0, 1.0) else ForwardOf(input, layers) == input
  {
    if layers != [] {
      var n := |layers| - 1;
      ForwardRange(input, layers[..n]);
      if k :| 0 <= k < |layers| && |layers[k]| == |input| && |layers[n]| != |input| {
        assert |layers[..n][k]| == |input|;
      }
    }
  }

  /** The number x times the weights it meets at position i of n, one in each layer of that length. */
  function Weighted(x: real, layers: seq<Layer>, n: nat, i: nat): real
    requires i < n
  {
    if layers == [] then x
    else
      var before, last := Weighted(x, layers[..|layers| - 1], n, i), layers[|layers| - 1];
      if |last| == n then before * last[i] else before
  }

  lemma UnitProduct(a: real, b: real)
    requires -1.0 <= a <= 1.0 && -1.0 <= b <= 1.0
    ensures -1.0 <= a * b <= 1.0
  {
    if a >= 0.0 {
      assert a * b <= a * 1.0 && a * -1.0 <= a * b;
    } else {
      assert (-a) * b <= (-a) * 1.0 && (-a) * -1.0 <= (-a) * b;
    }
  }

  /** With numbers in [-1,1] nothing is clamped: each output is its input times the weights it meets. */
  lemma {:induction false} ForwardIsProduct(input: Layer, layers: seq<Layer>, i: nat)
    requires i < |input| && InRange(input, -1.0, 1.0) && AllInRange(layers, -1.0, 1.0)
    ensures ForwardOf(input, layers)[i] == Weighted(input[i], layers, |input|, i)
    ensures -1.0 <= ForwardOf(input, layers)[i] <= 1.0
  {
    if layers != [] {
      var front, last := layers[..|layers| - 1], layers[|layers| - 1];
      assert AllInRange(front, -1.0, 1.0) && InRange(last, -1.0, 1.0);
      ForwardIsProduct(input, front, i);
      if |last| == |input| {
        ThroughIsProduct(ForwardOf(input, front), last, i);
      }
      hide InRange, Through;
    }
  }

  lemma ThroughIsProduct(before: Layer, layer: Layer, i: nat)
    requires |layer| == |before| && i < |layer| && -1.0 <= before[i] <= 1.0 && -1.0 <= layer[i] <= 1.0
    ensures Through(before, layer)[i] == before[i] * layer[i]
  {
    UnitProduct(before[i], layer[i]);
  }

  // ---------- training ----------

  function Descended(w: real, error: real, rate: real): (r: real)
    ensures -1.0 <= r <= 1.0
  {
    Clamped(w + error * rate)
  }

  /** The descent step on the last layer; vectors or a layer of another length leave everything alone. */
  function Trained(layers: seq<Layer>, input: Layer, output: Layer, target: Layer, rate: real): (r: seq<Layer>)
    ensures |r| == |layers|
  {
    if |input| != |target| || |output| != |target| || |layers| == 0 || |layers[|layers| - 1]| != |target| then layers
    else
      var n := |layers| - 1;
      layers[n := seq(|target|, i requires 0 <= i < |target| => Descended(layers[n][i], target[i] - output[i], rate))]
  }

  /** Each weight of the last layer moves by its error times the rate, as far as [-1,1] lets it; all else stays. */
  lemma TrainingMoves(layers: seq<Layer>, input: Layer, output: Layer, target: Layer, rate: real)
    ensures var r := Trained(layers, input, output, target, rate);
            if |input| == |target| == |output| && layers != [] && |layers[|layers| - 1]| == |target| then
              var n := |layers| - 1;
              && r[..n] == layers[..n] && |r[n]| == |layers[n]|
              && forall i :: 0 <= i < |target| ==>
                   var w := layers[n][i] + (target[i] - output[i]) * rate;
                   r[n][i] == if w > 1.0 then 1.0 else if w < -1.0 then -1.0 else w
            else r == layers
  {
    var r := Trained(layers, input, output, target, rate);
    if |input| == |target| == |output| && layers != [] && |layers[|layers| - 1]| == |target| {
      var n := |layers| - 1;
      assert r == layers[n := r[n]];
      assert forall i :: 0 <= i < |target| ==> r[n][i] == Descended(layers[n][i], target[i] - output[i], rate);
      hide Trained;
    }
  }

  function Distance(a: real, b: real): real {
    if a < b then b - a else a - b
  }

  /** The rate does not carry a weight past its goal. */
  predicate SmallStep(rate: real, x: real) {
    rate >= 0.0 && 0.0 <= rate * x <= 1.0
  }

  lemma ScaledStepLowersError(x: real, w: real, w': real, t: real, rate: real)
    requires -1.0 <= x <= 1.0 && -1.0 <= w <= 1.0 && SmallStep(rate, x)
    requires w' == Descended(w, t - Scaled(x, w), rate)
    ensures Distance(t, Scaled(x, w')) <= Distance(t, Scaled(x, w))
  {
    UnitProduct(x, w);
    UnitProduct(x, w');
    StepLowersError(x, w, w', t, rate);
    hide SmallStep;
  }

  lemma StepLowersError(x: real, w: real, w': real, t: real, rate: real)
    requires -1.0 <= x <= 1.0 && -1.0 <= w <= 1.0 && SmallStep(rate, x)
    requires w' == Descended(w, t - x * w, rate)
    ensures Distance(t, x * w') <= Distance(t, x * w)
  {
    var e := t - x * w;
    var v := w + e * rate;
    var k := 1.0 - rate * x;
    StepIs(x, w, t, rate, e, v, k);
    ShrinksBy(e, k);
    var near, far, reached := x * v, x * w, x * w';
    var left := e * k;
    assert w' == Clamped(v);
    if rate == 0.0 {
      assert v == w == w';
    } else {
      Between(x, w, v, w', rate, e);
    }
    Nearer(t, far, near, reached, e, left);
  }

  lemma StepIs(x: real, w: real, t: real, rate: real, e: real, v: real, k: real)
    requires e == t - x * w && v == w + e * rate && k == 1.0 - rate * x
    ensures t - x * v == e * k
  {
    assert x * v == x * w + x * (e * rate);
    assert x * (e * rate) == e * (rate * x);
  }

  lemma Nearer(t: real, far: real, near: real, reached: real, e: real, left: real)
    requires e == t - far && left == t - near
    requires (e >= 0.0 && 0.0 <= left <= e) || (e <= 0.0 && e <= left <= 0.0)
    requires (e >= 0.0 && far <= reached <= near) || (e <= 0.0 && near <= reached <= far)
    ensures Distance(t, reached) <= Distance(t, far)
  {
  }

  lemma ShrinksBy(e: real, k: real)
    requires 0.0 <= k <= 1.0
    ensures e >= 0.0 ==> 0.0 <= e * k <= e
    ensures e <= 0.0 ==> e <= e * k <= 0.0
  {
    if e >= 0.0 {
      assert e * k <= e * 1.0;
    } else {
      assert (-e) * k <= (-e) * 1.0;
    }
  }

  /** A clamped step stops on the way. */
  lemma Between(x: real, w: real, v: real, w': real, rate: real, e: real)
    requires rate > 0.0 && rate * x >= 0.0 && v == w + e * rate && -1.0 <= w <= 1.0 && w' == Clamped(v)
    ensures e >= 0.0 ==> x * w <= x * w' <= x * v
    ensures e <= 0.0 ==> x * v <= x * w' <= x * w
  {
    NonNegativeFactor(x, rate);
    if e >= 0.0 {
      assert e * rate >= 0.0;
      Ordered(x, w, w');
      Ordered(x, w', v);
    }
    if e <= 0.0 {
      assert (-e) * rate >= 0.0;
      Ordered(x, v, w');
      Ordered(x, w', w);
    }
  }

  lemma Ordered(x: real, a: real, b: real)
    requires x >= 0.0 && a <= b
    ensures x * a <= x * b
  {
  }

  lemma NonNegativeFactor(a: real, p: real)
    requires p > 0.0 && a * p >= 0.0
    ensures a >= 0.0
  {
  }

  /** For a single layer, a training step with a small enough rate takes no output further from its target. */
  lemma TrainingLowersError(input: Layer, layer: Layer, target: Layer, rate: real, i: nat)
    requires |layer| == |input| == |target| && i < |input| && SmallStep(rate, input[i])
    requires -1.0 <= input[i] <= 1.0 && -1.0 <= layer[i] <= 1.0
    ensures var output := ForwardOf(input, [layer]);
            var output' := ForwardOf(input, Trained([layer], input, output, target, rate));
            Distance(target[i], output'[i]) <= Distance(target[i], output[i])
  {
    hide ForwardOf, Trained, Distance, Descended, Scaled, SmallStep;
    var next := TrainedOne(layer, input, ForwardOf(input, [layer]), target, rate);
    OneLayer(input, layer, i);
    OneLayer(input, next, i);
    ScaledStepLowersError(input[i], layer[i], next[i], target[i], rate);
  }

  lemma OneLayer(input: Layer, layer: Layer, i: nat)
    requires |layer| == |input| && i < |input|
    ensures ForwardOf(input, [layer])[i] == Scaled(input[i], layer[i])
  {
    assert [layer][..0] == [];
    assert ForwardOf(input, []) == input;
    hide Scaled;
  }

  lemma TrainedOne(layer: Layer, input: Layer, output: Layer, target: Layer, rate: real) returns (next: Layer)
    requires |layer| == |input| == |target| == |output|
    ensures Trained([layer], input, output, target, rate) == [next]
    ensures |next| == |layer| && InRange(next, -1.0, 1.0)
    ensures forall i :: 0 <= i < |layer| ==> next[i] == Descended(layer[i], target[i] - output[i], rate)
  {
    next := Trained([layer], input, output, target, rate)[0];
    hide Descended;
  }

  // ---------- receiving ----------

  function Mean(a: real, b: real): (r: real)
    ensures a <= b ==> a <= r <= b
    ensures b <= a ==> b <= r <= a
  {
    (a + b) / 2.0
  }

  function Averaged(layer: Layer, data: Layer): (r: Layer)
    ensures |r| == |layer|
  {
    if |data| != |layer| then layer
    else seq(|layer|, i requires 0 <= i < |layer| => Mean(layer[i], data[i]))
  }

  /** Layers of one length meet halfway: each new weight is as far from the old one as from the received one. */
  predicate Halfway(after: Layer, own: Layer, received: Layer) {
    |after| == |own| == |received| && forall j :: 0 <= j < |own| ==> after[j] - own[j] == received[j] - after[j]
  }

  lemma AveragedIsHalfway(layer: Layer, data: Layer)
    ensures if |data| == |layer| then Halfway(Averaged(layer, data), layer, data) else Averaged(layer, data) == layer
  {
  }

  function ZeroLayer(): (r: Layer)
    ensures |r| == VECTOR_DIM && forall i :: 0 <= i < |r| ==> r[i] == 0.0
  {
    seq(VECTOR_DIM, i => 0.0)
  }

  function Grown(layers: seq<Layer>, n: nat): (r: seq<Layer>)
    ensures |r| == if |layers| < n then n else |layers|
    ensures layers <= r
    ensures forall i :: |layers| <= i < |r| ==> r[i] == ZeroLayer()
    decreases n - |layers|
  {
    if |layers| >= n then layers else Grown(layers + [ZeroLayer()], n)
  }

  /** A known layer is averaged; a new one is installed, behind as many zero layers as its index asks for. */
  function ReceivedOne(layers: seq<Layer>, d: Delta): (r: seq<Layer>)
    ensures |r| >= |layers| && d.index < |r|
  {
    if d.index < |layers| then layers[d.index := Averaged(layers[d.index], d.data)]
    else Grown(layers, d.index + 1)[d.index := d.data]
  }

  function Received(layers: seq<Layer>, delta: seq<Delta>): (r: seq<Layer>)
    ensures |r| >= |layers|
    ensures forall i :: 0 <= i < |delta| ==> delta[i].index < |r|
  {
    if delta == [] then layers
    else
      var before := Received(layers, delta[..|delta| - 1]);
      ReceivedOne(before, delta[|delta| - 1])
  }

  /** A layer the node lacks is taken as it is, the layers it has stay, and zero layers fill the gap between. */
  lemma NewLayerIsInstalled(layers: seq<Layer>, d: Delta)
    requires d.index >= |layers|
    ensures var r := Received(layers, [d]);
            && |r| == d.index + 1 && r[..|layers|] == layers && r[d.index] == d.data
            && forall i :: |layers| <= i < d.index ==> |r[i]| == 100 && forall j :: 0 <= j < 100 ==> r[i][j] == 0.0
  {
    assert [d][..0] == [];
    assert Received(layers, []) == layers;
  }

  /** Entry i was installed rather than averaged. */
  predicate Installs(layers: seq<Layer>, delta: seq<Delta>, i: nat)
    requires i < |delta|
  {
    delta[i].index >= |Received(layers, delta[..i])|
  }

  /**
   * The delta that is passed on: an installed entry shares its numbers with the layer it became, so it shows what
   * later entries for the same layer averaged into it.
   */
  function PassedOn(layers: seq<Layer>, delta: seq<Delta>): (r: seq<Delta>)
    ensures |r| == |delta|
    ensures forall i :: 0 <= i < |delta| ==> r[i].index == delta[i].index
  {
    seq(|delta|, i requires 0 <= i < |delta| =>
      if Installs(layers, delta, i) then Delta(delta[i].index, Received(layers, delta)[delta[i].index]) else delta[i])
  }

  /** A delta that names no layer twice is passed on as it came. */
  lemma PassedOnAsItCame(layers: seq<Layer>, delta: seq<Delta>)
    requires forall k, l :: 0 <= k < l < |delta| ==> delta[k].index != delta[l].index
    ensures PassedOn(layers, delta) == delta
  {
    forall i | 0 <= i < |delta| && Installs(layers, delta, i)
      ensures Received(layers, delta)[delta[i].index] == delta[i].data
    {
      InstalledStays(layers, delta, i, |delta|);
      assert delta[..|delta|] == delta;
    }
    hide Received, Installs;
    assert forall i :: 0 <= i < |delta| ==> PassedOn(layers, delta)[i] == delta[i];
  }

  lemma {:induction false} InstalledStays(layers: seq<Layer>, delta: seq<Delta>, i: nat, n: nat)
    requires forall k, l :: 0 <= k < l < |delta| ==> delta[k].index != delta[l].index
    requires i < n <= |delta| && Installs(layers, delta, i)
    ensures delta[i].index < |Received(layers, delta[..n])|
    ensures Received(layers, delta[..n])[delta[i].index] == delta[i].data
  {
    assert delta[..n][..n - 1] == delta[..n - 1];
    var before := Received(layers, delta[..n - 1]);
    assert Received(layers, delta[..n]) == ReceivedOne(before, delta[n - 1]);
    hide Received;
    if i < n - 1 {
      InstalledStays(layers, delta, i, n - 1);
      OtherLayersStay(before, delta[n - 1], delta[i].index);
    }
    hide Averaged;
  }

  lemma OtherLayersStay(layers: seq<Layer>, d: Delta, i: nat)
    requires i < |layers| && i != d.index
    ensures i < |ReceivedOne(layers, d)| && ReceivedOne(layers, d)[i] == layers[i]
  {
    hide Averaged;
  }

  /** Of two entries for one new layer the first is passed on as what the second has made of it. */
  lemma TwoEntriesShare(a: real, b: real)
    ensures PassedOn([], [Delta(0, [a]), Delta(0, [b])]) == [Delta(0, [(a + b) / 2.0]), Delta(0, [b])]
  {
    var delta := [Delta(0, [a]), Delta(0, [b])];
    assert delta[..0] == [] && delta[..1] == [Delta(0, [a])] && [Delta(0, [a])][..0] == [];
    assert Received([], []) == [];
    assert Received([], delta[..1]) == [[a]];
    assert Averaged([a], [b]) == [(a + b) / 2.0];
    assert Received([], delta) == ReceivedOne([[a]], Delta(0, [b])) == [[(a + b) / 2.0]];
  }

  /** The oldest format: all layers of the peer. */
  function ReceivedFull(layers: seq<Layer>, peer: seq<Layer>): (r: seq<Layer>)
    ensures |r| == if |layers| < |peer| then |peer| else |layers|
    ensures forall i :: 0 <= i < |r| ==>
      r[i] == if i >= |peer| then layers[i] else if i >= |layers| then peer[i] else Averaged(layers[i], peer[i])
  {
    var n := if |layers| < |peer| then |peer| else |layers|;
    seq(n, i requires 0 <= i < n =>
      if i >= |peer| then layers[i] else if i >= |layers| then peer[i] else Averaged(layers[i], peer[i]))
  }

  // ---------- the delta that is sent ----------

  predicate Differs(a: real, b: real) {
    (if a - b < 0.0 then b - a else a - b) > CHANGE_THRESHOLD
  }

  /** Layer i is sent: it is new, has another length than when last sent, or some weight has moved far enough. */
  predicate Changed(layers: seq<Layer>, last: seq<Layer>, i: nat)
    requires i < |layers|
  {
    || i >= |last| || |layers[i]| != |last[i]|
    || exists j :: 0 <= j < |layers[i]| && Differs(layers[i][j], last[i][j])
  }

  function DeltaUpTo(layers: seq<Layer>, last: seq<Layer>, n: nat): (delta: seq<Delta>)
    requires n <= |layers|
    ensures forall d :: d in delta ==> d.index < n && d.data == layers[d.index] && Changed(layers, last, d.index)
    ensures forall i :: 0 <= i < n && Changed(layers, last, i) ==> Delta(i, layers[i]) in delta
  {
    if n == 0 then []
    else
      var front := DeltaUpTo(layers, last, n - 1);
      if Changed(layers, last, n - 1) then front + [Delta(n - 1, layers[n - 1])] else front
  }

  /** A layer is sent exactly if it is new, has changed its length, or some weight has moved by more than 0.005. */
  lemma DeltaIs(layers: seq<Layer>, last: seq<Layer>, n: nat)
    requires n <= |layers|
    ensures forall i: nat :: i < n ==>
              (Delta(i, layers[i]) in DeltaUpTo(layers, last, n) <==>
                 || i >= |last| || |layers[i]| != |last[i]|
                 || exists j :: 0 <= j < |layers[i]| && Distance(layers[i][j], last[i][j]) > 0.005)
  {
    forall i: nat | i < n && i < |last| && |layers[i]| == |last[i]|
      ensures Changed(layers, last, i) <==>
                exists j :: 0 <= j < |layers[i]| && Distance(layers[i][j], last[i][j]) > 0.005
    {
      assert forall j :: 0 <= j < |layers[i]| ==>
          (Differs(layers[i][j], last[i][j]) <==> Distance(layers[i][j], last[i][j]) > 0.005);
    }
    hide Differs, DeltaUpTo;
  }

  // ---------- the node ----------

  /** A layer in a delta, as the decoded message holds it: the numbers are an array the layers may come to share. */
  datatype Entry = Entry(index: nat, data: array<real>)

  ghost function Arrays(entries: seq<Entry>): set<array<real>> {
    set e | e in entries :: e.data
  }

  ghost function ValuesOf(entries: seq<Entry>): (r: seq<Delta>)
    reads Arrays(entries)
    ensures |r| == |entries|
  {
    seq(|entries|, i requires 0 <= i < |entries| reads Arrays(entries) => Delta(entries[i].index, entries[i].data[..]))
  }

  /** Averages data into layer, in place, if the lengths agree. */
  method AverageInto(layer: array<real>, data: array<real>)
    requires layer != data
    modifies layer
    ensures layer[..] == Averaged(old(layer[..]), data[..])
  {
    hide Mean;
    if data.Length == layer.Length {
      for j := 0 to data.Length
        invariant forall i :: 0 <= i < j ==> layer[i] == Mean(old(layer[i]), data[i])
        invariant forall i :: j <= i < layer.Length ==> layer[i] == old(layer[i])
      {
        layer[j] := Mean(layer[j], data[j]);
      }
    }
  }

  class Node {
    var layers: seq<array<real>>
    var lastSynced: seq<Layer>
    var dirty: bool

    ghost predicate Valid()
      reads this
    {
      forall i, j :: 0 <= i < j < |layers| ==> layers[i] != layers[j]
    }

    ghost function Values(): (r: seq<Layer>)
      reads this, layers
      ensures |r| == |layers|
    {
      seq(|layers|, i requires 0 <= i < |layers| reads this, layers => layers[i][..])
    }

    /** One descent step, in place, on the last layer. Equal lengths below five would fail: five errors are logged. */
    method Train(input: Layer, output: Layer, target: Layer, rate: real)
      requires Valid()
      requires |input| == |target| == |output| ==> |target| >= 5
      modifies layers
      ensures Values() == Trained(old(Values()), input, output, target, rate)
      ensures |input| == |target| == |output| && layers != [] && layers[|layers| - 1].Length == |target| ==>
                forall i :: 0 <= i < |target| ==>
                  var w := old(layers[|layers| - 1][i]) + (target[i] - output[i]) * rate;
                  layers[|layers| - 1][i] == if w > 1.0 then 1.0 else if w < -1.0 then -1.0 else w
    {
      TrainingMoves(Values(), input, output, target, rate);
      hide Descended;
      if |input| != |target| || |output| != |target| {
        return;
      }
      if |layers| > 0 {
        var last := layers[|layers| - 1];
        if last.Length == |target| {
          for i := 0 to |target|
            invariant forall j :: 0 <= j < i ==> last[j] == Descended(old(last[j]), target[j] - output[j], rate)
            invariant forall j :: i <= j < |target| ==> last[j] == old(last[j])
            invariant forall k :: 0 <= k < |layers| - 1 ==> layers[k][..] == old(layers[k][..])
          {
            last[i] := Descended(last[i], target[i] - output[i], rate);
          }
          assert last[..] == Trained(old(Values()), input, output, target, rate)[|layers| - 1];
        }
      }
    }

    method Grow(n: nat)
      requires Valid()
      modifies this
      ensures Valid() && |layers| == if |old(layers)| < n then n else |old(layers)|
      ensures old(layers) <= layers
      ensures forall i :: |old(layers)| <= i < |layers| ==> fresh(layers[i])
      ensures Values() == Grown(old(Values()), n)
      ensures lastSynced == old(lastSynced) && dirty == old(dirty)
    {
      while |layers| < n
        invariant Valid() && |old(layers)| <= |layers| && (|layers| <= n || layers == old(layers))
        invariant old(layers) <= layers
        invariant forall i :: |old(layers)| <= i < |layers| ==> fresh(layers[i])
        invariant forall i :: |old(layers)| <= i < |layers| ==> layers[i][..] == ZeroLayer()
        invariant lastSynced == old(lastSynced) && dirty == old(dirty)
      {
        var zero := new real[VECTOR_DIM](i => 0.0);
        assert zero[..] == ZeroLayer();
        layers := layers + [zero];
      }
    }

    /** The arrays of a decoded message are its own. */
    ghost predicate Apart(entries: seq<Entry>)
      reads this
    {
      && (forall i :: 0 <= i < |entries| ==> entries[i].data !in layers)
      && (forall i, j :: 0 <= i < j < |entries| ==> entries[i].data != entries[j].data)
    }

    method ReceiveEntry(e: Entry)
      requires Valid() && e.data !in layers
      modifies this, layers
      ensures Valid()
      ensures Values() == ReceivedOne(old(Values()), Delta(e.index, e.data[..]))
      ensures e.index < |old(layers)| && e.data.Length == old(layers)[e.index].Length ==>
                Halfway(Values()[e.index], old(Values())[e.index], e.data[..])
      ensures e.index < |old(layers)| ==> layers == old(layers)
      ensures e.index >= |old(layers)| ==> |layers| == e.index + 1 && old(layers) <= layers && layers[e.index] == e.data
      ensures forall i :: |old(layers)| <= i < |layers| && i != e.index ==> fresh(layers[i])
      ensures lastSynced == old(lastSynced) && dirty == old(dirty)
      ensures forall i :: 0 <= i < |old(layers)| && i != e.index ==> old(layers)[i][..] == old(layers[i][..])
    {
      if e.index < |layers| {
        AveragedIsHalfway(layers[e.index][..], e.data[..]);
        AverageInto(layers[e.index], e.data);
      } else {
        Grow(e.index + 1);
        layers := layers[e.index := e.data];
      }
    }

    /** After k entries: those installed are layers now, the others are apart and as they came. */
    ghost predicate Progress(entries: seq<Entry>, start: seq<Layer>, delta: seq<Delta>, k: nat)
      reads this, layers, Arrays(entries)
      requires k <= |entries| == |delta|
      requires forall i :: 0 <= i < |entries| ==> entries[i].index == delta[i].index
    {
      && Values() == Received(start, delta[..k])
      && forall i :: 0 <= i < |entries| ==>
           if i < k && Installs(start, delta, i)
           then delta[i].index < |layers| && layers[delta[i].index] == entries[i].data
           else entries[i].data !in layers && entries[i].data[..] == delta[i].data
    }

    method ReceiveNth(entries: seq<Entry>, k: nat, ghost start: seq<Layer>, ghost delta: seq<Delta>)
      requires Valid() && k < |entries| == |delta|
      requires forall i, j :: 0 <= i < j < |entries| ==> entries[i].data != entries[j].data
      requires forall i :: 0 <= i < |entries| ==> entries[i].index == delta[i].index
      requires Progress(entries, start, delta, k)
      modifies this, layers
      ensures Valid() && lastSynced == old(lastSynced)
      ensures forall i :: 0 <= i < |layers| ==>
        layers[i] in old(layers) || fresh(layers[i]) || layers[i] == entries[k].data
      ensures Progress(entries, start, delta, k + 1)
    {
      assert delta[..k + 1][..k] == delta[..k];
      assert Installs(start, delta, k) <==> delta[k].index >= |layers|;
      assert Received(start, delta[..k + 1]) == ReceivedOne(Values(), delta[k]);
      hide Received, Installs, ReceivedOne;
      ReceiveEntry(entries[k]);
      forall i | 0 <= i < |entries|
        ensures if i < k + 1 && Installs(start, delta, i)
                then delta[i].index < |layers| && layers[delta[i].index] == entries[i].data
                else entries[i].data !in layers && entries[i].data[..] == delta[i].data
      {
      }
    }

    /** The loop over a received delta, and what the delta holds afterwards, when it is passed on. */
    method ReceiveDelta(entries: seq<Entry>)
      requires Valid() && Apart(entries)
      modifies this, layers, Arrays(entries)
      ensures Valid() && dirty && lastSynced == old(lastSynced)
      ensures Values() == Received(old(Values()), old(ValuesOf(entries)))
      ensures ValuesOf(entries) == PassedOn(old(Values()), old(ValuesOf(entries)))
    {
      ghost var start, delta := Values(), ValuesOf(entries);
      for k := 0 to |entries|
        invariant Valid() && lastSynced == old(lastSynced)
        invariant forall i :: 0 <= i < |layers| ==>
          layers[i] in old(layers) || fresh(layers[i]) || layers[i] in Arrays(entries)
        invariant Progress(entries, start, delta, k)
      {
        ReceiveNth(entries, k, start, delta);
      }
      dirty := true;
      assert delta[..|entries|] == delta;
    }

    /** The oldest format: layers beyond the node's own are taken over as they are. */
    method ReceiveFull(peer: seq<array<real>>)
      requires Valid()
      requires forall i :: 0 <= i < |peer| ==> peer[i] !in layers
      requires forall i, j :: 0 <= i < j < |peer| ==> peer[i] != peer[j]
      modifies this, layers
      ensures Valid() && dirty && lastSynced == old(lastSynced)
      ensures Values() == ReceivedFull(old(Values()), seq(|peer|, i requires 0 <= i < |peer| reads peer => peer[i][..]))
      ensures forall k :: 0 <= k < |old(layers)| && k < |peer| && peer[k].Length == old(layers)[k].Length ==>
                Halfway(Values()[k], old(Values())[k], peer[k][..])
    {
      var n := |layers|;
      for i := 0 to |peer|
        invariant Valid() && lastSynced == old(lastSynced)
        invariant |layers| == if i < n then n else i
        invariant old(layers) <= layers
        invariant forall k :: n <= k < |layers| ==> layers[k] == peer[k]
        invariant forall k :: 0 <= k < |peer| ==> peer[k][..] == old(peer[k][..])
        invariant forall k :: 0 <= k < n ==>
          layers[k][..] == if k < i then Averaged(old(layers[k][..]), peer[k][..]) else old(layers[k][..])
      {
        if i < |layers| {
          AverageInto(layers[i], peer[i]);
        } else {
          layers := layers + [peer[i]];
        }
      }
      dirty := true;
      forall k | 0 <= k < n && k < |peer| && peer[k].Length == layers[k].Length
        ensures Halfway(layers[k][..], old(layers[k][..]), peer[k][..])
      {
        AveragedIsHalfway(old(layers[k][..]), peer[k][..]);
      }
    }

    method IsChanged(i: nat) returns (changed: bool)
      requires i < |layers|
      ensures changed == Changed(Values(), lastSynced, i)
    {
      if i >= |lastSynced| || layers[i].Length != |lastSynced[i]| {
        return true;
      }
      hide Differs;
      for j := 0 to layers[i].Length
        invariant forall m :: 0 <= m < j ==> !Differs(layers[i][m], lastSynced[i][m])
      {
        if Differs(layers[i][j], lastSynced[i][j]) {
          assert Differs(Values()[i][j], lastSynced[i][j]);
          return true;
        }
      }
      return false;
    }

    /** What is broadcast: the changed layers, unless the last broadcast is too recent or nothing was touched. */
    method TakeDelta(throttled: bool) returns (delta: seq<Delta>)
      requires Valid()
      modifies this
      ensures layers == old(layers) && Values() == old(Values())
      ensures throttled || !old(dirty) ==> delta == [] && dirty == old(dirty) && lastSynced == old(lastSynced)
      ensures !throttled && old(dirty) ==>
        && delta == DeltaUpTo(Values(), old(lastSynced), |Values()|) && !dirty
        && lastSynced == if delta == [] then old(lastSynced) else Values()
    {
      if throttled || !dirty {
        return [];
      }
      delta := [];
      for i := 0 to |layers|
        invariant delta == DeltaUpTo(Values(), lastSynced, i)
        modifies {}
      {
        var changed := IsChanged(i);
        if changed {
          delta := delta + [Delta(i, layers[i][..])];
        }
      }
      dirty := false;
      if delta != [] {
        var copy: seq<Layer> := [];
        for i := 0 to |layers|
          invariant |copy| == i && forall k :: 0 <= k < i ==> copy[k] == layers[k][..]
        {
          copy := copy + [layers[i][..]];
        }
        lastSynced := copy;
      }
    }
  }
}
