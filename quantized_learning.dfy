/**
 * QuantizedLearning: the quantized multilayer spiking network that learns its
 * weights on line with spike-timing-dependent plasticity (STDP).
 *
 * Every neuron emits, per application, an array of `arraySize` quantized spike
 * entries (`currentSpikes`, produced by the parent's forward pass, which is not
 * part of this model). The network remembers the last `HistoryLength` entries
 * of each neuron (`history`, `previousTimeOutputSpikes`) and, while learning is
 * active, adds to the weight of every synapse the STDP updates of its
 * (post, pre) spike pairs, scaled to milliseconds by `deltaTF`.
 *
 * The update of one synapse `w[a][p][b]` (from neuron `p` of layer `a` to
 * neuron `b` of layer `a + 1`) has two parts:
 *   - `Backward`: visited from neuron `b`, its current entries against neuron
 *     `p`'s current entries (offset 0) and its remembered ones (offset
 *     `arraySize`);
 *   - `Forward`: visited from neuron `p`, its current entries against neuron
 *     `b`'s remembered ones (offset `arraySize`).
 * Only positive entries take part, on both sides of a pair.
 */
module QuantizedLearning {
  import opened LayeredWeights

  /** `MAX_WEIGHT_MAGNITUDE`, the default clipping bound. */
  const DefaultMaxWeightMagnitude: real := 1.2

  /** `STDP_LEARNING_WINDOW = (int) (2.5 * ARRAY_SIZE)`. */
  function LearningWindow(arraySize: nat): nat
  {
    (5 * arraySize) / 2
  }

  /** Entries remembered per neuron: `STDP_LEARNING_WINDOW - ARRAY_SIZE`. */
  function HistoryLength(arraySize: nat): (r: nat)
    ensures r >= arraySize
  {
    LearningWindow(arraySize) - arraySize
  }

  /** `lastLearningTime`: +∞ (the default) or a finite instant. */
  datatype LearningHorizon = PositiveInfinity | Finite(time: real)

  /** `t <= lastLearningTime`. */
  predicate LearnsAt(t: real, horizon: LearningHorizon)
  {
    horizon.PositiveInfinity? || t <= horizon.time
  }

  /** `deltaTF = 1000 * timeWindowSize / ARRAY_SIZE`: milliseconds per entry. */
  function DeltaTF(timeWindowSize: real, arraySize: nat): real
    requires arraySize > 0
  {
    1000.0 * timeWindowSize / (arraySize as real)
  }

  /** An entry distance turned into a time difference: `d * deltaTF`. */
  function Scaled(d: int, deltaTF: real): real
  {
    (d as real) * deltaTF
  }

  /**
   * The STDP updates of one post-synaptic entry `tOut` against the positive
   * entries of `ins`, each pair at distance `tOut - tIn + shift`.
   */
  function PairsWith<R>(computeDeltaW: (R, real) -> real, rule: R, tOut: int, ins: seq<int>, shift: int, deltaTF: real): real
  {
    if |ins| == 0 then 0.0
    else
      var tIn := ins[|ins| - 1];
      PairsWith(computeDeltaW, rule, tOut, ins[..|ins| - 1], shift, deltaTF)
        + (if tIn > 0 then computeDeltaW(rule, Scaled(tOut - tIn + shift, deltaTF)) else 0.0)
  }

  /** The backward part: every positive `tOut` against current and remembered pre-synaptic entries. */
  function BackwardSum<R>(computeDeltaW: (R, real) -> real, rule: R, outs: seq<int>, ins: seq<int>, past: seq<int>,
                          arraySize: nat, deltaTF: real): real
  {
    if |outs| == 0 then 0.0
    else
      var tOut := outs[|outs| - 1];
      BackwardSum(computeDeltaW, rule, outs[..|outs| - 1], ins, past, arraySize, deltaTF)
        + (if tOut > 0
           then PairsWith(computeDeltaW, rule, tOut, ins, 0, deltaTF)
                + PairsWith(computeDeltaW, rule, tOut, past, arraySize, deltaTF)
           else 0.0)
  }

  /** The forward part: every positive `tOut` against the remembered post-synaptic entries. */
  function ForwardSum<R>(computeDeltaW: (R, real) -> real, rule: R, outs: seq<int>, past: seq<int>,
                         arraySize: nat, deltaTF: real): real
  {
    if |outs| == 0 then 0.0
    else
      var tOut := outs[|outs| - 1];
      ForwardSum(computeDeltaW, rule, outs[..|outs| - 1], past, arraySize, deltaTF)
        + (if tOut > 0 then PairsWith(computeDeltaW, rule, tOut, past, arraySize, deltaTF) else 0.0)
  }

  /** What one learning pass reads: rules, this step's entries, remembered entries, scale. */
  datatype Pass<!R> = Pass(
    computeDeltaW: (R, real) -> real,
    rules: seq<seq<seq<R>>>,
    current: seq<seq<seq<int>>>,
    history: seq<seq<seq<int>>>,
    arraySize: nat,
    deltaTF: real)

  predicate Fits<R>(pass: Pass<R>, topology: seq<nat>)
  {
    Shaped(pass.rules, topology) && Grid(pass.current, topology) && Grid(pass.history, topology)
  }

  function Backward<R>(pass: Pass<R>, topology: seq<nat>, a: nat, p: nat, b: nat): real
    requires Fits(pass, topology) && Synapse(topology, a, p, b)
  {
    BackwardSum(pass.computeDeltaW, pass.rules[a][p][b], pass.current[a + 1][b], pass.current[a][p],
                pass.history[a][p], pass.arraySize, pass.deltaTF)
  }

  function Forward<R>(pass: Pass<R>, topology: seq<nat>, a: nat, p: nat, b: nat): real
    requires Fits(pass, topology) && Synapse(topology, a, p, b)
  {
    ForwardSum(pass.computeDeltaW, pass.rules[a][p][b], pass.current[a][p], pass.history[a + 1][b],
               pass.arraySize, pass.deltaTF)
  }

  /** The weights after one full learning pass. */
  function Learned<R>(w: seq<seq<seq<real>>>, pass: Pass<R>, topology: seq<nat>): (r: seq<seq<seq<real>>>)
    requires Shaped(w, topology) && Fits(pass, topology)
    ensures Shaped(r, topology)
    ensures forall a, p, b :: Synapse(topology, a, p, b) ==>
              r[a][p][b] == w[a][p][b] + Backward(pass, topology, a, p, b) + Forward(pass, topology, a, p, b)
  {
    seq(|w|, a requires 0 <= a < |w| =>
      seq(|w[a]|, p requires 0 <= p < |w[a]| =>
        seq(|w[a][p]|, b requires 0 <= b < |w[a][p]| =>
          w[a][p][b] + Backward(pass, topology, a, p, b) + Forward(pass, topology, a, p, b))))
  }

  /** `w[a][p][b] += d`. */
  function Bump(w: seq<seq<seq<real>>>, a: nat, p: nat, b: nat, d: real): (r: seq<seq<seq<real>>>)
    requires a < |w| && p < |w[a]| && b < |w[a][p]|
    ensures |r| == |w| && forall x :: 0 <= x < |w| ==> |r[x]| == |w[x]|
    ensures forall x, y :: 0 <= x < |w| && 0 <= y < |w[x]| ==> |r[x][y]| == |w[x][y]|
    ensures forall x, y, z :: 0 <= x < |w| && 0 <= y < |w[x]| && 0 <= z < |w[x][y]| ==>
              r[x][y][z] == if (x, y, z) == (a, p, b) then w[x][y][z] + d else w[x][y][z]
  {
    w[a := w[a][p := w[a][p][b := w[a][p][b] + d]]]
  }

  lemma BumpTwice(w: seq<seq<seq<real>>>, a: nat, p: nat, b: nat, d: real, e: real)
    requires a < |w| && p < |w[a]| && b < |w[a][p]|
    ensures Bump(Bump(w, a, p, b, d), a, p, b, e) == Bump(w, a, p, b, d + e)
  {
    SameEntries(Bump(Bump(w, a, p, b, d), a, p, b, e), Bump(w, a, p, b, d + e));
  }

  lemma BumpZero(w: seq<seq<seq<real>>>, a: nat, p: nat, b: nat)
    requires a < |w| && p < |w[a]| && b < |w[a][p]|
    ensures Bump(w, a, p, b, 0.0) == w
  {
    SameEntries(Bump(w, a, p, b, 0.0), w);
  }

  /** The positive entries of a spike array, in order. */
  function Positive(s: seq<int>): (r: seq<int>)
    ensures forall x :: x in r <==> x in s && x > 0
  {
    if |s| == 0 then [] else Positive(s[..|s| - 1]) + (if s[|s| - 1] > 0 then [s[|s| - 1]] else [])
  }

  /** A neuron with no positive entry in a spike array. */
  predicate Silent(s: seq<int>)
  {
    forall k :: 0 <= k < |s| ==> s[k] <= 0
  }

  /** Non-positive entries take no part in a pair: only the positive entries count. */
  lemma {:induction false} PairsWithPositive<R>(computeDeltaW: (R, real) -> real, rule: R, tOut: int, ins: seq<int>,
                                                shift: int, deltaTF: real)
    ensures PairsWith(computeDeltaW, rule, tOut, ins, shift, deltaTF)
         == PairsWith(computeDeltaW, rule, tOut, Positive(ins), shift, deltaTF)
  {
    if |ins| > 0 {
      var init := ins[..|ins| - 1];
      var tIn := ins[|ins| - 1];
      PairsWithPositive(computeDeltaW, rule, tOut, init, shift, deltaTF);
      if tIn > 0 {
        var r := Positive(init) + [tIn];
        assert r[..|r| - 1] == Positive(init);
      } else {
        assert Positive(ins) == Positive(init);
      }
    }
  }

  /** With no positive entry on the pre-synaptic side, there is nothing to pair with. */
  lemma {:induction false} PairsWithSilent<R>(computeDeltaW: (R, real) -> real, rule: R, tOut: int, ins: seq<int>,
                                              shift: int, deltaTF: real)
    requires Silent(ins)
    ensures PairsWith(computeDeltaW, rule, tOut, ins, shift, deltaTF) == 0.0
  {
    if |ins| > 0 {
      PairsWithSilent(computeDeltaW, rule, tOut, ins[..|ins| - 1], shift, deltaTF);
    }
  }

  /** A neuron with no positive entry in this step contributes no backward update. */
  lemma {:induction false} BackwardSumSilent<R>(computeDeltaW: (R, real) -> real, rule: R, outs: seq<int>,
                                                ins: seq<int>, past: seq<int>, arraySize: nat, deltaTF: real)
    requires Silent(outs)
    ensures BackwardSum(computeDeltaW, rule, outs, ins, past, arraySize, deltaTF) == 0.0
  {
    if |outs| > 0 {
      BackwardSumSilent(computeDeltaW, rule, outs[..|outs| - 1], ins, past, arraySize, deltaTF);
    }
  }

  /** ... and no forward update. */
  lemma {:induction false} ForwardSumSilent<R>(computeDeltaW: (R, real) -> real, rule: R, outs: seq<int>,
                                               past: seq<int>, arraySize: nat, deltaTF: real)
    requires Silent(outs)
    ensures ForwardSum(computeDeltaW, rule, outs, past, arraySize, deltaTF) == 0.0
  {
    if |outs| > 0 {
      ForwardSumSilent(computeDeltaW, rule, outs[..|outs| - 1], past, arraySize, deltaTF);
    }
  }

  /**
   * A synapse whose two neurons both stayed silent in this step (no positive
   * entry) keeps its weight through a learning pass: learning is driven by
   * current post-synaptic activity on either side.
   */
  lemma SilentSynapseKeepsWeight<R>(w: seq<seq<seq<real>>>, pass: Pass<R>, topology: seq<nat>, a: nat, p: nat, b: nat)
    requires Shaped(w, topology) && Fits(pass, topology) && Synapse(topology, a, p, b)
    requires Silent(pass.current[a][p]) && Silent(pass.current[a + 1][b])
    ensures Learned(w, pass, topology)[a][p][b] == w[a][p][b]
  {
    BackwardSumSilent(pass.computeDeltaW, pass.rules[a][p][b], pass.current[a + 1][b], pass.current[a][p],
                      pass.history[a][p], pass.arraySize, pass.deltaTF);
    ForwardSumSilent(pass.computeDeltaW, pass.rules[a][p][b], pass.current[a][p], pass.history[a + 1][b],
                     pass.arraySize, pass.deltaTF);
  }

  /** A zero time scale (two applications at the same instant) feeds every pair the time difference 0. */
  lemma {:induction false} PairsWithZeroScale<R>(computeDeltaW: (R, real) -> real, rule: R, tOut: int, ins: seq<int>,
                                                 shift: int)
    ensures PairsWith(computeDeltaW, rule, tOut, ins, shift, 0.0)
         == (|Positive(ins)| as real) * computeDeltaW(rule, 0.0)
  {
    if |ins| > 0 {
      PairsWithZeroScale(computeDeltaW, rule, tOut, ins[..|ins| - 1], shift);
    }
  }

  /**
   * `System.arraycopy` twice: the remembered entries move `arraySize` places
   * to the left and this step's first `arraySize` entries fill the end.
   */
  function Shifted(past: seq<int>, current: seq<int>, arraySize: nat): (r: seq<int>)
    requires |past| == HistoryLength(arraySize) && |current| >= arraySize
    ensures |r| == |past|
  {
    past[arraySize..] + current[..arraySize]
  }

  /** The history is a sliding window: the last `HistoryLength` entries of everything seen. */
  lemma ShiftedIsSlidingWindow(past: seq<int>, current: seq<int>, arraySize: nat)
    requires |past| == HistoryLength(arraySize) && |current| >= arraySize
    ensures Shifted(past, current, arraySize) == (past + current[..arraySize])[arraySize..]
    ensures Shifted(past, current, arraySize)[|past| - arraySize..] == current[..arraySize]
  {
    var r := Shifted(past, current, arraySize);
    assert r[|past| - arraySize..] == current[..arraySize];
  }

  /** Two steps: the window holds the older entries of the first step's spikes and all of the second's. */
  lemma ShiftedTwice(past: seq<int>, c1: seq<int>, c2: seq<int>, arraySize: nat)
    requires |past| == HistoryLength(arraySize) && |c1| >= arraySize && |c2| >= arraySize
    ensures Shifted(Shifted(past, c1, arraySize), c2, arraySize)
         == (past + c1[..arraySize] + c2[..arraySize])[2 * arraySize..]
  {
    var once := Shifted(past, c1, arraySize);
    ShiftedIsSlidingWindow(past, c1, arraySize);
    ShiftedIsSlidingWindow(once, c2, arraySize);
    var all := past + c1[..arraySize] + c2[..arraySize];
    assert (once + c2[..arraySize])[arraySize..] == all[2 * arraySize..];
  }

  /** Every neuron's history shifted. */
  function ShiftAll(history: seq<seq<seq<int>>>, current: seq<seq<seq<int>>>, arraySize: nat): (r: seq<seq<seq<int>>>)
    requires |current| == |history|
    requires forall l :: 0 <= l < |history| ==> |current[l]| == |history[l]|
    requires forall l, n :: 0 <= l < |history| && 0 <= n < |history[l]| ==>
               |history[l][n]| == HistoryLength(arraySize) && |current[l][n]| >= arraySize
    ensures |r| == |history| && forall l :: 0 <= l < |r| ==> |r[l]| == |history[l]|
    ensures forall l, n :: 0 <= l < |r| && 0 <= n < |r[l]| ==>
              r[l][n] == Shifted(history[l][n], current[l][n], arraySize)
  {
    seq(|history|, l requires 0 <= l < |history| =>
      seq(|history[l]|, n requires 0 <= n < |history[l]| => Shifted(history[l][n], current[l][n], arraySize)))
  }

  /** The all-zero history `Arrays.fill(neuron, 0)` leaves behind. */
  function ZeroHistory(topology: seq<nat>, arraySize: nat): (r: seq<seq<seq<int>>>)
    ensures Grid(r, topology)
    ensures forall l, n :: 0 <= l < |r| && 0 <= n < |r[l]| ==>
              |r[l][n]| == HistoryLength(arraySize) && forall k :: 0 <= k < |r[l][n]| ==> r[l][n][k] == 0
  {
    seq(|topology|, l requires 0 <= l < |topology| =>
      seq(topology[l], n => seq(HistoryLength(arraySize), k => 0)))
  }

  /** `previousTimeOutputSpikes` has one window of `HistoryLength` entries per neuron. */
  predicate HistoryShaped(history: seq<seq<seq<int>>>, topology: seq<nat>, arraySize: nat)
  {
    && Grid(history, topology)
    && forall l, n :: 0 <= l < |history| && 0 <= n < |history[l]| ==> |history[l][n]| == HistoryLength(arraySize)
  }

  /** What the parent's forward pass hands over: at least `arraySize` entries per neuron. */
  predicate SpikesFit(current: seq<seq<seq<int>>>, topology: seq<nat>, arraySize: nat)
  {
    && Grid(current, topology)
    && forall l, n :: 0 <= l < |current| && 0 <= n < |current[l]| ==> |current[l][n]| >= arraySize
  }

  /** `Before(x, y, l, n)`: neuron `y` of layer `x` is visited before neuron `n` of layer `l`. */
  predicate Before(x: int, y: int, l: int, n: int)
  {
    x < l || (x == l && y < n)
  }

  /** The weight of a synapse once the neurons before `(l, n)` have been visited. */
  function Partial<R>(w: seq<seq<seq<real>>>, pass: Pass<R>, topology: seq<nat>, a: nat, p: nat, b: nat, l: int, n: int): real
    requires Shaped(w, topology) && Fits(pass, topology) && Synapse(topology, a, p, b)
  {
    w[a][p][b]
      + (if Before(a + 1, b, l, n) then Backward(pass, topology, a, p, b) else 0.0)
      + (if Before(a, p, l, n) then Forward(pass, topology, a, p, b) else 0.0)
  }

  /** `deltaW` for the synapse from neuron `p` of layer `l - 1` to neuron `n` of layer `l`. */
  method BackwardDeltaW<R>(pass: Pass<R>, topology: seq<nat>, l: nat, n: nat, p: nat) returns (deltaW: real)
    requires Fits(pass, topology) && Synapse(topology, l - 1, p, n) && l > 0
    ensures deltaW == Backward(pass, topology, l - 1, p, n)
  {
    var rule := pass.rules[l - 1][p][n];
    var outs := pass.current[l][n];
    var ins := pass.current[l - 1][p];
    var past := pass.history[l - 1][p];
    var dW := pass.computeDeltaW;
    deltaW := 0.0;
    var i := 0;
    while i < |outs|
      invariant 0 <= i <= |outs|
      invariant deltaW == BackwardSum(dW, rule, outs[..i], ins, past, pass.arraySize, pass.deltaTF)
    {
      var tOut := outs[i];
      ghost var before := deltaW;
      if tOut > 0 {
        var j := 0;
        while j < |ins|
          invariant 0 <= j <= |ins|
          invariant deltaW == before + PairsWith(dW, rule, tOut, ins[..j], 0, pass.deltaTF)
        {
          assert ins[..j + 1][..j] == ins[..j];
          if ins[j] > 0 {
            deltaW := deltaW + dW(rule, Scaled(tOut - ins[j], pass.deltaTF));
          }
          j := j + 1;
        }
        assert ins[..|ins|] == ins;
        ghost var middle := deltaW;
        j := 0;
        while j < |past|
          invariant 0 <= j <= |past|
          invariant deltaW == middle + PairsWith(dW, rule, tOut, past[..j], pass.arraySize, pass.deltaTF)
        {
          assert past[..j + 1][..j] == past[..j];
          if past[j] > 0 {
            deltaW := deltaW + dW(rule, Scaled(tOut - past[j] + pass.arraySize, pass.deltaTF));
          }
          j := j + 1;
        }
        assert past[..|past|] == past;
      }
      assert outs[..i + 1][..i] == outs[..i];
      i := i + 1;
    }
    assert outs[..|outs|] == outs;
  }

  /** The forward updates of the synapse from neuron `n` of layer `l` to neuron `f` of layer `l + 1`, added in place one pair at a time. */
  method ForwardUpdate<R>(w: seq<seq<seq<real>>>, pass: Pass<R>, topology: seq<nat>, l: nat, n: nat, f: nat)
    returns (r: seq<seq<seq<real>>>)
    requires Shaped(w, topology) && Fits(pass, topology) && Synapse(topology, l, n, f)
    ensures r == Bump(w, l, n, f, Forward(pass, topology, l, n, f))
  {
    var rule := pass.rules[l][n][f];
    var outs := pass.current[l][n];
    var past := pass.history[l + 1][f];
    var dW := pass.computeDeltaW;
    BumpZero(w, l, n, f);
    r := w;
    var i := 0;
    while i < |outs|
      invariant 0 <= i <= |outs|
      invariant r == Bump(w, l, n, f, ForwardSum(dW, rule, outs[..i], past, pass.arraySize, pass.deltaTF))
    {
      var tOut := outs[i];
      ghost var before := ForwardSum(dW, rule, outs[..i], past, pass.arraySize, pass.deltaTF);
      if tOut > 0 {
        var j := 0;
        while j < |past|
          invariant 0 <= j <= |past|
          invariant r == Bump(w, l, n, f, before + PairsWith(dW, rule, tOut, past[..j], pass.arraySize, pass.deltaTF))
        {
          assert past[..j + 1][..j] == past[..j];
          if past[j] > 0 {
            ghost var so := before + PairsWith(dW, rule, tOut, past[..j], pass.arraySize, pass.deltaTF);
            var d := dW(rule, Scaled(tOut - past[j] + pass.arraySize, pass.deltaTF));
            BumpTwice(w, l, n, f, so, d);
            r := Bump(r, l, n, f, d);
          }
          j := j + 1;
        }
        assert past[..|past|] == past;
      }
      assert outs[..i + 1][..i] == outs[..i];
      i := i + 1;
    }
    assert outs[..|outs|] == outs;
  }

  /** Visiting neuron `n` of layer `l > 0`: every incoming synapse gets its backward update. */
  method LearnBackward<R>(w: seq<seq<seq<real>>>, pass: Pass<R>, topology: seq<nat>, l: nat, n: nat)
    returns (r: seq<seq<seq<real>>>)
    requires Shaped(w, topology) && Fits(pass, topology) && 0 < l < |topology| && n < topology[l]
    ensures Shaped(r, topology)
    ensures forall a, p, b :: Synapse(topology, a, p, b) ==>
              r[a][p][b] == w[a][p][b] + (if a == l - 1 && b == n then Backward(pass, topology, a, p, b) else 0.0)
  {
    r := w;
    var p := 0;
    while p < topology[l - 1]
      invariant 0 <= p <= topology[l - 1]
      invariant Shaped(r, topology)
      invariant forall a, q, b :: Synapse(topology, a, q, b) ==>
                  r[a][q][b] == w[a][q][b] + (if a == l - 1 && b == n && q < p then Backward(pass, topology, a, q, b) else 0.0)
    {
      var deltaW := BackwardDeltaW(pass, topology, l, n, p);
      r := Bump(r, l - 1, p, n, deltaW);
      p := p + 1;
    }
  }

  /** Visiting neuron `n` of layer `l < |topology| - 1`: every outgoing synapse gets its forward update. */
  method LearnForward<R>(w: seq<seq<seq<real>>>, pass: Pass<R>, topology: seq<nat>, l: nat, n: nat)
    returns (r: seq<seq<seq<real>>>)
    requires Shaped(w, topology) && Fits(pass, topology) && l < |topology| - 1 && n < topology[l]
    ensures Shaped(r, topology)
    ensures forall a, p, b :: Synapse(topology, a, p, b) ==>
              r[a][p][b] == w[a][p][b] + (if a == l && p == n then Forward(pass, topology, a, p, b) else 0.0)
  {
    r := w;
    var f := 0;
    while f < topology[l + 1]
      invariant 0 <= f <= topology[l + 1]
      invariant Shaped(r, topology)
      invariant forall a, p, b :: Synapse(topology, a, p, b) ==>
                  r[a][p][b] == w[a][p][b] + (if a == l && p == n && b < f then Forward(pass, topology, a, p, b) else 0.0)
    {
      r := ForwardUpdate(r, pass, topology, l, n, f);
      f := f + 1;
    }
  }

  /** The learning pass of `apply`: every neuron, layer by layer, in index order. */
  method Learn<R>(w: seq<seq<seq<real>>>, pass: Pass<R>, topology: seq<nat>) returns (r: seq<seq<seq<real>>>)
    requires Shaped(w, topology) && Fits(pass, topology)
    ensures r == Learned(w, pass, topology)
  {
    r := w;
    var l := 0;
    while l < |topology|
      invariant 0 <= l <= |topology|
      invariant Shaped(r, topology)
      invariant forall a, p, b :: Synapse(topology, a, p, b) ==> r[a][p][b] == Partial(w, pass, topology, a, p, b, l, 0)
    {
      r := LearnLayer(r, w, pass, topology, l);
      l := l + 1;
    }
    var target := Learned(w, pass, topology);
    forall a | 0 <= a < |r| ensures r[a] == target[a] {
      forall p | 0 <= p < |r[a]| ensures r[a][p] == target[a][p] {
        assert Synapse(topology, a, p, 0) ==> r[a][p][0] == target[a][p][0];
      }
    }
  }

  /** The neurons of layer `l`, in index order. */
  method LearnLayer<R>(r0: seq<seq<seq<real>>>, w: seq<seq<seq<real>>>, pass: Pass<R>, topology: seq<nat>, l: nat)
    returns (r: seq<seq<seq<real>>>)
    requires Shaped(r0, topology) && Shaped(w, topology) && Fits(pass, topology) && l < |topology|
    requires forall a, p, b :: Synapse(topology, a, p, b) ==> r0[a][p][b] == Partial(w, pass, topology, a, p, b, l, 0)
    ensures Shaped(r, topology)
    ensures forall a, p, b :: Synapse(topology, a, p, b) ==> r[a][p][b] == Partial(w, pass, topology, a, p, b, l + 1, 0)
  {
    r := r0;
    var n := 0;
    while n < topology[l]
      invariant 0 <= n <= topology[l]
      invariant Shaped(r, topology)
      invariant forall a, p, b :: Synapse(topology, a, p, b) ==> r[a][p][b] == Partial(w, pass, topology, a, p, b, l, n)
    {
      var r1 := r;
      if l > 0 {
        r1 := LearnBackward(r, pass, topology, l, n);
      }
      var r2 := r1;
      if l < |topology| - 1 {
        r2 := LearnForward(r1, pass, topology, l, n);
      }
      forall a, p, b | Synapse(topology, a, p, b)
        ensures r2[a][p][b] == Partial(w, pass, topology, a, p, b, l, n + 1)
      {
      }
      r := r2;
      n := n + 1;
    }
  }

  /** The weights `apply` leaves: learned while learning is on, then clipped if clipping is on. */
  function NextWeights<R>(w: seq<seq<seq<real>>>, pass: Pass<R>, topology: seq<nat>, learns: bool, clipping: bool,
                          maxWeightMagnitude: real): (r: seq<seq<seq<real>>>)
    requires Shaped(w, topology) && Fits(pass, topology)
    ensures Shaped(r, topology)
  {
    var learned := if learns then Learned(w, pass, topology) else w;
    if clipping then ClipAll(learned, maxWeightMagnitude) else learned
  }

  /** The weight part of `apply`: the learning pass, then `clipWeights`. */
  method LearnAndClip<R>(w: seq<seq<seq<real>>>, pass: Pass<R>, topology: seq<nat>, learns: bool, clipping: bool,
                         maxWeightMagnitude: real) returns (r: seq<seq<seq<real>>>)
    requires Shaped(w, topology) && Fits(pass, topology)
    ensures r == NextWeights(w, pass, topology, learns, clipping, maxWeightMagnitude)
  {
    r := w;
    if learns {
      r := Learn(r, pass, topology);
    }
    if clipping {
      r := ClipWeights(r, maxWeightMagnitude);
    }
  }

  /**
   * With clipping on and a non-negative bound, every weight `apply` leaves lies
   * in `[-maxWeightMagnitude, maxWeightMagnitude]`, whatever was learned.
   */
  lemma NextWeightsBounded<R>(w: seq<seq<seq<real>>>, pass: Pass<R>, topology: seq<nat>, learns: bool, maxWeightMagnitude: real)
    requires Shaped(w, topology) && Fits(pass, topology) && maxWeightMagnitude >= 0.0
    ensures Bounded(NextWeights(w, pass, topology, learns, true, maxWeightMagnitude), maxWeightMagnitude)
  {
    ClipAllBounded(if learns then Learned(w, pass, topology) else w, maxWeightMagnitude);
  }

  /** With learning off and clipping off, `apply` leaves the weights as they were. */
  lemma NextWeightsFrozen<R>(w: seq<seq<seq<real>>>, pass: Pass<R>, topology: seq<nat>, maxWeightMagnitude: real)
    requires Shaped(w, topology) && Fits(pass, topology)
    ensures NextWeights(w, pass, topology, false, false, maxWeightMagnitude) == w
  {
  }

  /** `weightsInTime.put(t, flat(weights, neurons))`. */
  function Recorded(weightsInTime: map<real, seq<real>>, t: real, w: seq<seq<seq<real>>>, topology: seq<nat>): map<real, seq<real>>
    requires Shaped(w, topology)
  {
    ShapedCovers(w, topology);
    weightsInTime[t := FlatSpec(w, topology)]
  }

  method Record(weightsInTime: map<real, seq<real>>, t: real, w: seq<seq<seq<real>>>, topology: seq<nat>)
    returns (r: map<real, seq<real>>)
    requires Shaped(w, topology)
    ensures r == Recorded(weightsInTime, t, w, topology)
  {
    ShapedCovers(w, topology);
    var flat := Flat(w, topology);
    r := weightsInTime[t := flat];
  }

  /**
   * What `apply` leaves: the weights (`NextWeights`), the shifted history and
   * the record of weights extended with the new flat weights at `t`.
   */
  function Applied<R>(weights: seq<seq<seq<real>>>, history: seq<seq<seq<int>>>, weightsInTime: map<real, seq<real>>,
                      pass: Pass<R>, topology: seq<nat>, t: real, learns: bool, clipping: bool, maxWeightMagnitude: real)
    : (seq<seq<seq<real>>>, seq<seq<seq<int>>>, map<real, seq<real>>)
    requires Shaped(weights, topology) && Fits(pass, topology)
    requires HistoryShaped(history, topology, pass.arraySize) && SpikesFit(pass.current, topology, pass.arraySize)
  {
    var w := NextWeights(weights, pass, topology, learns, clipping, maxWeightMagnitude);
    (w, ShiftAll(history, pass.current, pass.arraySize), Recorded(weightsInTime, t, w, topology))
  }

  /** What `apply` does to the learning state, as one computation. */
  method ApplyStep<R>(weights: seq<seq<seq<real>>>, history: seq<seq<seq<int>>>, weightsInTime: map<real, seq<real>>,
                      pass: Pass<R>, topology: seq<nat>, t: real, learns: bool, clipping: bool, maxWeightMagnitude: real)
    returns (w: seq<seq<seq<real>>>, h: seq<seq<seq<int>>>, recorded: map<real, seq<real>>)
    requires Shaped(weights, topology) && Fits(pass, topology) && pass.history == history
    requires HistoryShaped(history, topology, pass.arraySize) && SpikesFit(pass.current, topology, pass.arraySize)
    ensures (w, h, recorded) == Applied(weights, history, weightsInTime, pass, topology, t, learns, clipping, maxWeightMagnitude)
    ensures Shaped(w, topology) && HistoryShaped(h, topology, pass.arraySize)
  {
    w := LearnAndClip(weights, pass, topology, learns, clipping, maxWeightMagnitude);
    h := ShiftHistory(history, pass.current, topology, pass.arraySize);
    recorded := Record(weightsInTime, t, w, topology);
  }

  /** The history update of `apply`, neuron by neuron. */
  method ShiftHistory(history: seq<seq<seq<int>>>, current: seq<seq<seq<int>>>, topology: seq<nat>, arraySize: nat)
    returns (r: seq<seq<seq<int>>>)
    requires HistoryShaped(history, topology, arraySize) && SpikesFit(current, topology, arraySize)
    ensures r == ShiftAll(history, current, arraySize)
    ensures HistoryShaped(r, topology, arraySize)
  {
    r := history;
    var l := 0;
    while l < |current|
      invariant 0 <= l <= |current| == |r|
      invariant forall x :: 0 <= x < l ==> r[x] == ShiftAll(history, current, arraySize)[x]
      invariant forall x :: l <= x < |r| ==> r[x] == history[x]
    {
      var layer := r[l];
      var n := 0;
      while n < |current[l]|
        invariant 0 <= n <= |current[l]| == |layer|
        invariant forall y :: 0 <= y < n ==> layer[y] == Shifted(history[l][y], current[l][y], arraySize)
        invariant forall y :: n <= y < |layer| ==> layer[y] == history[l][y]
      {
        layer := layer[n := Shifted(layer[n], current[l][n], arraySize)];
        n := n + 1;
      }
      assert layer == ShiftAll(history, current, arraySize)[l];
      r := r[l := layer];
      l := l + 1;
    }
  }

  /** `Arrays.fill(neuron, 0)` for every neuron. */
  method ClearHistory(history: seq<seq<seq<int>>>) returns (r: seq<seq<seq<int>>>)
    ensures |r| == |history| && forall l :: 0 <= l < |r| ==> |r[l]| == |history[l]|
    ensures forall l, n :: 0 <= l < |r| && 0 <= n < |r[l]| ==>
              |r[l][n]| == |history[l][n]| && forall k :: 0 <= k < |r[l][n]| ==> r[l][n][k] == 0
  {
    r := history;
    var l := 0;
    while l < |r|
      invariant 0 <= l <= |r| == |history|
      invariant forall x :: 0 <= x < |r| ==> |r[x]| == |history[x]|
      invariant forall x, n :: 0 <= x < |r| && 0 <= n < |r[x]| ==> |r[x][n]| == |history[x][n]|
      invariant forall x, n, k :: 0 <= x < l && 0 <= n < |r[x]| && 0 <= k < |r[x][n]| ==> r[x][n][k] == 0
    {
      var layer := r[l];
      var n := 0;
      while n < |layer|
        invariant 0 <= n <= |layer| == |history[l]|
        invariant forall y :: 0 <= y < |layer| ==> |layer[y]| == |history[l][y]|
        invariant forall y, k :: 0 <= y < n && 0 <= k < |layer[y]| ==> layer[y][k] == 0
      {
        layer := layer[n := seq(|layer[n]|, k => 0)];
        n := n + 1;
      }
      r := r[l := layer];
      l := l + 1;
    }
  }

  /** `QuantizedLearningMultilayerSpikingNetwork`: the learning state of the network. */
  class Network<R> {
    /** `ARRAY_SIZE`: entries per neuron per application. */
    const arraySize: nat
    /** `neurons[i].length` for each layer `i`. */
    const topology: seq<nat>
    const initialWeights: seq<seq<seq<real>>>
    const learningRules: seq<seq<seq<R>>>
    /** `STDPLearningRule.computeDeltaW`, applied to a rule. */
    const computeDeltaW: (R, real) -> real
    var weights: seq<seq<seq<real>>>
    /** `previousTimeOutputSpikes`. */
    var history: seq<seq<seq<int>>>
    var weightsClipping: bool
    var maxWeightMagnitude: real
    var lastLearningTime: LearningHorizon
    var timeWindowSize: real
    /** `weightsInTime`: the flat weights recorded at each application time. */
    var weightsInTime: map<real, seq<real>>

    ghost predicate Valid()
      reads this
    {
      && arraySize > 0
      && Shaped(weights, topology)
      && Shaped(initialWeights, topology)
      && Shaped(learningRules, topology)
      && HistoryShaped(history, topology, arraySize)
    }

    /** The main constructor: weights start as a copy of `initialWeights`, the history all zero. */
    constructor (topology: seq<nat>, initialWeights: seq<seq<seq<real>>>, learningRules: seq<seq<seq<R>>>,
                 computeDeltaW: (R, real) -> real, weightsClipping: bool, maxWeightMagnitude: real, arraySize: nat)
      requires arraySize > 0 && Shaped(initialWeights, topology) && Shaped(learningRules, topology)
      ensures Valid()
      ensures this.topology == topology && this.arraySize == arraySize
      ensures this.initialWeights == initialWeights && this.learningRules == learningRules
      ensures this.computeDeltaW == computeDeltaW
      ensures weights == initialWeights && history == ZeroHistory(topology, arraySize)
      ensures this.weightsClipping == weightsClipping && this.maxWeightMagnitude == maxWeightMagnitude
      ensures lastLearningTime == PositiveInfinity && weightsInTime == map[]
    {
      var copy := CopyWeights(initialWeights);
      this.arraySize := arraySize;
      this.topology := topology;
      this.initialWeights := initialWeights;
      this.learningRules := learningRules;
      this.computeDeltaW := computeDeltaW;
      this.weightsClipping := weightsClipping;
      this.maxWeightMagnitude := maxWeightMagnitude;
      lastLearningTime := PositiveInfinity;
      timeWindowSize := 0.0;
      weightsInTime := map[];
      weights := copy;
      history := ZeroHistory(topology, arraySize);
    }

    /**
     * `apply`: `currentSpikes` are the entries this step's forward pass produced
     * and `previousApplicationTime` the parent's last application time. While
     * `t` has not passed `lastLearningTime` every synapse learns from this
     * step's and the remembered entries; then the history slides, the weights
     * are clipped if clipping is on, and the flat weights are recorded at `t`.
     */
    method Apply(t: real, previousApplicationTime: real, currentSpikes: seq<seq<seq<int>>>)
      requires Valid() && SpikesFit(currentSpikes, topology, arraySize)
      modifies this
      ensures Valid()
      ensures (weights, history, weightsInTime)
           == Applied(old(weights), old(history), old(weightsInTime),
                      Pass(computeDeltaW, learningRules, currentSpikes, old(history), arraySize,
                           DeltaTF(t - previousApplicationTime, arraySize)),
                      topology, t, LearnsAt(t, old(lastLearningTime)), old(weightsClipping), old(maxWeightMagnitude))
      ensures timeWindowSize == t - previousApplicationTime
      ensures weightsClipping == old(weightsClipping) && maxWeightMagnitude == old(maxWeightMagnitude)
      ensures lastLearningTime == old(lastLearningTime)
    {
      var window := t - previousApplicationTime;
      var pass := Pass(computeDeltaW, learningRules, currentSpikes, history, arraySize, DeltaTF(window, arraySize));
      var w, h, recorded := ApplyStep(weights, history, weightsInTime, pass, topology, t,
                                      LearnsAt(t, lastLearningTime), weightsClipping, maxWeightMagnitude);
      assert pass == Pass(computeDeltaW, learningRules, currentSpikes, old(history), arraySize,
                          DeltaTF(t - previousApplicationTime, arraySize));
      timeWindowSize, weights, history, weightsInTime := window, w, h, recorded;
    }

    /** `clipWeights`. */
    method ClipInPlace()
      requires Valid()
      modifies this
      ensures Valid()
      ensures weights == ClipAll(old(weights), maxWeightMagnitude)
      ensures history == old(history) && weightsClipping == old(weightsClipping)
      ensures maxWeightMagnitude == old(maxWeightMagnitude) && lastLearningTime == old(lastLearningTime)
      ensures weightsInTime == old(weightsInTime) && timeWindowSize == old(timeWindowSize)
    {
      weights := ClipWeights(weights, maxWeightMagnitude);
    }

    /** `enableWeightsClipping(maxWeightMagnitude)`. */
    method EnableWeightsClipping(maxWeightMagnitude: real)
      modifies this
      ensures weightsClipping && this.maxWeightMagnitude == maxWeightMagnitude
      ensures weights == old(weights) && history == old(history) && lastLearningTime == old(lastLearningTime)
      ensures weightsInTime == old(weightsInTime) && timeWindowSize == old(timeWindowSize)
    {
      weightsClipping := true;
      this.maxWeightMagnitude := maxWeightMagnitude;
    }

    /** `enableWeightsClipping()`: the default bound 1.2. */
    method EnableDefaultWeightsClipping()
      modifies this
      ensures weightsClipping && maxWeightMagnitude == DefaultMaxWeightMagnitude
      ensures weights == old(weights) && history == old(history) && lastLearningTime == old(lastLearningTime)
      ensures weightsInTime == old(weightsInTime) && timeWindowSize == old(timeWindowSize)
    {
      EnableWeightsClipping(DefaultMaxWeightMagnitude);
    }

    /** `disableWeightsClipping`: the bound is kept for a later enable. */
    method DisableWeightsClipping()
      modifies this
      ensures !weightsClipping && maxWeightMagnitude == old(maxWeightMagnitude)
      ensures weights == old(weights) && history == old(history) && lastLearningTime == old(lastLearningTime)
      ensures weightsInTime == old(weightsInTime) && timeWindowSize == old(timeWindowSize)
    {
      weightsClipping := false;
    }

    /** `setLastLearningTime`. */
    method SetLastLearningTime(lastLearningTime: LearningHorizon)
      modifies this
      ensures this.lastLearningTime == lastLearningTime
      ensures weights == old(weights) && history == old(history)
      ensures weightsClipping == old(weightsClipping) && maxWeightMagnitude == old(maxWeightMagnitude)
      ensures weightsInTime == old(weightsInTime) && timeWindowSize == old(timeWindowSize)
    {
      this.lastLearningTime := lastLearningTime;
    }

    /** `reset`: the weights back to `initialWeights`, every remembered entry back to 0. */
    method Reset()
      requires Valid()
      modifies this
      ensures Valid()
      ensures weights == initialWeights && history == ZeroHistory(topology, arraySize)
      ensures weightsClipping == old(weightsClipping) && maxWeightMagnitude == old(maxWeightMagnitude)
      ensures lastLearningTime == old(lastLearningTime)
      ensures weightsInTime == old(weightsInTime) && timeWindowSize == old(timeWindowSize)
    {
      weights := CopyWeights(initialWeights);
      var cleared := ClearHistory(history);
      history := cleared;
      SameEntries(history, ZeroHistory(topology, arraySize));
    }
  }
}
