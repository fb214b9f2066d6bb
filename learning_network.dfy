/**
 * LearningNetwork: the continuous-time multilayer spiking network that learns
 * its weights on line with spike-timing-dependent plasticity (STDP).
 *
 * A spike train is a finite set of times (a `SortedSet<Double>`), visited in
 * ascending order. One application propagates the input spike trains layer by
 * layer: layer 0 sees the inputs through a diagonal gain, every later layer sees
 * the previous layer's outputs through the transpose of the weights between the
 * two. What a neuron emits for its weighted input is not part of this model:
 * `respond(l, n, previousOutputs, incomingWeights)` is the spike train, in the
 * normalised time of the window, that neuron `n` of layer `l` emits. Since a
 * neuron's response depends on `t` and on the membrane state it carries from
 * one application to the next, every application is given its own `respond`.
 *
 * Every synapse from neuron `p` of layer `a` to neuron `b` of layer `a + 1`
 * learns `deltaW`: the sum of `computeDeltaW(tOut - tIn)` over the absolute
 * spike times `tOut` of `b` in this window and `tIn` of `p` in this or the
 * previous window, for the pairs at most `0.04` apart.
 */
module LearningNetwork {
  import opened Wrappers
  import opened LayeredWeights
  import SpikingNeuron

  /** `STDP_LEARNING_WINDOW`. */
  const StdpLearningWindow: real := 0.04

  /** `MAX_WEIGHT_MAGNITUDE`, the default clipping bound. */
  const DefaultMaxWeightMagnitude: real := 1.2

  /** What neuron `n` of layer `l` emits in one application, given the previous layer's outputs and its incoming weights. */
  type Response = (nat, nat, seq<set<real>>, seq<real>) -> set<real>

  /** The `IllegalArgumentException` of `apply`: the expected and the found input length. */
  datatype ApplyError = InputLengthMismatch(expected: nat, found: nat)

  /** `Math.abs(x - y)`. */
  function Distance(x: real, y: real): (r: real)
    ensures r >= 0.0 && (r == x - y || r == y - x)
  {
    if x >= y then x - y else y - x
  }

  /** The updates of one post-synaptic spike `tOut` against the pre-synaptic times `ins`, visited in order. */
  function PairsWithin<R>(computeDeltaW: (R, real) -> real, rule: R, tOut: real, ins: seq<real>): real
  {
    if |ins| == 0 then 0.0
    else
      var tIn := ins[|ins| - 1];
      PairsWithin(computeDeltaW, rule, tOut, ins[..|ins| - 1])
        + (if Distance(tOut, tIn) <= StdpLearningWindow then computeDeltaW(rule, tOut - tIn) else 0.0)
  }

  /** The updates of every post-synaptic spike of `outs` against the pre-synaptic times `ins`. */
  function WindowSum<R>(computeDeltaW: (R, real) -> real, rule: R, outs: seq<real>, ins: seq<real>): real
  {
    if |outs| == 0 then 0.0
    else WindowSum(computeDeltaW, rule, outs[..|outs| - 1], ins) + PairsWithin(computeDeltaW, rule, outs[|outs| - 1], ins)
  }

  /** `deltaW` of a synapse whose post-synaptic neuron spiked at `outs` and pre-synaptic neuron at `ins`. */
  ghost function DeltaW<R>(computeDeltaW: (R, real) -> real, rule: R, outs: set<real>, ins: set<real>): real
  {
    WindowSum(computeDeltaW, rule, SpikingNeuron.SortedKeys(outs), SpikingNeuron.SortedKeys(ins))
  }

  lemma {:induction false} PairsWithinFar<R>(computeDeltaW: (R, real) -> real, rule: R, tOut: real, ins: seq<real>)
    requires forall i :: 0 <= i < |ins| ==> Distance(tOut, ins[i]) > StdpLearningWindow
    ensures PairsWithin(computeDeltaW, rule, tOut, ins) == 0.0
  {
    if |ins| > 0 {
      PairsWithinFar(computeDeltaW, rule, tOut, ins[..|ins| - 1]);
    }
  }

  lemma {:induction false} WindowSumFar<R>(computeDeltaW: (R, real) -> real, rule: R, outs: seq<real>, ins: seq<real>)
    requires forall i, j :: 0 <= i < |outs| && 0 <= j < |ins| ==> Distance(outs[i], ins[j]) > StdpLearningWindow
    ensures WindowSum(computeDeltaW, rule, outs, ins) == 0.0
  {
    if |outs| > 0 {
      WindowSumFar(computeDeltaW, rule, outs[..|outs| - 1], ins);
      PairsWithinFar(computeDeltaW, rule, outs[|outs| - 1], ins);
    }
  }

  /**
   * Only pairs inside the learning window count: a synapse none of whose
   * (post, pre) spike pairs lies within `0.04` learns nothing, and in particular
   * one whose pre-synaptic neuron did not spike in either window.
   */
  lemma NoPairInWindow<R>(computeDeltaW: (R, real) -> real, rule: R, outs: set<real>, ins: set<real>)
    requires forall tOut, tIn :: tOut in outs && tIn in ins ==> Distance(tOut, tIn) > StdpLearningWindow
    ensures DeltaW(computeDeltaW, rule, outs, ins) == 0.0
  {
    var sortedOuts := SpikingNeuron.SortedKeys(outs);
    var sortedIns := SpikingNeuron.SortedKeys(ins);
    SpikingNeuron.SortedKeysMembers(outs);
    SpikingNeuron.SortedKeysMembers(ins);
    forall i, j | 0 <= i < |sortedOuts| && 0 <= j < |sortedIns|
      ensures Distance(sortedOuts[i], sortedIns[j]) > StdpLearningWindow
    {
      assert sortedOuts[i] in outs && sortedIns[j] in ins;
    }
    WindowSumFar(computeDeltaW, rule, sortedOuts, sortedIns);
  }

  /** Iterating a `SortedSet<Double>`: its times in ascending order. */
  method Ascending(s: set<real>) returns (r: seq<real>)
    ensures r == SpikingNeuron.SortedKeys(s)
  {
    r := [];
    var remaining := s;
    while remaining != {}
      invariant r + SpikingNeuron.SortedKeys(remaining) == SpikingNeuron.SortedKeys(s)
      decreases remaining
    {
      SpikingNeuron.MinimumExists(remaining);
      var m :| m in remaining && forall k :: k in remaining ==> m <= k;
      SpikingNeuron.SortedKeysFirst(remaining, m);
      r := r + [m];
      remaining := remaining - {m};
    }
  }

  /**
   * The `deltaW` loop of one synapse: the pre-synaptic times are the union of
   * the neuron's previous-window and current-window absolute spikes.
   */
  method SynapseDeltaW<R>(computeDeltaW: (R, real) -> real, rule: R, outs: set<real>, previous: set<real>, current: set<real>)
    returns (deltaW: real)
    ensures deltaW == DeltaW(computeDeltaW, rule, outs, previous + current)
  {
    var tOuts := Ascending(outs);
    var tIns := Ascending(previous + current);
    deltaW := 0.0;
    var i := 0;
    while i < |tOuts|
      invariant 0 <= i <= |tOuts|
      invariant deltaW == WindowSum(computeDeltaW, rule, tOuts[..i], tIns)
    {
      var tOut := tOuts[i];
      ghost var before := deltaW;
      var j := 0;
      while j < |tIns|
        invariant 0 <= j <= |tIns|
        invariant deltaW == before + PairsWithin(computeDeltaW, rule, tOut, tIns[..j])
      {
        assert tIns[..j + 1][..j] == tIns[..j];
        if Distance(tOut, tIns[j]) <= StdpLearningWindow {
          deltaW := deltaW + computeDeltaW(rule, tOut - tIns[j]);
        }
        j := j + 1;
      }
      assert tIns[..|tIns|] == tIns;
      assert tOuts[..i + 1][..i] == tOuts[..i];
      i := i + 1;
    }
    assert tOuts[..|tOuts|] == tOuts;
  }

  /** The gain of an input neuron: 100 for an Izhikevich neuron, 1 otherwise. */
  function InputGain(izhikevich: bool): real
  {
    if izhikevich then 100.0 else 1.0
  }

  /** Layer 0's incoming weights: the input gains on the diagonal, 0 elsewhere. */
  function Diagonal(izhikevich: seq<bool>): (r: seq<seq<real>>)
    ensures |r| == |izhikevich| && forall i :: 0 <= i < |r| ==> |r[i]| == |izhikevich|
    ensures forall i, j :: 0 <= i < |r| && 0 <= j < |r| ==>
              r[i][j] == if i == j then InputGain(izhikevich[i]) else 0.0
  {
    seq(|izhikevich|, i requires 0 <= i < |izhikevich| =>
      seq(|izhikevich|, j => if i == j then InputGain(izhikevich[i]) else 0.0))
  }

  /** `incomingWeights` for layer 0: an all-zero square matrix whose diagonal is then set. */
  method InputWeights(izhikevich: seq<bool>) returns (incoming: seq<seq<real>>)
    ensures incoming == Diagonal(izhikevich)
  {
    var size := |izhikevich|;
    incoming := seq(size, i => seq(size, j => 0.0));
    var i := 0;
    while i < size
      invariant 0 <= i <= size
      invariant |incoming| == size && forall x :: 0 <= x < size ==> |incoming[x]| == size
      invariant forall x, y :: 0 <= x < size && 0 <= y < size ==>
                  incoming[x][y] == if x == y && x < i then InputGain(izhikevich[x]) else 0.0
    {
      incoming := incoming[i := incoming[i][i := 1.0]];
      if izhikevich[i] {
        incoming := incoming[i := incoming[i][i := 100.0]];
      }
      i := i + 1;
    }
    SameRows(incoming, Diagonal(izhikevich));
  }

  /** Two matrices with the same shape and the same entries are equal. */
  lemma SameRows<T>(u: seq<seq<T>>, v: seq<seq<T>>)
    requires |u| == |v| && forall x :: 0 <= x < |u| ==> |u[x]| == |v[x]|
    requires forall x, y :: 0 <= x < |u| && 0 <= y < |u[x]| ==> u[x][y] == v[x][y]
    ensures u == v
  {
    forall x | 0 <= x < |u| ensures u[x] == v[x] {
    }
  }

  /** The transpose of a `cols × rows` matrix. */
  function Transposed<T>(m: seq<seq<T>>, rows: nat, cols: nat): (r: seq<seq<T>>)
    requires |m| == cols && forall j :: 0 <= j < cols ==> |m[j]| == rows
    ensures |r| == rows && forall i :: 0 <= i < rows ==> |r[i]| == cols
    ensures forall i, j :: 0 <= i < rows && 0 <= j < cols ==> r[i][j] == m[j][i]
  {
    seq(rows, i requires 0 <= i < rows => seq(cols, j requires 0 <= j < cols => m[j][i]))
  }

  /** Transposing twice gives the matrix back. */
  lemma TransposedTwice<T>(m: seq<seq<T>>, rows: nat, cols: nat)
    requires |m| == cols && forall j :: 0 <= j < cols ==> |m[j]| == rows
    ensures Transposed(Transposed(m, rows, cols), cols, rows) == m
  {
    var t := Transposed(Transposed(m, rows, cols), cols, rows);
    SameRows(t, m);
  }

  /** `incomingWeights[i][j] = weights[l][j][i]`: the incoming weights of layer `l + 1`. */
  method IncomingWeights(layer: seq<seq<real>>, rows: nat, cols: nat) returns (incoming: seq<seq<real>>)
    requires |layer| == cols && forall j :: 0 <= j < cols ==> |layer[j]| == rows
    ensures incoming == Transposed(layer, rows, cols)
  {
    incoming := seq(rows, i => seq(cols, j => 0.0));
    var i := 0;
    while i < rows
      invariant 0 <= i <= rows
      invariant |incoming| == rows && forall x :: 0 <= x < rows ==> |incoming[x]| == cols
      invariant forall x, y :: 0 <= x < i && 0 <= y < cols ==> incoming[x][y] == layer[y][x]
      invariant forall x, y :: i <= x < rows && 0 <= y < cols ==> incoming[x][y] == 0.0
    {
      var row := incoming[i];
      var j := 0;
      while j < cols
        invariant 0 <= j <= cols && |row| == cols
        invariant forall y :: 0 <= y < j ==> row[y] == layer[y][i]
        invariant forall y :: j <= y < cols ==> row[y] == 0.0
      {
        row := row[j := layer[j][i]];
        j := j + 1;
      }
      incoming := incoming[i := row];
      i := i + 1;
    }
    SameRows(incoming, Transposed(layer, rows, cols));
  }

  /** The absolute time of a spike at `x` within a window of length `deltaT` that began at `previousApplicationTime`. */
  function AbsoluteTime(previousApplicationTime: real, deltaT: real, x: real): real
  {
    previousApplicationTime + deltaT * x
  }

  /** Every spike of the window in absolute time. */
  function Absolute(spikes: set<real>, previousApplicationTime: real, deltaT: real): (r: set<real>)
  {
    set x | x in spikes :: AbsoluteTime(previousApplicationTime, deltaT, x)
  }

  /** Every spike of the window appears at its absolute time, and nothing else does. */
  lemma AbsoluteMembers(spikes: set<real>, previousApplicationTime: real, deltaT: real)
    ensures forall x :: x in spikes ==> AbsoluteTime(previousApplicationTime, deltaT, x) in Absolute(spikes, previousApplicationTime, deltaT)
    ensures forall y :: y in Absolute(spikes, previousApplicationTime, deltaT) ==>
              exists x :: x in spikes && y == AbsoluteTime(previousApplicationTime, deltaT, x)
  {
  }

  /** Every spike train of a layer in absolute time. */
  function AbsoluteLayer(spikes: seq<set<real>>, previousApplicationTime: real, deltaT: real): (r: seq<set<real>>)
    ensures |r| == |spikes|
  {
    seq(|spikes|, n requires 0 <= n < |spikes| => Absolute(spikes[n], previousApplicationTime, deltaT))
  }

  /** Neuron `n`'s spikes in absolute time. */
  lemma AbsoluteLayerAt(spikes: seq<set<real>>, previousApplicationTime: real, deltaT: real, n: nat)
    requires n < |spikes|
    ensures AbsoluteLayer(spikes, previousApplicationTime, deltaT)[n] == Absolute(spikes[n], previousApplicationTime, deltaT)
  {
  }

  /** One more neuron's spikes add one more absolute spike train. */
  lemma AbsoluteLayerSnoc(spikes: seq<set<real>>, last: set<real>, previousApplicationTime: real, deltaT: real)
    ensures AbsoluteLayer(spikes + [last], previousApplicationTime, deltaT)
         == AbsoluteLayer(spikes, previousApplicationTime, deltaT) + [Absolute(last, previousApplicationTime, deltaT)]
  {
    var extended := spikes + [last];
    assert forall n :: 0 <= n < |spikes| ==> extended[n] == spikes[n];
  }

  /** What the `count` neurons of layer `l` emit, neuron `n` through row `n` of `incoming`. */
  function LayerResponse(respond: Response, l: nat, previous: seq<set<real>>, incoming: seq<seq<real>>, count: nat)
    : (r: seq<set<real>>)
    requires |incoming| >= count
    ensures |r| == count
  {
    seq(count, n requires 0 <= n < count => respond(l, n, previous, incoming[n]))
  }

  /** The response of one more neuron extends the layer's response by one. */
  lemma LayerResponseSnoc(respond: Response, l: nat, previous: seq<set<real>>, incoming: seq<seq<real>>, count: nat)
    requires |incoming| > count
    ensures LayerResponse(respond, l, previous, incoming, count + 1)
         == LayerResponse(respond, l, previous, incoming, count) + [respond(l, count, previous, incoming[count])]
  {
  }

  /**
   * What layer `l` emits during one application. Every layer sees the weights
   * as they were when the application started (`w`), whatever the learning of
   * the earlier layers has written in the meantime.
   */
  function Outputs(respond: Response, w: seq<seq<seq<real>>>, topology: seq<nat>, izhikevich: seq<bool>,
                   inputs: seq<set<real>>, l: nat): (r: seq<set<real>>)
    requires Shaped(w, topology) && |izhikevich| == topology[0] && l < |topology|
    ensures |r| == topology[l]
  {
    if l == 0 then LayerResponse(respond, 0, inputs, Diagonal(izhikevich), topology[0])
    else LayerResponse(respond, l, Outputs(respond, w, topology, izhikevich, inputs, l - 1),
                       Transposed(w[l - 1], topology[l], topology[l - 1]), topology[l])
  }

  /** The spikes of the first `k` layers in absolute time. */
  function AbsoluteOutputs(respond: Response, w: seq<seq<seq<real>>>, topology: seq<nat>, izhikevich: seq<bool>,
                           inputs: seq<set<real>>, previousApplicationTime: real, deltaT: real, k: nat)
    : (r: seq<seq<set<real>>>)
    requires Shaped(w, topology) && |izhikevich| == topology[0] && k <= |topology|
    ensures |r| == k && forall l :: 0 <= l < k ==> |r[l]| == topology[l]
  {
    if k == 0 then []
    else AbsoluteOutputs(respond, w, topology, izhikevich, inputs, previousApplicationTime, deltaT, k - 1)
         + [AbsoluteLayer(Outputs(respond, w, topology, izhikevich, inputs, k - 1), previousApplicationTime, deltaT)]
  }

  /** Layer `l`'s entry of the absolute spikes is its output in absolute time. */
  lemma {:induction false} AbsoluteOutputsAt(respond: Response, w: seq<seq<seq<real>>>, topology: seq<nat>, izhikevich: seq<bool>,
                                             inputs: seq<set<real>>, previousApplicationTime: real, deltaT: real, k: nat, l: nat)
    requires Shaped(w, topology) && |izhikevich| == topology[0] && l < k <= |topology|
    ensures AbsoluteOutputs(respond, w, topology, izhikevich, inputs, previousApplicationTime, deltaT, k)[l]
         == AbsoluteLayer(Outputs(respond, w, topology, izhikevich, inputs, l), previousApplicationTime, deltaT)
  {
    if l < k - 1 {
      AbsoluteOutputsAt(respond, w, topology, izhikevich, inputs, previousApplicationTime, deltaT, k - 1, l);
    }
  }

  /**
   * A layer of weights `m` (pre-synaptic `p`, post-synaptic `b`) once the
   * post-synaptic neurons before `n` have learned: `past` and `previous` are
   * the pre-synaptic layer's previous-window and current-window spikes,
   * `current` the post-synaptic layer's.
   */
  ghost function LearnedColumns<R>(m: seq<seq<real>>, rules: seq<seq<R>>, computeDeltaW: (R, real) -> real,
                                   past: seq<set<real>>, previous: seq<set<real>>, current: seq<set<real>>, n: nat)
    : (r: seq<seq<real>>)
    requires |rules| == |m| && |past| == |m| && |previous| == |m| && n <= |current|
    requires forall p :: 0 <= p < |m| ==> |rules[p]| == |m[p]| && n <= |m[p]|
    ensures |r| == |m| && forall p :: 0 <= p < |m| ==> |r[p]| == |m[p]|
  {
    seq(|m|, p requires 0 <= p < |m| =>
      seq(|m[p]|, b requires 0 <= b < |m[p]| =>
        if b < n then m[p][b] + DeltaW(computeDeltaW, rules[p][b], current[b], past[p] + previous[p]) else m[p][b]))
  }

  /** The synapses into the first `n` post-synaptic neurons have learned, the others not. */
  lemma LearnedColumnsAt<R>(m: seq<seq<real>>, rules: seq<seq<R>>, computeDeltaW: (R, real) -> real,
                            past: seq<set<real>>, previous: seq<set<real>>, current: seq<set<real>>, n: nat, p: nat, b: nat)
    requires |rules| == |m| && |past| == |m| && |previous| == |m| && n <= |current|
    requires forall p :: 0 <= p < |m| ==> |rules[p]| == |m[p]| && n <= |m[p]|
    requires p < |m| && b < |m[p]|
    ensures LearnedColumns(m, rules, computeDeltaW, past, previous, current, n)[p][b]
         == if b < n then m[p][b] + DeltaW(computeDeltaW, rules[p][b], current[b], past[p] + previous[p]) else m[p][b]
  {
  }

  /** The `deltaW` of the synapse from neuron `p` of layer `a` to neuron `b` of layer `a + 1`. */
  ghost function SynapseDelta<R>(computeDeltaW: (R, real) -> real, rules: seq<seq<seq<R>>>, history: seq<seq<set<real>>>,
                                 absolute: seq<seq<set<real>>>, topology: seq<nat>, a: nat, p: nat, b: nat): real
    requires Shaped(rules, topology) && Grid(history, topology) && Grid(absolute, topology) && Synapse(topology, a, p, b)
  {
    DeltaW(computeDeltaW, rules[a][p][b], absolute[a + 1][b], history[a][p] + absolute[a][p])
  }

  /**
   * The weights once the first `k` layers have been visited: the weights into
   * each visited layer past the input layer have learned, the others are as
   * they were.
   */
  ghost function LearnedUpTo<R>(w: seq<seq<seq<real>>>, rules: seq<seq<seq<R>>>, computeDeltaW: (R, real) -> real,
                                history: seq<seq<set<real>>>, absolute: seq<seq<set<real>>>, topology: seq<nat>, k: nat)
    : (r: seq<seq<seq<real>>>)
    requires Shaped(w, topology) && Shaped(rules, topology) && Grid(history, topology) && Grid(absolute, topology)
    requires k <= |topology|
    ensures |r| == |w|
  {
    if k <= 1 then w
    else LearnedUpTo(w, rules, computeDeltaW, history, absolute, topology, k - 1)
           [k - 2 := LearnedColumns(w[k - 2], rules[k - 2], computeDeltaW, history[k - 2], absolute[k - 2], absolute[k - 1],
                                    topology[k - 1])]
  }

  /** Layer `x` of the weights has learned exactly when layer `x + 1` has been visited. */
  lemma {:induction false} LearnedUpToAt<R>(w: seq<seq<seq<real>>>, rules: seq<seq<seq<R>>>, computeDeltaW: (R, real) -> real,
                                            history: seq<seq<set<real>>>, absolute: seq<seq<set<real>>>, topology: seq<nat>,
                                            k: nat, x: nat)
    requires Shaped(w, topology) && Shaped(rules, topology) && Grid(history, topology) && Grid(absolute, topology)
    requires k <= |topology| && x < |w|
    ensures LearnedUpTo(w, rules, computeDeltaW, history, absolute, topology, k)[x]
         == if x + 1 < k then LearnedColumns(w[x], rules[x], computeDeltaW, history[x], absolute[x], absolute[x + 1], topology[x + 1])
            else w[x]
  {
    if k > 1 {
      LearnedUpToAt(w, rules, computeDeltaW, history, absolute, topology, k - 1, x);
    }
  }

  /** Visiting layer `k` makes the weights into it learn and leaves the others as they were. */
  lemma LearnedUpToNext<R>(w: seq<seq<seq<real>>>, rules: seq<seq<seq<R>>>, computeDeltaW: (R, real) -> real,
                           history: seq<seq<set<real>>>, absolute: seq<seq<set<real>>>, topology: seq<nat>, k: nat,
                           learned: seq<seq<seq<real>>>, updated: seq<seq<real>>)
    requires Shaped(w, topology) && Shaped(rules, topology) && Grid(history, topology) && Grid(absolute, topology)
    requires 0 < k < |topology| && learned == LearnedUpTo(w, rules, computeDeltaW, history, absolute, topology, k)
    requires updated == LearnedColumns(w[k - 1], rules[k - 1], computeDeltaW, history[k - 1], absolute[k - 1], absolute[k],
                                       topology[k])
    ensures learned[k - 1 := updated] == LearnedUpTo(w, rules, computeDeltaW, history, absolute, topology, k + 1)
  {
    LearnedUpToAt(w, rules, computeDeltaW, history, absolute, topology, k, k - 1);
  }

  /** Learning keeps the shape of the weights. */
  lemma LearnedUpToShaped<R>(w: seq<seq<seq<real>>>, rules: seq<seq<seq<R>>>, computeDeltaW: (R, real) -> real,
                             history: seq<seq<set<real>>>, absolute: seq<seq<set<real>>>, topology: seq<nat>, k: nat)
    requires Shaped(w, topology) && Shaped(rules, topology) && Grid(history, topology) && Grid(absolute, topology)
    requires k <= |topology|
    ensures Shaped(LearnedUpTo(w, rules, computeDeltaW, history, absolute, topology, k), topology)
  {
    var r := LearnedUpTo(w, rules, computeDeltaW, history, absolute, topology, k);
    forall x | 0 <= x < |r| ensures |r[x]| == topology[x] && forall p :: 0 <= p < topology[x] ==> |r[x][p]| == topology[x + 1] {
      LearnedUpToAt(w, rules, computeDeltaW, history, absolute, topology, k, x);
    }
  }

  /** The weights after every synapse has learned once: every layer visited. */
  ghost function LearnedWeights<R>(w: seq<seq<seq<real>>>, rules: seq<seq<seq<R>>>, computeDeltaW: (R, real) -> real,
                                   history: seq<seq<set<real>>>, absolute: seq<seq<set<real>>>, topology: seq<nat>)
    : (r: seq<seq<seq<real>>>)
    requires Shaped(w, topology) && Shaped(rules, topology) && Grid(history, topology) && Grid(absolute, topology)
    ensures Shaped(r, topology)
  {
    LearnedUpToShaped(w, rules, computeDeltaW, history, absolute, topology, |topology|);
    LearnedUpTo(w, rules, computeDeltaW, history, absolute, topology, |topology|)
  }

  /** Every synapse's weight after learning is its old weight plus its `deltaW`. */
  lemma LearnedWeightsAt<R>(w: seq<seq<seq<real>>>, rules: seq<seq<seq<R>>>, computeDeltaW: (R, real) -> real,
                            history: seq<seq<set<real>>>, absolute: seq<seq<set<real>>>, topology: seq<nat>,
                            a: nat, p: nat, b: nat)
    requires Shaped(w, topology) && Shaped(rules, topology) && Grid(history, topology) && Grid(absolute, topology)
    requires Synapse(topology, a, p, b)
    ensures LearnedWeights(w, rules, computeDeltaW, history, absolute, topology)[a][p][b]
         == w[a][p][b] + SynapseDelta(computeDeltaW, rules, history, absolute, topology, a, p, b)
  {
    LearnedUpToAt(w, rules, computeDeltaW, history, absolute, topology, |topology|, a);
    LearnedColumnsAt(w[a], rules[a], computeDeltaW, history[a], absolute[a], absolute[a + 1], topology[a + 1], p, b);
  }

  /** Before any post-synaptic neuron has been visited, no synapse has learned. */
  lemma LearnedColumnsNone<R>(m: seq<seq<real>>, rules: seq<seq<R>>, computeDeltaW: (R, real) -> real,
                              past: seq<set<real>>, previous: seq<set<real>>)
    requires |rules| == |m| && |past| == |m| && |previous| == |m|
    requires forall p :: 0 <= p < |m| ==> |rules[p]| == |m[p]|
    ensures LearnedColumns(m, rules, computeDeltaW, past, previous, [], 0) == m
  {
    forall p, b | 0 <= p < |m| && 0 <= b < |m[p]|
      ensures LearnedColumns(m, rules, computeDeltaW, past, previous, [], 0)[p][b] == m[p][b]
    {
      LearnedColumnsAt(m, rules, computeDeltaW, past, previous, [], 0, p, b);
    }
    SameRows(m, LearnedColumns(m, rules, computeDeltaW, past, previous, [], 0));
  }

  /** The `previousNeuronIndex` loop: every synapse into post-synaptic neuron `n` learns. */
  method LearnColumn<R>(m: seq<seq<real>>, rules: seq<seq<R>>, computeDeltaW: (R, real) -> real,
                        past: seq<set<real>>, previous: seq<set<real>>, post: set<real>, n: nat)
    returns (r: seq<seq<real>>)
    requires |rules| == |m| && |past| == |m| && |previous| == |m|
    requires forall p :: 0 <= p < |m| ==> |rules[p]| == |m[p]| && n < |m[p]|
    ensures |r| == |m| && forall p :: 0 <= p < |m| ==> |r[p]| == |m[p]|
    ensures forall p, b :: 0 <= p < |m| && 0 <= b < |m[p]| ==>
              r[p][b] == if b == n then m[p][b] + DeltaW(computeDeltaW, rules[p][n], post, past[p] + previous[p])
                         else m[p][b]
  {
    r := m;
    var p := 0;
    while p < |m|
      invariant 0 <= p <= |m|
      invariant |r| == |m| && forall x :: 0 <= x < |m| ==> |r[x]| == |m[x]|
      invariant forall x, b :: 0 <= x < |m| && 0 <= b < |m[x]| ==>
                  r[x][b] == if b == n && x < p then m[x][b] + DeltaW(computeDeltaW, rules[x][n], post, past[x] + previous[x])
                             else m[x][b]
    {
      var deltaW := SynapseDeltaW(computeDeltaW, rules[p][n], post, past[p], previous[p]);
      r := r[p := r[p][n := r[p][n] + deltaW]];
      p := p + 1;
    }
  }

  /** Learning the synapses into post-synaptic neuron `n` extends the learned columns by one. */
  lemma LearnedColumnsStep<R>(m: seq<seq<real>>, rules: seq<seq<R>>, computeDeltaW: (R, real) -> real,
                              past: seq<set<real>>, previous: seq<set<real>>, current: seq<set<real>>, post: set<real>,
                              n: nat, before: seq<seq<real>>, after: seq<seq<real>>)
    requires |rules| == |m| && |past| == |m| && |previous| == |m| && n == |current|
    requires forall p :: 0 <= p < |m| ==> |rules[p]| == |m[p]| && n < |m[p]|
    requires before == LearnedColumns(m, rules, computeDeltaW, past, previous, current, n)
    requires |after| == |m| && forall p :: 0 <= p < |m| ==> |after[p]| == |m[p]|
    requires forall p, b :: 0 <= p < |m| && 0 <= b < |m[p]| ==>
               after[p][b] == if b == n then before[p][b] + DeltaW(computeDeltaW, rules[p][n], post, past[p] + previous[p])
                              else before[p][b]
    ensures after == LearnedColumns(m, rules, computeDeltaW, past, previous, current + [post], n + 1)
  {
    var extended := current + [post];
    forall p, b | 0 <= p < |m| && 0 <= b < |m[p]|
      ensures after[p][b] == LearnedColumns(m, rules, computeDeltaW, past, previous, extended, n + 1)[p][b]
    {
      LearnedColumnsAt(m, rules, computeDeltaW, past, previous, current, n, p, b);
      LearnedColumnsAt(m, rules, computeDeltaW, past, previous, extended, n + 1, p, b);
      if b < n {
        assert extended[b] == current[b];
      }
    }
    SameRows(after, LearnedColumns(m, rules, computeDeltaW, past, previous, extended, n + 1));
  }

  /**
   * The `neuronIndex` loop over the input layer: each input neuron responds to
   * its input through `incoming` and its spikes are turned into absolute times.
   * No synapse leads into the input layer, so nothing learns.
   */
  method VisitInputLayer(respond: Response, inputs: seq<set<real>>, incoming: seq<seq<real>>, count: nat,
                         previousApplicationTime: real, deltaT: real)
    returns (outputs: seq<set<real>>, absolute: seq<set<real>>)
    requires |incoming| >= count
    ensures outputs == LayerResponse(respond, 0, inputs, incoming, count)
    ensures absolute == AbsoluteLayer(outputs, previousApplicationTime, deltaT)
  {
    outputs, absolute := [], [];
    var n := 0;
    while n < count
      invariant 0 <= n <= count
      invariant outputs == LayerResponse(respond, 0, inputs, incoming, n)
      invariant absolute == AbsoluteLayer(outputs, previousApplicationTime, deltaT)
    {
      var spikes := respond(0, n, inputs, incoming[n]);
      LayerResponseSnoc(respond, 0, inputs, incoming, n);
      AbsoluteLayerSnoc(outputs, spikes, previousApplicationTime, deltaT);
      outputs, absolute := outputs + [spikes], absolute + [Absolute(spikes, previousApplicationTime, deltaT)];
      n := n + 1;
    }
  }

  /**
   * One neuron `n` of a layer `l` past the input layer responds, its spikes are
   * turned into absolute times and the synapses into it learn: the layer's
   * response, its absolute spikes and its learned columns grow by one neuron.
   */
  method VisitNeuron<R>(respond: Response, computeDeltaW: (R, real) -> real, l: nat, previousOutputs: seq<set<real>>,
                        incoming: seq<seq<real>>, previousApplicationTime: real, deltaT: real,
                        m: seq<seq<real>>, rules: seq<seq<R>>, past: seq<set<real>>, previous: seq<set<real>>, n: nat,
                        outputs: seq<set<real>>, absolute: seq<set<real>>, r: seq<seq<real>>)
    returns (outputs': seq<set<real>>, absolute': seq<set<real>>, r': seq<seq<real>>)
    requires n < |incoming|
    requires |rules| == |m| && |past| == |m| && |previous| == |m|
    requires forall p :: 0 <= p < |m| ==> |rules[p]| == |m[p]| && n < |m[p]|
    requires outputs == LayerResponse(respond, l, previousOutputs, incoming, n)
    requires absolute == AbsoluteLayer(outputs, previousApplicationTime, deltaT)
    requires r == LearnedColumns(m, rules, computeDeltaW, past, previous, absolute, n)
    ensures outputs' == LayerResponse(respond, l, previousOutputs, incoming, n + 1)
    ensures absolute' == AbsoluteLayer(outputs', previousApplicationTime, deltaT)
    ensures r' == LearnedColumns(m, rules, computeDeltaW, past, previous, absolute', n + 1)
  {
    var spikes := respond(l, n, previousOutputs, incoming[n]);
    var times := Absolute(spikes, previousApplicationTime, deltaT);
    r' := LearnColumn(r, rules, computeDeltaW, past, previous, times, n);
    LearnedColumnsStep(m, rules, computeDeltaW, past, previous, absolute, times, n, r, r');
    LayerResponseSnoc(respond, l, previousOutputs, incoming, n);
    AbsoluteLayerSnoc(outputs, spikes, previousApplicationTime, deltaT);
    outputs', absolute' := outputs + [spikes], absolute + [times];
  }

  /**
   * The `neuronIndex` loop over a layer `l` past the input layer: every neuron
   * of the layer is visited in turn, and the weights `m` between layer `l - 1`
   * and `l` learn column by column.
   */
  method VisitLayer<R>(respond: Response, computeDeltaW: (R, real) -> real, l: nat, previousOutputs: seq<set<real>>,
                       incoming: seq<seq<real>>, count: nat, previousApplicationTime: real, deltaT: real,
                       m: seq<seq<real>>, rules: seq<seq<R>>, past: seq<set<real>>, previous: seq<set<real>>)
    returns (outputs: seq<set<real>>, absolute: seq<set<real>>, r: seq<seq<real>>)
    requires |incoming| >= count
    requires |rules| == |m| && |past| == |m| && |previous| == |m|
    requires forall p :: 0 <= p < |m| ==> |rules[p]| == |m[p]| == count
    ensures outputs == LayerResponse(respond, l, previousOutputs, incoming, count)
    ensures absolute == AbsoluteLayer(outputs, previousApplicationTime, deltaT)
    ensures r == LearnedColumns(m, rules, computeDeltaW, past, previous, absolute, count)
  {
    outputs, absolute, r := [], [], m;
    LearnedColumnsNone(m, rules, computeDeltaW, past, previous);
    var n := 0;
    while n < count
      invariant 0 <= n <= count
      invariant outputs == LayerResponse(respond, l, previousOutputs, incoming, n)
      invariant absolute == AbsoluteLayer(outputs, previousApplicationTime, deltaT)
      invariant r == LearnedColumns(m, rules, computeDeltaW, past, previous, absolute, n)
    {
      outputs, absolute, r := VisitNeuron(respond, computeDeltaW, l, previousOutputs, incoming, previousApplicationTime, deltaT,
                                          m, rules, past, previous, n, outputs, absolute, r);
      n := n + 1;
    }
  }

  /**
   * One round of the layer loop of `apply` past the input layer: layer `l`
   * responds to the previous layer's output through `incoming`, its spikes
   * become absolute times and the weights into it learn. `all` stands for
   * every layer's absolute spikes.
   */
  method PropagateLayer<R>(respond: Response, w: seq<seq<seq<real>>>, rules: seq<seq<seq<R>>>, computeDeltaW: (R, real) -> real,
                           izhikevich: seq<bool>, history: seq<seq<set<real>>>, inputs: seq<set<real>>,
                           previousApplicationTime: real, deltaT: real, topology: seq<nat>, ghost all: seq<seq<set<real>>>,
                           l: nat, learned: seq<seq<seq<real>>>, incoming: seq<seq<real>>, previousOutputs: seq<set<real>>,
                           previous: seq<set<real>>)
    returns (next: seq<seq<seq<real>>>, times: seq<set<real>>, outputs: seq<set<real>>)
    requires Shaped(w, topology) && Shaped(rules, topology) && Grid(history, topology)
    requires |izhikevich| == topology[0] && 0 < l < |topology|
    requires all == AbsoluteOutputs(respond, w, topology, izhikevich, inputs, previousApplicationTime, deltaT, |topology|)
    requires incoming == Transposed(w[l - 1], topology[l], topology[l - 1])
    requires previousOutputs == Outputs(respond, w, topology, izhikevich, inputs, l - 1)
    requires previous == AbsoluteLayer(previousOutputs, previousApplicationTime, deltaT)
    requires learned == LearnedUpTo(w, rules, computeDeltaW, history, all, topology, l)
    ensures outputs == Outputs(respond, w, topology, izhikevich, inputs, l)
    ensures times == AbsoluteLayer(outputs, previousApplicationTime, deltaT)
    ensures next == LearnedUpTo(w, rules, computeDeltaW, history, all, topology, l + 1)
  {
    LearnedUpToAt(w, rules, computeDeltaW, history, all, topology, l, l - 1);
    var updated;
    outputs, times, updated := VisitLayer(respond, computeDeltaW, l, previousOutputs, incoming, topology[l],
                                          previousApplicationTime, deltaT, learned[l - 1], rules[l - 1], history[l - 1],
                                          previous);
    assert outputs == Outputs(respond, w, topology, izhikevich, inputs, l);
    AbsoluteOutputsAt(respond, w, topology, izhikevich, inputs, previousApplicationTime, deltaT, |topology|, l - 1);
    AbsoluteOutputsAt(respond, w, topology, izhikevich, inputs, previousApplicationTime, deltaT, |topology|, l);
    assert previous == all[l - 1] && times == all[l];
    LearnedUpToNext(w, rules, computeDeltaW, history, all, topology, l, learned, updated);
    next := learned[l - 1 := updated];
  }

  /**
   * The layer loop of `apply`: returns the learned weights, every layer's
   * spikes in absolute time and the last layer's output. The incoming weights
   * of layer `l + 1` are read after layer `l` has learned, which writes only the
   * weights into layer `l`, so the propagation sees the start-of-step weights.
   */
  method Propagate<R>(respond: Response, w: seq<seq<seq<real>>>, rules: seq<seq<seq<R>>>, computeDeltaW: (R, real) -> real,
                      izhikevich: seq<bool>, history: seq<seq<set<real>>>, inputs: seq<set<real>>,
                      previousApplicationTime: real, deltaT: real, topology: seq<nat>)
    returns (learned: seq<seq<seq<real>>>, absolute: seq<seq<set<real>>>, outputs: seq<set<real>>)
    requires Shaped(w, topology) && Shaped(rules, topology) && Grid(history, topology)
    requires |izhikevich| == topology[0] && |inputs| == topology[0]
    ensures absolute == AbsoluteOutputs(respond, w, topology, izhikevich, inputs, previousApplicationTime, deltaT, |topology|)
    ensures learned == LearnedWeights(w, rules, computeDeltaW, history, absolute, topology)
    ensures outputs == Outputs(respond, w, topology, izhikevich, inputs, |topology| - 1)
  {
    ghost var all := AbsoluteOutputs(respond, w, topology, izhikevich, inputs, previousApplicationTime, deltaT, |topology|);
    var incoming := InputWeights(izhikevich);
    var previousOutputs, times := VisitInputLayer(respond, inputs, incoming, topology[0], previousApplicationTime, deltaT);
    learned, absolute, outputs := w, [times], previousOutputs;
    if |topology| == 1 {
      return;
    }
    incoming := IncomingWeights(w[0], topology[1], topology[0]);
    var l := 1;
    while l < |topology|
      invariant 1 <= l <= |topology|
      invariant absolute == AbsoluteOutputs(respond, w, topology, izhikevich, inputs, previousApplicationTime, deltaT, l)
      invariant l < |topology| ==> incoming == Transposed(w[l - 1], topology[l], topology[l - 1])
      invariant previousOutputs == outputs == Outputs(respond, w, topology, izhikevich, inputs, l - 1)
      invariant learned == LearnedUpTo(w, rules, computeDeltaW, history, all, topology, l)
    {
      AbsoluteOutputsAt(respond, w, topology, izhikevich, inputs, previousApplicationTime, deltaT, l, l - 1);
      learned, times, outputs := PropagateLayer(respond, w, rules, computeDeltaW, izhikevich, history, inputs,
                                                previousApplicationTime, deltaT, topology, all,
                                                l, learned, incoming, previousOutputs, absolute[l - 1]);
      absolute := absolute + [times];
      if l + 1 < |topology| {
        LearnedUpToAt(w, rules, computeDeltaW, history, all, topology, l + 1, l);
        incoming := IncomingWeights(learned[l], topology[l + 1], topology[l]);
      }
      previousOutputs := outputs;
      l := l + 1;
    }
  }

  /** What `apply` leaves when the input length is right: the weights, the remembered spikes and the output. */
  ghost function Applied<R>(respond: Response, w: seq<seq<seq<real>>>, rules: seq<seq<seq<R>>>, computeDeltaW: (R, real) -> real,
                            izhikevich: seq<bool>, history: seq<seq<set<real>>>, inputs: seq<set<real>>,
                            previousApplicationTime: real, t: real, clipping: bool, maxWeightMagnitude: real, topology: seq<nat>)
    : (r: (seq<seq<seq<real>>>, seq<seq<set<real>>>, seq<set<real>>))
    requires Shaped(w, topology) && Shaped(rules, topology) && Grid(history, topology) && |izhikevich| == topology[0]
    ensures Shaped(r.0, topology) && Grid(r.1, topology)
  {
    var absolute := AbsoluteOutputs(respond, w, topology, izhikevich, inputs, previousApplicationTime, t - previousApplicationTime,
                                   |topology|);
    var learned := LearnedWeights(w, rules, computeDeltaW, history, absolute, topology);
    (if clipping then ClipAll(learned, maxWeightMagnitude) else learned,
     absolute,
     Outputs(respond, w, topology, izhikevich, inputs, |topology| - 1))
  }

  /** The state change of `apply` once the input length has been checked. */
  method ApplyStep<R>(respond: Response, w: seq<seq<seq<real>>>, rules: seq<seq<seq<R>>>, computeDeltaW: (R, real) -> real,
                      izhikevich: seq<bool>, history: seq<seq<set<real>>>, inputs: seq<set<real>>,
                      previousApplicationTime: real, t: real, clipping: bool, maxWeightMagnitude: real, topology: seq<nat>)
    returns (weights: seq<seq<seq<real>>>, remembered: seq<seq<set<real>>>, outputs: seq<set<real>>)
    requires Shaped(w, topology) && Shaped(rules, topology) && Grid(history, topology)
    requires |izhikevich| == topology[0] && |inputs| == topology[0]
    ensures (weights, remembered, outputs) == Applied(respond, w, rules, computeDeltaW, izhikevich, history, inputs,
                                                      previousApplicationTime, t, clipping, maxWeightMagnitude, topology)
  {
    weights, remembered, outputs := Propagate(respond, w, rules, computeDeltaW, izhikevich, history, inputs,
                                             previousApplicationTime, t - previousApplicationTime, topology);
    ghost var learned := weights;
    if clipping {
      weights := ClipWeights(weights, maxWeightMagnitude);
    }
    assert weights == if clipping then ClipAll(learned, maxWeightMagnitude) else learned;
  }

  /** With clipping on and a non-negative bound, every weight `apply` leaves lies in `[-m, m]`. */
  lemma AppliedBounded<R>(respond: Response, w: seq<seq<seq<real>>>, rules: seq<seq<seq<R>>>, computeDeltaW: (R, real) -> real,
                          izhikevich: seq<bool>, history: seq<seq<set<real>>>, inputs: seq<set<real>>,
                          previousApplicationTime: real, t: real, maxWeightMagnitude: real, topology: seq<nat>)
    requires Shaped(w, topology) && Shaped(rules, topology) && Grid(history, topology) && |izhikevich| == topology[0]
    requires maxWeightMagnitude >= 0.0
    ensures Bounded(Applied(respond, w, rules, computeDeltaW, izhikevich, history, inputs, previousApplicationTime, t,
                            true, maxWeightMagnitude, topology).0, maxWeightMagnitude)
  {
    var absolute := AbsoluteOutputs(respond, w, topology, izhikevich, inputs, previousApplicationTime, t - previousApplicationTime,
                                   |topology|);
    ClipAllBounded(LearnedWeights(w, rules, computeDeltaW, history, absolute, topology), maxWeightMagnitude);
  }

  /**
   * After `apply` every remembered spike is `previousApplicationTime + deltaT·x`
   * for a spike `x` the neuron emitted in this window, and every emitted spike
   * is remembered so.
   */
  lemma AppliedRemembersAbsoluteTimes<R>(respond: Response, w: seq<seq<seq<real>>>, rules: seq<seq<seq<R>>>,
                                         computeDeltaW: (R, real) -> real, izhikevich: seq<bool>, history: seq<seq<set<real>>>,
                                         inputs: seq<set<real>>, previousApplicationTime: real, t: real, clipping: bool,
                                         maxWeightMagnitude: real, topology: seq<nat>, l: nat, n: nat)
    requires Shaped(w, topology) && Shaped(rules, topology) && Grid(history, topology) && |izhikevich| == topology[0]
    requires l < |topology| && n < topology[l]
    ensures var remembered := Applied(respond, w, rules, computeDeltaW, izhikevich, history, inputs, previousApplicationTime, t,
                                      clipping, maxWeightMagnitude, topology).1;
            var emitted := Outputs(respond, w, topology, izhikevich, inputs, l)[n];
            && (forall x :: x in emitted ==> AbsoluteTime(previousApplicationTime, t - previousApplicationTime, x) in remembered[l][n])
            && (forall y :: y in remembered[l][n] ==>
                  exists x :: x in emitted && y == AbsoluteTime(previousApplicationTime, t - previousApplicationTime, x))
  {
    var deltaT := t - previousApplicationTime;
    var emitted := Outputs(respond, w, topology, izhikevich, inputs, l);
    var remembered := Applied(respond, w, rules, computeDeltaW, izhikevich, history, inputs, previousApplicationTime, t,
                              clipping, maxWeightMagnitude, topology).1;
    assert remembered[l][n] == Absolute(emitted[n], previousApplicationTime, deltaT) by {
      AbsoluteOutputsAt(respond, w, topology, izhikevich, inputs, previousApplicationTime, deltaT, |topology|, l);
      AbsoluteLayerAt(emitted, previousApplicationTime, deltaT, n);
    }
    AbsoluteMembers(emitted[n], previousApplicationTime, deltaT);
  }

  /**
   * A synapse none of whose (post, pre) spike pairs falls within the learning
   * window keeps its weight through the learning of `apply`.
   */
  lemma QuietSynapseKeepsWeight<R>(w: seq<seq<seq<real>>>, rules: seq<seq<seq<R>>>, computeDeltaW: (R, real) -> real,
                                   history: seq<seq<set<real>>>, absolute: seq<seq<set<real>>>, topology: seq<nat>,
                                   a: nat, p: nat, b: nat)
    requires Shaped(w, topology) && Shaped(rules, topology) && Grid(history, topology) && Grid(absolute, topology)
    requires Synapse(topology, a, p, b)
    requires forall tOut, tIn :: tOut in absolute[a + 1][b] && tIn in history[a][p] + absolute[a][p] ==>
               Distance(tOut, tIn) > StdpLearningWindow
    ensures LearnedWeights(w, rules, computeDeltaW, history, absolute, topology)[a][p][b] == w[a][p][b]
  {
    NoPairInWindow(computeDeltaW, rules[a][p][b], absolute[a + 1][b], history[a][p] + absolute[a][p]);
    LearnedWeightsAt(w, rules, computeDeltaW, history, absolute, topology, a, p, b);
  }

  /**
   * What layer `l` emits depends only on the inputs and on the weights of the
   * layers before it, so learning in later layers cannot change it.
   */
  lemma {:induction false} OutputsDependOnEarlierWeights(respond: Response, w: seq<seq<seq<real>>>, v: seq<seq<seq<real>>>,
                                                         topology: seq<nat>, izhikevich: seq<bool>, inputs: seq<set<real>>, l: nat)
    requires Shaped(w, topology) && Shaped(v, topology) && |izhikevich| == topology[0] && l < |topology|
    requires forall x :: 0 <= x < l ==> w[x] == v[x]
    ensures Outputs(respond, w, topology, izhikevich, inputs, l) == Outputs(respond, v, topology, izhikevich, inputs, l)
  {
    if l > 0 {
      OutputsDependOnEarlierWeights(respond, w, v, topology, izhikevich, inputs, l - 1);
    }
  }

  /** All remembered spike trains empty: the `new TreeSet<>()` of every neuron. */
  function EmptyHistory(topology: seq<nat>): (r: seq<seq<set<real>>>)
    ensures Grid(r, topology)
    ensures forall l, n :: 0 <= l < |r| && 0 <= n < |r[l]| ==> r[l][n] == {}
  {
    seq(|topology|, l requires 0 <= l < |topology| => seq(topology[l], n => {}))
  }

  /**
   * The network. `izhikevich[i]` says whether input neuron `i` is an
   * Izhikevich neuron. The neurons themselves, and their state, are outside
   * the model: each `Apply` receives their forward pass as `respond`.
   */
  class Network<R> {
    const topology: seq<nat>
    const izhikevich: seq<bool>
    const initialWeights: seq<seq<seq<real>>>
    const learningRules: seq<seq<seq<R>>>
    /** `STDPLearningRule.computeDeltaW`, applied to a rule. */
    const computeDeltaW: (R, real) -> real
    var weights: seq<seq<seq<real>>>
    /** `previousTimeOutputSpikes`: every neuron's spikes of the last window, in absolute time. */
    var history: seq<seq<set<real>>>
    var weightsClipping: bool
    var maxWeightMagnitude: real
    var previousApplicationTime: real

    ghost predicate Valid()
      reads this
    {
      && Shaped(weights, topology)
      && Shaped(initialWeights, topology)
      && Shaped(learningRules, topology)
      && Grid(history, topology)
      && |izhikevich| == topology[0]
    }

    /** The main constructor: the weights start as a copy of `initialWeights`, every history empty. */
    constructor (topology: seq<nat>, izhikevich: seq<bool>, initialWeights: seq<seq<seq<real>>>,
                 learningRules: seq<seq<seq<R>>>, computeDeltaW: (R, real) -> real, weightsClipping: bool,
                 maxWeightMagnitude: real)
      requires Shaped(initialWeights, topology) && Shaped(learningRules, topology) && |izhikevich| == topology[0]
      ensures Valid()
      ensures this.topology == topology && this.izhikevich == izhikevich
      ensures this.initialWeights == initialWeights && this.learningRules == learningRules
      ensures this.computeDeltaW == computeDeltaW
      ensures weights == initialWeights && history == EmptyHistory(topology) && previousApplicationTime == 0.0
      ensures this.weightsClipping == weightsClipping && this.maxWeightMagnitude == maxWeightMagnitude
    {
      var copy := CopyWeights(initialWeights);
      this.topology := topology;
      this.izhikevich := izhikevich;
      this.initialWeights := initialWeights;
      this.learningRules := learningRules;
      this.computeDeltaW := computeDeltaW;
      this.weightsClipping := weightsClipping;
      this.maxWeightMagnitude := maxWeightMagnitude;
      previousApplicationTime := 0.0;
      weights := copy;
      history := EmptyHistory(topology);
    }

    /**
     * `apply`: an input of the wrong length is refused before anything changes;
     * otherwise the spikes propagate, every synapse learns, the absolute spike
     * times are remembered, the weights are clipped if clipping is on, and the
     * application time becomes `t`. The result is the last layer's output.
     * `respond` is what the neurons emit in this application, at time `t` and
     * from the state the earlier applications left them in.
     */
    method Apply(respond: Response, t: real, inputs: seq<set<real>>) returns (r: Result<seq<set<real>>, ApplyError>)
      requires Valid()
      modifies this
      ensures Valid()
      ensures |inputs| != topology[0] ==> r == Err(InputLengthMismatch(topology[0], |inputs|)) && unchanged(this)
      ensures |inputs| == topology[0] ==>
                && r.Ok?
                && (weights, history, r.value)
                   == Applied(respond, old(weights), learningRules, computeDeltaW, izhikevich, old(history), inputs,
                              old(previousApplicationTime), t, old(weightsClipping), old(maxWeightMagnitude), topology)
                && previousApplicationTime == t
      ensures weightsClipping == old(weightsClipping) && maxWeightMagnitude == old(maxWeightMagnitude)
    {
      if |inputs| != topology[0] {
        return Err(InputLengthMismatch(topology[0], |inputs|));
      }
      var w, h, outputs := ApplyStep(respond, weights, learningRules, computeDeltaW, izhikevich, history, inputs,
                                     previousApplicationTime, t, weightsClipping, maxWeightMagnitude, topology);
      weights, history, previousApplicationTime := w, h, t;
      r := Ok(outputs);
    }

    /** `enableWeightsClipping(maxWeightMagnitude)`. */
    method EnableWeightsClipping(maxWeightMagnitude: real)
      modifies this
      ensures weightsClipping && this.maxWeightMagnitude == maxWeightMagnitude
      ensures weights == old(weights) && history == old(history) && previousApplicationTime == old(previousApplicationTime)
    {
      weightsClipping := true;
      this.maxWeightMagnitude := maxWeightMagnitude;
    }

    /** `enableWeightsClipping()`: the default bound 1.2. */
    method EnableDefaultWeightsClipping()
      modifies this
      ensures weightsClipping && maxWeightMagnitude == DefaultMaxWeightMagnitude
      ensures weights == old(weights) && history == old(history) && previousApplicationTime == old(previousApplicationTime)
    {
      EnableWeightsClipping(DefaultMaxWeightMagnitude);
    }

    /** `disableWeightsClipping`: the bound is kept for a later enable. */
    method DisableWeightsClipping()
      modifies this
      ensures !weightsClipping && maxWeightMagnitude == old(maxWeightMagnitude)
      ensures weights == old(weights) && history == old(history) && previousApplicationTime == old(previousApplicationTime)
    {
      weightsClipping := false;
    }

    /** `reset`: the weights go back to `initialWeights`; the remembered spikes are kept. */
    method Reset()
      requires Valid()
      modifies this
      ensures Valid()
      ensures weights == initialWeights && history == old(history)
      ensures weightsClipping == old(weightsClipping) && maxWeightMagnitude == old(maxWeightMagnitude)
      ensures previousApplicationTime == old(previousApplicationTime)
    {
      weights := CopyWeights(initialWeights);
    }
  }
}
