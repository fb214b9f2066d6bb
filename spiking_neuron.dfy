/**
 * SpikingNeuron: the step guard and spike loop shared by every neuron model.
 * A neuron model supplies two hooks, `acceptWeightedSpike` (integrate one
 * weighted input at an absolute time) and `resetAfterSpike`; here they are
 * functions over the part of the neuron's state they may change
 * (`Potentials`), fixed when the neuron is built. The sub-step grid that
 * `compute` adds to the input (a floating-point loop in the source) is given as
 * a sequence of normalised times.
 */
module SpikingNeuron {

  /** The neuron state a model's hooks read and write; `extra` is the model's own
      state (the recovery variable of an Izhikevich neuron, for instance). */
  datatype Potentials<S> = Potentials(membrane: real, threshold: real, lastInputTime: real, extra: S)

  /** `acceptWeightedSpike(scaledTime, weightedSpike)`, which may also read `sumOfIncomingWeights`. */
  type AcceptHook<!S> = (Potentials<S>, real, real, real) -> Potentials<S>

  /** `resetAfterSpike()` */
  type ResetHook<!S> = Potentials<S> -> Potentials<S>

  predicate StrictlyIncreasing(s: seq<real>)
  {
    forall i, j :: 0 <= i < j < |s| ==> s[i] < s[j]
  }

  /** Some element of a non-empty set of times. */
  lemma Member(keys: set<real>) returns (x: real)
    requires keys != {}
    ensures x in keys
  {
    if forall y: real :: y !in keys {
      assert false;
    }
    x :| x in keys;
  }

  lemma {:induction false} MinimumExists(keys: set<real>)
    requires keys != {}
    ensures exists m :: m in keys && forall k :: k in keys ==> m <= k
    decreases keys
  {
    var x := Member(keys);
    var others := keys - {x};
    if others == {} {
      forall k | k in keys ensures k == x {
        assert k == x || k in others;
      }
    } else {
      MinimumExists(others);
      var m :| m in others && forall k :: k in others ==> m <= k;
      var low := if x < m then x else m;
      forall k | k in keys ensures low <= k {
        if k != x {
          assert k in others;
        }
      }
    }
  }

  /** The keys of a finite set of times in ascending order (TreeMap iteration order);
      `SortedKeysMembers`, `SortedKeysIncreasing` and `SortedKeysLength` state what that means. */
  ghost function SortedKeys(keys: set<real>): (r: seq<real>)
    ensures forall k :: k in r ==> k in keys
    decreases keys
  {
    if keys == {} then []
    else
      MinimumExists(keys);
      var m :| m in keys && forall k :: k in keys ==> m <= k;
      [m] + SortedKeys(keys - {m})
  }

  /** `SortedKeys` lists every key, and nothing else. */
  lemma {:induction false} SortedKeysMembers(keys: set<real>)
    ensures forall k :: k in keys <==> k in SortedKeys(keys)
    decreases keys
  {
    if keys != {} {
      MinimumExists(keys);
      var m :| m in keys && forall k :: k in keys ==> m <= k;
      SortedKeysFirst(keys, m);
      SortedKeysMembers(keys - {m});
      forall k | k in keys ensures k in SortedKeys(keys) {
        if k != m {
          assert k in SortedKeys(keys - {m});
        }
      }
    }
  }

  /** `SortedKeys` is strictly increasing, so no key is listed twice. */
  lemma {:induction false} SortedKeysIncreasing(keys: set<real>)
    ensures StrictlyIncreasing(SortedKeys(keys))
    decreases keys
  {
    if keys != {} {
      MinimumExists(keys);
      var m :| m in keys && forall k :: k in keys ==> m <= k;
      SortedKeysFirst(keys, m);
      var rest := SortedKeys(keys - {m});
      SortedKeysIncreasing(keys - {m});
      forall i, j | 0 <= i < j < |[m] + rest| ensures ([m] + rest)[i] < ([m] + rest)[j] {
        if i == 0 {
          assert rest[j - 1] in keys - {m};
        } else {
          assert rest[i - 1] < rest[j - 1];
        }
      }
    }
  }

  /** `SortedKeys` has one entry per key. */
  lemma {:induction false} SortedKeysLength(keys: set<real>)
    ensures |SortedKeys(keys)| == |keys|
    decreases keys
  {
    if keys != {} {
      MinimumExists(keys);
      var m :| m in keys && forall k :: k in keys ==> m <= k;
      SortedKeysFirst(keys, m);
      SortedKeysLength(keys - {m});
      assert |keys - {m}| == |keys| - 1;
    }
  }

  /** The input after `putIfAbsent(i, 0)` for every sub-step time `i`. */
  function Augmented(input: map<real, real>, subSteps: seq<real>): (r: map<real, real>)
    ensures forall k :: k in r <==> k in input || k in subSteps
    ensures forall k :: k in input ==> r[k] == input[k]
    ensures forall k :: k in r && k !in input ==> r[k] == 0.0
  {
    map k | k in input.Keys + (set i | 0 <= i < |subSteps| :: subSteps[i]) :: if k in input then input[k] else 0.0
  }

  /** A normalised spike time of the window as an absolute time. */
  function ScaledTime(spikeTime: real, windowStart: real, windowSize: real): real
  {
    spikeTime * windowSize + windowStart
  }

  /** One visited entry: integrate it, and fire and reset when the potential reached the threshold. */
  function Step<S>(accept: AcceptHook<S>, afterSpike: ResetHook<S>, p: Potentials<S>, sumOfIncomingWeights: real,
                   scaledTime: real, weightedSpike: real): (bool, Potentials<S>)
  {
    var q := accept(p, sumOfIncomingWeights, scaledTime, weightedSpike);
    if q.membrane >= q.threshold then (true, afterSpike(q)) else (false, q)
  }

  /** The spikes recorded and the state reached after visiting `keys` in order, for a window
      of `windowSize` starting at `windowStart`. */
  function Integrate<S>(accept: AcceptHook<S>, afterSpike: ResetHook<S>, input: map<real, real>, keys: seq<real>,
                        p: Potentials<S>, sumOfIncomingWeights: real, windowStart: real, windowSize: real)
    : (r: (seq<real>, Potentials<S>))
    requires forall k :: k in keys ==> k in input
    decreases |keys|
  {
    if keys == [] then ([], p)
    else
      var last := keys[|keys| - 1];
      var earlier := Integrate(accept, afterSpike, input, keys[..|keys| - 1], p, sumOfIncomingWeights, windowStart, windowSize);
      var step := Step(accept, afterSpike, earlier.1, sumOfIncomingWeights, ScaledTime(last, windowStart, windowSize), input[last]);
      (if step.0 then earlier.0 + [last] else earlier.0, step.1)
  }

  /** Visiting one more key extends the earlier run by one step. */
  lemma IntegrateSnoc<S>(accept: AcceptHook<S>, afterSpike: ResetHook<S>, input: map<real, real>, keys: seq<real>,
                         k: real, p: Potentials<S>, sum: real, start: real, size: real)
    requires forall x :: x in keys ==> x in input
    requires k in input
    ensures forall x :: x in keys + [k] ==> x in input
    ensures var earlier := Integrate(accept, afterSpike, input, keys, p, sum, start, size);
            var step := Step(accept, afterSpike, earlier.1, sum, ScaledTime(k, start, size), input[k]);
            Integrate(accept, afterSpike, input, keys + [k], p, sum, start, size)
              == (if step.0 then earlier.0 + [k] else earlier.0, step.1)
  {
    assert (keys + [k])[..|keys|] == keys;
  }

  /** Taking the least remaining key moves it from the unvisited keys to the visited ones. */
  lemma VisitLeast(visited: seq<real>, remaining: set<real>, m: real)
    requires m in remaining && forall k :: k in remaining ==> m <= k
    ensures visited + SortedKeys(remaining) == (visited + [m]) + SortedKeys(remaining - {m})
  {
    SortedKeysFirst(remaining, m);
  }

  /** The least key comes first, then the others in order. */
  lemma SortedKeysFirst(keys: set<real>, m: real)
    requires m in keys && forall k :: k in keys ==> m <= k
    ensures SortedKeys(keys) == [m] + SortedKeys(keys - {m})
  {
  }

  /** Every recorded spike time is a visited key, and the spikes come out in visiting order. */
  lemma {:induction false} IntegrateSpikesAreKeys<S>(accept: AcceptHook<S>, afterSpike: ResetHook<S>, input: map<real, real>,
                                                     keys: seq<real>, p: Potentials<S>, sum: real, start: real, size: real)
    requires forall k :: k in keys ==> k in input
    ensures forall t :: t in Integrate(accept, afterSpike, input, keys, p, sum, start, size).0 ==> t in keys
    ensures StrictlyIncreasing(keys) ==> StrictlyIncreasing(Integrate(accept, afterSpike, input, keys, p, sum, start, size).0)
    decreases |keys|
  {
    if keys != [] {
      var init := keys[..|keys| - 1];
      IntegrateSpikesAreKeys(accept, afterSpike, input, init, p, sum, start, size);
      assert forall t :: t in init ==> t in keys;
      if StrictlyIncreasing(keys) {
        assert StrictlyIncreasing(init);
        var spikes := Integrate(accept, afterSpike, input, init, p, sum, start, size).0;
        forall t | t in spikes ensures t < keys[|keys| - 1] {
          var i :| 0 <= i < |init| && init[i] == t;
        }
        var all := spikes + [keys[|keys| - 1]];
        forall a, b | 0 <= a < b < |all| ensures all[a] < all[b] {
          if b == |spikes| {
            assert all[a] in spikes;
          }
        }
      }
    }
  }

  /** The `i`-th visited key is recorded exactly when the potential reaches the threshold right
      after that key's input is accepted, starting from the state the earlier keys left. */
  lemma {:induction false} IntegrateRecordsExactlyThresholdCrossings<S>(
    accept: AcceptHook<S>, afterSpike: ResetHook<S>, input: map<real, real>,
    keys: seq<real>, p: Potentials<S>, sum: real, start: real, size: real, i: nat)
    requires forall k :: k in keys ==> k in input
    requires StrictlyIncreasing(keys) && i < |keys|
    ensures keys[i] in Integrate(accept, afterSpike, input, keys, p, sum, start, size).0 <==>
              Step(accept, afterSpike, Integrate(accept, afterSpike, input, keys[..i], p, sum, start, size).1,
                   sum, ScaledTime(keys[i], start, size), input[keys[i]]).0
    decreases |keys|
  {
    var last := keys[|keys| - 1];
    var init := keys[..|keys| - 1];
    assert forall k :: k in init ==> k in keys;
    var earlier := Integrate(accept, afterSpike, input, init, p, sum, start, size);
    var step := Step(accept, afterSpike, earlier.1, sum, ScaledTime(last, start, size), input[last]);
    assert keys != [];
    var whole := Integrate(accept, afterSpike, input, keys, p, sum, start, size);
    assert whole.0 == if step.0 then earlier.0 + [last] else earlier.0;
    IntegrateSpikesAreKeys(accept, afterSpike, input, init, p, sum, start, size);
    if i < |keys| - 1 {
      assert StrictlyIncreasing(init);
      IntegrateRecordsExactlyThresholdCrossings(accept, afterSpike, input, init, p, sum, start, size, i);
      assert init[..i] == keys[..i];
      assert keys[i] < last;
    } else {
      assert init == keys[..i];
      forall t | t in earlier.0 ensures t != last {
        var j :| 0 <= j < |init| && init[j] == t;
      }
    }
  }

  /** The `putIfAbsent(i, 0)` loop over the sub-step times. */
  method AddSubSteps(weightedSpikes: map<real, real>, subSteps: seq<real>) returns (input: map<real, real>)
    ensures input == Augmented(weightedSpikes, subSteps)
  {
    input := weightedSpikes;
    for i := 0 to |subSteps|
      invariant input == Augmented(weightedSpikes, subSteps[..i])
    {
      if subSteps[i] !in input {
        input := input[subSteps[i] := 0.0];
      }
      assert subSteps[..i + 1] == subSteps[..i] + [subSteps[i]];
    }
    assert subSteps[..|subSteps|] == subSteps;
  }

  class Neuron<S> {
    const restingPotential: real
    var thresholdPotential: real
    var membranePotential: real
    var lastInputTime: real
    var lastEvaluatedTime: real
    var sumOfIncomingWeights: real
    var plotMode: bool
    /** The neuron model's own state. */
    var extra: S
    /** The neuron model's hooks. */
    const accept: AcceptHook<S>
    const afterSpike: ResetHook<S>

    function State(): Potentials<S>
      reads this
    {
      Potentials(membranePotential, thresholdPotential, lastInputTime, extra)
    }

    constructor(restingPotential: real, thresholdPotential: real, plotMode: bool, extra: S,
                accept: AcceptHook<S>, afterSpike: ResetHook<S>)
      ensures this.restingPotential == restingPotential && this.thresholdPotential == thresholdPotential
      ensures this.plotMode == plotMode && this.extra == extra
      ensures this.accept == accept && this.afterSpike == afterSpike
      ensures membranePotential == restingPotential
      ensures lastInputTime == 0.0 && lastEvaluatedTime == 0.0 && sumOfIncomingWeights == 0.0
    {
      this.restingPotential := restingPotential;
      this.thresholdPotential := thresholdPotential;
      this.plotMode := plotMode;
      this.extra := extra;
      this.accept := accept;
      this.afterSpike := afterSpike;
      membranePotential := restingPotential;
      lastInputTime := 0.0;
      lastEvaluatedTime := 0.0;
      sumOfIncomingWeights := 0.0;
    }

    /** Writes back what a hook returned. */
    method SetPotentials(q: Potentials<S>)
      modifies this
      ensures State() == q
      ensures lastEvaluatedTime == old(lastEvaluatedTime) && sumOfIncomingWeights == old(sumOfIncomingWeights)
      ensures plotMode == old(plotMode)
    {
      membranePotential, thresholdPotential, lastInputTime, extra := q.membrane, q.threshold, q.lastInputTime, q.extra;
    }

    /**
     * `compute(weightedSpikes, t)`. Java mutates the caller's map; `input` is
     * that map afterwards. `subSteps` are the sub-step times the source
     * generates for this window. Time must not run backwards: for
     * `t < lastEvaluatedTime` the sub-step loop of the source never ends.
     */
    method Compute(weightedSpikes: map<real, real>, t: real, subSteps: seq<real>)
      returns (spikes: seq<real>, input: map<real, real>)
      requires t >= lastEvaluatedTime
      modifies this
      ensures old(t - lastEvaluatedTime) == 0.0 ==> spikes == [] && input == weightedSpikes && unchanged(this)
      ensures old(t - lastEvaluatedTime) != 0.0 ==>
                && input == Augmented(weightedSpikes, subSteps)
                && (spikes, State()) == Integrate(accept, afterSpike, input, SortedKeys(input.Keys), old(State()),
                                                       old(sumOfIncomingWeights), old(lastEvaluatedTime), t - old(lastEvaluatedTime))
                && lastEvaluatedTime == t
                && sumOfIncomingWeights == old(sumOfIncomingWeights) && plotMode == old(plotMode)
    {
      var timeWindowSize := t - lastEvaluatedTime;
      if timeWindowSize == 0.0 {
        return [], weightedSpikes;
      }
      input := AddSubSteps(weightedSpikes, subSteps);
      spikes := VisitInKeyOrder(input, timeWindowSize);
      lastEvaluatedTime := t;
    }

    /** The `forEach` over the input in ascending key order: integrate each entry, record its key
        and reset when the potential reached the threshold. */
    method VisitInKeyOrder(input: map<real, real>, timeWindowSize: real) returns (spikes: seq<real>)
      modifies this
      ensures (spikes, State()) == Integrate(accept, afterSpike, input, SortedKeys(input.Keys), old(State()),
                                             sumOfIncomingWeights, lastEvaluatedTime, timeWindowSize)
      ensures lastEvaluatedTime == old(lastEvaluatedTime) && sumOfIncomingWeights == old(sumOfIncomingWeights)
      ensures plotMode == old(plotMode)
    {
      var q, sum, start := State(), sumOfIncomingWeights, lastEvaluatedTime;
      ghost var p0 := q;
      ghost var order := SortedKeys(input.Keys);
      var remaining := input.Keys;
      ghost var visited: seq<real> := [];
      spikes := [];
      while remaining != {}
        invariant remaining <= input.Keys
        invariant visited + SortedKeys(remaining) == order
        invariant forall k :: k in visited ==> k in input
        invariant (spikes, q) == Integrate(accept, afterSpike, input, visited, p0, sum, start, timeWindowSize)
        invariant unchanged(this)
        decreases |remaining|
      {
        MinimumExists(remaining);
        var spikeTime :| spikeTime in remaining && forall k :: k in remaining ==> spikeTime <= k;
        VisitLeast(visited, remaining, spikeTime);
        IntegrateSnoc(accept, afterSpike, input, visited, spikeTime, p0, sum, start, timeWindowSize);
        var scaledSpikeTime := ScaledTime(spikeTime, start, timeWindowSize);
        ghost var step := Step(accept, afterSpike, q, sum, scaledSpikeTime, input[spikeTime]);
        q := accept(q, sum, scaledSpikeTime, input[spikeTime]);
        if q.membrane >= q.threshold {
          spikes := spikes + [spikeTime];
          q := afterSpike(q);
        }
        assert q == step.1;
        visited := visited + [spikeTime];
        remaining := remaining - {spikeTime};
      }
      assert visited == order;
      SetPotentials(q);
    }

    /** `reset()` */
    method Reset()
      modifies this
      ensures membranePotential == restingPotential && lastEvaluatedTime == 0.0 && lastInputTime == 0.0
      ensures thresholdPotential == old(thresholdPotential) && sumOfIncomingWeights == old(sumOfIncomingWeights)
      ensures plotMode == old(plotMode) && extra == old(extra)
    {
      membranePotential := restingPotential;
      lastEvaluatedTime := 0.0;
      lastInputTime := 0.0;
    }

    /** `setPlotMode(plotMode)`: sets the flag, then resets. */
    method SetPlotMode(plotMode: bool)
      modifies this
      ensures this.plotMode == plotMode
      ensures membranePotential == restingPotential && lastEvaluatedTime == 0.0 && lastInputTime == 0.0
      ensures thresholdPotential == old(thresholdPotential) && sumOfIncomingWeights == old(sumOfIncomingWeights)
      ensures extra == old(extra)
    {
      this.plotMode := plotMode;
      Reset();
    }

    /** `setSumOfIncomingWeights(sum)`: nothing else changes. */
    method SetSumOfIncomingWeights(sum: real)
      modifies this
      ensures sumOfIncomingWeights == sum
      ensures State() == old(State()) && lastEvaluatedTime == old(lastEvaluatedTime)
      ensures plotMode == old(plotMode)
    {
      sumOfIncomingWeights := sum;
    }
  }

  /** A second call at the same time returns no spikes and leaves the neuron as the first left it:
      the two calls together are one call. */
  method ComputeTwiceAtSameTime<S>(neuron: Neuron<S>, weightedSpikes: map<real, real>, t: real, subSteps: seq<real>)
    returns (first: seq<real>, second: seq<real>)
    requires t >= neuron.lastEvaluatedTime
    modifies neuron
    ensures neuron.lastEvaluatedTime == t
    ensures second == []
    ensures old(t - neuron.lastEvaluatedTime) == 0.0 ==> first == [] && unchanged(neuron)
    ensures old(t - neuron.lastEvaluatedTime) != 0.0 ==>
              var input := Augmented(weightedSpikes, subSteps);
              && (first, neuron.State())
                 == Integrate(neuron.accept, neuron.afterSpike, input, SortedKeys(input.Keys), old(neuron.State()),
                              old(neuron.sumOfIncomingWeights), old(neuron.lastEvaluatedTime), t - old(neuron.lastEvaluatedTime))
              && neuron.sumOfIncomingWeights == old(neuron.sumOfIncomingWeights) && neuron.plotMode == old(neuron.plotMode)
  {
    var input;
    first, input := neuron.Compute(weightedSpikes, t, subSteps);
    second, input := neuron.Compute(weightedSpikes, t, subSteps);
  }
}
