# Spiking-network core of NeuralModelsVSR, in Dafny

This project models the spiking-neural-network core of NeuralModelsVSR, the
voxel-based soft robot controllers. The model covers:

- **QuantizedLearning**: the learning engine of the quantized (discrete-time) multilayer spiking network.
  - Spike trains are integer arrays of `ARRAY_SIZE` entries.
  - Every neuron keeps a sliding window of its earlier entries.
  - Every synapse learns by spike-timing-dependent plasticity (STDP) from its positive entries.
  - The weights can be clipped to `[-m, m]`.
  - `reset` restores the initial weights and clears the windows.
- **LearningNetwork**: the learning engine of the continuous-time multilayer spiking network.
  - It rejects inputs of the wrong length.
  - Layer 0 sees the inputs through a diagonal gain, and every later layer sees the previous one through the transposed weights.
  - Pairs of absolute spike times at most `0.04` apart drive learning.
  - This step's absolute spike times are remembered for the next step.
- **LayeredWeights**: the helpers the two engines share. These are `flat`/`unflat` between a flat array and the `layer × source × destination` tensor, `clipWeights`, and `copyWeights`.
- **DistributedSensing**: the distributed quantized controller. A grid of cells exchanges signal rows with its four neighbours through two buffer grids:
  - it reads `lastSignals`;
  - it writes `currentSignals`;
  - it copies `currentSignals` across only after every cell has been visited.
- **SpikingNeuron**: the step of a spiking neuron.
  - A zero-length window is a no-op.
  - The weighted input map is augmented with zero entries on a sub-step grid.
  - The entries are visited in ascending key order, recording a spike and resetting whenever the threshold is reached.
- **SnnUtils**: the configuration-string parser that builds encoders, decoders and neurons.
- **SNNState**: the network snapshot. It deep-copies the spike arrays and maps them to firing rates.
- **The converters**: the encoder's input clamp to `[0, 1]` and the decoder's `2v − 1` clamp to `[-1, 1]`.
- **SymmetricHebbianLearningRule**: the rule's sign dispatch.

Doubles are modelled as `real` and Java integers as `int`. A thrown exception becomes an error value of a `Result`. Several collaborators are taken as function parameters or function-valued fields:

- the learning rules' `computeDeltaW`;
- the neuron subclasses' `acceptWeightedSpike`/`resetAfterSpike`;
- the parent classes' forward passes;
- the decoders' `convert`;
- the sensors' encoders;
- the cells' networks;
- `Double.parseDouble`/`Integer.parseInt`.

An object whose fields the source updates in place is a `class`:

- `QuantizedLearning.Network`;
- `LearningNetwork.Network`;
- `DistributedSensing.Sensing`;
- `SpikingNeuron.Neuron`;
- `SNNState.SNNState`.

The jagged arrays of the learning engines are `seq` fields that the methods reassign. `SNNState` keeps real arrays, because its point is fresh deep copies.

`flat`, `unflat`, `clipWeights` and `copyWeights` appear line for line in both learning engines. Each is modelled once in `LayeredWeights`, and the table below cites the quantized engine's copy. The continuous engine's copies are `LearningMultilayerSpikingNetwork.java` lines 185-212 (`flat`/`unflat`), 161-169 (`clipWeights`) and 232-244 (`copyWeights`).

## Model

| member | source | states |
|---|---|---|
| ValueToSpikeTrainConverter.ClipInputValue | src/main/java/it/units/erallab/hmsrobots/core/controllers/snn/converters/vts/ValueToSpikeTrainConverter.java:12-27 | the result lies in [0, 1]; a value in [0, 1] is returned unchanged, a value below 0 gives 0 and one above 1 gives 1 |
| ValueToSpikeTrainConverter.ClipInputValueIdempotent | src/main/java/it/units/erallab/hmsrobots/core/controllers/snn/converters/vts/ValueToSpikeTrainConverter.java:25-27 | clipping a clipped value changes nothing |
| ValueToSpikeTrainConverter.ClipInputValueMonotone | src/main/java/it/units/erallab/hmsrobots/core/controllers/snn/converters/vts/ValueToSpikeTrainConverter.java:25-27 | `a <= b` implies `clip(a) <= clip(b)` |
| ValueToSpikeTrainConverter.FrequencyRange | src/main/java/it/units/erallab/hmsrobots/core/controllers/snn/converters/vts/ValueToSpikeTrainConverter.java:14-15 | `0 < MIN_FREQUENCY < DEFAULT_FREQUENCY` |
| QuantizedSpikeTrainToValueConverter.NormalizeValue | src/main/java/it/units/erallab/hmsrobots/core/controllers/snndiscr/converters/stv/QuantizedSpikeTrainToValueConverter.java:12-27 | the result lies in [-1, 1]; for v in [0, 1] it is exactly 2v − 1; v <= 0 gives −1 and v >= 1 gives 1 |
| QuantizedSpikeTrainToValueConverter.NormalizeValueMonotone | src/main/java/it/units/erallab/hmsrobots/core/controllers/snndiscr/converters/stv/QuantizedSpikeTrainToValueConverter.java:24-27 | `normalizeValue` is monotone non-decreasing |
| SymmetricHebbianLearningRule.ComputeDeltaW | src/main/java/it/units/erallab/hmsrobots/core/controllers/snn/learning/SymmetricHebbianLearningRule.java:6-14 | g > 0 gives aPlus·g, g < 0 gives aMinus·g, g = 0 gives 0, where g = computeG(deltaT) |
| SymmetricHebbianLearningRule.DeltaWDependsOnlyOnKernelValue | src/main/java/it/units/erallab/hmsrobots/core/controllers/snn/learning/SymmetricHebbianLearningRule.java:6-14 | two kernels that agree on g give the same deltaW: the result depends only on g, aPlus and aMinus |
| SymmetricHebbianLearningRule.DeltaWHasKernelSign | src/main/java/it/units/erallab/hmsrobots/core/controllers/snn/learning/SymmetricHebbianLearningRule.java:6-14 | with aPlus, aMinus > 0, deltaW is positive, negative or zero exactly when g is |
| SnnUtils.Fields | src/main/java/it/units/erallab/evolution/utils/SnnUtils.java:16-20 | splitting on `-` always yields at least one field, and no field contains `-` |
| SnnUtils.JoinFields | src/main/java/it/units/erallab/evolution/utils/SnnUtils.java:16-20 | joining the fields with `-` gives the string back |
| SnnUtils.JoinPrefix | src/main/java/it/units/erallab/evolution/utils/SnnUtils.java:20 | joining the first k tokens gives a prefix of joining them all |
| SnnUtils.DropTrailingEmpty | src/main/java/it/units/erallab/evolution/utils/SnnUtils.java:20 | `String.split` drops exactly the trailing empty fields: the result is a prefix, ends in a non-empty field or is empty, and only empty fields were dropped |
| SnnUtils.FieldsOfJoin | src/main/java/it/units/erallab/evolution/utils/SnnUtils.java:16-20 | splitting tokens joined by `-` (none containing `-`) gives the tokens back |
| SnnUtils.Split | src/main/java/it/units/erallab/evolution/utils/SnnUtils.java:20 | `params.split("-")`: no token contains `-`; a string without `-` is its own only token; otherwise the last token is non-empty or there is none; the tokens joined back are a prefix of `params` |
| SnnUtils.SplitJoin | src/main/java/it/units/erallab/evolution/utils/SnnUtils.java:20 | `split(join(tokens)) == tokens` when no token contains `-` and the last is non-empty |
| SnnUtils.ParseParameters | src/main/java/it/units/erallab/evolution/utils/SnnUtils.java:53-61 | parsing `values[1..n]` succeeds iff all n exist and parse, and then yields exactly their parsed values in order |
| SnnUtils.EncoderFromTokens | src/main/java/it/units/erallab/evolution/utils/SnnUtils.java:19-31 | no token: index error; the first token decides: "unif"/"unif_mem" build that encoder (the bare name builds the default encoder; otherwise `values[1]` is parsed, and the build succeeds iff it parses); any other name is the unknown-converter error |
| SnnUtils.DecoderFromTokens | src/main/java/it/units/erallab/evolution/utils/SnnUtils.java:33-45 | no token: index error; a bare "avg"/"avg_mem" builds that default decoder; "avg" with parameters succeeds iff `values[1]` parses; "avg_mem" with parameters succeeds iff `values[1]` parses as a double and `values[2]` exists and parses as an integer (a missing `values[2]` is an index error), with those values; any other name is the unknown-converter error |
| SnnUtils.NeuronFromTokens | src/main/java/it/units/erallab/evolution/utils/SnnUtils.java:48-64 | never an unknown-name error: any name other than "lif"/"lif_h" gives Izhikevich; a bare "lif"/"lif_h" builds the default neuron; with parameters, "lif" succeeds iff `values[1..3]` exist and parse and "lif_h" iff `values[1..4]` do, with those values in order |
| SnnUtils.NeuronIgnoresExtraTokens | src/main/java/it/units/erallab/evolution/utils/SnnUtils.java:51-61 | tokens after the ones a neuron reads do not change the result |
| SnnUtils.EncoderRoundTrip | src/main/java/it/units/erallab/evolution/utils/SnnUtils.java:19-27 | building from `"<kind>-<token>"` gives that kind of encoder with the parsed frequency |
| SnnUtils.DecoderRoundTrip | src/main/java/it/units/erallab/evolution/utils/SnnUtils.java:33-38 | building from `"avg-<token>"` gives the average-frequency decoder with the parsed frequency |
| SnnUtils.MovingAverageRoundTrip | src/main/java/it/units/erallab/evolution/utils/SnnUtils.java:33-41 | building from `"avg_mem-<frequency>-<window>"` gives the moving-average decoder with the parsed double and integer |
| SnnUtils.NeuronRoundTrip | src/main/java/it/units/erallab/evolution/utils/SnnUtils.java:48-61 | building from `"lif-a-b-c"` or `"lif_h-a-b-c-d"` gives that neuron with the parsed parameters in order |
| SnnUtils.BuildQuantizedValueToSpikeTrainConverter | src/main/java/it/units/erallab/evolution/utils/SnnUtils.java:19-31 | a string without `-` builds the default encoder of that name or is the unknown-converter error; in general the build succeeds iff the first token names an encoder and its frequency, if given, parses |
| SnnUtils.BuildQuantizedSpikeTrainToValueConverter | src/main/java/it/units/erallab/evolution/utils/SnnUtils.java:33-45 | a string without `-` builds the default decoder of that name or is the unknown-converter error; in general the build succeeds iff the first token names a decoder and its given parameters exist and parse |
| SnnUtils.BuildQuantizedSpikingFunction | src/main/java/it/units/erallab/evolution/utils/SnnUtils.java:48-64 | a string without `-` builds the default LIF or LIF-with-homeostasis neuron, and any other name the Izhikevich neuron; in general the build fails only when there is no token or a LIF kind has parameters that are missing or do not parse |
| SpikingNeuron.Neuron.constructor | src/main/java/it/units/erallab/hmsrobots/core/controllers/snn/SpikingNeuron.java:20-48 | every field as given, `membranePotential == restingPotential`, times and the sum of incoming weights 0 |
| SpikingNeuron.Augmented | src/main/java/it/units/erallab/hmsrobots/core/controllers/snn/SpikingNeuron.java:61-64 | `putIfAbsent`: the keys are the input's plus the sub-steps; existing entries keep their values; added entries are 0 |
| SpikingNeuron.AddSubSteps | src/main/java/it/units/erallab/hmsrobots/core/controllers/snn/SpikingNeuron.java:61-64 | the loop of `putIfAbsent` yields `Augmented` |
| SpikingNeuron.SortedKeysMembers | src/main/java/it/units/erallab/hmsrobots/core/controllers/snn/SpikingNeuron.java:65 | the visiting order contains exactly the map's keys |
| SpikingNeuron.SortedKeysIncreasing | src/main/java/it/units/erallab/hmsrobots/core/controllers/snn/SpikingNeuron.java:65 | the keys are visited in strictly ascending order |
| SpikingNeuron.SortedKeysLength | src/main/java/it/units/erallab/hmsrobots/core/controllers/snn/SpikingNeuron.java:65 | each key is visited exactly once |
| SpikingNeuron.IntegrateSnoc | src/main/java/it/units/erallab/hmsrobots/core/controllers/snn/SpikingNeuron.java:65-76 | visiting one more key accepts its input, records it iff the threshold is reached, and resets after the spike |
| SpikingNeuron.IntegrateSpikesAreKeys | src/main/java/it/units/erallab/hmsrobots/core/controllers/snn/SpikingNeuron.java:65-74 | every recorded spike time is a visited key, and spikes come out in ascending order when the keys do |
| SpikingNeuron.IntegrateRecordsExactlyThresholdCrossings | src/main/java/it/units/erallab/hmsrobots/core/controllers/snn/SpikingNeuron.java:70-74 | key i is a spike iff the potential is at or above threshold right after accepting key i's input, starting from the state the earlier keys left |
| SpikingNeuron.Neuron.Compute | src/main/java/it/units/erallab/hmsrobots/core/controllers/snn/SpikingNeuron.java:55-79 | callers must not move time backwards (`t >= lastEvaluatedTime`: for an earlier `t` the sub-step loop never ends); a zero window returns no spikes and changes neither the neuron nor the input map; otherwise the map is augmented, the spikes and new potentials are those of visiting its keys in ascending order, and `lastEvaluatedTime == t` |
| SpikingNeuron.Neuron.VisitInKeyOrder | src/main/java/it/units/erallab/hmsrobots/core/controllers/snn/SpikingNeuron.java:65-76 | the `forEach` loop computes `Integrate` over the sorted keys and touches no other field |
| SpikingNeuron.ComputeTwiceAtSameTime | src/main/java/it/units/erallab/hmsrobots/core/controllers/snn/SpikingNeuron.java:56-77 | a second `compute` at the same `t` returns no spikes and changes nothing: the neuron ends in the state one `compute` leaves it in |
| SpikingNeuron.Neuron.Reset | src/main/java/it/units/erallab/hmsrobots/core/controllers/snn/SpikingNeuron.java:121-125 | membrane at rest, `lastEvaluatedTime` and `lastInputTime` 0, everything else kept |
| SpikingNeuron.Neuron.SetPlotMode | src/main/java/it/units/erallab/hmsrobots/core/controllers/snn/SpikingNeuron.java:110-113 | sets the flag, then resets |
| SpikingNeuron.Neuron.SetSumOfIncomingWeights | src/main/java/it/units/erallab/hmsrobots/core/controllers/snn/SpikingNeuron.java:116-118 | changes only `sumOfIncomingWeights` |
| SNNState.CopyOf2 | src/main/java/it/units/erallab/hmsrobots/core/snapshots/SNNState.java:61-67 | a fresh array of fresh rows, element-wise equal to the original |
| SNNState.CopyOf2Real | src/main/java/it/units/erallab/hmsrobots/core/snapshots/SNNState.java:53-59 | a fresh array of fresh rows, element-wise equal to the original |
| SNNState.CopyOf3 | src/main/java/it/units/erallab/hmsrobots/core/snapshots/SNNState.java:77-83 | a fresh three-level copy with the same shape and contents |
| SNNState.CopyOf3Real | src/main/java/it/units/erallab/hmsrobots/core/snapshots/SNNState.java:69-75 | a fresh three-level copy with the same shape and contents |
| SNNState.Contents | src/main/java/it/units/erallab/hmsrobots/core/snapshots/SNNState.java:31 | the value of a spike array: same shape, row by row the same entries |
| SNNState.LayerFiringRates | src/main/java/it/units/erallab/hmsrobots/core/snapshots/SNNState.java:41-44 | one fresh row per neuron, each `convert(converters[n], spikes[n], timeWindowSize)` |
| SNNState.ComputeFiringRates | src/main/java/it/units/erallab/hmsrobots/core/snapshots/SNNState.java:38-47 | the rates have the shape of the spikes and each is the neuron's converted spike train |
| SNNState.SNNState.constructor | src/main/java/it/units/erallab/hmsrobots/core/snapshots/SNNState.java:33-36 | the stored spikes are a fresh deep copy of the argument; the firing rates are computed from it |
| SNNState.SnapshotIsolatedFromArgument | src/main/java/it/units/erallab/hmsrobots/core/snapshots/SNNState.java:33-51 | writing into the constructor's argument afterwards leaves `getSpikes()` unchanged |
| LayeredWeights.ColumnOffsetIsProduct | src/main/java/it/units/erallab/hmsrobots/core/controllers/snndiscr/QuantizedLearningMultilayerSpikingNetwork.java:218-222 | the counter after j columns of `rows` entries is `j·rows` |
| LayeredWeights.OffsetMonotone | src/main/java/it/units/erallab/hmsrobots/core/controllers/snndiscr/QuantizedLearningMultilayerSpikingNetwork.java:202-209 | the counter at the start of a layer never decreases |
| LayeredWeights.SlotInLayer | src/main/java/it/units/erallab/hmsrobots/core/controllers/snndiscr/QuantizedLearningMultilayerSpikingNetwork.java:203-208 | slot (j, k) of a layer lies inside the layer's run |
| LayeredWeights.UnflatLayer | src/main/java/it/units/erallab/hmsrobots/core/controllers/snndiscr/QuantizedLearningMultilayerSpikingNetwork.java:217 | layer `i-1` has `neurons[i-1].length` rows of `neurons[i].length` entries |
| LayeredWeights.UnflatSpec | src/main/java/it/units/erallab/hmsrobots/core/controllers/snndiscr/QuantizedLearningMultilayerSpikingNetwork.java:213-226 | `unflat` yields `neurons.length-1` layers of shape `neurons[i-1].length × neurons[i].length` |
| LayeredWeights.FlatSpec | src/main/java/it/units/erallab/hmsrobots/core/controllers/snndiscr/QuantizedLearningMultilayerSpikingNetwork.java:199-211 | `flat` has `countWeights(neurons)` entries |
| LayeredWeights.FlatLayersAt | src/main/java/it/units/erallab/hmsrobots/core/controllers/snndiscr/QuantizedLearningMultilayerSpikingNetwork.java:202-207 | entry `Offset(i) + j·rows + k` of `flat` is `w[i][k][j]` |
| LayeredWeights.UnflatLayersAt | src/main/java/it/units/erallab/hmsrobots/core/controllers/snndiscr/QuantizedLearningMultilayerSpikingNetwork.java:216-223 | layer i of `unflat` is built from the run `[Offset(i), Offset(i+1))` of the flat array |
| LayeredWeights.FlatUnflat | src/main/java/it/units/erallab/hmsrobots/core/controllers/snndiscr/QuantizedLearningMultilayerSpikingNetwork.java:199-226 | `flat(unflat(r)) == r` for every flat array of `countWeights(neurons)` entries |
| LayeredWeights.UnflatFlat | src/main/java/it/units/erallab/hmsrobots/core/controllers/snndiscr/QuantizedLearningMultilayerSpikingNetwork.java:199-226 | `unflat(flat(w)) == w` for every tensor of the network's shape |
| LayeredWeights.UnflatFlatAt | src/main/java/it/units/erallab/hmsrobots/core/controllers/snndiscr/QuantizedLearningMultilayerSpikingNetwork.java:199-226 | the round trip entry by entry: slot `[i][k][j]` comes back |
| LayeredWeights.Flat | src/main/java/it/units/erallab/hmsrobots/core/controllers/snndiscr/QuantizedLearningMultilayerSpikingNetwork.java:199-211 | the counter loop fills the array with `FlatSpec` |
| LayeredWeights.FillColumns | src/main/java/it/units/erallab/hmsrobots/core/controllers/snndiscr/QuantizedLearningMultilayerSpikingNetwork.java:203-208 | one layer's loop writes its columns after what was already written and advances the counter by `rows·cols` |
| LayeredWeights.FillColumn | src/main/java/it/units/erallab/hmsrobots/core/controllers/snndiscr/QuantizedLearningMultilayerSpikingNetwork.java:204-207 | the inner loop writes column j and advances the counter by `rows` |
| LayeredWeights.Unflat | src/main/java/it/units/erallab/hmsrobots/core/controllers/snndiscr/QuantizedLearningMultilayerSpikingNetwork.java:213-226 | the counter loop builds `UnflatSpec` |
| LayeredWeights.FillLayer | src/main/java/it/units/erallab/hmsrobots/core/controllers/snndiscr/QuantizedLearningMultilayerSpikingNetwork.java:217-223 | one layer of `unflat` is the unflattened run of the flat array at the counter |
| LayeredWeights.ClipAll | src/main/java/it/units/erallab/hmsrobots/core/controllers/snndiscr/QuantizedLearningMultilayerSpikingNetwork.java:175-183 | same shape, each weight `min(m, max(w, -m))` |
| LayeredWeights.ClipWeightRange | src/main/java/it/units/erallab/hmsrobots/core/controllers/snndiscr/QuantizedLearningMultilayerSpikingNetwork.java:179 | for m >= 0 a clipped weight lies in [-m, m]; a weight is kept iff it is already in range; below −m gives −m, above m gives m |
| LayeredWeights.ClipAllIdempotent | src/main/java/it/units/erallab/hmsrobots/core/controllers/snndiscr/QuantizedLearningMultilayerSpikingNetwork.java:175-183 | clipping twice is clipping once |
| LayeredWeights.ClipAllBounded | src/main/java/it/units/erallab/hmsrobots/core/controllers/snndiscr/QuantizedLearningMultilayerSpikingNetwork.java:175-183 | every clipped weight lies in [-m, m], and weights already in range are unchanged |
| LayeredWeights.ClipWeights | src/main/java/it/units/erallab/hmsrobots/core/controllers/snndiscr/QuantizedLearningMultilayerSpikingNetwork.java:175-183 | the triple loop computes `ClipAll` |
| LayeredWeights.ClipLayer | src/main/java/it/units/erallab/hmsrobots/core/controllers/snndiscr/QuantizedLearningMultilayerSpikingNetwork.java:177-181 | one layer clipped entry by entry |
| LayeredWeights.ClipRow | src/main/java/it/units/erallab/hmsrobots/core/controllers/snndiscr/QuantizedLearningMultilayerSpikingNetwork.java:178-180 | one row clipped entry by entry |
| LayeredWeights.CopyWeights | src/main/java/it/units/erallab/hmsrobots/core/controllers/snndiscr/QuantizedLearningMultilayerSpikingNetwork.java:246-258 | the copy equals the initial weights element-wise |
| QuantizedLearning.HistoryLength | src/main/java/it/units/erallab/hmsrobots/core/controllers/snndiscr/QuantizedLearningMultilayerSpikingNetwork.java:18-54 | the window `(int)(2.5·A) − A` holds at least A entries |
| QuantizedLearning.PairsWithPositive | src/main/java/it/units/erallab/hmsrobots/core/controllers/snndiscr/QuantizedLearningMultilayerSpikingNetwork.java:127-152 | only the positive entries of the pre-synaptic array take part in a pair |
| QuantizedLearning.PairsWithSilent | src/main/java/it/units/erallab/hmsrobots/core/controllers/snndiscr/QuantizedLearningMultilayerSpikingNetwork.java:127-136 | with no positive pre-synaptic entry there is nothing to add |
| QuantizedLearning.BackwardSumSilent | src/main/java/it/units/erallab/hmsrobots/core/controllers/snndiscr/QuantizedLearningMultilayerSpikingNetwork.java:124-138 | a neuron with no positive entry this step gets no backward update |
| QuantizedLearning.ForwardSumSilent | src/main/java/it/units/erallab/hmsrobots/core/controllers/snndiscr/QuantizedLearningMultilayerSpikingNetwork.java:146-154 | a neuron with no positive entry this step gives no forward update |
| QuantizedLearning.SilentSynapseKeepsWeight | src/main/java/it/units/erallab/hmsrobots/core/controllers/snndiscr/QuantizedLearningMultilayerSpikingNetwork.java:122-156 | a synapse whose two neurons had no positive entry this step keeps its weight through a learning pass |
| QuantizedLearning.PairsWithZeroScale | src/main/java/it/units/erallab/hmsrobots/core/controllers/snndiscr/QuantizedLearningMultilayerSpikingNetwork.java:114-134 | with `deltaTF = 0` every positive entry adds `computeDeltaW(0)` |
| QuantizedLearning.Learned | src/main/java/it/units/erallab/hmsrobots/core/controllers/snndiscr/QuantizedLearningMultilayerSpikingNetwork.java:118-158 | the weights after a learning pass: each synapse gets its backward sum (current and window entries, the latter offset by `+ARRAY_SIZE`) plus its forward sum, whatever the visiting order |
| QuantizedLearning.Bump | src/main/java/it/units/erallab/hmsrobots/core/controllers/snndiscr/QuantizedLearningMultilayerSpikingNetwork.java:139-150 | `w[a][p][b] += d` changes that entry only |
| QuantizedLearning.BumpTwice | src/main/java/it/units/erallab/hmsrobots/core/controllers/snndiscr/QuantizedLearningMultilayerSpikingNetwork.java:150 | two additions to one entry are one addition of the sum |
| QuantizedLearning.BumpZero | src/main/java/it/units/erallab/hmsrobots/core/controllers/snndiscr/QuantizedLearningMultilayerSpikingNetwork.java:124-139 | adding 0 changes nothing |
| QuantizedLearning.Positive | src/main/java/it/units/erallab/hmsrobots/core/controllers/snndiscr/QuantizedLearningMultilayerSpikingNetwork.java:126-149 | exactly the positive entries, in order |
| QuantizedLearning.BackwardDeltaW | src/main/java/it/units/erallab/hmsrobots/core/controllers/snndiscr/QuantizedLearningMultilayerSpikingNetwork.java:124-138 | the nested loops compute the backward sum: `(tOut − tIn)·deltaTF` against current entries and `(tOut − tIn + ARRAY_SIZE)·deltaTF` against the window, positive entries only |
| QuantizedLearning.ForwardUpdate | src/main/java/it/units/erallab/hmsrobots/core/controllers/snndiscr/QuantizedLearningMultilayerSpikingNetwork.java:145-155 | the in-place forward updates of one synapse add up to its forward sum |
| QuantizedLearning.LearnBackward | src/main/java/it/units/erallab/hmsrobots/core/controllers/snndiscr/QuantizedLearningMultilayerSpikingNetwork.java:122-141 | visiting neuron n of layer l > 0 adds the backward sum to exactly its incoming synapses |
| QuantizedLearning.LearnForward | src/main/java/it/units/erallab/hmsrobots/core/controllers/snndiscr/QuantizedLearningMultilayerSpikingNetwork.java:144-156 | visiting neuron n of a layer before the last adds the forward sum to exactly its outgoing synapses |
| QuantizedLearning.LearnLayer | src/main/java/it/units/erallab/hmsrobots/core/controllers/snndiscr/QuantizedLearningMultilayerSpikingNetwork.java:119-157 | after a layer's neurons, every synapse holds the contributions of the neurons visited so far |
| QuantizedLearning.Learn | src/main/java/it/units/erallab/hmsrobots/core/controllers/snndiscr/QuantizedLearningMultilayerSpikingNetwork.java:117-159 | the whole in-place pass yields `Learned`: layer 0 gets no backward and the last layer no forward learning |
| QuantizedLearning.Shifted | src/main/java/it/units/erallab/hmsrobots/core/controllers/snndiscr/QuantizedLearningMultilayerSpikingNetwork.java:164-165 | the two `arraycopy` calls keep the window length |
| QuantizedLearning.ShiftedIsSlidingWindow | src/main/java/it/units/erallab/hmsrobots/core/controllers/snndiscr/QuantizedLearningMultilayerSpikingNetwork.java:161-167 | the new window is the last `W−A` entries of old window + current spikes: its first `W−2A` are old entries `A..W−A`, its last A are the current spikes |
| QuantizedLearning.ShiftedTwice | src/main/java/it/units/erallab/hmsrobots/core/controllers/snndiscr/QuantizedLearningMultilayerSpikingNetwork.java:161-167 | two steps slide the window over both steps' spikes |
| QuantizedLearning.ShiftAll | src/main/java/it/units/erallab/hmsrobots/core/controllers/snndiscr/QuantizedLearningMultilayerSpikingNetwork.java:161-167 | every neuron's window is shifted, and the shape is kept |
| QuantizedLearning.ShiftHistory | src/main/java/it/units/erallab/hmsrobots/core/controllers/snndiscr/QuantizedLearningMultilayerSpikingNetwork.java:161-167 | the loop computes `ShiftAll` and keeps every window `W−A` long |
| QuantizedLearning.ZeroHistory | src/main/java/it/units/erallab/hmsrobots/core/controllers/snndiscr/QuantizedLearningMultilayerSpikingNetwork.java:50-56 | one all-zero window of `W−A` entries per neuron |
| QuantizedLearning.ClearHistory | src/main/java/it/units/erallab/hmsrobots/core/controllers/snndiscr/QuantizedLearningMultilayerSpikingNetwork.java:268-272 | `Arrays.fill(neuron, 0)`: same shape, every entry 0 |
| QuantizedLearning.NextWeights | src/main/java/it/units/erallab/hmsrobots/core/controllers/snndiscr/QuantizedLearningMultilayerSpikingNetwork.java:117-170 | learned only while `t <= lastLearningTime`, then clipped if clipping is on; the shape is kept |
| QuantizedLearning.LearnAndClip | src/main/java/it/units/erallab/hmsrobots/core/controllers/snndiscr/QuantizedLearningMultilayerSpikingNetwork.java:117-170 | the learning pass followed by `clipWeights` computes `NextWeights` |
| QuantizedLearning.NextWeightsBounded | src/main/java/it/units/erallab/hmsrobots/core/controllers/snndiscr/QuantizedLearningMultilayerSpikingNetwork.java:168-183 | with clipping on and m >= 0 every weight after `apply` lies in [-m, m] |
| QuantizedLearning.NextWeightsFrozen | src/main/java/it/units/erallab/hmsrobots/core/controllers/snndiscr/QuantizedLearningMultilayerSpikingNetwork.java:117-168 | past `lastLearningTime` and with clipping off, `apply` leaves the weights as they were |
| QuantizedLearning.Record | src/main/java/it/units/erallab/hmsrobots/core/controllers/snndiscr/QuantizedLearningMultilayerSpikingNetwork.java:171 | `weightsInTime.put(t, flat(weights))` |
| QuantizedLearning.ApplyStep | src/main/java/it/units/erallab/hmsrobots/core/controllers/snndiscr/QuantizedLearningMultilayerSpikingNetwork.java:112-173 | learning, shifting and recording compute `Applied`, and keep the weight and window shapes |
| QuantizedLearning.Network.constructor | src/main/java/it/units/erallab/hmsrobots/core/controllers/snndiscr/QuantizedLearningMultilayerSpikingNetwork.java:34-57 | the weights start as a copy of `initialWeights`, every window all zero, `lastLearningTime` +∞ |
| QuantizedLearning.Network.Apply | src/main/java/it/units/erallab/hmsrobots/core/controllers/snndiscr/QuantizedLearningMultilayerSpikingNetwork.java:112-173 | `timeWindowSize = t − previousApplicationTime`, `deltaTF = 1000·timeWindowSize/A`; the new weights, windows and record are `Applied` of the old ones; clipping settings and `lastLearningTime` are kept |
| QuantizedLearning.Network.ClipInPlace | src/main/java/it/units/erallab/hmsrobots/core/controllers/snndiscr/QuantizedLearningMultilayerSpikingNetwork.java:175-183 | the weights become `ClipAll` of the old ones, nothing else changes |
| QuantizedLearning.Network.EnableWeightsClipping | src/main/java/it/units/erallab/hmsrobots/core/controllers/snndiscr/QuantizedLearningMultilayerSpikingNetwork.java:185-188 | clipping on with the given bound, nothing else changes |
| QuantizedLearning.Network.EnableDefaultWeightsClipping | src/main/java/it/units/erallab/hmsrobots/core/controllers/snndiscr/QuantizedLearningMultilayerSpikingNetwork.java:190-192 | clipping on with the bound 1.2 |
| QuantizedLearning.Network.DisableWeightsClipping | src/main/java/it/units/erallab/hmsrobots/core/controllers/snndiscr/QuantizedLearningMultilayerSpikingNetwork.java:194-196 | clipping off, the bound kept |
| QuantizedLearning.Network.SetLastLearningTime | src/main/java/it/units/erallab/hmsrobots/core/controllers/snndiscr/QuantizedLearningMultilayerSpikingNetwork.java:260-262 | sets `lastLearningTime` only |
| QuantizedLearning.Network.Reset | src/main/java/it/units/erallab/hmsrobots/core/controllers/snndiscr/QuantizedLearningMultilayerSpikingNetwork.java:264-273 | the weights equal `initialWeights` and every window entry is 0; settings kept |
| LearningNetwork.Distance | src/main/java/it/units/erallab/hmsrobots/core/controllers/snn/LearningMultilayerSpikingNetwork.java:126 | `Math.abs(tOut − tIn)` is non-negative and one of the two differences |
| LearningNetwork.PairsWithinFar | src/main/java/it/units/erallab/hmsrobots/core/controllers/snn/LearningMultilayerSpikingNetwork.java:125-129 | pre-synaptic spikes more than 0.04 from `tOut` add nothing |
| LearningNetwork.WindowSumFar | src/main/java/it/units/erallab/hmsrobots/core/controllers/snn/LearningMultilayerSpikingNetwork.java:124-130 | with no pair within 0.04 the sum is 0 |
| LearningNetwork.NoPairInWindow | src/main/java/it/units/erallab/hmsrobots/core/controllers/snn/LearningMultilayerSpikingNetwork.java:124-130 | for spike sets, `deltaW` is 0 when no pair is within the 0.04 window |
| LearningNetwork.Ascending | src/main/java/it/units/erallab/hmsrobots/core/controllers/snn/LearningMultilayerSpikingNetwork.java:124-125 | a sorted set is iterated in ascending order |
| LearningNetwork.SynapseDeltaW | src/main/java/it/units/erallab/hmsrobots/core/controllers/snn/LearningMultilayerSpikingNetwork.java:121-130 | the loops compute `deltaW` against the union of the previous and current pre-synaptic spikes |
| LearningNetwork.Diagonal | src/main/java/it/units/erallab/hmsrobots/core/controllers/snn/LearningMultilayerSpikingNetwork.java:95-101 | square, 1 (or 100 for an Izhikevich neuron) on the diagonal, 0 elsewhere |
| LearningNetwork.InputWeights | src/main/java/it/units/erallab/hmsrobots/core/controllers/snn/LearningMultilayerSpikingNetwork.java:95-101 | the loop builds `Diagonal` |
| LearningNetwork.Transposed | src/main/java/it/units/erallab/hmsrobots/core/controllers/snn/LearningMultilayerSpikingNetwork.java:143-148 | `incomingWeights[i][j] == weights[l][j][i]`, with the transposed shape |
| LearningNetwork.TransposedTwice | src/main/java/it/units/erallab/hmsrobots/core/controllers/snn/LearningMultilayerSpikingNetwork.java:143-148 | transposing twice gives the matrix back |
| LearningNetwork.IncomingWeights | src/main/java/it/units/erallab/hmsrobots/core/controllers/snn/LearningMultilayerSpikingNetwork.java:143-148 | the loop builds `Transposed` |
| LearningNetwork.AbsoluteMembers | src/main/java/it/units/erallab/hmsrobots/core/controllers/snn/LearningMultilayerSpikingNetwork.java:115-116 | the absolute spike set holds exactly `previousApplicationTime + deltaT·x` for the emitted x |
| LearningNetwork.AbsoluteLayerAt | src/main/java/it/units/erallab/hmsrobots/core/controllers/snn/LearningMultilayerSpikingNetwork.java:115-116 | neuron n of a layer gets its own spikes in absolute time |
| LearningNetwork.LayerResponseSnoc | src/main/java/it/units/erallab/hmsrobots/core/controllers/snn/LearningMultilayerSpikingNetwork.java:111-114 | neuron n's output is its response to the previous layer's outputs through its incoming weights |
| LearningNetwork.Outputs | src/main/java/it/units/erallab/hmsrobots/core/controllers/snn/LearningMultilayerSpikingNetwork.java:92-150 | layer l's outputs, one per neuron |
| LearningNetwork.OutputsDependOnEarlierWeights | src/main/java/it/units/erallab/hmsrobots/core/controllers/snn/LearningMultilayerSpikingNetwork.java:131-149 | layer l's outputs read only the weights before layer l: propagation uses start-of-step weights although learning writes them |
| LearningNetwork.AbsoluteOutputsAt | src/main/java/it/units/erallab/hmsrobots/core/controllers/snn/LearningMultilayerSpikingNetwork.java:103-116 | layer l's absolute spikes are its outputs mapped to absolute time |
| LearningNetwork.LearnedColumnsAt | src/main/java/it/units/erallab/hmsrobots/core/controllers/snn/LearningMultilayerSpikingNetwork.java:118-132 | after the first n neurons of a layer, the synapses into them have their `deltaW` added and the others are unchanged |
| LearningNetwork.LearnedUpToAt | src/main/java/it/units/erallab/hmsrobots/core/controllers/snn/LearningMultilayerSpikingNetwork.java:108-150 | after the first k layers exactly the weight layers into them have learned |
| LearningNetwork.LearnedWeightsAt | src/main/java/it/units/erallab/hmsrobots/core/controllers/snn/LearningMultilayerSpikingNetwork.java:118-132 | each synapse ends at its start weight plus `deltaW` of its post-synaptic spikes against the previous and current pre-synaptic spikes |
| LearningNetwork.LearnedColumnsNone | src/main/java/it/units/erallab/hmsrobots/core/controllers/snn/LearningMultilayerSpikingNetwork.java:118-132 | before any neuron is visited nothing has changed |
| LearningNetwork.LearnColumn | src/main/java/it/units/erallab/hmsrobots/core/controllers/snn/LearningMultilayerSpikingNetwork.java:120-132 | the synapses into neuron n get their `deltaW`, all others are unchanged |
| LearningNetwork.LearnedColumnsStep | src/main/java/it/units/erallab/hmsrobots/core/controllers/snn/LearningMultilayerSpikingNetwork.java:111-139 | learning one more neuron extends the partial result by one column |
| LearningNetwork.VisitInputLayer | src/main/java/it/units/erallab/hmsrobots/core/controllers/snn/LearningMultilayerSpikingNetwork.java:108-117 | layer 0 responds through the diagonal gain and learns nothing |
| LearningNetwork.VisitNeuron | src/main/java/it/units/erallab/hmsrobots/core/controllers/snn/LearningMultilayerSpikingNetwork.java:111-133 | one neuron: response, absolute times, and learning of its incoming synapses |
| LearningNetwork.VisitLayer | src/main/java/it/units/erallab/hmsrobots/core/controllers/snn/LearningMultilayerSpikingNetwork.java:110-139 | all neurons of a layer, in index order |
| LearningNetwork.PropagateLayer | src/main/java/it/units/erallab/hmsrobots/core/controllers/snn/LearningMultilayerSpikingNetwork.java:108-150 | one pass of the layer loop keeps outputs, absolute times and learned weights equal to their specifications |
| LearningNetwork.Propagate | src/main/java/it/units/erallab/hmsrobots/core/controllers/snn/LearningMultilayerSpikingNetwork.java:92-150 | the layer loop yields `AbsoluteOutputs`, `LearnedWeights` and the last layer's `Outputs` |
| LearningNetwork.Applied | src/main/java/it/units/erallab/hmsrobots/core/controllers/snn/LearningMultilayerSpikingNetwork.java:87-159 | what `apply` leaves keeps the weight and history shapes |
| LearningNetwork.ApplyStep | src/main/java/it/units/erallab/hmsrobots/core/controllers/snn/LearningMultilayerSpikingNetwork.java:92-158 | propagation, learning, remembering and clipping compute `Applied` |
| LearningNetwork.AppliedBounded | src/main/java/it/units/erallab/hmsrobots/core/controllers/snn/LearningMultilayerSpikingNetwork.java:154-169 | with clipping on and m >= 0 every weight after `apply` lies in [-m, m] |
| LearningNetwork.AppliedRemembersAbsoluteTimes | src/main/java/it/units/erallab/hmsrobots/core/controllers/snn/LearningMultilayerSpikingNetwork.java:115-153 | after `apply`, neuron (l, n)'s remembered spikes are exactly `previousApplicationTime + deltaT·x` for its emitted x |
| LearningNetwork.QuietSynapseKeepsWeight | src/main/java/it/units/erallab/hmsrobots/core/controllers/snn/LearningMultilayerSpikingNetwork.java:122-131 | a synapse with no pair within 0.04 keeps its weight |
| LearningNetwork.EmptyHistory | src/main/java/it/units/erallab/hmsrobots/core/controllers/snn/LearningMultilayerSpikingNetwork.java:48-54 | one empty set per neuron |
| LearningNetwork.Network.constructor | src/main/java/it/units/erallab/hmsrobots/core/controllers/snn/LearningMultilayerSpikingNetwork.java:36-55 | the weights start as a copy of `initialWeights`, every history set empty |
| LearningNetwork.Network.Apply | src/main/java/it/units/erallab/hmsrobots/core/controllers/snn/LearningMultilayerSpikingNetwork.java:87-159 | a wrong input length is the `IllegalArgumentException` error and changes nothing; otherwise weights, history and outputs are `Applied` of the old state and of the neuron responses given for this application, and `previousApplicationTime == t` |
| LearningNetwork.Network.EnableWeightsClipping | src/main/java/it/units/erallab/hmsrobots/core/controllers/snn/LearningMultilayerSpikingNetwork.java:171-174 | clipping on with the given bound, nothing else changes |
| LearningNetwork.Network.EnableDefaultWeightsClipping | src/main/java/it/units/erallab/hmsrobots/core/controllers/snn/LearningMultilayerSpikingNetwork.java:176-178 | clipping on with the bound 1.2 |
| LearningNetwork.Network.DisableWeightsClipping | src/main/java/it/units/erallab/hmsrobots/core/controllers/snn/LearningMultilayerSpikingNetwork.java:180-182 | clipping off, the bound kept |
| LearningNetwork.Network.Reset | src/main/java/it/units/erallab/hmsrobots/core/controllers/snn/LearningMultilayerSpikingNetwork.java:246-250 | the weights equal `initialWeights`; the remembered spikes are kept |
| DistributedSensing.Dir.Adjacent | src/main/java/it/units/erallab/hmsrobots/core/controllers/snndiscr/QuantizedDistributedSpikingSensing.java:21-45 | the adjacent direction has the negated `dx`/`dy`, differs from the direction, and has the index two places on |
| DistributedSensing.AdjacentInvolution | src/main/java/it/units/erallab/hmsrobots/core/controllers/snndiscr/QuantizedDistributedSpikingSensing.java:38-45 | `adjacent(adjacent(d)) == d` |
| DistributedSensing.IndicesDistinct | src/main/java/it/units/erallab/hmsrobots/core/controllers/snndiscr/QuantizedDistributedSpikingSensing.java:23-26 | the indices of N, E, S, W are 0..3 in declaration order and distinct |
| DistributedSensing.StartIsIndexTimesSignals | src/main/java/it/units/erallab/hmsrobots/core/controllers/snndiscr/QuantizedDistributedSpikingSensing.java:154-163 | the counter c reaches direction d at `d.index·signals` |
| DistributedSensing.SlotsDisjoint | src/main/java/it/units/erallab/hmsrobots/core/controllers/snndiscr/QuantizedDistributedSpikingSensing.java:161 | the slots of two directions do not overlap |
| DistributedSensing.ArrayCopy | src/main/java/it/units/erallab/hmsrobots/core/controllers/snndiscr/QuantizedDistributedSpikingSensing.java:140-161 | `System.arraycopy`: rows `[destPos, destPos+length)` come from the source at `srcPos`, the others are kept |
| DistributedSensing.Neighbour | src/main/java/it/units/erallab/hmsrobots/core/controllers/snndiscr/QuantizedDistributedSpikingSensing.java:158-159 | `Grid.get` has a buffer exactly inside the grid, and then it is that cell's |
| DistributedSensing.LastSignals | src/main/java/it/units/erallab/hmsrobots/core/controllers/snndiscr/QuantizedDistributedSpikingSensing.java:149-171 | `getLastSignals` has `signals·4` rows |
| DistributedSensing.LastSignalsSlot | src/main/java/it/units/erallab/hmsrobots/core/controllers/snndiscr/QuantizedDistributedSpikingSensing.java:154-169 | row `d.index·signals + k` is the neighbour's row `adjacent(d).index·signals + k`, or a fresh all-zero row of `ARRAY_SIZE` entries when there is no neighbour |
| DistributedSensing.GatherSlots | src/main/java/it/units/erallab/hmsrobots/core/controllers/snndiscr/QuantizedDistributedSpikingSensing.java:154-164 | the direction loop fills every slot with the gathered neighbour row or leaves it null |
| DistributedSensing.GatherDirection | src/main/java/it/units/erallab/hmsrobots/core/controllers/snndiscr/QuantizedDistributedSpikingSensing.java:156-163 | one direction copies the neighbour's opposite slot to rows `[c, c+signals)` and advances c by `signals` |
| DistributedSensing.FillSlots | src/main/java/it/units/erallab/hmsrobots/core/controllers/snndiscr/QuantizedDistributedSpikingSensing.java:165-169 | null rows become zero rows, the others are kept |
| DistributedSensing.Sensing.GetLastSignals | src/main/java/it/units/erallab/hmsrobots/core/controllers/snndiscr/QuantizedDistributedSpikingSensing.java:149-171 | the method returns `LastSignals` of the `lastSignals` grid |
| DistributedSensing.CellInputs | src/main/java/it/units/erallab/hmsrobots/core/controllers/snndiscr/QuantizedDistributedSpikingSensing.java:131-177 | a cell's input is its neighbour signals followed by its encoded sensor readings |
| DistributedSensing.ControlSignal | src/main/java/it/units/erallab/hmsrobots/core/controllers/snndiscr/QuantizedDistributedSpikingSensing.java:127-139 | a control signal exists exactly for occupied cells, decoded from `outputs[0]` over `t − previousTime` |
| DistributedSensing.NextBuffer | src/main/java/it/units/erallab/hmsrobots/core/controllers/snndiscr/QuantizedDistributedSpikingSensing.java:140 | rows `0..|outputs|−2` become `outputs[1..]`, the remaining rows are kept |
| DistributedSensing.NextCell | src/main/java/it/units/erallab/hmsrobots/core/controllers/snndiscr/QuantizedDistributedSpikingSensing.java:127-140 | the buffer keeps `signals·4` rows and an empty cell's buffer is untouched |
| DistributedSensing.ReceivedFromNeighbour | src/main/java/it/units/erallab/hmsrobots/core/controllers/snndiscr/QuantizedDistributedSpikingSensing.java:154-164 | the row a cell sends towards d is the row its neighbour in direction d reads from it |
| DistributedSensing.SignalsReachNeighbour | src/main/java/it/units/erallab/hmsrobots/core/controllers/snndiscr/QuantizedDistributedSpikingSensing.java:131-164 | at the next step, the neighbour in direction d reads `outputs[1 + d.index·signals + k]` of this cell's network |
| DistributedSensing.CopyGrid | src/main/java/it/units/erallab/hmsrobots/core/controllers/snndiscr/QuantizedDistributedSpikingSensing.java:143-145 | the copy loop makes `lastSignals` equal to `currentSignals` |
| DistributedSensing.Sensing.constructor | src/main/java/it/units/erallab/hmsrobots/core/controllers/snndiscr/QuantizedDistributedSpikingSensing.java:65-83 | the settings as given, both grids zero, `previousTime` 0 |
| DistributedSensing.Sensing.Reset | src/main/java/it/units/erallab/hmsrobots/core/controllers/snndiscr/QuantizedDistributedSpikingSensing.java:104-121 | `previousTime` 0 and both grids zero buffers of `(signals·4) × ARRAY_SIZE` |
| DistributedSensing.Sensing.ComputeCell | src/main/java/it/units/erallab/hmsrobots/core/controllers/snndiscr/QuantizedDistributedSpikingSensing.java:127-140 | one cell: its control signal and its next buffer, read from `lastSignals` only |
| DistributedSensing.Sensing.ComputeColumn | src/main/java/it/units/erallab/hmsrobots/core/controllers/snndiscr/QuantizedDistributedSpikingSensing.java:126-141 | the cells of one column |
| DistributedSensing.Sensing.ComputeCells | src/main/java/it/units/erallab/hmsrobots/core/controllers/snndiscr/QuantizedDistributedSpikingSensing.java:126-141 | the per-cell loop computes every control signal and next buffer from the start-of-step grids and changes no field |
| DistributedSensing.Sensing.ComputeControlSignals | src/main/java/it/units/erallab/hmsrobots/core/controllers/snndiscr/QuantizedDistributedSpikingSensing.java:123-147 | every control signal and new buffer is computed from the old `lastSignals`; then `previousTime == t` and `lastSignals == currentSignals` |

## Left out

- The forward passes of the parent classes are not part of this model. These are `QuantizedMultilayerSpikingNetwork.apply`, `MultilayerSpikingNetwork` and `createWeightedSpikeTrain`. The quantized engine takes this step's spike arrays as the argument `currentSpikes`. It also takes the parent's field `previousApplicationTime` as an argument that the caller supplies. The continuous engine's `Network.Apply` takes each neuron's emitted spike set from its parameter `respond`. A caller passes a new `respond` at each application, since a neuron's response depends on `t` and on the membrane potential and `lastEvaluatedTime` it carries between applications. The model does not connect these per-application responses to `SpikingNeuron.Neuron` or to each other.
- Neither engine models `super.reset()`. The continuous `reset` therefore keeps `previousApplicationTime`.
- The continuous `reset` keeps the remembered spikes, because the code does not clear `previousTimeOutputSpikes`. The quantized `reset` does clear its windows.
- The `spikesTracker` telemetry of the continuous `apply` is left out, and so are the plot-mode maps of the neuron. Neither affects weights, spikes or times.
- The quantized engine uses the values of the spike arrays as entry times, as the code does.
- `initializeLearningRules`, the convenience constructors and `getLearningRules` are not modelled. They only allocate default rule objects. The rules are the parameters `learningRules` and `computeDeltaW`.
- The learning rules' kernels `computeG`/`computeDeltaW` are parameters. They are exponentials in classes that are not part of this model.
- The neuron dynamics `acceptWeightedSpike`/`resetAfterSpike` are parameters for the same reason.
- `Double.parseDouble` and `Integer.parseInt` are parameters returning an `Option`.
- The floating-point sub-step grid of `SpikingNeuron.compute` is given as the sequence `subSteps`, because its points depend on rounding.
- The order and rounding of floating-point sums are not modelled: `real` addition is exact.
- Shallow copies and aliasing are not modelled. This covers the rows shared by `System.arraycopy` and the `Grid` objects. The model works on values and states the contents only.
- QuantizedLearning.Record: records `flat(weights, neurons)`, the `double[][][]` overload inherited from a parent class that is not part of this model. The model assumes that overload uses the same layout as the learning rules' `flat` (`FlatSpec`).
- LayeredWeights.Count: stands for `countWeights(neurons)`, which the engines inherit from a parent class that is not part of this model. The model assumes it is the sum of `topology[i]·topology[i+1]`.
- SNNState.SNNState.constructor: also passes the weights and a range to `MLPState`, which is not part of this model. Neither is modelled.
- DistributedSensing.Sensing.Reset: does not model resetting the cells' converters and networks. `encode`, `respond` and `decode` are pure parameters with no state.
- DistributedSensing.Sensing.ComputeControlSignals: does not model the `Voxel` and sensor I/O. Each step gives the occupied cells and their readings as `Step.voxels`.
- DistributedSensing.Sensing.ComputeControlSignals: requires `StepFits`, which says every network returns between 1 and `1 + signals·4` rows. Java throws for other counts, and the model does not represent that exception.
- DistributedSensing.Sensing.ComputeControlSignals: visits the cells column by column, not in the `Grid` iterator's order. The result does not depend on the order, because each cell reads only the start-of-step grids.
- `signals` is a `nat`. The `signals <= 0` early return is modelled for 0 only, because a negative count cannot size an array.
- The converters' default `reset` is empty, so the stateless converter model has nothing to reset.
- Jackson annotations, serialization, `SerializationUtils.clone` and `toString` are left out.
- `RNN.java` and `ScopedReadings.java` are not modelled. They are builder plumbing and a plain field holder.
