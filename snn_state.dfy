/**
 * SNNState: an immutable snapshot of a quantized network's spikes. The
 * constructor stores a deep copy of the spike tensor, so later writes to the
 * caller's arrays never reach the snapshot, and computes one firing rate per
 * neuron with that neuron's decoder. A decoder's `convert` is a parameter.
 */
module SNNState {

  /** `copyOf(int[][])`: fresh rows with the same contents. */
  method CopyOf2(o: array<array<int>>) returns (c: array<array<int>>)
    ensures fresh(c) && c.Length == o.Length
    ensures forall i :: 0 <= i < c.Length ==> fresh(c[i]) && c[i][..] == o[i][..]
  {
    var empty := new int[0];
    c := new array<int>[o.Length](_ => empty);
    for i := 0 to o.Length
      invariant forall k :: 0 <= k < i ==> fresh(c[k]) && c[k][..] == o[k][..]
    {
      var src := o[i];
      var row := new int[src.Length](j requires 0 <= j < src.Length reads src => src[j]);
      c[i] := row;
    }
  }

  /** `copyOf(double[][])` */
  method CopyOf2Real(o: array<array<real>>) returns (c: array<array<real>>)
    ensures fresh(c) && c.Length == o.Length
    ensures forall i :: 0 <= i < c.Length ==> fresh(c[i]) && c[i][..] == o[i][..]
  {
    var empty := new real[0];
    c := new array<real>[o.Length](_ => empty);
    for i := 0 to o.Length
      invariant forall k :: 0 <= k < i ==> fresh(c[k]) && c[k][..] == o[k][..]
    {
      var src := o[i];
      var row := new real[src.Length](j requires 0 <= j < src.Length reads src => src[j]);
      c[i] := row;
    }
  }

  /** The contents of a spike tensor as a value. */
  function Contents(a: array<array<array<int>>>): (r: seq<seq<seq<int>>>)
    reads a, set i | 0 <= i < a.Length :: a[i]
    reads set i, j | 0 <= i < a.Length && 0 <= j < a[i].Length :: a[i][j]
    ensures |r| == a.Length
    ensures forall i :: 0 <= i < a.Length ==>
              |r[i]| == a[i].Length && forall j :: 0 <= j < a[i].Length ==> r[i][j] == a[i][j][..]
  {
    seq(a.Length, i requires 0 <= i < a.Length
                    reads a, set i | 0 <= i < a.Length :: a[i]
                    reads set i, j | 0 <= i < a.Length && 0 <= j < a[i].Length :: a[i][j] =>
      seq(a[i].Length, j requires 0 <= j < a[i].Length
                         reads a, set i | 0 <= i < a.Length :: a[i]
                         reads set i, j | 0 <= i < a.Length && 0 <= j < a[i].Length :: a[i][j] =>
        a[i][j][..]))
  }

  /** A tensor whose every spike train reads as the matching train of `v` has the contents `v`. */
  lemma ContentsAre(a: array<array<array<int>>>, v: seq<seq<seq<int>>>)
    requires a.Length == |v|
    requires forall i :: 0 <= i < a.Length ==>
               a[i].Length == |v[i]| && forall j :: 0 <= j < a[i].Length ==> a[i][j][..] == v[i][j]
    ensures Contents(a) == v
  {
    var c := Contents(a);
    forall i | 0 <= i < a.Length ensures c[i] == v[i] {
      assert |c[i]| == |v[i]|;
    }
  }

  /** `copyOf(int[][][])`: a deep copy, fresh at every level. */
  method CopyOf3(o: array<array<array<int>>>) returns (c: array<array<array<int>>>)
    ensures fresh(c) && c.Length == o.Length
    ensures forall i :: 0 <= i < c.Length ==>
              fresh(c[i]) && c[i].Length == o[i].Length &&
              forall j :: 0 <= j < c[i].Length ==> fresh(c[i][j]) && c[i][j][..] == o[i][j][..]
  {
    var empty := new array<int>[0];
    c := new array<array<int>>[o.Length](_ => empty);
    for i := 0 to o.Length
      invariant forall k :: 0 <= k < i ==>
                  fresh(c[k]) && c[k].Length == o[k].Length &&
                  forall j :: 0 <= j < c[k].Length ==> fresh(c[k][j]) && c[k][j][..] == o[k][j][..]
    {
      var layer := CopyOf2(o[i]);
      c[i] := layer;
    }
  }

  /** `copyOf(double[][][])` */
  method CopyOf3Real(o: array<array<array<real>>>) returns (c: array<array<array<real>>>)
    ensures fresh(c) && c.Length == o.Length
    ensures forall i :: 0 <= i < c.Length ==>
              fresh(c[i]) && c[i].Length == o[i].Length &&
              forall j :: 0 <= j < c[i].Length ==> fresh(c[i][j]) && c[i][j][..] == o[i][j][..]
  {
    var empty := new array<real>[0];
    c := new array<array<real>>[o.Length](_ => empty);
    for i := 0 to o.Length
      invariant forall k :: 0 <= k < i ==>
                  fresh(c[k]) && c[k].Length == o[k].Length &&
                  forall j :: 0 <= j < c[k].Length ==> fresh(c[k][j]) && c[k][j][..] == o[k][j][..]
    {
      var layer := CopyOf2Real(o[i]);
      c[i] := layer;
    }
  }

  /** The converters cover every neuron of the spike tensor. */
  predicate ConvertersCover<C>(spikes: array<array<array<int>>>, converters: array<array<C>>)
    reads spikes, converters
  {
    converters.Length >= spikes.Length &&
    forall l :: 0 <= l < spikes.Length ==> converters[l].Length >= spikes[l].Length
  }

  /** `row` holds one rate per neuron of a layer: what the neuron's decoder makes of its spikes. */
  ghost predicate LayerRates<C>(row: array<real>, spikes: array<array<int>>, converters: array<C>,
                                convert: (C, seq<int>, real) -> real, timeWindowSize: real)
    reads row, spikes, set n | 0 <= n < spikes.Length :: spikes[n], converters
  {
    && row.Length == spikes.Length
    && converters.Length >= spikes.Length
    && forall n :: 0 <= n < row.Length ==> row[n] == convert(converters[n], spikes[n][..], timeWindowSize)
  }

  /** The inner loop of `computeFiringRates`: one rate per neuron of a layer, each from that neuron's decoder. */
  method LayerFiringRates<C>(spikes: array<array<int>>, converters: array<C>, convert: (C, seq<int>, real) -> real,
                             timeWindowSize: real)
    returns (row: array<real>)
    requires converters.Length >= spikes.Length
    ensures fresh(row) && row.Length == spikes.Length
    ensures forall n :: 0 <= n < row.Length ==> row[n] == convert(converters[n], spikes[n][..], timeWindowSize)
  {
    row := new real[spikes.Length];
    for neuron := 0 to spikes.Length
      invariant forall n :: 0 <= n < neuron ==> row[n] == convert(converters[n], spikes[n][..], timeWindowSize)
    {
      row[neuron] := convert(converters[neuron], spikes[neuron][..], timeWindowSize);
    }
  }

  /** `computeFiringRates`: one rate per neuron, the same jagged shape as `spikes`. */
  method ComputeFiringRates<C>(spikes: array<array<array<int>>>, converters: array<array<C>>,
                               convert: (C, seq<int>, real) -> real, timeWindowSize: real)
    returns (rates: array<array<real>>)
    requires ConvertersCover(spikes, converters)
    ensures fresh(rates) && rates.Length == spikes.Length
    ensures forall l :: 0 <= l < rates.Length ==>
              fresh(rates[l]) && LayerRates(rates[l], spikes[l], converters[l], convert, timeWindowSize)
  {
    var empty := new real[0];
    rates := new array<real>[spikes.Length](_ => empty);
    for layer := 0 to spikes.Length
      invariant forall l :: 0 <= l < layer ==>
                  fresh(rates[l]) && LayerRates(rates[l], spikes[l], converters[l], convert, timeWindowSize)
    {
      var row := LayerFiringRates(spikes[layer], converters[layer], convert, timeWindowSize);
      rates[layer] := row;
    }
  }

  class SNNState {
    const spikes: array<array<array<int>>>
    /** The firing rates handed to the parent snapshot class. */
    const firingRates: array<array<real>>

    constructor<C>(spikes: array<array<array<int>>>, converters: array<array<C>>,
                   convert: (C, seq<int>, real) -> real, timeWindowSize: real)
      requires ConvertersCover(spikes, converters)
      ensures Contents(this.spikes) == old(Contents(spikes))
      ensures fresh(this.spikes)
      ensures forall i :: 0 <= i < this.spikes.Length ==>
                fresh(this.spikes[i]) && forall j :: 0 <= j < this.spikes[i].Length ==> fresh(this.spikes[i][j])
      ensures firingRates.Length == spikes.Length
      ensures forall l :: 0 <= l < firingRates.Length ==>
                LayerRates(firingRates[l], spikes[l], converters[l], convert, timeWindowSize)
    {
      ghost var before := Contents(spikes);
      var rates := ComputeFiringRates(spikes, converters, convert, timeWindowSize);
      var copy := CopyOf3(spikes);
      ContentsAre(copy, before);
      this.firingRates := rates;
      this.spikes := copy;
    }

    function GetSpikes(): array<array<array<int>>>
    {
      spikes
    }
  }

  /** A write to the constructor's argument after construction leaves the snapshot's spikes as they were. */
  method SnapshotIsolatedFromArgument<C>(spikes: array<array<array<int>>>, converters: array<array<C>>,
                                         convert: (C, seq<int>, real) -> real, timeWindowSize: real,
                                         l: nat, n: nat, k: nat, v: int)
    returns (state: SNNState)
    requires ConvertersCover(spikes, converters)
    requires l < spikes.Length && n < spikes[l].Length && k < spikes[l][n].Length
    modifies spikes[l][n]
    ensures spikes[l][n][k] == v
    ensures Contents(state.GetSpikes()) == old(Contents(spikes))
  {
    state := new SNNState(spikes, converters, convert, timeWindowSize);
    spikes[l][n][k] := v;
  }
}
