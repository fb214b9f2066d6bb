/**
 * LayeredWeights: the per-layer weight (or learning-rule) tensors of a
 * multilayer spiking network and the flat encoding both learning networks use.
 *
 * `topology[i]` is the number of neurons of layer `i` (`neurons[i].length`).
 * Layer `i`'s tensor `w[i]` has one row per neuron of layer `i` and one column
 * per neuron of layer `i + 1`: `w[i][k][j]` belongs to the synapse from neuron
 * `k` of layer `i` to neuron `j` of layer `i + 1`.
 *
 * The flat encoding lists, layer after layer, the synapses INCOMING to each
 * neuron `j` of the next layer, in the order of their source neuron `k`; so
 * within one layer it lists the tensor column by column.
 */
module LayeredWeights {

  /**
   * Where column `j` of a layer with `rows` rows starts in the column-by-column
   * listing: `j · rows` (`ColumnOffsetIsProduct`), written as a repeated sum so
   * that the proofs below stay in linear arithmetic.
   */
  function ColumnOffset(rows: nat, j: nat): nat
  {
    if j == 0 then 0 else ColumnOffset(rows, j - 1) + rows
  }

  lemma {:induction false} ColumnOffsetIsProduct(rows: nat, j: nat)
    ensures ColumnOffset(rows, j) == j * rows
  {
    if j > 0 {
      ColumnOffsetIsProduct(rows, j - 1);
    }
  }

  /** Synapses between layer `i` and layer `i + 1`: `topology[i] · topology[i + 1]`. */
  function LayerSize(topology: seq<nat>, i: nat): nat
    requires i + 1 < |topology|
  {
    ColumnOffset(topology[i], topology[i + 1])
  }

  /** Where layer `i`'s synapses start in the flat encoding: the synapses of the layers before it. */
  function Offset(topology: seq<nat>, i: nat): (r: nat)
    requires i < |topology|
  {
    if i == 0 then 0 else Offset(topology, i - 1) + LayerSize(topology, i - 1)
  }

  /** `countWeights(neurons)`: the number of synapses of the whole network. */
  function Count(topology: seq<nat>): nat
  {
    if |topology| == 0 then 0 else Offset(topology, |topology| - 1)
  }

  lemma {:induction false} OffsetMonotone(topology: seq<nat>, i: nat, j: nat)
    requires i <= j < |topology|
    ensures Offset(topology, i) <= Offset(topology, j)
    decreases j
  {
    if i < j {
      OffsetMonotone(topology, i, j - 1);
    }
  }

  /** Columns `0 .. j - 1` fit in the first `cols ≥ j` columns. */
  lemma {:induction false} ColumnsInLayer(rows: nat, cols: nat, j: nat)
    requires j <= cols
    ensures ColumnOffset(rows, j) <= ColumnOffset(rows, cols)
    decreases cols
  {
    if j < cols {
      ColumnsInLayer(rows, cols - 1, j);
    }
  }

  /** A column `j` of a `rows × cols` layer and a row `k` within it address a slot inside the layer. */
  lemma SlotInLayer(rows: nat, cols: nat, j: nat, k: nat)
    requires j < cols && k < rows
    ensures ColumnOffset(rows, j) + k < ColumnOffset(rows, cols)
  {
    ColumnsInLayer(rows, cols, j + 1);
  }

  /** `w` has at least the entries `flat` reads: layers `0 .. |topology| - 2`, each at least `topology[i] × topology[i + 1]`. */
  predicate Covers<T>(w: seq<seq<seq<T>>>, topology: seq<nat>)
  {
    && |w| >= |topology| - 1
    && forall i {:trigger w[i]} :: 0 <= i < |topology| - 1 ==>
         && |w[i]| >= topology[i]
         && forall k :: 0 <= k < topology[i] ==> |w[i][k]| >= topology[i + 1]
  }

  /** `w` has exactly the shape `unflat` produces for `topology`. */
  predicate Shaped<T>(w: seq<seq<seq<T>>>, topology: seq<nat>)
  {
    && |topology| >= 1
    && |w| == |topology| - 1
    && forall i {:trigger w[i]} :: 0 <= i < |w| ==>
         && |w[i]| == topology[i]
         && forall k :: 0 <= k < topology[i] ==> |w[i][k]| == topology[i + 1]
  }

  /** One value per neuron: `s[l][n]` for every neuron `n` of layer `l`. */
  predicate Grid<T>(s: seq<seq<T>>, topology: seq<nat>)
  {
    && |s| == |topology|
    && forall l :: 0 <= l < |s| ==> |s[l]| == topology[l]
  }

  /** The synapse from neuron `p` of layer `a` to neuron `b` of layer `a + 1`. */
  predicate Synapse(topology: seq<nat>, a: int, p: int, b: int)
  {
    0 <= a < |topology| - 1 && 0 <= p < topology[a] && 0 <= b < topology[a + 1]
  }

  lemma ShapedCovers<T>(w: seq<seq<seq<T>>>, topology: seq<nat>)
    requires Shaped(w, topology)
    ensures Covers(w, topology)
  {
  }

  /** Column `j` of a layer: the first `rows` synapses incoming to neuron `j`. */
  function Column<T>(m: seq<seq<T>>, rows: nat, j: nat): (r: seq<T>)
    requires |m| >= rows && forall k :: 0 <= k < rows ==> |m[k]| > j
    ensures |r| == rows && forall k :: 0 <= k < rows ==> r[k] == m[k][j]
  {
    seq(rows, k requires 0 <= k < rows => m[k][j])
  }

  /** Columns `0 .. j - 1` of a layer, one after the other. */
  function Columns<T>(m: seq<seq<T>>, rows: nat, j: nat): (r: seq<T>)
    requires |m| >= rows && forall k :: 0 <= k < rows ==> |m[k]| >= j
    ensures |r| == ColumnOffset(rows, j)
  {
    if j == 0 then [] else Columns(m, rows, j - 1) + Column(m, rows, j - 1)
  }

  /** Layers `0 .. i - 1` in the flat encoding. */
  function FlatLayers<T>(w: seq<seq<seq<T>>>, topology: seq<nat>, i: nat): (r: seq<T>)
    requires i < |topology| && Covers(w, topology)
    ensures |r| == Offset(topology, i)
  {
    if i == 0 then []
    else FlatLayers(w, topology, i - 1) + Columns(w[i - 1], topology[i - 1], topology[i])
  }

  /** The flat encoding of a whole tensor. */
  function FlatSpec<T>(w: seq<seq<seq<T>>>, topology: seq<nat>): (r: seq<T>)
    requires Covers(w, topology)
    ensures |r| == Count(topology)
  {
    if |topology| == 0 then [] else FlatLayers(w, topology, |topology| - 1)
  }

  /** One layer rebuilt from its segment of the flat encoding. */
  function UnflatLayer<T>(segment: seq<T>, rows: nat, cols: nat): (r: seq<seq<T>>)
    requires |segment| >= ColumnOffset(rows, cols)
    ensures |r| == rows && forall k :: 0 <= k < rows ==> |r[k]| == cols
  {
    seq(rows, k requires 0 <= k < rows =>
      seq(cols, j requires 0 <= j < cols => SlotInLayer(rows, cols, j, k); segment[ColumnOffset(rows, j) + k]))
  }

  /** Layers `0 .. n - 1` rebuilt from a flat encoding: layer `i` from the segment starting at `Offset(topology, i)`. */
  function UnflatLayers<T>(flat: seq<T>, topology: seq<nat>, n: nat): (r: seq<seq<seq<T>>>)
    requires n < |topology| && Offset(topology, n) <= |flat|
    ensures |r| == n
    ensures forall i {:trigger r[i]} :: 0 <= i < n ==>
              && |r[i]| == topology[i]
              && forall k :: 0 <= k < topology[i] ==> |r[i][k]| == topology[i + 1]
    decreases n
  {
    if n == 0 then []
    else
      var segment := flat[Offset(topology, n - 1)..Offset(topology, n)];
      UnflatLayers(flat, topology, n - 1) + [UnflatLayer(segment, topology[n - 1], topology[n])]
  }

  /** `unflat`'s result: every layer rebuilt from its segment of the flat encoding. */
  function UnflatSpec<T>(flat: seq<T>, topology: seq<nat>): (r: seq<seq<seq<T>>>)
    requires |topology| >= 1 && |flat| >= Count(topology)
    ensures Shaped(r, topology)
  {
    UnflatLayers(flat, topology, |topology| - 1)
  }

  /** Layer `i` of `UnflatLayers` is rebuilt from exactly its own segment. */
  lemma {:induction false} UnflatLayersAt<T>(flat: seq<T>, topology: seq<nat>, n: nat, i: nat)
    requires n < |topology| && Offset(topology, n) <= |flat| && i < n
    ensures Offset(topology, i) <= Offset(topology, i + 1) <= |flat|
    ensures UnflatLayers(flat, topology, n)[i]
              == UnflatLayer(flat[Offset(topology, i)..Offset(topology, i + 1)], topology[i], topology[i + 1])
    decreases n
  {
    OffsetMonotone(topology, i + 1, n);
    if i < n - 1 {
      OffsetMonotone(topology, n - 1, n);
      UnflatLayersAt(flat, topology, n - 1, i);
    }
  }

  /** Entry `ColumnOffset(rows, j) + k` of the column-by-column listing of a layer is `m[k][j]`. */
  lemma {:induction false} ColumnsAt<T>(m: seq<seq<T>>, rows: nat, cols: nat, j: nat, k: nat)
    requires |m| >= rows && forall x :: 0 <= x < rows ==> |m[x]| >= cols
    requires j < cols && k < rows
    ensures ColumnOffset(rows, j) + k < |Columns(m, rows, cols)|
    ensures Columns(m, rows, cols)[ColumnOffset(rows, j) + k] == m[k][j]
    decreases cols
  {
    SlotInLayer(rows, cols, j, k);
    if j < cols - 1 {
      ColumnsAt(m, rows, cols - 1, j, k);
    }
  }

  /** Entry `Offset(topology, i) + ColumnOffset(topology[i], j) + k` of the flat encoding is `w[i][k][j]`. */
  lemma {:induction false} FlatLayersAt<T>(w: seq<seq<seq<T>>>, topology: seq<nat>, n: nat, i: nat, j: nat, k: nat)
    requires n < |topology| && Covers(w, topology)
    requires i < n && j < topology[i + 1] && k < topology[i]
    ensures Offset(topology, i) + ColumnOffset(topology[i], j) + k < Offset(topology, n)
    ensures FlatLayers(w, topology, n)[Offset(topology, i) + ColumnOffset(topology[i], j) + k] == w[i][k][j]
    decreases n
  {
    ColumnsAt(w[i], topology[i], topology[i + 1], j, k);
    if i < n - 1 {
      FlatLayersAt(w, topology, n - 1, i, j, k);
      OffsetMonotone(topology, n - 1, n);
    }
  }

  /** Column `j` of a segment's layer is the segment's `j`-th run of `rows` entries. */
  lemma ColumnOfUnflatLayer<T>(segment: seq<T>, rows: nat, cols: nat, j: nat)
    requires |segment| >= ColumnOffset(rows, cols) && j < cols
    ensures ColumnOffset(rows, j + 1) <= |segment|
    ensures Column(UnflatLayer(segment, rows, cols), rows, j) == segment[ColumnOffset(rows, j)..ColumnOffset(rows, j + 1)]
  {
    ColumnsInLayer(rows, cols, j + 1);
    var c := Column(UnflatLayer(segment, rows, cols), rows, j);
    forall k | 0 <= k < rows ensures c[k] == segment[ColumnOffset(rows, j) + k] {
      SlotInLayer(rows, cols, j, k);
    }
  }

  /** Column `x` of `m` is the `x`-th run of `rows` entries of `s`. */
  ghost predicate ColumnIsRun<T>(m: seq<seq<T>>, s: seq<T>, rows: nat, x: nat)
    requires |m| >= rows && forall k :: 0 <= k < rows ==> |m[k]| > x
  {
    ColumnOffset(rows, x + 1) <= |s| && Column(m, rows, x) == s[ColumnOffset(rows, x)..ColumnOffset(rows, x + 1)]
  }

  /** Columns that are consecutive runs of `s`, listed one after the other, give back a prefix of `s`. */
  lemma {:induction false} ColumnsOfRuns<T>(m: seq<seq<T>>, s: seq<T>, rows: nat, j: nat)
    requires |m| >= rows && forall k :: 0 <= k < rows ==> |m[k]| >= j
    requires ColumnOffset(rows, j) <= |s|
    requires forall x :: 0 <= x < j ==> ColumnIsRun(m, s, rows, x)
    ensures Columns(m, rows, j) == s[..ColumnOffset(rows, j)]
    decreases j
  {
    if j > 0 {
      assert ColumnIsRun(m, s, rows, j - 1);
      ColumnsOfRuns(m, s, rows, j - 1);
      var start := ColumnOffset(rows, j - 1);
      assert s[..ColumnOffset(rows, j)] == s[..start] + s[start..ColumnOffset(rows, j)];
    }
  }

  /** Flattening a segment's layer gives the segment back. */
  lemma ColumnsOfUnflatLayer<T>(segment: seq<T>, rows: nat, cols: nat)
    requires |segment| == ColumnOffset(rows, cols)
    ensures Columns(UnflatLayer(segment, rows, cols), rows, cols) == segment
  {
    var m := UnflatLayer(segment, rows, cols);
    forall x | 0 <= x < cols ensures ColumnIsRun(m, segment, rows, x) {
      ColumnOfUnflatLayer(segment, rows, cols, x);
    }
    ColumnsOfRuns(m, segment, rows, cols);
  }

  /** `flat(unflat(r)) == r` for every flat array of `countWeights` entries. */
  lemma FlatUnflat<T>(flat: seq<T>, topology: seq<nat>)
    requires |topology| >= 1 && |flat| == Count(topology)
    ensures FlatSpec(UnflatSpec(flat, topology), topology) == flat
  {
    var w := UnflatSpec(flat, topology);
    FlatLayersOfUnflat(flat, topology, |topology| - 1);
  }

  /** Layer `i` of `w`, listed column by column, is layer `i`'s segment of `flat`. */
  ghost predicate LayerIsSegment<T>(w: seq<seq<seq<T>>>, flat: seq<T>, topology: seq<nat>, i: nat)
    requires i + 1 < |topology| && Covers(w, topology)
  {
    && Offset(topology, i + 1) <= |flat|
    && Columns(w[i], topology[i], topology[i + 1]) == flat[Offset(topology, i)..Offset(topology, i + 1)]
  }

  /** Layers whose column listings are consecutive segments of `flat` flatten to a prefix of `flat`. */
  lemma {:induction false} FlatLayersOfSegments<T>(w: seq<seq<seq<T>>>, flat: seq<T>, topology: seq<nat>, n: nat)
    requires n < |topology| && Covers(w, topology) && Offset(topology, n) <= |flat|
    requires forall i :: 0 <= i < n ==> LayerIsSegment(w, flat, topology, i)
    ensures FlatLayers(w, topology, n) == flat[..Offset(topology, n)]
    decreases n
  {
    if n > 0 {
      var start := Offset(topology, n - 1);
      assert LayerIsSegment(w, flat, topology, n - 1);
      FlatLayersOfSegments(w, flat, topology, n - 1);
      assert flat[..Offset(topology, n)] == flat[..start] + flat[start..Offset(topology, n)];
    }
  }

  /** Flattening the layers `unflat` rebuilt gives back the flat encoding they came from. */
  lemma FlatLayersOfUnflat<T>(flat: seq<T>, topology: seq<nat>, n: nat)
    requires |topology| >= 1 && |flat| >= Count(topology) && n < |topology|
    ensures Offset(topology, n) <= |flat|
    ensures FlatLayers(UnflatSpec(flat, topology), topology, n) == flat[..Offset(topology, n)]
  {
    var w := UnflatSpec(flat, topology);
    assert w == UnflatLayers(flat, topology, |topology| - 1);
    OffsetMonotone(topology, n, |topology| - 1);
    forall i | 0 <= i < n ensures LayerIsSegment(w, flat, topology, i) {
      UnflatLayersAt(flat, topology, |topology| - 1, i);
      var segment := flat[Offset(topology, i)..Offset(topology, i + 1)];
      assert w[i] == UnflatLayer(segment, topology[i], topology[i + 1]);
      ColumnsOfUnflatLayer(segment, topology[i], topology[i + 1]);
    }
    FlatLayersOfSegments(w, flat, topology, n);
  }

  /** `unflat(flat(w)) == w` for every tensor of the shape `unflat` produces. */
  lemma UnflatFlat<T>(w: seq<seq<seq<T>>>, topology: seq<nat>)
    requires Shaped(w, topology)
    ensures Covers(w, topology)
    ensures UnflatSpec(FlatSpec(w, topology), topology) == w
  {
    var u := UnflatSpec(FlatSpec(w, topology), topology);
    forall i, k, j | 0 <= i < |w| && 0 <= k < topology[i] && 0 <= j < topology[i + 1]
      ensures u[i][k][j] == w[i][k][j]
    {
      UnflatFlatAt(w, topology, i, k, j);
    }
    assert Shaped(u, topology);
    forall x, y | 0 <= x < |u| && 0 <= y < |u[x]| ensures |u[x][y]| == |w[x][y]| {
      assert |u[x]| == topology[x] && |u[x][y]| == topology[x + 1];
    }
    SameEntries(u, w);
  }

  /** One entry of `UnflatFlat`: slot `(i, k, j)` is read back from where `flat` put it. */
  lemma UnflatFlatAt<T>(w: seq<seq<seq<T>>>, topology: seq<nat>, i: nat, k: nat, j: nat)
    requires Shaped(w, topology) && i < |w| && k < topology[i] && j < topology[i + 1]
    ensures Covers(w, topology)
    ensures UnflatSpec(FlatSpec(w, topology), topology)[i][k][j] == w[i][k][j]
  {
    var flat := FlatSpec(w, topology);
    UnflatLayersAt(flat, topology, |topology| - 1, i);
    FlatLayersAt(w, topology, |topology| - 1, i, j, k);
    SlotInLayer(topology[i], topology[i + 1], j, k);
    var segment := flat[Offset(topology, i)..Offset(topology, i + 1)];
    assert segment[ColumnOffset(topology[i], j) + k] == flat[Offset(topology, i) + ColumnOffset(topology[i], j) + k];
  }

  /** Two tensors of the same shape with the same entries are equal. */
  lemma SameEntries<T>(u: seq<seq<seq<T>>>, v: seq<seq<seq<T>>>)
    requires |u| == |v| && forall x :: 0 <= x < |u| ==> |u[x]| == |v[x]|
    requires forall x, y :: 0 <= x < |u| && 0 <= y < |u[x]| ==> |u[x][y]| == |v[x][y]|
    requires forall x, y, z :: 0 <= x < |u| && 0 <= y < |u[x]| && 0 <= z < |u[x][y]| ==> u[x][y][z] == v[x][y][z]
    ensures u == v
  {
    forall x | 0 <= x < |u| ensures u[x] == v[x] {
      forall y | 0 <= y < |u[x]| ensures u[x][y] == v[x][y] {
      }
    }
  }

  /**
   * `flat(unflatRules, neurons)`: fills an array of `countWeights(neurons)`
   * entries with a running counter `c`, walking the layers `i ≥ 1`, then the
   * neurons `j` of layer `i`, then the neurons `k` of layer `i - 1`.
   */
  method Flat<T(0)>(unflatRules: seq<seq<seq<T>>>, topology: seq<nat>) returns (flatRules: seq<T>)
    requires Covers(unflatRules, topology)
    ensures flatRules == FlatSpec(unflatRules, topology)
  {
    var buffer := new T[Count(topology)];
    var c := 0;
    var i := 1;
    while i < |topology|
      invariant 1 <= i <= |topology| || (|topology| == 0 && i == 1)
      invariant i <= |topology| ==> Offset(topology, i - 1) <= Count(topology)
      invariant i <= |topology| ==> c == Offset(topology, i - 1) && buffer[..c] == FlatLayers(unflatRules, topology, i - 1)
      invariant |topology| == 0 ==> c == 0
    {
      OffsetMonotone(topology, i, |topology| - 1);
      ColumnsInLayer(topology[i - 1], topology[i], topology[i]);
      c := FillColumns(buffer, c, unflatRules[i - 1], topology[i - 1], topology[i]);
      assert FlatLayers(unflatRules, topology, i)
          == FlatLayers(unflatRules, topology, i - 1) + Columns(unflatRules[i - 1], topology[i - 1], topology[i]);
      i := i + 1;
    }
    assert c == Count(topology) == buffer.Length;
    assert buffer[..] == buffer[..c];
    flatRules := buffer[..];
  }

  /** The loop over the neurons `j` of one layer of `flat`. */
  method FillColumns<T>(buffer: array<T>, c: nat, m: seq<seq<T>>, rows: nat, cols: nat) returns (next: nat)
    requires c + ColumnOffset(rows, cols) <= buffer.Length
    requires |m| >= rows && forall k :: 0 <= k < rows ==> |m[k]| >= cols
    modifies buffer
    ensures next == c + ColumnOffset(rows, cols)
    ensures buffer[..next] == old(buffer[..c]) + Columns(m, rows, cols)
  {
    next := c;
    var j := 0;
    ColumnsInLayer(rows, cols, 0);
    while j < cols
      invariant 0 <= j <= cols
      invariant next == c + ColumnOffset(rows, j) <= c + ColumnOffset(rows, cols)
      invariant buffer[..next] == old(buffer[..c]) + Columns(m, rows, j)
    {
      ColumnsInLayer(rows, cols, j + 1);
      next := FillColumn(buffer, next, m, rows, j);
      j := j + 1;
    }
  }

  /** The innermost loop of `flat`: the synapses incoming to neuron `j`, from each neuron `k` of the layer below. */
  method FillColumn<T>(buffer: array<T>, c: nat, m: seq<seq<T>>, rows: nat, j: nat) returns (next: nat)
    requires c + rows <= buffer.Length
    requires |m| >= rows && forall k :: 0 <= k < rows ==> |m[k]| > j
    modifies buffer
    ensures next == c + rows
    ensures buffer[..next] == old(buffer[..c]) + Column(m, rows, j)
  {
    next := c;
    var k := 0;
    while k < rows
      invariant 0 <= k <= rows
      invariant next == c + k
      invariant buffer[..next] == old(buffer[..c]) + Column(m, rows, j)[..k]
    {
      buffer[next] := m[k][j];
      assert Column(m, rows, j)[..k + 1] == Column(m, rows, j)[..k] + [m[k][j]];
      assert buffer[..next + 1] == buffer[..next] + [buffer[next]];
      next := next + 1;
      k := k + 1;
    }
    assert Column(m, rows, j)[..rows] == Column(m, rows, j);
  }

  /**
   * `unflat(flatRules, neurons)`: allocates `neurons.length - 1` layers, layer
   * `i - 1` of `neurons[i - 1].length × neurons[i].length` entries, and fills
   * them in the order `flat` reads them. Java throws when `neurons` is empty
   * (negative array size) or the flat array is shorter than `countWeights`.
   */
  method Unflat<T(0)>(flatRules: seq<T>, topology: seq<nat>) returns (unflatRules: seq<seq<seq<T>>>)
    requires |topology| >= 1 && |flatRules| >= Count(topology)
    ensures unflatRules == UnflatSpec(flatRules, topology)
  {
    unflatRules := [];
    var c := 0;
    var i := 1;
    while i < |topology|
      invariant 1 <= i <= |topology|
      invariant c == Offset(topology, i - 1) <= Count(topology)
      invariant unflatRules == UnflatLayers(flatRules, topology, i - 1)
    {
      OffsetMonotone(topology, i, |topology| - 1);
      var layer;
      layer, c := FillLayer(flatRules, c, topology[i - 1], topology[i]);
      assert UnflatLayers(flatRules, topology, i) == UnflatLayers(flatRules, topology, i - 1) + [layer];
      unflatRules := unflatRules + [layer];
      i := i + 1;
    }
  }

  /** One layer of `unflat`: a fresh `rows × cols` array filled column by column from the flat encoding at `c`. */
  method FillLayer<T(0)>(flatRules: seq<T>, c: nat, rows: nat, cols: nat) returns (layer: seq<seq<T>>, next: nat)
    requires c + ColumnOffset(rows, cols) <= |flatRules|
    ensures next == c + ColumnOffset(rows, cols)
    ensures layer == UnflatLayer(flatRules[c..next], rows, cols)
  {
    ghost var target := UnflatLayer(flatRules[c..c + ColumnOffset(rows, cols)], rows, cols);
    var blank: T := *;
    layer := seq(rows, _ => seq(cols, _ => blank));
    next := c;
    var j := 0;
    ColumnsInLayer(rows, cols, 0);
    while j < cols
      invariant 0 <= j <= cols
      invariant next == c + ColumnOffset(rows, j)
      invariant |layer| == rows && forall k :: 0 <= k < rows ==> |layer[k]| == cols
      invariant forall k, x :: 0 <= k < rows && 0 <= x < j ==> layer[k][x] == target[k][x]
    {
      var k := 0;
      while k < rows
        invariant 0 <= k <= rows
        invariant next == c + ColumnOffset(rows, j) + k
        invariant |layer| == rows && forall x :: 0 <= x < rows ==> |layer[x]| == cols
        invariant forall y, x :: 0 <= y < rows && 0 <= x < j ==> layer[y][x] == target[y][x]
        invariant forall y :: 0 <= y < k ==> layer[y][j] == target[y][j]
      {
        SlotInLayer(rows, cols, j, k);
        layer := layer[k := layer[k][j := flatRules[next]]];
        next := next + 1;
        k := k + 1;
      }
      j := j + 1;
    }
    forall k | 0 <= k < rows ensures layer[k] == target[k] {
    }
  }

  /** `Math.min(m, Math.max(w, -m))`. */
  function ClipWeight(w: real, maxWeightMagnitude: real): real
  {
    var low := if w >= -maxWeightMagnitude then w else -maxWeightMagnitude;
    if maxWeightMagnitude <= low then maxWeightMagnitude else low
  }

  /** Every weight clipped. */
  function ClipAll(w: seq<seq<seq<real>>>, maxWeightMagnitude: real): (r: seq<seq<seq<real>>>)
    ensures |r| == |w|
    ensures forall i :: 0 <= i < |w| ==> |r[i]| == |w[i]|
    ensures forall i, j :: 0 <= i < |w| && 0 <= j < |w[i]| ==> |r[i][j]| == |w[i][j]|
    ensures forall i, j, k :: 0 <= i < |w| && 0 <= j < |w[i]| && 0 <= k < |w[i][j]| ==>
              r[i][j][k] == ClipWeight(w[i][j][k], maxWeightMagnitude)
  {
    seq(|w|, i requires 0 <= i < |w| =>
      seq(|w[i]|, j requires 0 <= j < |w[i]| =>
        seq(|w[i][j]|, k requires 0 <= k < |w[i][j]| => ClipWeight(w[i][j][k], maxWeightMagnitude))))
  }

  /** With `m ≥ 0` a clipped weight lies in `[-m, m]`; one already there is unchanged. */
  lemma ClipWeightRange(w: real, m: real)
    requires m >= 0.0
    ensures -m <= ClipWeight(w, m) <= m
    ensures -m <= w <= m <==> ClipWeight(w, m) == w
    ensures w < -m ==> ClipWeight(w, m) == -m
    ensures w > m ==> ClipWeight(w, m) == m
  {
  }

  /** Clipping twice is clipping once. */
  lemma ClipAllIdempotent(w: seq<seq<seq<real>>>, m: real)
    requires m >= 0.0
    ensures ClipAll(ClipAll(w, m), m) == ClipAll(w, m)
  {
    var once := ClipAll(w, m);
    var twice := ClipAll(once, m);
    forall i | 0 <= i < |w| ensures twice[i] == once[i] {
      forall j | 0 <= j < |w[i]| ensures twice[i][j] == once[i][j] {
        forall k | 0 <= k < |w[i][j]| ensures twice[i][j][k] == once[i][j][k] {
          ClipWeightRange(w[i][j][k], m);
          ClipWeightRange(once[i][j][k], m);
        }
      }
    }
  }

  /** Every weight of a clipped tensor lies in `[-m, m]`. */
  predicate Bounded(w: seq<seq<seq<real>>>, m: real)
  {
    forall i, j, k :: 0 <= i < |w| && 0 <= j < |w[i]| && 0 <= k < |w[i][j]| ==> -m <= w[i][j][k] <= m
  }

  lemma ClipAllBounded(w: seq<seq<seq<real>>>, m: real)
    requires m >= 0.0
    ensures Bounded(ClipAll(w, m), m)
    ensures Bounded(w, m) ==> ClipAll(w, m) == w
  {
    var r := ClipAll(w, m);
    forall i, j, k | 0 <= i < |r| && 0 <= j < |r[i]| && 0 <= k < |r[i][j]|
      ensures -m <= r[i][j][k] <= m
    {
      ClipWeightRange(w[i][j][k], m);
    }
    if Bounded(w, m) {
      forall i | 0 <= i < |w| ensures r[i] == w[i] {
        forall j | 0 <= j < |w[i]| ensures r[i][j] == w[i][j] {
          forall k | 0 <= k < |w[i][j]| ensures r[i][j][k] == w[i][j][k] {
            ClipWeightRange(w[i][j][k], m);
          }
        }
      }
    }
  }

  /**
   * `clipWeights`: the triple loop that clips every weight of a tensor in
   * place; the innermost loop is `ClipRow`, the middle one `ClipLayer`.
   */
  method ClipWeights(w: seq<seq<seq<real>>>, maxWeightMagnitude: real) returns (r: seq<seq<seq<real>>>)
    ensures r == ClipAll(w, maxWeightMagnitude)
  {
    r := w;
    var i := 0;
    while i < |r|
      invariant 0 <= i <= |r| == |w|
      invariant forall x :: 0 <= x < i ==> r[x] == ClipAll(w, maxWeightMagnitude)[x]
      invariant forall x :: i <= x < |r| ==> r[x] == w[x]
    {
      var layer := ClipLayer(r[i], maxWeightMagnitude);
      forall j | 0 <= j < |layer| ensures layer[j] == ClipAll(w, maxWeightMagnitude)[i][j] {
      }
      r := r[i := layer];
      i := i + 1;
    }
  }

  method ClipLayer(m: seq<seq<real>>, maxWeightMagnitude: real) returns (r: seq<seq<real>>)
    ensures |r| == |m|
    ensures forall j :: 0 <= j < |m| ==> |r[j]| == |m[j]|
    ensures forall j, k :: 0 <= j < |m| && 0 <= k < |m[j]| ==> r[j][k] == ClipWeight(m[j][k], maxWeightMagnitude)
  {
    r := m;
    var j := 0;
    while j < |r|
      invariant 0 <= j <= |r| == |m|
      invariant forall x :: 0 <= x < |m| ==> |r[x]| == |m[x]|
      invariant forall x, k :: 0 <= x < j && 0 <= k < |m[x]| ==> r[x][k] == ClipWeight(m[x][k], maxWeightMagnitude)
      invariant forall x :: j <= x < |r| ==> r[x] == m[x]
    {
      var row := ClipRow(r[j], maxWeightMagnitude);
      r := r[j := row];
      j := j + 1;
    }
  }

  method ClipRow(row: seq<real>, maxWeightMagnitude: real) returns (r: seq<real>)
    ensures |r| == |row|
    ensures forall k :: 0 <= k < |row| ==> r[k] == ClipWeight(row[k], maxWeightMagnitude)
  {
    r := row;
    var k := 0;
    while k < |r|
      invariant 0 <= k <= |r| == |row|
      invariant forall x :: 0 <= x < k ==> r[x] == ClipWeight(row[x], maxWeightMagnitude)
      invariant forall x :: k <= x < |r| ==> r[x] == row[x]
    {
      var low := if r[k] >= -maxWeightMagnitude then r[k] else -maxWeightMagnitude;
      r := r[k := if maxWeightMagnitude <= low then maxWeightMagnitude else low];
      k := k + 1;
    }
  }

  /**
   * `copyWeights(initialWeights, target)`: the target gets, layer by layer and
   * row by row, a copy of each row of `initialWeights`; the copy equals the
   * original entry for entry.
   */
  method CopyWeights(initialWeights: seq<seq<seq<real>>>) returns (copy: seq<seq<seq<real>>>)
    ensures copy == initialWeights
  {
    copy := [];
    var i := 0;
    while i < |initialWeights|
      invariant 0 <= i <= |initialWeights|
      invariant copy == initialWeights[..i]
    {
      var layer: seq<seq<real>> := [];
      var j := 0;
      while j < |initialWeights[i]|
        invariant 0 <= j <= |initialWeights[i]|
        invariant layer == initialWeights[i][..j]
      {
        // `Arrays.copyOf(row, row.length)`: an equal row
        layer := layer + [initialWeights[i][j]];
        assert initialWeights[i][..j + 1] == initialWeights[i][..j] + [initialWeights[i][j]];
        j := j + 1;
      }
      assert layer == initialWeights[i][..|initialWeights[i]|] == initialWeights[i];
      copy := copy + [layer];
      assert initialWeights[..i + 1] == initialWeights[..i] + [initialWeights[i]];
      i := i + 1;
    }
    assert initialWeights[..|initialWeights|] == initialWeights;
  }
}
