/**
 * DistributedSensing: the controller of a grid of voxels in which every
 * occupied cell runs its own spiking network. A cell's network reads the
 * signals its four neighbours emitted at the previous step followed by its own
 * sensor readings; its first output drives the cell, the others are the
 * signals it sends to its neighbours at the next step.
 *
 * Each cell has a buffer of `4 · signals` rows: the `signals` rows of slot
 * `d.Index()` are the rows the cell sends towards direction `d`. Two grids of
 * such buffers are kept: `lastSignals`, read during a step, and
 * `currentSignals`, written during a step and copied across only after every
 * cell has been visited.
 *
 * The sensors' encoders, the cells' networks and their decoders are the
 * parameters `encode`, `respond` and `decode`.
 */
module DistributedSensing {
  import opened Wrappers

  /** The four directions with their offsets and their slot index. */
  datatype Dir = N | E | S | W {

    function Dx(): int
    {
      match this
      case N => 0
      case E => 1
      case S => 0
      case W => -1
    }

    function Dy(): int
    {
      match this
      case N => -1
      case E => 0
      case S => 1
      case W => 0
    }

    function Index(): (r: nat)
      ensures r < 4
    {
      match this
      case N => 0
      case E => 1
      case S => 2
      case W => 3
    }

    /** `Dir.adjacent`: the direction a neighbour in direction `this` sees us in. */
    function Adjacent(): (r: Dir)
      ensures r.Dx() == -Dx() && r.Dy() == -Dy()
      ensures r != this && r.Index() == (Index() + 2) % 4
    {
      match this
      case N => S
      case E => W
      case S => N
      case W => E
    }
  }

  /** `Dir.values()`, in declaration order. */
  const Dirs: seq<Dir> := [N, E, S, W]

  /** `adjacent` undoes itself. */
  lemma AdjacentInvolution(d: Dir)
    ensures d.Adjacent().Adjacent() == d
  {
  }

  /** The slot indices are distinct, and `Dir.values()` lists them as `0..3`. */
  lemma IndicesDistinct(d: Dir, e: Dir)
    ensures d.Index() == e.Index() <==> d == e
    ensures forall i :: 0 <= i < 4 ==> Dirs[i].Index() == i
  {
  }

  /** Where slot `d` starts in a buffer of `4 · signals` rows: `d.Index() · signals` (`StartIsIndexTimesSignals`). */
  function Start(d: Dir, signals: nat): (r: nat)
    ensures r + signals <= 4 * signals
  {
    match d
    case N => 0
    case E => signals
    case S => 2 * signals
    case W => 3 * signals
  }

  lemma StartIsIndexTimesSignals(d: Dir, signals: nat)
    ensures Start(d, signals) == d.Index() * signals
  {
    match d
    case N =>
    case E =>
    case S =>
    case W =>
  }

  /** The slots of distinct directions do not overlap. */
  lemma SlotsDisjoint(d: Dir, e: Dir, signals: nat, k: nat, j: nat)
    requires k < signals && j < signals && d != e
    ensures Start(d, signals) + k != Start(e, signals) + j
  {
  }

  /** `System.arraycopy(src, srcPos, dest, destPos, length)` on rows, within bounds. */
  function ArrayCopy<T>(src: seq<T>, srcPos: nat, dest: seq<T>, destPos: nat, length: nat): (r: seq<T>)
    requires srcPos + length <= |src| && destPos + length <= |dest|
    ensures |r| == |dest|
    ensures forall i :: 0 <= i < |r| ==> r[i] == if destPos <= i < destPos + length then src[srcPos + i - destPos] else dest[i]
  {
    dest[..destPos] + src[srcPos..srcPos + length] + dest[destPos + length..]
  }

  /** `new int[n]`: `n` zeros. */
  function Zeros(n: nat): (r: seq<int>)
    ensures |r| == n && forall i :: 0 <= i < n ==> r[i] == 0
  {
    seq(n, _ => 0)
  }

  /** `new int[rows][arraySize]`. */
  function ZeroRows(rows: nat, arraySize: nat): (r: seq<seq<int>>)
    ensures |r| == rows && forall i :: 0 <= i < rows ==> r[i] == Zeros(arraySize)
  {
    seq(rows, _ => Zeros(arraySize))
  }

  /** A grid of signal buffers, indexed `[x][y]`. */
  type SignalGrid = seq<seq<seq<seq<int>>>>

  /** A `width × height` grid whose every buffer has `rows` rows. */
  predicate Buffers(grid: SignalGrid, width: nat, height: nat, rows: nat)
  {
    && |grid| == width
    && forall x :: 0 <= x < width ==>
         && |grid[x]| == height
         && forall y :: 0 <= y < height ==> |grid[x][y]| == rows
  }

  /** `Grid.get(x, y)`: absent outside the grid. */
  function Neighbour<T>(grid: seq<seq<T>>, x: int, y: int): (r: Option<T>)
    ensures r.Some? <==> 0 <= x < |grid| && 0 <= y < |grid[x]|
    ensures r.Some? ==> r.value == grid[x][y]
  {
    if 0 <= x < |grid| && 0 <= y < |grid[x]| then Some(grid[x][y]) else None
  }

  /** `rows` as filled-in array slots. */
  function Wrap(rows: seq<seq<int>>): (r: seq<Option<seq<int>>>)
    ensures |r| == |rows| && forall i :: 0 <= i < |rows| ==> r[i] == Some(rows[i])
  {
    seq(|rows|, i requires 0 <= i < |rows| => Some(rows[i]))
  }

  /** `count` empty array slots. */
  function Nulls(count: nat): (r: seq<Option<seq<int>>>)
    ensures |r| == count && forall i :: 0 <= i < count ==> r[i] == None
  {
    seq(count, _ => None)
  }

  /** Where the slot of the `i`-th direction of `Dirs` starts, and `4 · signals` past the last one. */
  function SlotsBefore(i: nat, signals: nat): (r: nat)
    requires i <= 4
    ensures i < 4 ==> r == Start(Dirs[i], signals)
    ensures i == 4 ==> r == 4 * signals
  {
    if i == 0 then 0 else if i == 1 then signals else if i == 2 then 2 * signals else if i == 3 then 3 * signals
    else 4 * signals
  }

  /** The direction whose slot holds row `i` of a buffer of `4 · signals` rows. */
  function SlotOf(i: nat, signals: nat): (r: Dir)
    requires i < 4 * signals
    ensures Start(r, signals) <= i < Start(r, signals) + signals
  {
    if i < signals then N else if i < 2 * signals then E else if i < 3 * signals then S else W
  }

  /** Row `k` of slot `d` belongs to direction `d` and to no other. */
  lemma SlotOfStart(d: Dir, signals: nat, k: nat)
    requires k < signals
    ensures Start(d, signals) + k < 4 * signals && SlotOf(Start(d, signals) + k, signals) == d
  {
  }

  /**
   * Row `i` of what `getLastSignals` gathers for cell `(x, y)` before filling
   * the gaps: row `i - Start(d)` of the slot that the neighbour in direction
   * `d = SlotOf(i)` keeps for the opposite direction, or an empty slot when
   * there is no such neighbour.
   */
  function GatheredRow(last: SignalGrid, width: nat, height: nat, signals: nat, x: int, y: int, i: nat)
    : (r: Option<seq<int>>)
    requires Buffers(last, width, height, 4 * signals) && i < 4 * signals
  {
    var d := SlotOf(i, signals);
    match Neighbour(last, x + d.Dx(), y + d.Dy())
    case Some(b) => Some(b[Start(d.Adjacent(), signals) + (i - Start(d, signals))])
    case None => None
  }

  /** An array slot's row, or a fresh zero row for an empty slot. */
  function Filled(slot: Option<seq<int>>, arraySize: nat): seq<int>
  {
    match slot
    case Some(row) => row
    case None => Zeros(arraySize)
  }

  /** `getLastSignals(x, y)`: the gathered rows with every empty slot filled with zeros. */
  function LastSignals(last: SignalGrid, width: nat, height: nat, signals: nat, arraySize: nat, x: int, y: int)
    : (r: seq<seq<int>>)
    requires Buffers(last, width, height, 4 * signals)
    ensures |r| == 4 * signals
  {
    seq(4 * signals, i requires 0 <= i < 4 * signals => Filled(GatheredRow(last, width, height, signals, x, y, i), arraySize))
  }

  /**
   * Row `k` of slot `d` of `getLastSignals(x, y)` is row `k` of the slot the
   * neighbour in direction `d` keeps for the opposite direction, or a fresh
   * zero row when that neighbour is outside the grid.
   */
  lemma LastSignalsSlot(last: SignalGrid, width: nat, height: nat, signals: nat, arraySize: nat, x: int, y: int,
                        d: Dir, k: nat)
    requires Buffers(last, width, height, 4 * signals) && k < signals
    ensures var r := LastSignals(last, width, height, signals, arraySize, x, y);
            r[Start(d, signals) + k]
              == match Neighbour(last, x + d.Dx(), y + d.Dy())
                 case Some(b) => b[Start(d.Adjacent(), signals) + k]
                 case None => Zeros(arraySize)
  {
    SlotOfStart(d, signals, k);
  }

  /** The slots before row `c` hold what they gather and the rest are still empty. */
  ghost predicate GatheredUpTo(last: SignalGrid, width: nat, height: nat, signals: nat, x: int, y: int,
                               slots: seq<Option<seq<int>>>, c: nat)
    requires Buffers(last, width, height, 4 * signals)
  {
    && |slots| == 4 * signals && c <= 4 * signals
    && (forall j :: 0 <= j < c ==> slots[j] == GatheredRow(last, width, height, signals, x, y, j))
    && (forall j :: c <= j < 4 * signals ==> slots[j] == None)
  }

  /** The loop of `getLastSignals` over the four directions: every neighbour's rows copied into their slot. */
  method GatherSlots(last: SignalGrid, width: nat, height: nat, signals: nat, x: int, y: int)
    returns (slots: seq<Option<seq<int>>>)
    requires Buffers(last, width, height, 4 * signals)
    ensures |slots| == 4 * signals
    ensures forall i :: 0 <= i < 4 * signals ==> slots[i] == GatheredRow(last, width, height, signals, x, y, i)
  {
    slots := Nulls(4 * signals);
    var c := 0;
    for i := 0 to 4
      invariant c == SlotsBefore(i, signals) && GatheredUpTo(last, width, height, signals, x, y, slots, c)
    {
      slots := GatherDirection(last, width, height, signals, x, y, i, c, slots);
      c := c + signals;
    }
  }

  /** One turn of that loop: the rows of direction `Dirs[i]`, which start at row `c`. */
  method GatherDirection(last: SignalGrid, width: nat, height: nat, signals: nat, x: int, y: int, i: nat, c: nat,
                         slots: seq<Option<seq<int>>>)
    returns (next: seq<Option<seq<int>>>)
    requires Buffers(last, width, height, 4 * signals) && i < 4 && c == SlotsBefore(i, signals)
    requires GatheredUpTo(last, width, height, signals, x, y, slots, c)
    ensures c + signals == SlotsBefore(i + 1, signals)
    ensures GatheredUpTo(last, width, height, signals, x, y, next, c + signals)
  {
    var dir := Dirs[i];
    var neighbour := Neighbour(last, x + dir.Dx(), y + dir.Dy());
    next := slots;
    if neighbour.Some? {
      var index := dir.Adjacent().Index();
      StartIsIndexTimesSignals(dir.Adjacent(), signals);
      next := ArrayCopy(Wrap(neighbour.value), index * signals, slots, c, signals);
    }
    forall j | c <= j < c + signals
      ensures next[j] == GatheredRow(last, width, height, signals, x, y, j)
    {
      SlotOfStart(dir, signals, j - c);
    }
  }

  /** The last loop of `getLastSignals`: every empty slot gets a fresh zero row. */
  method FillSlots(gathered: seq<Option<seq<int>>>, arraySize: nat) returns (values: seq<seq<int>>)
    ensures |values| == |gathered|
    ensures forall i :: 0 <= i < |gathered| ==> values[i] == Filled(gathered[i], arraySize)
  {
    var slots := gathered;
    for i := 0 to |slots|
      invariant |slots| == |gathered|
      invariant forall j :: 0 <= j < |slots| ==>
                  slots[j] == if j < i && gathered[j].None? then Some(Zeros(arraySize)) else gathered[j]
    {
      if slots[i].None? {
        slots := slots[i := Some(Zeros(arraySize))];
      }
    }
    values := seq(|slots|, i requires 0 <= i < |slots| => slots[i].value);
  }

  /**
   * What the controller is built with: its signal count, the length of a spike
   * array, the grid's size, which cells have a network (`functions`) and how
   * many output rows each cell has (`nOfOutputGrid`).
   */
  datatype Config = Config(signals: nat, arraySize: nat, width: nat, height: nat,
                           hasFunction: seq<seq<bool>>, nOfOutputs: seq<seq<nat>>)
  {
    predicate Valid()
    {
      && |hasFunction| == width && (forall x :: 0 <= x < width ==> |hasFunction[x]| == height)
      && |nOfOutputs| == width && (forall x :: 0 <= x < width ==> |nOfOutputs[x]| == height)
    }
  }

  /**
   * One call of `computeControlSignals(t, voxels)`. `voxels[x][y]` is the voxel
   * of cell `(x, y)`, absent for an empty cell. `encode(x, y, v, dt, t)` stands
   * for the cell's input converters applied to the sensor readings of `v`,
   * `respond(x, y, t, inputs)` for the cell's network, and `decode(x, y, row, dt)`
   * for its output converter.
   */
  datatype Step<!V> = Step(t: real, voxels: seq<seq<Option<V>>>,
                          encode: (nat, nat, V, real, real) -> seq<seq<int>>,
                          respond: (nat, nat, real, seq<seq<int>>) -> seq<seq<int>>,
                          decode: (nat, nat, seq<int>, real) -> real)
  {
    predicate Covers(width: nat, height: nat)
    {
      |voxels| == width && forall x :: 0 <= x < width ==> |voxels[x]| == height
    }
  }

  /** The inputs of cell `(x, y)`: the signals its neighbours sent, then its own converted sensor readings. */
  function CellInputs<V>(c: Config, last: SignalGrid, previousTime: real, step: Step<V>, x: nat, y: nat, voxel: V)
    : (r: seq<seq<int>>)
    requires Buffers(last, c.width, c.height, 4 * c.signals)
    ensures |r| == 4 * c.signals + |step.encode(x, y, voxel, step.t - previousTime, step.t)|
    ensures r[..4 * c.signals] == LastSignals(last, c.width, c.height, c.signals, c.arraySize, x, y)
  {
    LastSignals(last, c.width, c.height, c.signals, c.arraySize, x, y) + step.encode(x, y, voxel, step.t - previousTime, step.t)
  }

  /** The outputs of cell `(x, y)`: its network's response, or zero rows for a cell without a network. */
  function CellOutputs<V>(c: Config, last: SignalGrid, previousTime: real, step: Step<V>, x: nat, y: nat, voxel: V)
    : seq<seq<int>>
    requires c.Valid() && Buffers(last, c.width, c.height, 4 * c.signals) && x < c.width && y < c.height
  {
    if c.hasFunction[x][y] then step.respond(x, y, step.t, CellInputs(c, last, previousTime, step, x, y, voxel))
    else ZeroRows(c.nOfOutputs[x][y], c.arraySize)
  }

  /**
   * Every occupied cell has a first output row to drive it and no more signal
   * rows than its buffer holds; otherwise `outputs[0]` or the `arraycopy` into
   * the buffer fails.
   */
  ghost predicate StepFits<V>(c: Config, last: SignalGrid, previousTime: real, step: Step<V>)
    requires c.Valid() && Buffers(last, c.width, c.height, 4 * c.signals)
  {
    && step.Covers(c.width, c.height)
    && forall x, y :: 0 <= x < c.width && 0 <= y < c.height && step.voxels[x][y].Some? ==>
         1 <= |CellOutputs(c, last, previousTime, step, x, y, step.voxels[x][y].value)| <= 1 + 4 * c.signals
  }

  /** The control signal of cell `(x, y)`: its first output row decoded over the time since the last step; none for an empty cell. */
  function ControlSignal<V>(c: Config, last: SignalGrid, previousTime: real, step: Step<V>, x: nat, y: nat)
    : (r: Option<real>)
    requires c.Valid() && Buffers(last, c.width, c.height, 4 * c.signals) && StepFits(c, last, previousTime, step)
    requires x < c.width && y < c.height
    ensures r.Some? <==> step.voxels[x][y].Some?
  {
    match step.voxels[x][y]
    case None => None
    case Some(voxel) =>
      var outputs := CellOutputs(c, last, previousTime, step, x, y, voxel);
      Some(step.decode(x, y, outputs[0], step.t - previousTime))
  }

  /**
   * `arraycopy(outputs, 1, buffer, 0, outputs.length - 1)`: the output rows
   * after the first replace the first rows of the buffer, and the rest of the
   * buffer keeps what the cell sent at an earlier step.
   */
  function NextBuffer(buffer: seq<seq<int>>, outputs: seq<seq<int>>): (r: seq<seq<int>>)
    requires 1 <= |outputs| <= 1 + |buffer|
    ensures |r| == |buffer|
    ensures forall i :: 0 <= i < |outputs| - 1 ==> r[i] == outputs[i + 1]
    ensures forall i :: |outputs| - 1 <= i < |buffer| ==> r[i] == buffer[i]
  {
    ArrayCopy(outputs, 1, buffer, 0, |outputs| - 1)
  }

  /** The buffer of cell `(x, y)` after a step: what an occupied cell sends next, unchanged for an empty cell. */
  function NextCell<V>(c: Config, last: SignalGrid, current: SignalGrid, previousTime: real, step: Step<V>, x: nat, y: nat)
    : (r: seq<seq<int>>)
    requires c.Valid() && Buffers(last, c.width, c.height, 4 * c.signals) && StepFits(c, last, previousTime, step)
    requires Buffers(current, c.width, c.height, 4 * c.signals) && x < c.width && y < c.height
    ensures |r| == 4 * c.signals
    ensures step.voxels[x][y].None? ==> r == current[x][y]
  {
    match step.voxels[x][y]
    case None => current[x][y]
    case Some(voxel) => NextBuffer(current[x][y], CellOutputs(c, last, previousTime, step, x, y, voxel))
  }

  /**
   * What a cell sends towards direction `d` reaches the neighbour there at the
   * next step, in that neighbour's slot for the opposite direction: row `k` of
   * that slot is output row `1 + Start(d) + k` of the cell, or, when the cell
   * has fewer outputs, the row its buffer already held.
   */
  lemma SignalsReachNeighbour<V>(c: Config, last: SignalGrid, current: SignalGrid, previousTime: real, step: Step<V>,
                                 next: SignalGrid, x: nat, y: nat, d: Dir, k: nat)
    requires c.Valid() && Buffers(last, c.width, c.height, 4 * c.signals) && StepFits(c, last, previousTime, step)
    requires Buffers(current, c.width, c.height, 4 * c.signals) && Buffers(next, c.width, c.height, 4 * c.signals)
    requires x < c.width && y < c.height && step.voxels[x][y].Some? && k < c.signals
    requires next[x][y] == NextCell(c, last, current, previousTime, step, x, y)
    requires 0 <= x + d.Dx() < c.width && 0 <= y + d.Dy() < c.height
    ensures var outputs := CellOutputs(c, last, previousTime, step, x, y, step.voxels[x][y].value);
            var row := Start(d, c.signals) + k;
            LastSignals(next, c.width, c.height, c.signals, c.arraySize, x + d.Dx(), y + d.Dy())[Start(d.Adjacent(), c.signals) + k]
              == if 1 + row < |outputs| then outputs[1 + row] else current[x][y][row]
  {
    var outputs := CellOutputs(c, last, previousTime, step, x, y, step.voxels[x][y].value);
    ReceivedFromNeighbour(next, c.width, c.height, c.signals, c.arraySize, x, y, d, k);
    assert next[x][y] == NextBuffer(current[x][y], outputs);
  }

  /**
   * Row `k` of the slot that cell `(x, y)` fills for direction `d` is row `k`
   * of the slot for the opposite direction that its neighbour in direction `d`
   * reads.
   */
  lemma ReceivedFromNeighbour(grid: SignalGrid, width: nat, height: nat, signals: nat, arraySize: nat,
                              x: nat, y: nat, d: Dir, k: nat)
    requires Buffers(grid, width, height, 4 * signals) && x < width && y < height && k < signals
    requires 0 <= x + d.Dx() < width && 0 <= y + d.Dy() < height
    ensures LastSignals(grid, width, height, signals, arraySize, x + d.Dx(), y + d.Dy())[Start(d.Adjacent(), signals) + k]
         == grid[x][y][Start(d, signals) + k]
  {
    AdjacentInvolution(d);
    LastSignalsSlot(grid, width, height, signals, arraySize, x + d.Dx(), y + d.Dy(), d.Adjacent(), k);
    assert x + d.Dx() + d.Adjacent().Dx() == x && y + d.Dy() + d.Adjacent().Dy() == y;
  }

  /** The last loop of `computeControlSignals`: every buffer of `current` copied over the same cell's buffer of `last`. */
  method CopyGrid(current: SignalGrid, last: SignalGrid, width: nat, height: nat, rows: nat) returns (copied: SignalGrid)
    requires Buffers(current, width, height, rows) && Buffers(last, width, height, rows)
    ensures copied == current
  {
    copied := last;
    for x := 0 to width
      invariant Buffers(copied, width, height, rows)
      invariant forall i :: 0 <= i < x ==> copied[i] == current[i]
    {
      var column := copied[x];
      for y := 0 to height
        invariant |column| == height
        invariant forall j :: 0 <= j < y ==> column[j] == current[x][j]
        invariant forall j :: y <= j < height ==> |column[j]| == rows
      {
        column := column[y := ArrayCopy(current[x][y], 0, column[y], 0, rows)];
      }
      copied := copied[x := column];
    }
  }

  /** The controller. `hasFunction[x][y]` says whether cell `(x, y)` has a network. */
  class Sensing<V> {
    const signals: nat
    /** `ARRAY_SIZE`: the length of a spike array. */
    const arraySize: nat
    const width: nat
    const height: nat
    const hasFunction: seq<seq<bool>>
    /** `nOfOutputGrid`: the number of output rows of each cell. */
    const nOfOutputs: seq<seq<nat>>
    var previousTime: real
    var lastSignals: SignalGrid
    var currentSignals: SignalGrid

    ghost predicate Valid()
      reads this
    {
      && Buffers(lastSignals, width, height, 4 * signals)
      && Buffers(currentSignals, width, height, 4 * signals)
      && Configuration().Valid()
    }

    /** The constants the controller was built with. */
    function Configuration(): (r: Config)
      ensures r.signals == signals && r.arraySize == arraySize && r.width == width && r.height == height
      ensures r.hasFunction == hasFunction && r.nOfOutputs == nOfOutputs
    {
      Config(signals, arraySize, width, height, hasFunction, nOfOutputs)
    }

    /** Every buffer of the grid is `4 · signals` zero rows. */
    function ZeroGrid(): (r: SignalGrid)
      ensures Buffers(r, width, height, 4 * signals)
      ensures forall x, y :: 0 <= x < width && 0 <= y < height ==> r[x][y] == ZeroRows(4 * signals, arraySize)
    {
      seq(width, _ => seq(height, _ => ZeroRows(4 * signals, arraySize)))
    }

    /** The constructor: two grids of zero buffers, then `reset`. */
    constructor (signals: nat, arraySize: nat, width: nat, height: nat, hasFunction: seq<seq<bool>>,
                 nOfOutputs: seq<seq<nat>>)
      requires |hasFunction| == width && forall x :: 0 <= x < width ==> |hasFunction[x]| == height
      requires |nOfOutputs| == width && forall x :: 0 <= x < width ==> |nOfOutputs[x]| == height
      ensures Valid()
      ensures this.signals == signals && this.arraySize == arraySize && this.width == width && this.height == height
      ensures this.hasFunction == hasFunction && this.nOfOutputs == nOfOutputs
      ensures previousTime == 0.0 && lastSignals == ZeroGrid() && currentSignals == ZeroGrid()
    {
      this.signals := signals;
      this.arraySize := arraySize;
      this.width := width;
      this.height := height;
      this.hasFunction := hasFunction;
      this.nOfOutputs := nOfOutputs;
      new;
      lastSignals := ZeroGrid();
      currentSignals := ZeroGrid();
      previousTime := 0.0;
    }

    /** `reset`: the clock goes back to 0 and every buffer of both grids is replaced by zero rows. */
    method Reset()
      requires Valid()
      modifies this
      ensures Valid()
      ensures previousTime == 0.0 && lastSignals == ZeroGrid() && currentSignals == ZeroGrid()
    {
      previousTime := 0.0;
      var last, current := lastSignals, currentSignals;
      for x := 0 to width
        invariant Buffers(last, width, height, 4 * signals) && Buffers(current, width, height, 4 * signals)
        invariant forall i :: 0 <= i < x ==> last[i] == ZeroGrid()[i] && current[i] == ZeroGrid()[i]
      {
        var lastColumn, currentColumn := last[x], current[x];
        for y := 0 to height
          invariant |lastColumn| == height && |currentColumn| == height
          invariant forall j :: 0 <= j < height ==> |lastColumn[j]| == 4 * signals && |currentColumn[j]| == 4 * signals
          invariant forall j :: 0 <= j < y ==>
                      lastColumn[j] == ZeroRows(4 * signals, arraySize) && currentColumn[j] == ZeroRows(4 * signals, arraySize)
        {
          lastColumn := lastColumn[y := ZeroRows(4 * signals, arraySize)];
          currentColumn := currentColumn[y := ZeroRows(4 * signals, arraySize)];
        }
        last, current := last[x := lastColumn], current[x := currentColumn];
      }
      lastSignals, currentSignals := last, current;
    }

    /** `getLastSignals(x, y)`: what cell `(x, y)`'s neighbours sent it, zero rows for a missing neighbour. */
    method GetLastSignals(x: int, y: int) returns (values: seq<seq<int>>)
      requires Valid()
      ensures values == LastSignals(lastSignals, width, height, signals, arraySize, x, y)
    {
      if signals <= 0 {
        return [];
      }
      var slots := GatherSlots(lastSignals, width, height, signals, x, y);
      values := FillSlots(slots, arraySize);
    }

    /** One cell of the first loop of `computeControlSignals`: its control signal and its new outgoing buffer. */
    method ComputeCell(step: Step<V>, x: nat, y: nat) returns (control: Option<real>, buffer: seq<seq<int>>)
      requires Valid() && StepFits(Configuration(), lastSignals, previousTime, step) && x < width && y < height
      ensures control == ControlSignal(Configuration(), lastSignals, previousTime, step, x, y)
      ensures buffer == NextCell(Configuration(), lastSignals, currentSignals, previousTime, step, x, y)
    {
      if step.voxels[x][y].None? {
        return None, currentSignals[x][y];
      }
      var voxel := step.voxels[x][y].value;
      var lastRows := GetLastSignals(x, y);
      var sensed := step.encode(x, y, voxel, step.t - previousTime, step.t);
      var inputs := lastRows + sensed;
      var outputs := if hasFunction[x][y] then step.respond(x, y, step.t, inputs) else ZeroRows(nOfOutputs[x][y], arraySize);
      assert outputs == CellOutputs(Configuration(), lastSignals, previousTime, step, x, y, voxel);
      var force := step.decode(x, y, outputs[0], step.t - previousTime);
      control := Some(force);
      buffer := ArrayCopy(outputs, 1, currentSignals[x][y], 0, |outputs| - 1);
    }

    /** The cells of column `x`, in order of `y`. */
    method ComputeColumn(step: Step<V>, x: nat) returns (controls: seq<Option<real>>, buffers: seq<seq<seq<int>>>)
      requires Valid() && StepFits(Configuration(), lastSignals, previousTime, step) && x < width
      ensures |controls| == height && |buffers| == height
      ensures forall y :: 0 <= y < height ==>
                && controls[y] == ControlSignal(Configuration(), lastSignals, previousTime, step, x, y)
                && buffers[y] == NextCell(Configuration(), lastSignals, currentSignals, previousTime, step, x, y)
    {
      controls, buffers := [], currentSignals[x];
      for y := 0 to height
        invariant |controls| == y && |buffers| == height
        invariant forall j :: 0 <= j < y ==>
                    && controls[j] == ControlSignal(Configuration(), lastSignals, previousTime, step, x, j)
                    && buffers[j] == NextCell(Configuration(), lastSignals, currentSignals, previousTime, step, x, j)
      {
        var control, buffer := ComputeCell(step, x, y);
        controls, buffers := controls + [control], buffers[y := buffer];
      }
    }

    /** The first loop of `computeControlSignals`, column by column: every cell's control signal and new buffer. */
    method ComputeCells(step: Step<V>) returns (controls: seq<seq<Option<real>>>, current: SignalGrid)
      requires Valid() && StepFits(Configuration(), lastSignals, previousTime, step)
      ensures |controls| == width && Buffers(current, width, height, 4 * signals)
      ensures forall x :: 0 <= x < width ==> |controls[x]| == height
      ensures forall x, y :: 0 <= x < width && 0 <= y < height ==>
                && controls[x][y] == ControlSignal(Configuration(), lastSignals, previousTime, step, x, y)
                && current[x][y] == NextCell(Configuration(), lastSignals, currentSignals, previousTime, step, x, y)
    {
      controls, current := [], currentSignals;
      for x := 0 to width
        invariant |controls| == x && Buffers(current, width, height, 4 * signals)
        invariant forall i :: 0 <= i < x ==> |controls[i]| == height
        invariant forall i, j :: 0 <= i < x && 0 <= j < height ==>
                    && controls[i][j] == ControlSignal(Configuration(), lastSignals, previousTime, step, i, j)
                    && current[i][j] == NextCell(Configuration(), lastSignals, currentSignals, previousTime, step, i, j)
      {
        var column, buffers := ComputeColumn(step, x);
        controls, current := controls + [column], current[x := buffers];
      }
    }

    /**
     * `computeControlSignals(t, voxels)`: every occupied cell reads what its
     * neighbours sent at the previous step and its sensors, runs its network,
     * is driven by its first output and queues the others for its neighbours;
     * then the clock moves to `t` and the queued signals become the ones sent.
     * Cells only read `lastSignals`, which the first loop does not write, so the
     * order in which they are visited does not matter.
     */
    method ComputeControlSignals(step: Step<V>) returns (controls: seq<seq<Option<real>>>)
      requires Valid() && StepFits(Configuration(), lastSignals, previousTime, step)
      modifies this
      ensures Valid() && previousTime == step.t && lastSignals == currentSignals
      ensures |controls| == width && forall x :: 0 <= x < width ==> |controls[x]| == height
      ensures forall x, y :: 0 <= x < width && 0 <= y < height ==>
                && controls[x][y] == ControlSignal(Configuration(), old(lastSignals), old(previousTime), step, x, y)
                && currentSignals[x][y]
                     == NextCell(Configuration(), old(lastSignals), old(currentSignals), old(previousTime), step, x, y)
    {
      var current;
      controls, current := ComputeCells(step);
      currentSignals, previousTime := current, step.t;
      lastSignals := CopyGrid(current, lastSignals, width, height, 4 * signals);
    }
  }
}
