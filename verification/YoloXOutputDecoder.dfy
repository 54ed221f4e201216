/**
 Turns the raw YOLOX output into candidates: one row per cell of a flat grid over all strides.
 The exponential is a parameter, and rounding is not modelled.
 */
module YoloXOutputDecoder {
  import opened Basics

  const BOX_X := 0
  const BOX_Y := 1
  const BOX_WIDTH := 2
  const BOX_HEIGHT := 3
  const OBJECTNESS := 4
  const CLASS_SCORES := 5

  datatype Config = Config(classCount: nat, inputSize: nat, strides: seq<nat>, accepted: seq<int>, threshold: Float)

  datatype GridCell = GridCell(x: nat, y: nat, stride: nat)

  datatype Candidate = Candidate(
    centerX: Float, centerY: Float, width: Float, height: Float, confidence: Float, classId: int)

  datatype Decoded =
    | InvalidConfiguration
    | StrideDoesNotDivide
    | ClassIdOutOfRange
    | UnexpectedShape
    | Candidates(candidates: seq<Candidate>)

  // ----- arithmetic on special values

  predicate IsPositive(a: Float) {
    Finite(0.0).Less(a)
  }

  function Plus(a: Float, b: Float): Float {
    match (a, b)
    case (NaN, _) => NaN
    case (_, NaN) => NaN
    case (Finite(x), Finite(y)) => Finite(x + y)
    case (Finite(_), _) => b
    case (_, Finite(_)) => a
    case _ => if a == b then a else NaN
  }

  function Times(a: Float, b: Float): Float {
    match (a, b)
    case (NaN, _) => NaN
    case (_, NaN) => NaN
    case (Finite(x), Finite(y)) => Finite(x * y)
    case _ =>
      if a.IsZero() || b.IsZero() then NaN
      else if IsPositive(a) == IsPositive(b) then PosInf
      else NegInf
  }

  // ----- configuration

  predicate Usable(config: Config) {
    config.classCount != 0 && config.inputSize != 0 && config.strides != [] &&
    config.threshold.Finite? && 0.0 <= config.threshold.r <= 1.0
  }

  predicate Divides(stride: nat, size: nat) {
    stride != 0 && size % stride == 0
  }

  predicate KnownClass(id: int, config: Config) {
    0 <= id < config.classCount
  }

  predicate StridesDivide(config: Config) {
    forall i :: 0 <= i < |config.strides| ==> Divides(config.strides[i], config.inputSize)
  }

  predicate ValidConfig(config: Config) {
    Usable(config) && StridesDivide(config) &&
    (forall i :: 0 <= i < |config.accepted| ==> KnownClass(config.accepted[i], config))
  }

  /** The first thing that is wrong with a configuration. */
  method ValidateConfig(config: Config) returns (error: Option<Decoded>)
    ensures error.None? <==> ValidConfig(config)
    ensures error == Some(InvalidConfiguration) <==> !Usable(config)
    ensures error == Some(StrideDoesNotDivide) <==> Usable(config) && !StridesDivide(config)
    ensures error == Some(ClassIdOutOfRange) <==> Usable(config) && StridesDivide(config) && !ValidConfig(config)
    ensures error.Some? ==>
      error.value.InvalidConfiguration? || error.value.StrideDoesNotDivide? || error.value.ClassIdOutOfRange?
  {
    if config.classCount == 0 || config.inputSize == 0 || config.strides == [] || !config.threshold.Finite? ||
       config.threshold.r < 0.0 || config.threshold.r > 1.0 {
      return Some(InvalidConfiguration);
    }
    for i := 0 to |config.strides|
      invariant forall k :: 0 <= k < i ==> Divides(config.strides[k], config.inputSize)
    {
      if config.strides[i] == 0 || config.inputSize % config.strides[i] != 0 {
        return Some(StrideDoesNotDivide);
      }
    }
    for i := 0 to |config.accepted|
      invariant forall k :: 0 <= k < i ==> KnownClass(config.accepted[k], config)
    {
      if config.accepted[i] < 0 || config.accepted[i] >= config.classCount {
        return Some(ClassIdOutOfRange);
      }
    }
    return None;
  }

  // ----- the grid

  function Side(config: Config, k: nat): nat
    requires ValidConfig(config) && k < |config.strides|
  {
    assert Divides(config.strides[k], config.inputSize);
    config.inputSize / config.strides[k]
  }

  /** The cells before those of stride `k`: the sum of the squared sides. */
  function Base(config: Config, k: nat): nat
    requires ValidConfig(config) && k <= |config.strides|
  {
    if k == 0 then 0 else Base(config, k - 1) + Side(config, k - 1) * Side(config, k - 1)
  }

  function RowCells(y: nat, count: nat, stride: nat): seq<GridCell> {
    seq(count, x requires 0 <= x < count => GridCell(x, y, stride))
  }

  function PlaneCells(rows: nat, side: nat, stride: nat): seq<GridCell> {
    if rows == 0 then [] else PlaneCells(rows - 1, side, stride) + RowCells(rows - 1, side, stride)
  }

  /** The flat grid over the first `k` strides. */
  function Grid(config: Config, k: nat): seq<GridCell>
    requires ValidConfig(config) && k <= |config.strides|
  {
    if k == 0 then []
    else Grid(config, k - 1) + PlaneCells(Side(config, k - 1), Side(config, k - 1), config.strides[k - 1])
  }

  method MakeGrid(config: Config) returns (result: seq<GridCell>)
    requires ValidConfig(config)
    ensures result == Grid(config, |config.strides|)
  {
    result := [];
    for k := 0 to |config.strides|
      invariant result == Grid(config, k)
    {
      var stride := config.strides[k];
      assert Divides(stride, config.inputSize);
      var side := config.inputSize / stride;
      ghost var before := result;
      for y := 0 to side
        invariant result == before + PlaneCells(y, side, stride)
      {
        ghost var row := result;
        for x := 0 to side
          invariant result == row + RowCells(y, x, stride)
        {
          assert RowCells(y, x + 1, stride) == RowCells(y, x, stride) + [GridCell(x, y, stride)];
          result := result + [GridCell(x, y, stride)];
        }
      }
    }
  }

  // ----- the grid, cell by cell

  predicate InPlane(config: Config, k: nat, y: nat, x: nat)
    requires ValidConfig(config)
  {
    k < |config.strides| && y < Side(config, k) && x < Side(config, k)
  }

  /** The flat index of cell (x, y) of stride `k`. */
  function IndexOf(config: Config, k: nat, y: nat, x: nat): nat
    requires ValidConfig(config) && k < |config.strides|
  {
    Base(config, k) + y * Side(config, k) + x
  }

  lemma {:induction false} PlaneIndex(rows: nat, side: nat, stride: nat, y: nat, x: nat)
    requires y < rows && x < side
    ensures |PlaneCells(rows, side, stride)| == rows * side
    ensures y * side + x < rows * side
    ensures PlaneCells(rows, side, stride)[y * side + x] == GridCell(x, y, stride)
  {
    PlaneSize(rows - 1, side, stride);
    if y < rows - 1 {
      PlaneIndex(rows - 1, side, stride, y, x);
    }
    assert rows * side == (rows - 1) * side + side;
  }

  lemma {:induction false} PlaneSize(rows: nat, side: nat, stride: nat)
    ensures |PlaneCells(rows, side, stride)| == rows * side
  {
    if rows > 0 {
      PlaneSize(rows - 1, side, stride);
      assert rows * side == (rows - 1) * side + side;
    }
  }

  lemma {:induction false} GridSize(config: Config, k: nat)
    requires ValidConfig(config) && k <= |config.strides|
    ensures |Grid(config, k)| == Base(config, k)
  {
    if k > 0 {
      GridSize(config, k - 1);
      PlaneSize(Side(config, k - 1), Side(config, k - 1), config.strides[k - 1]);
    }
  }

  /** Every cell of every stride is at its index in the flat grid. */
  lemma GridHoldsCell(config: Config, n: nat, k: nat, y: nat, x: nat)
    requires ValidConfig(config) && n <= |config.strides| && k < n && InPlane(config, k, y, x)
    ensures CellAt(Grid(config, n), IndexOf(config, k, y, x), GridCell(x, y, config.strides[k]))
  {
    NewPlaneHoldsCell(config, k, y, x);
    GridKeepsCell(config, k + 1, n, IndexOf(config, k, y, x), GridCell(x, y, config.strides[k]));
  }

  lemma NewPlaneHoldsCell(config: Config, k: nat, y: nat, x: nat)
    requires ValidConfig(config) && k < |config.strides| && InPlane(config, k, y, x)
    ensures CellAt(Grid(config, k + 1), IndexOf(config, k, y, x), GridCell(x, y, config.strides[k]))
  {
    PlaneHoldsCell(Side(config, k), config.strides[k], y, x);
    CellInNextPlane(config, k, y * Side(config, k) + x, GridCell(x, y, config.strides[k]));
  }

  lemma CellInNextPlane(config: Config, k: nat, offset: nat, cell: GridCell)
    requires ValidConfig(config) && k < |config.strides|
    requires CellAt(PlaneCells(Side(config, k), Side(config, k), config.strides[k]), offset, cell)
    ensures CellAt(Grid(config, k + 1), Base(config, k) + offset, cell)
  {
    GridSize(config, k);
    NextGrid(config, k);
    CellMoves(Grid(config, k), PlaneCells(Side(config, k), Side(config, k), config.strides[k]), offset, cell);
  }

  lemma PlaneHoldsCell(side: nat, stride: nat, y: nat, x: nat)
    requires y < side && x < side
    ensures CellAt(PlaneCells(side, side, stride), y * side + x, GridCell(x, y, stride))
  {
    PlaneIndex(side, side, stride, y, x);
  }

  lemma NextGrid(config: Config, k: nat)
    requires ValidConfig(config) && k < |config.strides|
    ensures Grid(config, k + 1) == Grid(config, k) + PlaneCells(Side(config, k), Side(config, k), config.strides[k])
  {
  }

  lemma {:induction false} GridKeepsCell(config: Config, m: nat, n: nat, i: nat, cell: GridCell)
    requires ValidConfig(config) && m <= n <= |config.strides| && CellAt(Grid(config, m), i, cell)
    ensures CellAt(Grid(config, n), i, cell)
    decreases n
  {
    if m < n {
      GridKeepsCell(config, m, n - 1, i, cell);
    }
  }

  predicate CellAt(grid: seq<GridCell>, i: nat, cell: GridCell) {
    i < |grid| && grid[i] == cell
  }

  lemma CellMoves(grid: seq<GridCell>, plane: seq<GridCell>, i: nat, cell: GridCell)
    requires CellAt(plane, i, cell)
    ensures CellAt(grid + plane, |grid| + i, cell)
  {
  }

  /** Every index of the flat grid is that of a cell. */
  lemma {:induction false} IndexHasCell(config: Config, n: nat, i: nat) returns (k: nat, y: nat, x: nat)
    requires ValidConfig(config) && n <= |config.strides| && i < Base(config, n)
    ensures k < n && InPlane(config, k, y, x) && IndexOf(config, k, y, x) == i
    decreases n
  {
    if i < Base(config, n - 1) {
      k, y, x := IndexHasCell(config, n - 1, i);
    } else {
      var offset, side := i - Base(config, n - 1), Side(config, n - 1);
      k, y, x := n - 1, offset / side, offset % side;
      RowInPlane(offset, side);
    }
  }

  lemma RowInPlane(offset: nat, side: nat)
    requires offset < side * side
    ensures side > 0 && offset / side < side && offset == offset / side * side + offset % side
  {
    var row := offset / side;
    assert offset == row * side + offset % side;
    if row >= side {
      ScaledUp(side, row, side);
      assert false;
    }
  }

  lemma ScaledUp(a: nat, b: nat, scale: nat)
    requires a <= b
    ensures a * scale <= b * scale
  {
    assert (b - a) * scale >= 0;
  }

  /** Different cells have different indices, so cells and indices correspond one to one. */
  lemma IndexIsInjective(config: Config, k: nat, y: nat, x: nat, k': nat, y': nat, x': nat)
    requires ValidConfig(config) && InPlane(config, k, y, x) && InPlane(config, k', y', x')
    requires IndexOf(config, k, y, x) == IndexOf(config, k', y', x')
    ensures k == k' && y == y' && x == x'
  {
    if k < k' {
      PlanesAreOrdered(config, k, y, x, k', y', x');
    } else if k' < k {
      PlanesAreOrdered(config, k', y', x', k, y, x);
    } else {
      SameRow(Side(config, k), y, x, y', x');
    }
  }

  /** All cells of a stride come before all cells of a later one. */
  lemma PlanesAreOrdered(config: Config, k: nat, y: nat, x: nat, k': nat, y': nat, x': nat)
    requires ValidConfig(config) && InPlane(config, k, y, x) && InPlane(config, k', y', x') && k < k'
    ensures IndexOf(config, k, y, x) < IndexOf(config, k', y', x')
  {
    IndexBounds(config, k, y, x);
    IndexBounds(config, k', y', x');
    BaseGrows(config, k + 1, k');
  }

  lemma IndexBounds(config: Config, k: nat, y: nat, x: nat)
    requires ValidConfig(config) && InPlane(config, k, y, x)
    ensures Base(config, k) <= IndexOf(config, k, y, x) < Base(config, k + 1)
  {
    PlaneIndex(Side(config, k), Side(config, k), 1, y, x);
  }

  lemma {:induction false} BaseGrows(config: Config, j: nat, k: nat)
    requires ValidConfig(config) && j <= k <= |config.strides|
    ensures Base(config, j) <= Base(config, k)
  {
    if j < k {
      BaseGrows(config, j, k - 1);
    }
  }

  lemma SameRow(side: nat, y: nat, x: nat, y': nat, x': nat)
    requires x < side && x' < side && y * side + x == y' * side + x'
    ensures y == y' && x == x'
  {
    if y < y' {
      ScaledUp(y + 1, y', side);
      NextRow(y, side);
      assert false;
    } else if y' < y {
      ScaledUp(y' + 1, y, side);
      NextRow(y', side);
      assert false;
    }
  }

  lemma NextRow(y: nat, side: nat)
    ensures (y + 1) * side == y * side + side
  {
  }

  // ----- the best class of a row

  predicate AcceptedClass(id: int, config: Config) {
    config.accepted == [] || id in config.accepted
  }

  predicate Scores(row: seq<Float>, config: Config, id: int)
    requires |row| == CLASS_SCORES + config.classCount && 0 <= id < config.classCount
  {
    AcceptedClass(id, config) && row[CLASS_SCORES + id].Finite? && row[CLASS_SCORES + id].r > 0.0
  }

  /** Among the first `count` classes, `id` is the first with the highest score; -1 if none scores. */
  ghost predicate IsBest(row: seq<Float>, config: Config, count: nat, id: int, score: real)
    requires |row| == CLASS_SCORES + config.classCount && count <= config.classCount
  {
    if id < 0 then id == -1 && score == 0.0 && forall c :: 0 <= c < count ==> !Scores(row, config, c)
    else
      id < count && Scores(row, config, id) && score == row[CLASS_SCORES + id].r &&
      (forall c :: 0 <= c < count && Scores(row, config, c) ==> row[CLASS_SCORES + c].r <= score) &&
      (forall c :: 0 <= c < id && Scores(row, config, c) ==> row[CLASS_SCORES + c].r < score)
  }

  lemma BestIsUnique(row: seq<Float>, config: Config, id: int, score: real, id': int, score': real)
    requires |row| == CLASS_SCORES + config.classCount
    requires IsBest(row, config, config.classCount, id, score) && IsBest(row, config, config.classCount, id', score')
    ensures id == id' && score == score'
  {
  }

  method HighestScoringClass(row: seq<Float>, config: Config) returns (id: int, score: real)
    requires |row| == CLASS_SCORES + config.classCount
    ensures IsBest(row, config, config.classCount, id, score)
  {
    id, score := -1, 0.0;
    for c := 0 to config.classCount
      invariant IsBest(row, config, c, id, score)
    {
      if !AcceptedClass(c, config) {
        continue;
      }
      var value := row[CLASS_SCORES + c];
      if value.Finite? && value.r > score {
        score := value.r;
        id := c;
      }
    }
  }

  // ----- decoding

  /** What the boxes of a row say, relative to its cell. */
  function BoxOf(exp: Float -> Float, row: seq<Float>, cell: GridCell): (Float, Float, Float, Float)
    requires |row| >= CLASS_SCORES
  {
    var stride := Finite(cell.stride as real);
    (Times(Plus(row[BOX_X], Finite(cell.x as real)), stride),
     Times(Plus(row[BOX_Y], Finite(cell.y as real)), stride),
     Times(exp(row[BOX_WIDTH]), stride),
     Times(exp(row[BOX_HEIGHT]), stride))
  }

  /**
   A centre on one axis: so many strides from where cell `index` begins as the offset says, and for an offset
   from 0 to 1 inside the cell's own part of the image.
   */
  predicate Placed(center: Float, offset: real, index: nat, stride: nat) {
    center.Finite? &&
    var s := stride as real;
    center.r - index as real * s == offset * s &&
    (0.0 <= offset <= 1.0 ==> index as real * s <= center.r <= index as real * s + s)
  }

  lemma PlacedOnAxis(offset: real, index: nat, stride: nat)
    ensures Placed(Times(Plus(Finite(offset), Finite(index as real)), Finite(stride as real)), offset, index, stride)
  {
    var s := stride as real;
    assert (offset + index as real) * s == offset * s + index as real * s;
    if 0.0 <= offset <= 1.0 {
      ScaledBetween(offset, s);
    }
  }

  lemma ScaledBetween(offset: real, s: real)
    requires 0.0 <= offset <= 1.0 && s >= 0.0
    ensures 0.0 <= offset * s <= s
  {
    assert (1.0 - offset) * s >= 0.0;
  }

  /** Finite entries place the centre by the cell, and give a size in strides. */
  lemma BoxInCell(exp: Float -> Float, row: seq<Float>, cell: GridCell, x: real, y: real, width: real, height: real)
    requires |row| >= CLASS_SCORES && row[0] == Finite(x) && row[1] == Finite(y)
    requires exp(row[2]) == Finite(width) && exp(row[3]) == Finite(height)
    ensures var (centerX, centerY, w, h) := BoxOf(exp, row, cell);
      Placed(centerX, x, cell.x, cell.stride) && Placed(centerY, y, cell.y, cell.stride) &&
      w == Finite(width * cell.stride as real) && h == Finite(height * cell.stride as real)
  {
    PlacedOnAxis(x, cell.x, cell.stride);
    PlacedOnAxis(y, cell.y, cell.stride);
  }

  predicate GoodBox(box: (Float, Float, Float, Float)) {
    box.0.Finite? && box.1.Finite? && box.2.Finite? && box.3.Finite? && box.2.r > 0.0 && box.3.r > 0.0
  }

  /** `candidate` is what `row` yields at `cell`. */
  ghost predicate Yields(exp: Float -> Float, row: seq<Float>, cell: GridCell, config: Config, candidate: Candidate)
    requires |row| == CLASS_SCORES + config.classCount
  {
    var box := BoxOf(exp, row, cell);
    row[OBJECTNESS].Finite? && GoodBox(box) && candidate.confidence.Finite? && config.threshold.Finite? &&
    candidate.confidence.r > config.threshold.r &&
    (candidate.centerX, candidate.centerY, candidate.width, candidate.height) == box &&
    candidate.classId >= 0 &&
    exists score :: IsBest(row, config, config.classCount, candidate.classId, score) &&
      candidate.confidence == Times(row[OBJECTNESS], Finite(score))
  }

  /** Decodes one row, if it yields a candidate. */
  method DecodeRow(exp: Float -> Float, row: seq<Float>, cell: GridCell, config: Config) returns (r: Option<Candidate>)
    requires |row| == CLASS_SCORES + config.classCount && config.threshold.Finite?
    ensures r.Some? ==> Yields(exp, row, cell, config, r.value)
    ensures r.None? ==> forall c :: !Yields(exp, row, cell, config, c)
  {
    var objectness := row[OBJECTNESS];
    var classId, classScore := HighestScoringClass(row, config);
    var confidence := Times(objectness, Finite(classScore));
    forall c | Yields(exp, row, cell, config, c) ensures c.classId == classId && c.confidence == confidence {
      var score :| IsBest(row, config, config.classCount, c.classId, score) &&
        c.confidence == Times(objectness, Finite(score));
      BestIsUnique(row, config, classId, classScore, c.classId, score);
    }
    if classId < 0 || !AcceptedClass(classId, config) || !objectness.Finite? || !confidence.Finite? ||
       confidence.r <= config.threshold.r {
      return None;
    }
    var stride := Finite(cell.stride as real);
    var centerX := Times(Plus(row[BOX_X], Finite(cell.x as real)), stride);
    var centerY := Times(Plus(row[BOX_Y], Finite(cell.y as real)), stride);
    var width := Times(exp(row[BOX_WIDTH]), stride);
    var height := Times(exp(row[BOX_HEIGHT]), stride);
    if !centerX.Finite? || !centerY.Finite? || !width.Finite? || !height.Finite? || width.r <= 0.0 || height.r <= 0.0 {
      return None;
    }
    r := Some(Candidate(centerX, centerY, width, height, confidence, classId));
  }

  /** A flat output cut into its rows. */
  function RowsOf(output: seq<Float>, columns: nat, count: nat): (rows: seq<seq<Float>>)
    requires |output| == count * columns
    ensures |rows| == count && forall i :: 0 <= i < count ==> |rows[i]| == columns
  {
    seq(count, i requires 0 <= i < count => RowAt(output, columns, count, i))
  }

  /** Entry `j` of row `i` is entry `i * columns + j` of the output. */
  lemma RowEntry(output: seq<Float>, columns: nat, count: nat, i: nat, j: nat)
    requires |output| == count * columns && i < count && j < columns
    ensures i * columns + j < |output| && RowsOf(output, columns, count)[i][j] == output[i * columns + j]
  {
    RowFits(count, columns, i);
  }

  function RowAt(output: seq<Float>, columns: nat, count: nat, i: nat): (row: seq<Float>)
    requires |output| == count * columns && i < count
    ensures |row| == columns
  {
    RowFits(count, columns, i);
    output[i * columns..(i + 1) * columns]
  }

  lemma RowFits(rows: nat, columns: nat, i: nat)
    requires i < rows
    ensures i * columns <= (i + 1) * columns <= rows * columns && (i + 1) * columns == i * columns + columns
  {
    ScaledUp(i + 1, rows, columns);
    NextRow(i, columns);
  }

  predicate RowsFit(rows: seq<seq<Float>>, config: Config) {
    forall i :: 0 <= i < |rows| ==> |rows[i]| == CLASS_SCORES + config.classCount
  }

  /**
   `sources` are, in order, exactly the indices below `count` that yield something, and `results`
   are what they yield.
   */
  ghost predicate IsFilter<T(!new)>(hit: (nat, T) -> bool, count: nat, sources: seq<nat>, results: seq<T>) {
    |sources| == |results| &&
    (forall j :: 0 <= j < |sources| ==> sources[j] < count && hit(sources[j], results[j])) &&
    (forall i, j :: 0 <= i < j < |sources| ==> sources[i] < sources[j]) &&
    (forall i: nat, t :: i < count && i !in sources ==> !hit(i, t))
  }

  lemma FilterTakes<T(!new)>(hit: (nat, T) -> bool, count: nat, sources: seq<nat>, results: seq<T>, t: T)
    requires IsFilter(hit, count, sources, results) && hit(count, t)
    ensures IsFilter(hit, count + 1, sources + [count], results + [t])
  {
  }

  lemma FilterSkips<T(!new)>(hit: (nat, T) -> bool, count: nat, sources: seq<nat>, results: seq<T>)
    requires IsFilter(hit, count, sources, results) && forall t :: !hit(count, t)
    ensures IsFilter(hit, count + 1, sources, results)
  {
  }

  /** Which candidate a row yields, as a relation between row numbers and candidates. */
  ghost function YieldOf(exp: Float -> Float, rows: seq<seq<Float>>, grid: seq<GridCell>, config: Config)
    : (nat, Candidate) -> bool
    requires |rows| == |grid| && RowsFit(rows, config)
  {
    (i: nat, c: Candidate) => i < |rows| && Yields(exp, rows[i], grid[i], config, c)
  }

  method DecodeRows(exp: Float -> Float, rows: seq<seq<Float>>, grid: seq<GridCell>, config: Config)
    returns (result: seq<Candidate>)
    requires ValidConfig(config) && |rows| == |grid| && RowsFit(rows, config)
    ensures exists sources :: IsFilter(YieldOf(exp, rows, grid, config), |rows|, sources, result)
  {
    result := [];
    ghost var sources: seq<nat> := [];
    ghost var hit := YieldOf(exp, rows, grid, config);
    for i := 0 to |rows|
      invariant IsFilter(hit, i, sources, result)
    {
      var candidate := DecodeRow(exp, rows[i], grid[i], config);
      if candidate.Some? {
        FilterTakes(hit, i, sources, result, candidate.value);
        result := result + [candidate.value];
        sources := sources + [i];
      } else {
        FilterSkips(hit, i, sources, result);
      }
    }
  }

  /** Decoding is an order-preserving filter of the rows. */
  method DecodeYoloXOutput(exp: Float -> Float, output: seq<Float>, rowCount: nat, columnCount: nat, config: Config)
    returns (r: Decoded)
    ensures r.InvalidConfiguration? <==> !Usable(config)
    ensures r.StrideDoesNotDivide? <==> Usable(config) && !StridesDivide(config)
    ensures r.ClassIdOutOfRange? <==> Usable(config) && StridesDivide(config) && !ValidConfig(config)
    ensures ValidConfig(config) ==>
      (r.Candidates? <==>
        rowCount == Base(config, |config.strides|) && columnCount == CLASS_SCORES + config.classCount &&
        |output| == rowCount * columnCount)
    ensures r.Candidates? ==>
      |Grid(config, |config.strides|)| == rowCount &&
      exists sources ::
        IsFilter(YieldOf(exp, RowsOf(output, columnCount, rowCount), Grid(config, |config.strides|), config),
                 rowCount, sources, r.candidates)
  {
    var error := ValidateConfig(config);
    if error.Some? {
      return error.value;
    }
    var grid := MakeGrid(config);
    GridSize(config, |config.strides|);
    var expectedColumns := CLASS_SCORES + config.classCount;
    if rowCount != |grid| || columnCount != expectedColumns || |output| != rowCount * columnCount {
      return UnexpectedShape;
    }
    var result := DecodeRows(exp, RowsOf(output, columnCount, rowCount), grid, config);
    r := Candidates(result);
  }
}
