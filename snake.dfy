/**
 * The snake game engine of the snake extension: a flat cell buffer (`Field`),
 * the snake's movement rule (`Snake`) and the controller (`Game`) that turns,
 * feeds, spawns food and draws one tick.
 *
 * The random start position and the random food positions are parameters:
 * `draws` is the stream of coordinates the random generator would produce, in
 * order. The four UI callbacks (`setField`, `setError`, `setScore`,
 * `setMessage`) are React state setters; each becomes a field holding the last
 * value passed to it.
 */
module SnakeGame {
  import opened Wrappers

  /** A cell of the play field; its symbol in the text rendering is `Symbol`. */
  datatype Cell = Empty | Wall | Food | SnakePart

  datatype Coord = Coord(x: int, y: int)

  datatype Move = Up | Down | Left | Right

  datatype GameScore = GameScore(food: nat, speed: int)

  /** What one step onto a coordinate leads to. */
  datatype Outcome = Eat | Crash | Advance

  const GameOverMessage: string := "Game Over \U{1F61D}"
  const WinMessage: string := "You win \U{1F600}"

  function Symbol(c: Cell): char
  {
    match c
    case Empty => ' '
    case Wall => '#'
    case Food => 'O'
    case SnakePart => 'X'
  }

  function AddCoords(c1: Coord, c2: Coord): Coord
  {
    Coord(c1.x + c2.x, c1.y + c2.y)
  }

  /** The unit vector `draw` derives from the current direction. */
  function MoveVector(m: Move): Coord
  {
    match m
    case Up => Coord(0, -1)
    case Down => Coord(0, 1)
    case Left => Coord(-1, 0)
    case Right => Coord(1, 0)
  }

  function Opposite(m: Move): Move
  {
    match m
    case Up => Down
    case Down => Up
    case Left => Right
    case Right => Left
  }

  /**
   * A 180-degree turn would step straight back: one step in `m` followed by
   * one step in the opposite direction returns to the start, which is the
   * cell the body's first segment occupies.
   */
  lemma {:induction false} ReverseStepReturns(c: Coord, m: Move)
    ensures AddCoords(AddCoords(c, MoveVector(m)), MoveVector(Opposite(m))) == c
    ensures Opposite(Opposite(m)) == m && Opposite(m) != m
  {
    match m
    case Up =>
    case Down =>
    case Left =>
    case Right =>
  }

  function Min(a: int, b: int): int
  {
    if a < b then a else b
  }

  /** Every coordinate with `0 <= x < width`, `0 <= y < height` has an index inside the buffer. */
  lemma IndexInRange(width: nat, height: nat, x: int, y: int)
    requires 0 <= x < width && 0 <= y < height
    ensures 0 <= width * y + x < width * height
  {
    assert width * (y + 1) <= width * height;
    assert width * (y + 1) == width * y + width;
  }

  class Field {
    const width: nat
    const height: nat
    var data: array<Cell>

    ghost predicate Valid()
      reads this
    {
      data.Length == width * height
    }

    constructor ()
      ensures Valid() && width == 100 && height == 18 && fresh(data)
      ensures forall i :: 0 <= i < data.Length ==> data[i] == Empty
    {
      width, height := 100, 18;
      data := new Cell[0];
      new;
      ClearField();
    }

    /** Replaces the buffer by `width * height` empty cells. */
    method ClearField()
      modifies this
      ensures Valid() && fresh(data)
      ensures forall i :: 0 <= i < data.Length ==> data[i] == Empty
    {
      var result := new Cell[width * height];
      var i := 0;
      while i < width * height
        invariant 0 <= i <= width * height
        invariant forall j :: 0 <= j < i ==> result[j] == Empty
      {
        result[i] := Empty;
        i := i + 1;
      }
      data := result;
    }

    /** The bounds check as written: the row `y == height` passes, unlike the column `x == width`. */
    function IsValidCoord(coord: Coord): (ok: bool)
      ensures ok <==> 0 <= coord.x < width && 0 <= coord.y <= height
      ensures ok && coord.y == height ==> CoordToIndex(coord) >= width * height
    {
      if coord.x < 0 || coord.y < 0 then false
      else if coord.x >= width || coord.y > height then false
      else true
    }

    function CoordToIndex(coord: Coord): int
    {
      width * coord.y + coord.x
    }

    function Indices(cs: seq<Coord>): (r: seq<int>)
      ensures |r| == |cs| && forall k :: 0 <= k < |cs| ==> r[k] == CoordToIndex(cs[k])
    {
      seq(|cs|, k requires 0 <= k < |cs| => CoordToIndex(cs[k]))
    }

    /** `getValue` on a snapshot of the buffer: an index outside it reads as `undefined`. */
    function ValueIn(cells: seq<Cell>, coord: Coord): (v: Option<Cell>)
      ensures v.Some? <==> 0 <= CoordToIndex(coord) < |cells|
      ensures v.Some? ==> v.value == cells[CoordToIndex(coord)]
    {
      var i := CoordToIndex(coord);
      if 0 <= i < |cells| then Some(cells[i]) else None
    }

    function GetValue(coord: Coord): Option<Cell>
      reads this, data
    {
      ValueIn(data[..], coord)
    }

    method SetValue(coord: Coord, value: Cell)
      requires 0 <= CoordToIndex(coord) < data.Length
      modifies data
      ensures data[..] == old(data[..])[CoordToIndex(coord) := value]
    {
      var i := CoordToIndex(coord);
      data[i] := value;
    }

    /** True exactly when no cell is empty (the win condition). */
    method IsFieldFull() returns (full: bool)
      ensures full <==> forall i :: 0 <= i < data.Length ==> data[i] != Empty
    {
      for i := 0 to data.Length
        invariant forall j :: 0 <= j < i ==> data[j] != Empty
      {
        if data[i] == Empty {
          return false;
        }
      }
      return true;
    }

    /** The bordered text rendering: one leading newline, then `height + 2` lines of `width + 2` symbols. */
    method ToString() returns (result: string)
      requires Valid()
      ensures result == Rendered(this, data[..])
    {
      result := "\n";
      var y := -1;
      while y <= height
        invariant -1 <= y <= height + 1
        invariant result == "\n" + Lines(this, data[..], y + 1)
      {
        var row := RowString(y);
        result := result + row + "\n";
        y := y + 1;
      }
    }

    /** The inner loop of `toString`: the symbols of row `y`, walls at both ends. */
    method RowString(y: int) returns (row: string)
      requires Valid() && -1 <= y <= height
      ensures row == Row(this, data[..], y, width + 2)
    {
      row := [];
      var x := -1;
      while x <= width
        invariant -1 <= x <= width + 1
        invariant row == Row(this, data[..], y, x + 1)
      {
        var v := Symbol(Empty);
        if y == -1 || y == height || x == -1 || x == width {
          v := Symbol(Wall);
        } else {
          IndexInRange(width, height, x, y);
          var cell := GetValue(Coord(x, y));
          v := Symbol(cell.value);
        }
        row := row + [v];
        x := x + 1;
      }
    }
  }

  /** The symbol `toString` prints at column `x`, row `y` of the framed grid. */
  function CellChar(f: Field, cells: seq<Cell>, x: int, y: int): char
    requires |cells| == f.width * f.height
    requires -1 <= x <= f.width && -1 <= y <= f.height
  {
    if y == -1 || y == f.height || x == -1 || x == f.width then Symbol(Wall)
    else
      IndexInRange(f.width, f.height, x, y);
      Symbol(cells[f.CoordToIndex(Coord(x, y))])
  }

  /** The first `n` symbols of row `y` (columns -1 .. n - 2). */
  function Row(f: Field, cells: seq<Cell>, y: int, n: nat): string
    requires |cells| == f.width * f.height
    requires -1 <= y <= f.height && n <= f.width + 2
  {
    if n == 0 then [] else Row(f, cells, y, n - 1) + [CellChar(f, cells, n - 2, y)]
  }

  /** The first `m` lines (rows -1 .. m - 2), each ended by a newline. */
  function Lines(f: Field, cells: seq<Cell>, m: nat): string
    requires |cells| == f.width * f.height
    requires m <= f.height + 2
  {
    if m == 0 then [] else Lines(f, cells, m - 1) + Row(f, cells, m - 2, f.width + 2) + "\n"
  }

  function Rendered(f: Field, cells: seq<Cell>): string
    requires |cells| == f.width * f.height
  {
    "\n" + Lines(f, cells, f.height + 2)
  }

  lemma {:induction false} RowAt(f: Field, cells: seq<Cell>, y: int, n: nat)
    requires |cells| == f.width * f.height
    requires -1 <= y <= f.height && n <= f.width + 2
    ensures |Row(f, cells, y, n)| == n
    ensures forall k :: 0 <= k < n ==> Row(f, cells, y, n)[k] == CellChar(f, cells, k - 1, y)
  {
    if n > 0 {
      RowAt(f, cells, y, n - 1);
    }
  }

  lemma {:induction false} LinesLength(f: Field, cells: seq<Cell>, m: nat)
    requires |cells| == f.width * f.height
    requires m <= f.height + 2
    ensures |Lines(f, cells, m)| == m * (f.width + 3)
  {
    if m > 0 {
      LinesLength(f, cells, m - 1);
      RowAt(f, cells, m - 2, f.width + 2);
      assert m * (f.width + 3) == (m - 1) * (f.width + 3) + (f.width + 3);
    }
  }

  /** Character `k` of line `r` (both from 0) of the first `m` lines. */
  lemma {:induction false} LinesAt(f: Field, cells: seq<Cell>, m: nat, r: nat, k: nat)
    requires |cells| == f.width * f.height
    requires m <= f.height + 2 && r < m && k < f.width + 3
    ensures r * (f.width + 3) + k < |Lines(f, cells, m)|
    ensures Lines(f, cells, m)[r * (f.width + 3) + k] ==
      if k < f.width + 2 then CellChar(f, cells, k - 1, r - 1) else '\n'
  {
    var w3 := f.width + 3;
    var prev := Lines(f, cells, m - 1);
    var row := Row(f, cells, m - 2, f.width + 2) + "\n";
    assert Lines(f, cells, m) == prev + row;
    LinesLength(f, cells, m - 1);
    RowAt(f, cells, m - 2, f.width + 2);
    assert |prev| == (m - 1) * w3;
    if r < m - 1 {
      LinesAt(f, cells, m - 1, r, k);
    } else {
      assert r * w3 + k == |prev| + k;
      assert row[k] == if k < f.width + 2 then CellChar(f, cells, k - 1, r - 1) else '\n';
    }
  }

  /** Where the symbol for column `x`, row `y` (both from the frame at -1) sits in the rendering. */
  function RenderedPos(f: Field, x: int, y: int): (i: nat)
    requires -1 <= x <= f.width + 1 && -1 <= y <= f.height
    ensures i < 1 + (f.height + 2) * (f.width + 3)
  {
    assert (f.width + 3) * (y + 2) <= (f.width + 3) * (f.height + 2);
    assert (f.width + 3) * (y + 2) == (y + 1) * (f.width + 3) + (f.width + 3);
    1 + (y + 1) * (f.width + 3) + (x + 1)
  }

  /**
   * The rendering frames the field with walls: it has `1 + (height + 2) * (width + 3)`
   * characters, and the character for column `x`, row `y` (both counted from the
   * frame at -1) is a wall on the frame and the cell's symbol inside it; every
   * line ends in a newline.
   */
  lemma {:induction false} RenderedLayout(f: Field, cells: seq<Cell>, x: int, y: int)
    requires |cells| == f.width * f.height
    requires -1 <= x <= f.width && -1 <= y <= f.height
    ensures |Rendered(f, cells)| == 1 + (f.height + 2) * (f.width + 3)
    ensures Rendered(f, cells)[RenderedPos(f, x, y)] == CellChar(f, cells, x, y)
    ensures Rendered(f, cells)[RenderedPos(f, f.width + 1, y)] == '\n'
  {
    LinesLength(f, cells, f.height + 2);
    LinesAt(f, cells, f.height + 2, y + 1, x + 1);
    LinesAt(f, cells, f.height + 2, y + 1, f.width + 2);
  }

  /** The coordinate `spawnFood` picks: the first draw that reads as an empty cell, as a buffer index. */
  function FirstEmptyDraw(f: Field, cells: seq<Cell>, draws: seq<Coord>): (r: Option<int>)
    ensures r.Some? ==> 0 <= r.value < |cells| && cells[r.value] == Empty
    ensures r.Some? ==> exists k :: 0 <= k < |draws| && f.CoordToIndex(draws[k]) == r.value
    ensures r.None? <==> forall k :: 0 <= k < |draws| ==> f.ValueIn(cells, draws[k]) != Some(Empty)
  {
    if |draws| == 0 then None
    else if f.ValueIn(cells, draws[0]) == Some(Empty) then Some(f.CoordToIndex(draws[0]))
    else
      var r := FirstEmptyDraw(f, cells, draws[1..]);
      assert forall k :: 1 <= k < |draws| ==> draws[k] == draws[1..][k - 1];
      r
  }

  /** The buffer after `spawnFood`: food on the picked cell, nothing else changed. */
  function Spawned(f: Field, cells: seq<Cell>, draws: seq<Coord>): seq<Cell>
  {
    match FirstEmptyDraw(f, cells, draws)
    case Some(i) => cells[i := Food]
    case None => cells
  }

  /**
   * Food lands only on a cell that was empty, and no other cell changes; it is
   * placed exactly when some draw reads as an empty cell.
   */
  lemma SpawnedChangesOneEmptyCell(f: Field, cells: seq<Cell>, draws: seq<Coord>)
    ensures |Spawned(f, cells, draws)| == |cells|
    ensures forall i :: 0 <= i < |cells| && Spawned(f, cells, draws)[i] != cells[i] ==>
      cells[i] == Empty && Spawned(f, cells, draws)[i] == Food
    ensures forall i, j :: 0 <= i < j < |cells| ==>
      Spawned(f, cells, draws)[i] == cells[i] || Spawned(f, cells, draws)[j] == cells[j]
    ensures Spawned(f, cells, draws) != cells <==>
      exists k :: 0 <= k < |draws| && f.ValueIn(cells, draws[k]) == Some(Empty)
  {
    var r := FirstEmptyDraw(f, cells, draws);
    if r.Some? {
      assert Spawned(f, cells, draws)[r.value] == Food != cells[r.value];
    }
  }

  /**
   * On a full field no draw can succeed: the source's `while (true)` never
   * leaves, and over any finite prefix of draws the field stays as it is.
   */
  lemma FullFieldNeverSpawns(f: Field, cells: seq<Cell>, draws: seq<Coord>)
    requires forall i :: 0 <= i < |cells| ==> cells[i] != Empty
    ensures FirstEmptyDraw(f, cells, draws).None?
    ensures Spawned(f, cells, draws) == cells
  {
  }

  /** The step rule of `Snake.move` as written: food first, then the collision test. */
  function Classify(f: Field, cells: seq<Cell>, p: Coord): Outcome
  {
    var ev := f.ValueIn(cells, p);
    if ev == Some(Food) then Eat
    else if ev == Some(Wall) || ev == None || ev == Some(SnakePart) || !f.IsValidCoord(p) then Crash
    else Advance
  }

  /**
   * The off-by-one in `isValidCoord` is harmless for a plain step: a step that
   * is neither food nor a collision lands strictly inside the field, because
   * the row `y == height` lies past the end of the buffer and reads as
   * `undefined`.
   */
  lemma AdvanceStaysOnField(f: Field, cells: seq<Cell>, p: Coord)
    requires |cells| == f.width * f.height
    requires Classify(f, cells, p) == Advance
    ensures 0 <= p.x < f.width && 0 <= p.y < f.height
    ensures cells[f.CoordToIndex(p)] == Empty
  {
    assert f.IsValidCoord(p);
  }

  /**
   * As written, the food branch skips the bounds check. Stepping right off the
   * last column of row 5 of the 100 x 18 field reads the buffer index of the
   * first column of row 6; with food there, the step is an `Eat` although the
   * target lies outside the field, so the head leaves the board.
   */
  lemma FoodWrapLeavesBoard(f: Field, cells: seq<Cell>)
    requires f.width == 100 && f.height == 18
    requires |cells| == 1800 && cells[600] == Food
    ensures Classify(f, cells, AddCoords(Coord(99, 5), MoveVector(Right))) == Eat
    ensures !f.IsValidCoord(AddCoords(Coord(99, 5), MoveVector(Right)))
  {
    assert f.CoordToIndex(Coord(100, 5)) == 600;
  }

  /**
   * The evidently intended rule: the bounds check comes first and excludes the
   * row `y == height`, so a target outside the field is a collision whatever
   * the buffer holds at its index.
   */
  function ClassifyChecked(f: Field, cells: seq<Cell>, p: Coord): (o: Outcome)
    requires |cells| == f.width * f.height
    ensures o != Crash ==> 0 <= p.x < f.width && 0 <= p.y < f.height
    ensures o == Eat <==> 0 <= p.x < f.width && 0 <= p.y < f.height && f.ValueIn(cells, p) == Some(Food)
  {
    if !(0 <= p.x < f.width && 0 <= p.y < f.height) then Crash
    else
      IndexInRange(f.width, f.height, p.x, p.y);
      var ev := cells[f.CoordToIndex(p)];
      if ev == Food then Eat
      else if ev == Wall || ev == SnakePart then Crash
      else Advance
  }

  /**
   * The correction changes nothing on the field itself: for every target inside
   * it both rules agree, and the wrapped step of `FoodWrapLeavesBoard` becomes
   * a collision.
   */
  lemma ClassifyCheckedAgreesOnField(f: Field, cells: seq<Cell>, p: Coord)
    requires |cells| == f.width * f.height
    ensures 0 <= p.x < f.width && 0 <= p.y < f.height ==> ClassifyChecked(f, cells, p) == Classify(f, cells, p)
    ensures !(0 <= p.x < f.width && 0 <= p.y < f.height) ==> ClassifyChecked(f, cells, p) == Crash
  {
    if 0 <= p.x < f.width && 0 <= p.y < f.height {
      IndexInRange(f.width, f.height, p.x, p.y);
    }
  }

  /** Sequential writes of `v` at the indices `idx`, in order (the `drawBody` loop). */
  function Paint(cells: seq<Cell>, idx: seq<int>, v: Cell): (r: seq<Cell>)
    requires forall k :: 0 <= k < |idx| ==> 0 <= idx[k] < |cells|
    ensures |r| == |cells|
  {
    if |idx| == 0 then cells
    else Paint(cells, idx[..|idx| - 1], v)[idx[|idx| - 1] := v]
  }

  lemma {:induction false} PaintAt(cells: seq<Cell>, idx: seq<int>, v: Cell, i: int)
    requires forall k :: 0 <= k < |idx| ==> 0 <= idx[k] < |cells|
    requires 0 <= i < |cells|
    ensures Paint(cells, idx, v)[i] == if i in idx then v else cells[i]
  {
    if |idx| > 0 {
      var front := idx[..|idx| - 1];
      PaintAt(cells, front, v, i);
      assert idx == front + [idx[|idx| - 1]];
      assert i in idx <==> i in front || i == idx[|idx| - 1];
    }
  }

  /** The body after a step: the old head in front, cut to the target length (`slice(0, bodyLength)`). */
  function Shifted(head: Coord, body: seq<Coord>, bodyLength: nat): seq<Coord>
  {
    ([head] + body)[..Min(bodyLength, |body| + 1)]
  }

  /** The buffer after a step onto index `target`: head marked, old body erased, new body drawn. */
  function StepCells(base: seq<Cell>, target: int, oldBody: seq<int>, newBody: seq<int>): seq<Cell>
    requires 0 <= target < |base|
    requires forall k :: 0 <= k < |oldBody| ==> 0 <= oldBody[k] < |base|
    requires forall k :: 0 <= k < |newBody| ==> 0 <= newBody[k] < |base|
  {
    Paint(Paint(base[target := SnakePart], oldBody, Empty), newBody, SnakePart)
  }

  /**
   * What a step does to each cell: the new body is snake, cells dropped off
   * the old body are empty, the target is snake unless it was an old body
   * cell, and every other cell is unchanged.
   */
  lemma StepCellsAt(base: seq<Cell>, target: int, oldBody: seq<int>, newBody: seq<int>, i: int)
    requires 0 <= target < |base|
    requires forall k :: 0 <= k < |oldBody| ==> 0 <= oldBody[k] < |base|
    requires forall k :: 0 <= k < |newBody| ==> 0 <= newBody[k] < |base|
    requires 0 <= i < |base|
    ensures |StepCells(base, target, oldBody, newBody)| == |base|
    ensures StepCells(base, target, oldBody, newBody)[i] ==
      if i in newBody then SnakePart
      else if i in oldBody then Empty
      else if i == target then SnakePart
      else base[i]
  {
    var marked := base[target := SnakePart];
    PaintAt(marked, oldBody, Empty, i);
    PaintAt(Paint(marked, oldBody, Empty), newBody, SnakePart, i);
  }

  /** The new body keeps at most `bodyLength` segments, starts at the old head and keeps the old order. */
  lemma ShiftedShape(head: Coord, body: seq<Coord>, bodyLength: nat)
    ensures |Shifted(head, body, bodyLength)| <= bodyLength
    ensures |Shifted(head, body, bodyLength)| == Min(bodyLength, |body| + 1)
    ensures bodyLength > 0 ==> Shifted(head, body, bodyLength)[0] == head
    ensures forall k :: 1 <= k < |Shifted(head, body, bodyLength)| ==> Shifted(head, body, bodyLength)[k] == body[k - 1]
  {
  }

  /** The step of the speed ramp `increaseFood` applies: 20 ms faster, floored at 10 ms, and a level up only without the floor. */
  function SpeedStep(speedMs: int, speed: int): (r: (int, int))
    ensures r.0 >= 10
    ensures r.0 == if speedMs - 20 < 10 then 10 else speedMs - 20
    ensures r.1 == if speedMs - 20 >= 10 then speed + 1 else speed
  {
    var newSpeedMs := speedMs - 20;
    if newSpeedMs < 10 then (10, speed) else (newSpeedMs, speed + 1)
  }

  function SpeedAfter(n: nat): (int, int)
  {
    if n == 0 then (200, 1) else SpeedStep(SpeedAfter(n - 1).0, SpeedAfter(n - 1).1)
  }

  /**
   * From the start values (200 ms, level 1), the n-th food gives an interval of
   * max(200 - 20n, 10) ms and level 1 + min(n, 9): the level stops at 10.
   */
  lemma {:induction false} SpeedRamp(n: nat)
    ensures SpeedAfter(n).0 == if 200 - 20 * n < 10 then 10 else 200 - 20 * n
    ensures SpeedAfter(n).1 == 1 + Min(n, 9)
  {
    if n > 0 {
      SpeedRamp(n - 1);
    }
  }

  class Snake {
    var head: Coord
    var body: seq<Coord>
    var bodyLength: nat

    constructor (startPos: Coord)
      ensures head == startPos && body == [] && bodyLength == 3
    {
      head := startPos;
      body := [];
      bodyLength := 3;
    }

    /** Head and body lie at buffer indices of `f`, and the body is no longer than its target length. */
    ghost predicate OnField(f: Field)
      reads this
    {
      0 <= f.CoordToIndex(head) < f.width * f.height &&
      (forall k :: 0 <= k < |body| ==> 0 <= f.CoordToIndex(body[k]) < f.width * f.height) &&
      |body| <= bodyLength
    }

    /** The body cells are marked as snake in the buffer. */
    ghost predicate Marked(f: Field)
      reads this, f, f.data
      requires OnField(f) && f.Valid()
    {
      forall k :: 0 <= k < |body| ==> f.data[f.CoordToIndex(body[k])] == SnakePart
    }

    method DrawBody(f: Field, symbol: Cell)
      requires f.Valid() && OnField(f)
      modifies f.data
      ensures f.data[..] == Paint(old(f.data[..]), f.Indices(body), symbol)
    {
      ghost var idx := f.Indices(body);
      for i := 0 to |body|
        invariant f.data[..] == Paint(old(f.data[..]), idx[..i], symbol)
      {
        assert idx[..i + 1][..i] == idx[..i];
        f.SetValue(body[i], symbol);
      }
      assert idx[..|body|] == idx;
    }

    /**
     * The step proper (lines 52-63 of `move`): the target is marked, the old
     * body erased, the old head pushed onto the body, the body cut to its
     * target length and redrawn, and the head moved.
     */
    method TakeStep(f: Field, newPos: Coord)
      requires f.Valid() && OnField(f) && Marked(f)
      requires 0 <= f.CoordToIndex(newPos) < f.data.Length && f.data[f.CoordToIndex(newPos)] != SnakePart
      modifies this, f.data
      ensures OnField(f) && Marked(f) && bodyLength == old(bodyLength)
      ensures head == newPos && body == Shifted(old(head), old(body), bodyLength)
      ensures f.data[..] == StepCells(old(f.data[..]), f.CoordToIndex(newPos), f.Indices(old(body)), f.Indices(body))
      ensures f.data[f.CoordToIndex(head)] == SnakePart
    {
      ghost var base := f.data[..];
      ghost var oldBody := body;
      ghost var target := f.CoordToIndex(newPos);
      assert target !in f.Indices(oldBody) by {
        forall k | 0 <= k < |oldBody| ensures base[f.CoordToIndex(oldBody[k])] == SnakePart {
        }
      }
      f.SetValue(newPos, SnakePart);
      DrawBody(f, Empty);
      body := [head] + body;
      body := body[..Min(bodyLength, |body|)];
      DrawBody(f, SnakePart);
      head := newPos;
      ghost var erased := Paint(base[target := SnakePart], f.Indices(oldBody), Empty);
      forall k | 0 <= k < |body| ensures f.data[f.CoordToIndex(body[k])] == SnakePart {
        PaintAt(erased, f.Indices(body), SnakePart, f.CoordToIndex(body[k]));
      }
      StepCellsAt(base, target, f.Indices(oldBody), f.Indices(body), target);
    }

    /** The food branch of `move` before the step: grow, count the food and place new food. */
    method EatFood(game: Game, draws: seq<Coord>)
      requires game.Valid() && game.snake == this
      modifies this`bodyLength, game, game.field.data
      ensures game.Valid() && game.snake == this
      ensures bodyLength == old(bodyLength) + 1 && game.foodCount == old(game.foodCount) + 1
      ensures game.snakeDirection == old(game.snakeDirection) && game.fieldView == old(game.fieldView)
      ensures game.errorView == old(game.errorView) && game.timeout == old(game.timeout)
      ensures (game.speedMs, game.speed) == SpeedStep(old(game.speedMs), old(game.speed))
      ensures game.scoreView == Some(GameScore(game.foodCount, game.speed))
      ensures game.messageView == (if old(forall i :: 0 <= i < game.field.data.Length ==> game.field.data[i] != Empty)
                                   then Some(WinMessage) else old(game.messageView))
      ensures game.field.data[..] == Spawned(game.field, old(game.field.data[..]), draws)
    {
      bodyLength := bodyLength + 1;
      game.IncreaseFood();
      ghost var cells := game.field.data[..];
      game.SpawnFood(draws);
      SpawnedChangesOneEmptyCell(game.field, cells, draws);
      assert forall k :: 0 <= k < |body| ==> game.field.data[game.field.CoordToIndex(body[k])] == SnakePart;
    }

    /**
     * One step by `relCoord`, under the corrected rule `ClassifyChecked`: the
     * food test also asks `isValidCoord`, so a target off the board is never
     * eaten. Food: the target length and the food count grow by one and new
     * food is placed before the step is taken. A wall, the snake, an index
     * outside the buffer or an invalid coordinate: "Game Over" and nothing else
     * changes. Otherwise the head moves onto the target and the body follows.
     */
    method Move(relCoord: Coord, game: Game, draws: seq<Coord>)
      requires game.Valid() && game.snake == this
      modifies this, game, game.field.data
      ensures game.Valid() && game.snake == this
      ensures game.snakeDirection == old(game.snakeDirection) && game.fieldView == old(game.fieldView)
      ensures game.errorView == old(game.errorView) && game.timeout == old(game.timeout)
      ensures var p := AddCoords(old(head), relCoord);
        var outcome := old(ClassifyChecked(game.field, game.field.data[..], p));
        outcome == Crash ==>
          head == old(head) && body == old(body) && bodyLength == old(bodyLength) &&
          game.field.data[..] == old(game.field.data[..]) &&
          game.messageView == Some(GameOverMessage) &&
          game.foodCount == old(game.foodCount) && game.speedMs == old(game.speedMs) &&
          game.speed == old(game.speed) && game.scoreView == old(game.scoreView)
      ensures var p := AddCoords(old(head), relCoord);
        old(ClassifyChecked(game.field, game.field.data[..], p)) == Advance ==>
          bodyLength == old(bodyLength) && game.foodCount == old(game.foodCount) &&
          game.speedMs == old(game.speedMs) && game.speed == old(game.speed) &&
          game.scoreView == old(game.scoreView) && game.messageView == old(game.messageView)
      ensures var p := AddCoords(old(head), relCoord);
        old(ClassifyChecked(game.field, game.field.data[..], p)) == Eat ==>
          bodyLength == old(bodyLength) + 1 && game.foodCount == old(game.foodCount) + 1 &&
          (game.speedMs, game.speed) == SpeedStep(old(game.speedMs), old(game.speed)) &&
          game.scoreView == Some(GameScore(game.foodCount, game.speed)) &&
          game.messageView == (if old(forall i :: 0 <= i < game.field.data.Length ==> game.field.data[i] != Empty)
                               then Some(WinMessage) else old(game.messageView))
      ensures var p := AddCoords(old(head), relCoord);
        var outcome := old(ClassifyChecked(game.field, game.field.data[..], p));
        outcome != Crash ==>
          head == p && body == Shifted(old(head), old(body), bodyLength) &&
          game.field.data[..] == StepCells(
            old(if outcome == Eat then Spawned(game.field, game.field.data[..], draws) else game.field.data[..]),
            game.field.CoordToIndex(p), game.field.Indices(old(body)), game.field.Indices(body)) &&
          game.field.data[game.field.CoordToIndex(head)] == SnakePart
    {
      var field := game.field;
      ghost var cells0 := field.data[..];
      var newPos := AddCoords(head, relCoord);
      var ev := field.GetValue(newPos);
      if ev == Some(Food) && field.IsValidCoord(newPos) {
        EatFood(game, draws);
        SpawnedChangesOneEmptyCell(field, cells0, draws);
      } else if ev == Some(Wall) || ev == None || ev == Some(SnakePart) || !field.IsValidCoord(newPos) {
        game.messageView := Some(GameOverMessage);
        return;
      }
      assert forall k :: 0 <= k < |body| ==> field.data[field.CoordToIndex(body[k])] == SnakePart;
      TakeStep(field, newPos);
    }
  }

  class Game {
    const field: Field
    var snakeDirection: Move
    var snake: Snake
    var foodCount: nat
    var speedMs: int
    var speed: int
    /** The timer handle; nothing in the engine arms it. */
    var timeout: Option<int>
    /** Last values passed to `setField`, `setError`, `setScore` and `setMessage`. */
    var fieldView: string
    var errorView: Option<string>
    var scoreView: Option<GameScore>
    var messageView: Option<string>

    /**
     * The engine's invariant: a 100 x 18 buffer of matching size, a tick
     * interval of at least 10 ms, and a snake that lies on the buffer with its
     * body marked.
     */
    ghost predicate Valid()
      reads this, field, field.data, snake
    {
      field.Valid() && field.width == 100 && field.height == 18 &&
      speedMs >= 10 &&
      snake.OnField(field) && snake.Marked(field)
    }

    constructor ()
      ensures Valid() && fresh(field) && fresh(field.data) && fresh(snake)
      ensures snake.head == Coord(2, 2) && snake.body == [] && snake.bodyLength == 3
      ensures snakeDirection == Right && foodCount == 0 && speedMs == 1000 && speed == 1
      ensures timeout == None
    {
      field := new Field();
      snake := new Snake(Coord(2, 2));
      snakeDirection := Right;
      foodCount := 0;
      speedMs := 1000;
      speed := 1;
      timeout := None;
      fieldView := "";
      errorView := None;
      scoreView := None;
      messageView := None;
    }

    /** `flush`: hands the current rendering to the UI. */
    method Flush()
      requires Valid()
      modifies this`fieldView
      ensures fieldView == Rendered(field, field.data[..])
    {
      fieldView := field.ToString();
    }

    /**
     * A new round: cleared buffer, a fresh snake at `startPos` (from
     * `getRandomInt(20, 80)`, `getRandomInt(5, 15)`), score 0, level 1,
     * 200 ms, and the first food from `draws`.
     */
    method Start(startPos: Coord, draws: seq<Coord>)
      requires Valid()
      requires 20 <= startPos.x <= 80 && 5 <= startPos.y <= 15
      modifies this, field
      ensures Valid() && fresh(snake) && fresh(field.data)
      ensures snake.head == startPos && snake.body == [] && snake.bodyLength == 3
      ensures foodCount == 0 && speed == 1 && speedMs == 200
      ensures scoreView == Some(GameScore(0, 1)) && errorView == None
      ensures field.data[..] == Spawned(field, seq(field.width * field.height, _ => Empty), draws)
      ensures snakeDirection == old(snakeDirection) && messageView == old(messageView)
      ensures fieldView == old(fieldView) && timeout == old(timeout)
    {
      field.ClearField();
      errorView := None;
      snake := new Snake(startPos);
      foodCount := 0;
      speed := 1;
      speedMs := 200;
      scoreView := Some(GameScore(foodCount, 1));
      assert field.data[..] == seq(field.width * field.height, _ => Empty);
      SpawnFood(draws);
    }

    /** A turn to `m` is taken unless it reverses the current direction. */
    method Move(m: Move)
      modifies this`snakeDirection
      ensures snakeDirection == if m == Opposite(old(snakeDirection)) then old(snakeDirection) else m
    {
      var ok := false;
      match m {
        case Right => if snakeDirection != Left { ok := true; }
        case Left => if snakeDirection != Right { ok := true; }
        case Up => if snakeDirection != Down { ok := true; }
        case Down => if snakeDirection != Up { ok := true; }
      }
      if ok {
        snakeDirection := m;
      }
    }

    /** One more food eaten: count, speed ramp, score report, and "You win" once the buffer is full. */
    method IncreaseFood()
      requires Valid()
      modifies this`foodCount, this`speedMs, this`speed, this`scoreView, this`messageView
      ensures Valid()
      ensures foodCount == old(foodCount) + 1
      ensures (speedMs, speed) == SpeedStep(old(speedMs), old(speed))
      ensures scoreView == Some(GameScore(foodCount, speed))
      ensures messageView == if forall i :: 0 <= i < field.data.Length ==> field.data[i] != Empty
                             then Some(WinMessage) else old(messageView)
    {
      foodCount := foodCount + 1;
      var newSpeedMs := speedMs - 20;
      var addSpeed := true;
      if newSpeedMs < 10 {
        newSpeedMs := 10;
        addSpeed := false;
      }
      speedMs := newSpeedMs;
      if addSpeed {
        speed := speed + 1;
      }
      scoreView := Some(GameScore(foodCount, speed));
      var full := field.IsFieldFull();
      if full {
        messageView := Some(WinMessage);
      }
    }

    /**
     * Puts food on the first drawn coordinate that reads as an empty cell.
     * The source draws until it finds one, for ever if there is none; here
     * the draws are a finite sequence and the field is left unchanged when it
     * runs out.
     */
    method SpawnFood(draws: seq<Coord>)
      modifies field.data
      ensures field.data[..] == Spawned(field, old(field.data[..]), draws)
    {
      ghost var cells := field.data[..];
      var i := 0;
      while i < |draws|
        invariant 0 <= i <= |draws|
        invariant field.data[..] == cells
        invariant FirstEmptyDraw(field, cells, draws) == FirstEmptyDraw(field, cells, draws[i..])
      {
        assert draws[i..][1..] == draws[i + 1..];
        var coord := draws[i];
        var ev := field.GetValue(coord);
        if ev == Some(Empty) {
          field.SetValue(coord, Food);
          return;
        }
        i := i + 1;
      }
    }

    /**
     * One tick: a step in the current direction, then the new rendering is
     * handed to the UI.
     */
    method Draw(draws: seq<Coord>)
      requires Valid()
      modifies this, field.data, snake
      ensures Valid() && snake == old(snake) && snakeDirection == old(snakeDirection)
      ensures fieldView == Rendered(field, field.data[..])
      ensures errorView == old(errorView) && timeout == old(timeout)
      ensures var p := AddCoords(old(snake.head), MoveVector(snakeDirection));
        old(ClassifyChecked(field, field.data[..], p)) == Crash ==>
          snake.head == old(snake.head) && snake.body == old(snake.body) &&
          snake.bodyLength == old(snake.bodyLength) &&
          field.data[..] == old(field.data[..]) && messageView == Some(GameOverMessage) &&
          foodCount == old(foodCount) && speedMs == old(speedMs) && speed == old(speed) &&
          scoreView == old(scoreView)
      ensures var p := AddCoords(old(snake.head), MoveVector(snakeDirection));
        old(ClassifyChecked(field, field.data[..], p)) == Advance ==>
          snake.bodyLength == old(snake.bodyLength) && foodCount == old(foodCount) &&
          speedMs == old(speedMs) && speed == old(speed) &&
          scoreView == old(scoreView) && messageView == old(messageView)
      ensures var p := AddCoords(old(snake.head), MoveVector(snakeDirection));
        old(ClassifyChecked(field, field.data[..], p)) == Eat ==>
          snake.bodyLength == old(snake.bodyLength) + 1 && foodCount == old(foodCount) + 1 &&
          (speedMs, speed) == SpeedStep(old(speedMs), old(speed)) &&
          scoreView == Some(GameScore(foodCount, speed)) &&
          messageView == (if old(forall i :: 0 <= i < field.data.Length ==> field.data[i] != Empty)
                          then Some(WinMessage) else old(messageView))
      ensures var p := AddCoords(old(snake.head), MoveVector(snakeDirection));
        var outcome := old(ClassifyChecked(field, field.data[..], p));
        outcome != Crash ==>
          snake.head == p && snake.body == Shifted(old(snake.head), old(snake.body), snake.bodyLength) &&
          field.data[..] == StepCells(
            old(if outcome == Eat then Spawned(field, field.data[..], draws) else field.data[..]),
            field.CoordToIndex(p), field.Indices(old(snake.body)), field.Indices(snake.body))
    {
      var mm := snakeDirection;
      var moveX := 0;
      var moveY := 0;
      match mm {
        case Up => moveY := -1;
        case Down => moveY := 1;
        case Left => moveX := -1;
        case Right => moveX := 1;
      }
      snake.Move(Coord(moveX, moveY), this, draws);
      fieldView := field.ToString();
    }

    method Stop()
      modifies this`timeout
      ensures timeout == None
    {
      if timeout.Some? {
        timeout := None;
      }
    }
  }
}
