// The grid engine of the 2048-style game: tiles, the flat row-major grid,
// random spawning (with the random generator abstracted to a sequence of
// draws), the merge table, and move dispatch as the code does it.
module Board {

  datatype Option<T> = None | Some(value: T)

  /** The content of one cell. Non-empty tiles carry numeric tags 2 .. 512. */
  datatype Tile = Empty | Two | Four | Eight | Sixteen | ThirtyTwo | SixtyFour
                | OneTwentyEight | TwoFiftySix | FiveTwelve

  datatype MoveOpt = Up | Down | Left | Right | Undo

  /** A cell position: column x, row y. */
  datatype Coord = Coord(x: nat, y: nat)

  /** What `compare` reports about a neighbour: whether it is occupied and the
      merged tile when the two are equal, or that it aborted. */
  datatype CompareResult = Compared(occupied: bool, merged: Option<Tile>) | Panic

  // ---------------------------------------------------------------- tiles

  /** The enum's numeric tag: 0 for Empty, else a power of two up to 512. */
  function Value(t: Tile): (v: nat)
    ensures v == 0 <==> t == Empty
    ensures t != Empty ==> 2 <= v <= 512 && 512 % v == 0
  {
    match t
    case Empty => 0
    case Two => 2
    case Four => 4
    case Eight => 8
    case Sixteen => 16
    case ThirtyTwo => 32
    case SixtyFour => 64
    case OneTwentyEight => 128
    case TwoFiftySix => 256
    case FiveTwelve => 512
  }

  /** The merge table: the tile two equal tiles combine into, if any. */
  function Doubled(t: Tile): (r: Option<Tile>)
    ensures r.Some? <==> t != Empty && t != FiveTwelve
    ensures r.Some? ==> Value(r.value) == 2 * Value(t)
  {
    match t
    case Two => Some(Four)
    case Four => Some(Eight)
    case Eight => Some(Sixteen)
    case Sixteen => Some(ThirtyTwo)
    case ThirtyTwo => Some(SixtyFour)
    case SixtyFour => Some(OneTwentyEight)
    case OneTwentyEight => Some(TwoFiftySix)
    case TwoFiftySix => Some(FiveTwelve)
    case _ => None
  }

  // ----------------------------------------------------------- indexing

  /** Position of cell (x, y) in the flat row-major vector of a grid w wide. */
  function Index(w: nat, x: nat, y: nat): nat
  {
    y * w + x
  }

  lemma MulMonotone(a: nat, b: nat, c: nat)
    requires a <= b
    ensures a * c <= b * c
  {
  }

  /** Every in-grid coordinate maps inside the w*h vector. */
  lemma IndexInBounds(w: nat, h: nat, x: nat, y: nat)
    requires x < w && y < h
    ensures Index(w, x, y) < w * h
  {
    calc {
      Index(w, x, y);
    <
      y * w + w;
    ==
      (y + 1) * w;
    <= { MulMonotone(y + 1, h, w); }
      h * w;
    }
  }

  /** A column inside the grid whose flat index is in range lies in a row inside the grid. */
  lemma RowInGrid(w: nat, h: nat, x: nat, y: nat)
    requires x < w && Index(w, x, y) < w * h
    ensures y < h
  {
  }

  /** Distinct in-grid coordinates have distinct flat indices. */
  lemma IndexInjective(w: nat, x1: nat, y1: nat, x2: nat, y2: nat)
    requires x1 < w && x2 < w
    ensures Index(w, x1, y1) == Index(w, x2, y2) <==> x1 == x2 && y1 == y2
  {
    if y1 < y2 {
      MulMonotone(y1 + 1, y2, w);
      assert Index(w, x1, y1) < (y1 + 1) * w;
    } else if y2 < y1 {
      MulMonotone(y2 + 1, y1, w);
      assert Index(w, x2, y2) < (y2 + 1) * w;
    }
  }

  /** The cell the `Index` impl returns for (x, y); the vector bounds-checks it. */
  function Cell(cells: seq<Tile>, w: nat, x: nat, y: nat): Tile
    requires Index(w, x, y) < |cells|
  {
    cells[Index(w, x, y)]
  }

  /** Writing one in-grid cell changes that cell and no other in-grid cell. */
  lemma CellAfterWrite(cells: seq<Tile>, w: nat, h: nat, c: Coord, t: Tile, q: Coord)
    requires |cells| == w * h
    requires c.x < w && c.y < h && q.x < w && q.y < h
    ensures Index(w, c.x, c.y) < |cells| && Index(w, q.x, q.y) < |cells|
    ensures Cell(cells[Index(w, c.x, c.y) := t], w, q.x, q.y)
            == if q == c then t else Cell(cells, w, q.x, q.y)
  {
    IndexInBounds(w, h, c.x, c.y);
    IndexInBounds(w, h, q.x, q.y);
    IndexInjective(w, c.x, c.y, q.x, q.y);
  }

  /** `tile_exists`: despite its name, true exactly when the cell is empty. */
  function TileExists(cells: seq<Tile>, w: nat, c: Coord): (r: bool)
    requires Index(w, c.x, c.y) < |cells|
    ensures r <==> Cell(cells, w, c.x, c.y) == Empty
  {
    if Cell(cells, w, c.x, c.y) != Empty then false else true
  }

  // ------------------------------------------------------------ spawning

  /** The random generator's draws: each coordinate is in 0..3 (exclusive) and
      its flat index lies inside the vector, so `tile_exists` never panics. */
  predicate SpawnDraws(cells: seq<Tile>, w: nat, draws: seq<Coord>)
  {
    forall k :: 0 <= k < |draws| ==>
      draws[k].x < 3 && draws[k].y < 3 && Index(w, draws[k].x, draws[k].y) < |cells|
  }

  /** Some draw hits an empty cell, so the rejection loop stops. */
  predicate HasEmptyDraw(cells: seq<Tile>, w: nat, draws: seq<Coord>)
    requires SpawnDraws(cells, w, draws)
  {
    exists k :: 0 <= k < |draws| && TileExists(cells, w, draws[k])
  }

  /** Two different draws hit empty cells, so both starting spawns stop. */
  predicate HasTwoEmptyDraws(cells: seq<Tile>, w: nat, draws: seq<Coord>)
    requires SpawnDraws(cells, w, draws)
  {
    exists i, j :: 0 <= i < j < |draws| && TileExists(cells, w, draws[i]) && TileExists(cells, w, draws[j])
  }

  lemma SkipFullDraw(cells: seq<Tile>, w: nat, draws: seq<Coord>)
    requires SpawnDraws(cells, w, draws) && HasEmptyDraw(cells, w, draws)
    requires !TileExists(cells, w, draws[0])
    ensures SpawnDraws(cells, w, draws[1..]) && HasEmptyDraw(cells, w, draws[1..])
  {
  }

  /** The draw the rejection loop of `Tile::new` accepts: the first one that
      lands on an empty cell. */
  function FirstEmpty(cells: seq<Tile>, w: nat, draws: seq<Coord>): (k: nat)
    requires SpawnDraws(cells, w, draws) && HasEmptyDraw(cells, w, draws)
    ensures k < |draws| && TileExists(cells, w, draws[k])
    ensures forall j :: 0 <= j < k ==> !TileExists(cells, w, draws[j])
    decreases |draws|
  {
    if TileExists(cells, w, draws[0]) then 0
    else
      SkipFullDraw(cells, w, draws);
      var k := FirstEmpty(cells, w, draws[1..]);
      assert forall j :: 1 <= j <= k ==> draws[j] == draws[1..][j - 1];
      1 + k
  }

  /** `Tile::new`: redraws until the drawn cell is empty and returns a Two
      there. `used` is how many draws the loop consumed. */
  method NewTile(cells: seq<Tile>, w: nat, draws: seq<Coord>) returns (tile: Tile, coord: Coord, used: nat)
    requires SpawnDraws(cells, w, draws) && HasEmptyDraw(cells, w, draws)
    ensures tile == Two
    ensures used == FirstEmpty(cells, w, draws) + 1 && coord == draws[used - 1]
    ensures coord.x < 3 && coord.y < 3 && TileExists(cells, w, coord)
  {
    tile := Two;
    coord := draws[0];
    used := 1;
    while !TileExists(cells, w, coord)
      invariant 0 < used <= |draws| && coord == draws[used - 1]
      invariant forall j :: 0 <= j < used - 1 ==> !TileExists(cells, w, draws[j])
      decreases |draws| - used
    {
      coord := draws[used];
      used := used + 1;
    }
  }

  lemma SecondSpawnAvailable(cells: seq<Tile>, w: nat, draws: seq<Coord>)
    requires SpawnDraws(cells, w, draws) && HasTwoEmptyDraws(cells, w, draws)
    ensures HasEmptyDraw(cells, w, draws)
    ensures var rest := draws[FirstEmpty(cells, w, draws) + 1..];
            SpawnDraws(cells, w, rest) && HasEmptyDraw(cells, w, rest)
  {
  }

  /** The draws the two spawns of `starting_tiles` accept: both are checked
      against the same, still unwritten board, so they are the first two
      draws that land on empty cells (possibly the same cell twice). */
  function SpawnDrawIndices(cells: seq<Tile>, w: nat, draws: seq<Coord>): (p: (nat, nat))
    requires SpawnDraws(cells, w, draws) && HasTwoEmptyDraws(cells, w, draws)
    ensures p.0 < p.1 < |draws|
    ensures TileExists(cells, w, draws[p.0]) && TileExists(cells, w, draws[p.1])
    ensures forall j :: 0 <= j < p.1 && j != p.0 ==> !TileExists(cells, w, draws[j])
  {
    SecondSpawnAvailable(cells, w, draws);
    var k1 := FirstEmpty(cells, w, draws);
    var k := FirstEmpty(cells, w, draws[k1 + 1..]);
    assert forall j :: k1 < j <= k1 + 1 + k ==> draws[j] == draws[k1 + 1..][j - k1 - 1];
    (k1, k1 + 1 + k)
  }

  /** The vector after `starting_tiles`: a Two at each of the two accepted draws. */
  function StartingCells(cells: seq<Tile>, w: nat, draws: seq<Coord>): (r: seq<Tile>)
    requires SpawnDraws(cells, w, draws) && HasTwoEmptyDraws(cells, w, draws)
    ensures |r| == |cells|
    ensures forall i :: 0 <= i < |cells| && r[i] != cells[i] ==> cells[i] == Empty && r[i] == Two
    ensures var p := SpawnDrawIndices(cells, w, draws);
            var i1, i2 := Index(w, draws[p.0].x, draws[p.0].y), Index(w, draws[p.1].x, draws[p.1].y);
            r[i1] == Two && r[i2] == Two &&
            forall i :: 0 <= i < |cells| && i != i1 && i != i2 ==> r[i] == cells[i]
  {
    var p := SpawnDrawIndices(cells, w, draws);
    var c1, c2 := draws[p.0], draws[p.1];
    cells[Index(w, c1.x, c1.y) := Two][Index(w, c2.x, c2.y) := Two]
  }

  /** On a grid at least three columns wide, `starting_tiles` changes only
      cells of the top-left 3x3 region, from Empty to Two. */
  lemma StartingCellsRegion(cells: seq<Tile>, w: nat, h: nat, draws: seq<Coord>, q: Coord)
    requires |cells| == w * h && 3 <= w
    requires SpawnDraws(cells, w, draws) && HasTwoEmptyDraws(cells, w, draws)
    requires q.x < w && q.y < h
    ensures Index(w, q.x, q.y) < |cells|
    ensures Cell(StartingCells(cells, w, draws), w, q.x, q.y) != Cell(cells, w, q.x, q.y) ==>
              q.x < 3 && q.y < 3 && Cell(cells, w, q.x, q.y) == Empty
              && Cell(StartingCells(cells, w, draws), w, q.x, q.y) == Two
  {
    IndexInBounds(w, h, q.x, q.y);
    var p := SpawnDrawIndices(cells, w, draws);
    var c1, c2 := draws[p.0], draws[p.1];
    RowInGrid(w, h, c1.x, c1.y);
    RowInGrid(w, h, c2.x, c2.y);
    IndexInjective(w, q.x, q.y, c1.x, c1.y);
    IndexInjective(w, q.x, q.y, c2.x, c2.y);
  }

  // ----------------------------------------------------------- comparing

  /** The cell `compare` looks at for move `dir` from `loc`. The unsigned
      subtractions of Up and Left must not go below zero. */
  function Neighbour(dir: MoveOpt, loc: Coord): Coord
    requires dir != Undo
    requires dir == Up ==> loc.y > 0
    requires dir == Left ==> loc.x > 0
  {
    match dir
    case Up => Coord(loc.x, loc.y - 1)
    case Down => Coord(loc.x, loc.y + 1)
    case Left => Coord(loc.x - 1, loc.y)
    case Right => Coord(loc.x + 1, loc.y)
  }

  /** What `compare` may be asked: a direction, no unsigned underflow, and a
      neighbour inside the vector. */
  predicate CanCompare(cells: seq<Tile>, w: nat, mov: Option<MoveOpt>, loc: Coord)
  {
    mov.Some? && mov.value != Undo &&
    (mov.value == Up ==> loc.y > 0) && (mov.value == Left ==> loc.x > 0) &&
    var n := Neighbour(mov.value, loc);
    Index(w, n.x, n.y) < |cells|
  }

  /** The `target_tile` of `compare`. */
  function Target(cells: seq<Tile>, w: nat, mov: Option<MoveOpt>, loc: Coord): Tile
    requires CanCompare(cells, w, mov, loc)
  {
    var n := Neighbour(mov.value, loc);
    Cell(cells, w, n.x, n.y)
  }

  /** `compare`: an empty neighbour gives (false, None); an equal one the
      doubled tile; a different one (true, None); two FiveTwelves abort. */
  function Compare(cells: seq<Tile>, w: nat, tile: Tile, mov: Option<MoveOpt>, loc: Coord): (r: CompareResult)
    requires CanCompare(cells, w, mov, loc)
    ensures Target(cells, w, mov, loc) == Empty ==> r == Compared(false, None)
    ensures Target(cells, w, mov, loc) != Empty && Target(cells, w, mov, loc) == tile && tile != FiveTwelve ==>
              r.Compared? && r.occupied && r.merged.Some? && Value(r.merged.value) == 2 * Value(tile)
    ensures Target(cells, w, mov, loc) != Empty && Target(cells, w, mov, loc) != tile ==> r == Compared(true, None)
    ensures r.Panic? <==> tile == FiveTwelve && Target(cells, w, mov, loc) == FiveTwelve
  {
    var target := Target(cells, w, mov, loc);
    if target == Empty then Compared(false, None)
    else if target == tile then
      match Doubled(tile)
      case Some(t) => Compared(true, Some(t))
      case None => Panic
    else Compared(true, None)
  }

  // -------------------------------------------------------------- moving

  /** The test each directional loop makes before comparing cell (x, y). */
  predicate Guard(dir: MoveOpt, w: nat, h: nat, x: nat, y: nat)
  {
    match dir
    case Up => y > 0
    case Down => y < h - 1
    case Left => x > 0
    case Right => x < w - 1
    case Undo => false
  }

  /** The guards keep both the cell and the neighbour `compare` reads inside the grid. */
  lemma GuardKeepsNeighbourInGrid(w: nat, h: nat, dir: MoveOpt, x: nat, y: nat)
    requires x < w && y < h && Guard(dir, w, h, x, y)
    ensures Index(w, x, y) < w * h
    ensures dir != Undo && (dir == Up ==> y > 0) && (dir == Left ==> x > 0)
    ensures var n := Neighbour(dir, Coord(x, y));
            n.x < w && n.y < h && Index(w, n.x, n.y) < w * h
  {
    IndexInBounds(w, h, x, y);
    var n := Neighbour(dir, Coord(x, y));
    IndexInBounds(w, h, n.x, n.y);
  }

  /** Whether the `compare` call the loop makes at (x, y) aborts. */
  predicate PanicsAt(cells: seq<Tile>, w: nat, dir: MoveOpt, x: nat, y: nat)
  {
    Index(w, x, y) < |cells| && CanCompare(cells, w, Some(dir), Coord(x, y)) &&
    Compare(cells, w, Cell(cells, w, x, y), Some(dir), Coord(x, y)).Panic?
  }

  /** Whether a directional move aborts somewhere in its sweep. */
  predicate MovePanics(cells: seq<Tile>, w: nat, h: nat, dir: MoveOpt)
  {
    exists x: nat, y: nat :: x < w && y < h && Guard(dir, w, h, x, y) && PanicsAt(cells, w, dir, x, y)
  }

  /** A guarded comparison aborts exactly when the cell and its neighbour are both FiveTwelve. */
  lemma PanicsAtIff(cells: seq<Tile>, w: nat, h: nat, dir: MoveOpt, x: nat, y: nat)
    requires |cells| == w * h && x < w && y < h && Guard(dir, w, h, x, y)
    ensures CanCompare(cells, w, Some(dir), Coord(x, y)) && Index(w, x, y) < |cells|
    ensures PanicsAt(cells, w, dir, x, y) <==>
              Cell(cells, w, x, y) == FiveTwelve && Target(cells, w, Some(dir), Coord(x, y)) == FiveTwelve
  {
    GuardKeepsNeighbourInGrid(w, h, dir, x, y);
  }

  /** A board without FiveTwelve tiles never makes a directional move abort. */
  lemma NoFiveTwelveNoPanic(cells: seq<Tile>, w: nat, h: nat, dir: MoveOpt)
    requires |cells| == w * h
    requires forall i :: 0 <= i < |cells| ==> cells[i] != FiveTwelve
    ensures !MovePanics(cells, w, h, dir)
  {
  }

  /** The Up and Down sweeps: columns outer, rows inner, `compare` at every
      guarded cell with its result thrown away; reports whether it aborted. */
  method SweepColumns(cells: seq<Tile>, w: nat, h: nat, dir: MoveOpt) returns (panicked: bool)
    requires |cells| == w * h && (dir == Up || dir == Down)
    ensures panicked <==> MovePanics(cells, w, h, dir)
  {
    var x := 0;
    while x < w
      invariant 0 <= x <= w
      invariant forall i: nat, j: nat :: i < x && j < h && Guard(dir, w, h, i, j) ==> !PanicsAt(cells, w, dir, i, j)
    {
      var y := 0;
      while y < h
        invariant 0 <= y <= h
        invariant forall i: nat, j: nat :: i < x && j < h && Guard(dir, w, h, i, j) ==> !PanicsAt(cells, w, dir, i, j)
        invariant forall j: nat :: j < y && Guard(dir, w, h, x, j) ==> !PanicsAt(cells, w, dir, x, j)
      {
        if Guard(dir, w, h, x, y) {
          GuardKeepsNeighbourInGrid(w, h, dir, x, y);
          var tile := Cell(cells, w, x, y);
          var r := Compare(cells, w, tile, Some(dir), Coord(x, y));
          if r.Panic? {
            assert PanicsAt(cells, w, dir, x, y);
            return true;
          }
        }
        y := y + 1;
      }
      x := x + 1;
    }
    return false;
  }

  /** The Left and Right sweeps: rows outer, columns inner. */
  method SweepRows(cells: seq<Tile>, w: nat, h: nat, dir: MoveOpt) returns (panicked: bool)
    requires |cells| == w * h && (dir == Left || dir == Right)
    ensures panicked <==> MovePanics(cells, w, h, dir)
  {
    var y := 0;
    while y < h
      invariant 0 <= y <= h
      invariant forall i: nat, j: nat :: i < w && j < y && Guard(dir, w, h, i, j) ==> !PanicsAt(cells, w, dir, i, j)
    {
      var x := 0;
      while x < w
        invariant 0 <= x <= w
        invariant forall i: nat, j: nat :: i < w && j < y && Guard(dir, w, h, i, j) ==> !PanicsAt(cells, w, dir, i, j)
        invariant forall i: nat :: i < x && Guard(dir, w, h, i, y) ==> !PanicsAt(cells, w, dir, i, y)
      {
        if Guard(dir, w, h, x, y) {
          GuardKeepsNeighbourInGrid(w, h, dir, x, y);
          var tile := Cell(cells, w, x, y);
          var r := Compare(cells, w, tile, Some(dir), Coord(x, y));
          if r.Panic? {
            assert PanicsAt(cells, w, dir, x, y);
            return true;
          }
        }
        x := x + 1;
      }
      y := y + 1;
    }
    return false;
  }

  /** The two vectors a board holds. */
  datatype History = History(current: seq<Tile>, last: seq<Tile>)

  /** The effect of `make_move`: Undo swaps the vectors; a directional move,
      as written, leaves both as they are. */
  function Moved(s: History, mov: MoveOpt): History
  {
    if mov == Undo then History(s.last, s.current) else s
  }

  lemma UndoTwiceRestores(s: History)
    ensures Moved(Moved(s, Undo), Undo) == s
    ensures Moved(s, Undo) == History(s.last, s.current)
  {
  }

  lemma DirectionalMoveIsNoOp(s: History, dir: MoveOpt)
    requires dir != Undo
    ensures Moved(s, dir) == s
  {
  }

  // --------------------------------------------------------------- board

  class Board {
    const width: nat
    const height: nat
    var current: seq<Tile>
    var last: seq<Tile>

    ghost predicate Valid()
      reads this
    {
      width < 256 && height < 256 && width * height < 256 &&
      |current| == width * height && |last| == width * height
    }

    ghost function State(): History
      reads this
    {
      History(current, last)
    }

    /** `Board::new`: an all-Empty grid, with `last` a copy of it. The
        product of the two u8 dimensions is taken in u8 and must not overflow. */
    constructor (w: nat, h: nat)
      requires w < 256 && h < 256 && w * h < 256
      ensures Valid() && width == w && height == h
      ensures current == seq(w * h, _ => Empty) && last == current
    {
      width, height := w, h;
      current := seq(w * h, _ => Empty);
      last := seq(w * h, _ => Empty);
    }

    /** `write_tile`: the `IndexMut` assignment of one cell of `current`. */
    method WriteTile(t: Tile, c: Coord)
      requires Valid() && Index(width, c.x, c.y) < |current|
      modifies this
      ensures Valid()
      ensures current == old(current)[Index(width, c.x, c.y) := t]
      ensures last == old(last)
    {
      current := current[Index(width, c.x, c.y) := t];
    }

    /** `starting_tiles`: two spawns chosen against the unchanged board, then
        two writes; `last` is not touched. */
    method StartingTiles(draws: seq<Coord>)
      requires Valid()
      requires SpawnDraws(current, width, draws) && HasTwoEmptyDraws(current, width, draws)
      modifies this
      ensures Valid()
      ensures current == StartingCells(old(current), width, draws)
      ensures last == old(last)
    {
      SecondSpawnAvailable(current, width, draws);
      var tile1, coord1, used := NewTile(current, width, draws);
      var tile2, coord2, _ := NewTile(current, width, draws[used..]);
      WriteTile(tile1, coord1);
      WriteTile(tile2, coord2);
    }

    /** `make_move`. Calling it without a move, or with a direction whose
        sweep would abort on two FiveTwelves, is a contract violation. */
    method MakeMove(mov: Option<MoveOpt>)
      requires Valid() && mov.Some?
      requires mov.value != Undo ==> !MovePanics(current, width, height, mov.value)
      modifies this
      ensures Valid()
      ensures State() == Moved(old(State()), mov.value)
    {
      match mov.value
      case Up =>
        var panicked := SweepColumns(current, width, height, Up);
        assert !panicked;
      case Down =>
        var panicked := SweepColumns(current, width, height, Down);
        assert !panicked;
      case Left =>
        var panicked := SweepRows(current, width, height, Left);
        assert !panicked;
      case Right =>
        var panicked := SweepRows(current, width, height, Right);
        assert !panicked;
      case Undo =>
        current, last := last, current;
    }
  }
}
