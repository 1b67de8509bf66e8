// The input state machine of the game: key events set a single pending
// move, and each update hands a pending move to the board and clears it.
module Game {
  import Board

  /** The keys the game reacts to; every other key is `OtherKey`. */
  datatype Key = Up | Down | Left | Right | W | A | S | D | Back | OtherKey

  datatype ButtonState = Pressed | Held | Released | NotPressed

  /** A window event: a key changing state, or anything else (mouse, resize, ...). */
  datatype Event = KeyEvent(key: Key, state: ButtonState) | OtherEvent

  type PendingMove = Board.Option<Board.MoveOpt>

  /** The move a key press selects: arrows and WASD the four directions,
      Backspace Undo; everything else, releases included, none. */
  function KeyMove(e: Event): (m: PendingMove)
    ensures m == Board.Some(Board.MoveOpt.Up) <==> e == KeyEvent(Up, Pressed) || e == KeyEvent(W, Pressed)
    ensures m == Board.Some(Board.MoveOpt.Down) <==> e == KeyEvent(Down, Pressed) || e == KeyEvent(S, Pressed)
    ensures m == Board.Some(Board.MoveOpt.Left) <==> e == KeyEvent(Left, Pressed) || e == KeyEvent(A, Pressed)
    ensures m == Board.Some(Board.MoveOpt.Right) <==> e == KeyEvent(Right, Pressed) || e == KeyEvent(D, Pressed)
    ensures m == Board.Some(Board.MoveOpt.Undo) <==> e == KeyEvent(Back, Pressed)
    ensures m == Board.None <==> !(e.KeyEvent? && e.state == Pressed && e.key != OtherKey)
  {
    match e
    case KeyEvent(Up, Pressed) => Board.Some(Board.MoveOpt.Up)
    case KeyEvent(Down, Pressed) => Board.Some(Board.MoveOpt.Down)
    case KeyEvent(Left, Pressed) => Board.Some(Board.MoveOpt.Left)
    case KeyEvent(Right, Pressed) => Board.Some(Board.MoveOpt.Right)
    case KeyEvent(W, Pressed) => Board.Some(Board.MoveOpt.Up)
    case KeyEvent(S, Pressed) => Board.Some(Board.MoveOpt.Down)
    case KeyEvent(A, Pressed) => Board.Some(Board.MoveOpt.Left)
    case KeyEvent(D, Pressed) => Board.Some(Board.MoveOpt.Right)
    case KeyEvent(Back, Pressed) => Board.Some(Board.MoveOpt.Undo)
    case _ => Board.None
  }

  /** The pending move after one event. */
  function AfterEvent(pending: PendingMove, e: Event): PendingMove
  {
    if KeyMove(e).Some? then KeyMove(e) else pending
  }

  /** The pending move after a run of events with no update in between. */
  function AfterEvents(pending: PendingMove, events: seq<Event>): PendingMove
    decreases |events|
  {
    if events == [] then pending else AfterEvents(AfterEvent(pending, events[0]), events[1..])
  }

  /** The last mapped key press before an update decides the pending move. */
  lemma {:induction false} LastPressWins(pending: PendingMove, events: seq<Event>, k: nat)
    requires k < |events| && KeyMove(events[k]).Some?
    requires forall j :: k < j < |events| ==> KeyMove(events[j]).None?
    ensures AfterEvents(pending, events) == KeyMove(events[k])
    decreases k
  {
    if k == 0 {
      NoPressKeepsPending(AfterEvent(pending, events[0]), events[1..]);
    } else {
      LastPressWins(AfterEvent(pending, events[0]), events[1..], k - 1);
    }
  }

  /** Events that map to no move leave the pending move as it was. */
  lemma {:induction false} NoPressKeepsPending(pending: PendingMove, events: seq<Event>)
    requires forall j :: 0 <= j < |events| ==> KeyMove(events[j]).None?
    ensures AfterEvents(pending, events) == pending
    decreases |events|
  {
    if events != [] {
      NoPressKeepsPending(AfterEvent(pending, events[0]), events[1..]);
    }
  }

  /** Every cell holds Empty or Two: no move ever merges, so these are the
      only tiles the game can produce. */
  predicate OnlyEmptyOrTwo(cells: seq<Board.Tile>)
  {
    forall i :: 0 <= i < |cells| ==> cells[i] == Board.Empty || cells[i] == Board.Two
  }

  /** On a board of Empty and Two tiles, no directional move aborts. */
  lemma SmallTilesNeverPanic(cells: seq<Board.Tile>, w: nat, h: nat, dir: Board.MoveOpt)
    requires |cells| == w * h && OnlyEmptyOrTwo(cells)
    ensures !Board.MovePanics(cells, w, h, dir)
  {
    Board.NoFiveTwelveNoPanic(cells, w, h, dir);
  }

  /** The starting spawns keep a board of Empty and Two tiles so. */
  lemma StartingCellsOnlyEmptyOrTwo(cells: seq<Board.Tile>, w: nat, draws: seq<Board.Coord>)
    requires Board.SpawnDraws(cells, w, draws) && Board.HasTwoEmptyDraws(cells, w, draws)
    requires OnlyEmptyOrTwo(cells)
    ensures OnlyEmptyOrTwo(Board.StartingCells(cells, w, draws))
  {
  }

  function EmptyCells(n: nat): seq<Board.Tile>
  {
    seq(n, _ => Board.Empty)
  }

  /** On the fresh 4x4 board every draw lands on an empty cell, so the two
      starting tiles go to the first two draws. */
  lemma FreshStartingCells(draws: seq<Board.Coord>)
    requires |draws| >= 2
    requires forall k :: 0 <= k < |draws| ==> draws[k].x < 3 && draws[k].y < 3
    ensures Board.SpawnDraws(EmptyCells(16), 4, draws) && Board.HasTwoEmptyDraws(EmptyCells(16), 4, draws)
    ensures Board.SpawnDrawIndices(EmptyCells(16), 4, draws) == (0, 1)
    ensures Board.StartingCells(EmptyCells(16), 4, draws)
            == EmptyCells(16)[Board.Index(4, draws[0].x, draws[0].y) := Board.Two]
                             [Board.Index(4, draws[1].x, draws[1].y) := Board.Two]
  {
    var cells := EmptyCells(16);
    assert Board.TileExists(cells, 4, draws[0]) && Board.TileExists(cells, 4, draws[1]);
  }

  /** Both starting spawns look at the board before either is written, so
      equal draws put a single tile on the fresh board. */
  lemma EqualDrawsPlaceOneTile()
    ensures Board.SpawnDraws(EmptyCells(16), 4, [Board.Coord(1, 1), Board.Coord(1, 1)])
    ensures Board.HasTwoEmptyDraws(EmptyCells(16), 4, [Board.Coord(1, 1), Board.Coord(1, 1)])
    ensures Board.StartingCells(EmptyCells(16), 4, [Board.Coord(1, 1), Board.Coord(1, 1)])
            == EmptyCells(16)[5 := Board.Two]
  {
    FreshStartingCells([Board.Coord(1, 1), Board.Coord(1, 1)]);
  }

  class GameState {
    var board: Board.Board
    var movOpt: PendingMove

    ghost predicate Valid()
      reads this, board
    {
      board.Valid() && OnlyEmptyOrTwo(board.current) && OnlyEmptyOrTwo(board.last)
    }

    /** `GameState::new`: a 4x4 board with its two starting tiles and no
        pending move. `draws` stands for the random generator's output. */
    constructor (draws: seq<Board.Coord>)
      requires |draws| >= 2
      requires forall k :: 0 <= k < |draws| ==> draws[k].x < 3 && draws[k].y < 3
      ensures Valid() && fresh(board) && movOpt == Board.None
      ensures board.width == 4 && board.height == 4
      ensures board.last == EmptyCells(16)
      ensures board.current == EmptyCells(16)[Board.Index(4, draws[0].x, draws[0].y) := Board.Two]
                                             [Board.Index(4, draws[1].x, draws[1].y) := Board.Two]
    {
      var b := new Board.Board(4, 4);
      assert b.current == EmptyCells(16) && b.last == EmptyCells(16);
      FreshStartingCells(draws);
      b.StartingTiles(draws);
      StartingCellsOnlyEmptyOrTwo(EmptyCells(16), 4, draws);
      board := b;
      movOpt := Board.None;
    }

    /** `event`: a mapped key press overwrites the pending move; any other
        event leaves it. The board is not touched. */
    method HandleEvent(e: Event)
      modifies this
      ensures movOpt == AfterEvent(old(movOpt), e)
      ensures board == old(board)
    {
      match e
      case KeyEvent(Up, Pressed) => movOpt := Board.Some(Board.MoveOpt.Up);
      case KeyEvent(Down, Pressed) => movOpt := Board.Some(Board.MoveOpt.Down);
      case KeyEvent(Left, Pressed) => movOpt := Board.Some(Board.MoveOpt.Left);
      case KeyEvent(Right, Pressed) => movOpt := Board.Some(Board.MoveOpt.Right);
      case KeyEvent(W, Pressed) => movOpt := Board.Some(Board.MoveOpt.Up);
      case KeyEvent(S, Pressed) => movOpt := Board.Some(Board.MoveOpt.Down);
      case KeyEvent(A, Pressed) => movOpt := Board.Some(Board.MoveOpt.Left);
      case KeyEvent(D, Pressed) => movOpt := Board.Some(Board.MoveOpt.Right);
      case KeyEvent(Back, Pressed) => movOpt := Board.Some(Board.MoveOpt.Undo);
      case _ =>
    }

    /** `update`: a pending move is applied to the board once and cleared;
        with none pending nothing happens. `make_move` is only reached with a
        move, and on these boards never with two FiveTwelves. */
    method Update()
      requires Valid()
      modifies this, board
      ensures Valid() && board == old(board) && movOpt == Board.None
      ensures board.width == old(board.width) && board.height == old(board.height)
      ensures old(movOpt) == Board.None ==> board.State() == old(board.State())
      ensures old(movOpt).Some? ==> board.State() == Board.Moved(old(board.State()), old(movOpt).value)
    {
      if movOpt != Board.None {
        if movOpt.value != Board.MoveOpt.Undo {
          SmallTilesNeverPanic(board.current, board.width, board.height, movOpt.value);
        }
        board.MakeMove(movOpt);
        movOpt := Board.None;
      }
    }
  }
}
