# rusty-fortyeight grid engine in Dafny

A model of the core of rusty-fortyeight, a small 2048-style tile game in Rust.

- `board.dfy` (module `Board`) models `src/board.rs`. It covers the `Tile` enum and its numeric tags, and the flat row-major grid with its `Index`/`IndexMut` arithmetic `y*w + x`. It also covers `tile_exists`, `write_tile`, the random spawn of `Tile::new`, `starting_tiles`, the merge table in `compare`, and `make_move`.
- `game.dfy` (module `Game`) models the one-slot pending-move state machine of `GameState` in `src/main.rs`: `new`, `event` and `update`.

The model follows the code as written.

- A directional move runs its guarded nested loops and calls `compare` at every guarded cell. It throws the result away, so neither `current` nor `last` changes. The slide-and-merge algorithm a 2048 game would have is not in this code and is not modelled.
- Undo swaps `current` and `last`, so applying it twice restores both.
- The pure parts are functions over the flat vector `cells: seq<Tile>` and the width `w`. These are the `Index` arithmetic, `tile_exists`, `compare` with its merge table, and which random draw a spawn accepts.
- `Board` is a class whose `current` and `last` fields the methods reassign. `GameState` is a class holding a board and the pending move.
- The random generator is a parameter `draws: seq<Coord>`, the coordinates `gen_range(0, 3)` would return in order. `Tile::new` keeps the first draw that lands on an empty cell. Both spawns of `starting_tiles` use the same stream.
- Panics the code leaves to its callers are preconditions:
  - a missing move in `make_move`;
  - `compare` called with Undo;
  - `usize` underflow of `y - 1` or `x - 1`;
  - a vector index out of range;
  - `u8` overflow of `w * h` in `Board::new`.
- The one panic a well-formed board can reach is a merge of two `FiveTwelve` tiles. It is a value (`CompareResult.Panic`). `MovePanics` says when a sweep reaches it.
- The `GameState` invariant is that every cell holds `Empty` or `Two`, since nothing else is ever written. So in the game this panic cannot happen either.

Notes on the code:

- The `h - 1` and `w - 1` `u8` subtractions in the Down and Right guards are only evaluated inside the loop bodies. There `y < h` (or `x < w`), so they never underflow and the move needs no bound on the dimensions.
- Both spawns of `starting_tiles` test their draw against the board before either tile is written. If the two accepted draws land on the same cell, only one starting tile appears (`Game.EqualDrawsPlaceOneTile`).
- The flat index does not check `x < w`. So on a grid fewer than three columns wide, a draw such as (2, 2) lands on another row, outside the top-left 3x3 region. `Board.StartingCellsRegion` therefore assumes `w >= 3`. The game's 4x4 board meets this.

## Model

| member | source | states |
|---|---|---|
| Board.Value | src/board.rs:51-67 | The numeric tag is 0 exactly for `Empty`; every other tile's tag is between 2 and 512 and divides 512, i.e. is a power of two |
| Board.Doubled | src/board.rs:226-239 | The merge table gives a result exactly for `Two` .. `TwoFiftySix`, and that result's value is twice the tile's; `Empty` and `FiveTwelve` have none |
| Board.IndexInBounds | src/board.rs:140-149 | For `x < w` and `y < h` the flat index `y*w + x` is below `w*h`, so indexing stays inside the vector |
| Board.RowInGrid | src/board.rs:140-149 | A coordinate with `x < w` whose flat index is inside the `w*h` vector has `y < h` |
| Board.IndexInjective | src/board.rs:140-149 | Two coordinates with columns below `w` have the same flat index exactly when they are equal |
| Board.CellAfterWrite | src/board.rs:178-181 | After writing in-grid cell `c`, reading in-grid cell `q` gives the new tile when `q == c` and the old content otherwise |
| Board.TileExists | src/board.rs:168-175 | `tile_exists` is true exactly when the cell is `Empty` |
| Board.FirstEmpty | src/board.rs:71-81 | The accepted draw lands on an empty cell, and every earlier draw landed on an occupied one |
| Board.NewTile | src/board.rs:71-81 | The loop returns `Two` at the first draw that lands on an empty cell; the coordinate is in `0..3` x `0..3` and consumes exactly that many draws |
| Board.SpawnDrawIndices | src/board.rs:202-207 | The two spawns accept the first two draws that land on cells empty on the unchanged board, in order |
| Board.StartingCells | src/board.rs:202-210 | The length is kept; both accepted cells hold `Two`; no other cell changes; any changed cell went from `Empty` to `Two` |
| Board.StartingCellsRegion | src/board.rs:202-210 | On a grid at least three wide, a cell that `starting_tiles` changes lies in the top-left 3x3 region and went from `Empty` to `Two` |
| Board.Compare | src/board.rs:213-243 | Empty neighbour gives `(false, None)`; equal non-`FiveTwelve` neighbour gives `(true, Some(t))` with `t` worth twice the tile; different occupied neighbour gives `(true, None)`; it aborts exactly when both are `FiveTwelve` |
| Board.GuardKeepsNeighbourInGrid | src/board.rs:248-291 | Under each direction's guard, both the cell and the neighbour `compare` reads are inside the grid and the unsigned subtractions do not underflow |
| Board.PanicsAtIff | src/board.rs:213-243 | A guarded comparison aborts exactly when the cell and its neighbour both hold `FiveTwelve` |
| Board.NoFiveTwelveNoPanic | src/board.rs:246-291 | A board with no `FiveTwelve` tile never makes a directional move abort |
| Board.SweepColumns | src/board.rs:248-269 | The Up/Down loops (column outer, row inner, guards `y > 0` / `y < h-1`) abort exactly when some guarded cell and its neighbour are a `FiveTwelve` pair |
| Board.SweepRows | src/board.rs:270-291 | The Left/Right loops (row outer, column inner, guards `x > 0` / `x < w-1`) abort exactly when some guarded cell and its neighbour are a `FiveTwelve` pair |
| Board.UndoTwiceRestores | src/board.rs:292-295 | Undo exchanges `current` and `last`, and two Undos in a row restore both |
| Board.DirectionalMoveIsNoOp | src/board.rs:248-291 | A directional move as written leaves both `current` and `last` unchanged |
| Board.Board.constructor | src/board.rs:155-165 | `current` has `w*h` cells, all `Empty`, and `last` equals it; `w*h` must fit in `u8` |
| Board.Board.WriteTile | src/board.rs:178-181 | Exactly the flat cell at `coord` becomes the new tile; the rest of `current` and all of `last` stay the same |
| Board.Board.StartingTiles | src/board.rs:202-210 | `current` becomes the spawn function of the old `current` (both choices made before either write); `last` is untouched |
| Board.Board.MakeMove | src/board.rs:246-302 | Undo swaps `current` and `last`; a direction runs its sweep and changes nothing; `None`, or a sweep that would abort, is a contract violation |
| Game.KeyMove | src/main.rs:46-63 | Up/W press selects Up, Down/S Down, Left/A Left, Right/D Right, Back Undo; every other event, releases included, selects nothing (each in both directions) |
| Game.LastPressWins | src/main.rs:45-66 | The last mapped key press before an update decides the pending move |
| Game.NoPressKeepsPending | src/main.rs:62 | Events that map to no move leave the pending move unchanged |
| Game.SmallTilesNeverPanic | src/main.rs:69-73 | On boards of `Empty`/`Two` tiles no directional move aborts, so `update` never reaches the `FiveTwelve` panic |
| Game.StartingCellsOnlyEmptyOrTwo | src/board.rs:202-210 | The starting spawns keep a board of `Empty`/`Two` tiles so |
| Game.FreshStartingCells | src/main.rs:34-41 | On the fresh 4x4 board the two starting tiles go to the first two draws |
| Game.EqualDrawsPlaceOneTile | src/board.rs:202-207 | Equal first draws put a single `Two` on the fresh 4x4 board |
| Game.GameState.constructor | src/main.rs:34-42 | A 4x4 board with `last` all `Empty`, `current` holding the two starting `Two`s, and no pending move |
| Game.GameState.HandleEvent | src/main.rs:45-66 | A mapped key press overwrites the pending move; any other event leaves it; the board is not touched |
| Game.GameState.Update | src/main.rs:69-76 | With a pending move the board takes exactly that move; with none the board is unchanged; afterwards nothing is pending and the `Empty`/`Two` invariant holds |

## Left out

- `Assets`, `Assets::load`, `load_from_file`, `asset_from_tile` and `Board::render` (src/board.rs:84-126, 184-199, 306-318): image loading and drawing through the graphics library, with no game logic.
- src/render.rs: `SpriteSheet` only loads sub-images through the graphics library.
- `main`, `draw` and `run` in src/main.rs: window setup and frame clearing. The `Result<()>` of `new`, `event` and `update`, always `Ok`, and the unused `_window` parameter are dropped.
- `thread_rng` and `gen_range`: the generator is the parameter `draws`. The spawn requires some draw to land on an empty cell. That the rejection loop ends with probability one under real randomness is not modelled.
- `println!` in `make_move`: console output only.
- Slide, merge, spawn after a move and snapshot on a move: `make_move` does not do them, so the model does not either.
- `Event` is reduced to key events over the nine keys the game reads, `OtherKey` and `OtherEvent`. Other quicksilver events and keys all fall into the default case.
- Board.Board.constructor: `u8` overflow of `w * h` is a precondition (the debug-build panic). Release-build wrap-around is not modelled.
- Board.Board.MakeMove: the sweep abort on a `FiveTwelve` pair is a precondition here. When it happens is stated by `Board.SweepColumns`, `Board.SweepRows` and `Board.PanicsAtIff`.
- Board.NewTile: takes the board's vector and width as values rather than `&Board`.
