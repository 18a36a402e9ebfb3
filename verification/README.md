# Sea battle, modelled in Dafny

This project models the game engine of `main.py`, a console sea-battle game
in which a user plays against the computer on two 6×6 boards.

- **Points and ships** (`ships.dfy`, module `Ships`):
  - `Dot` is an integer pair compared by value.
  - A `Ship` has a nose, a length, an orientation and its remaining lives.
  - `Dots` expands a ship into its straight line of cells: orientation 0
    steps along `x`, orientation 1 along `y`.
  - `Shooten` is membership in that line.
  - `Around` lists the nine offsets of `contour` in the source's order, and
    `Halo` concatenates them over a ship's cells.
- **The board** (`board.dfy`, module `Boards`):
  - A `Board` holds the `size`×`size` field, the `busy` list, the `ships`
    list and the count of destroyed ships. Cells are `Empty` (`O`), `Deck`
    (`■`), `Hit` (`X`) and `Miss` (`.`).
  - `out`, `contour`, `add_ship`, `shot` and `begin` are pure functions.
    Each exception becomes an `Err` value of a `Result`, so a refused call
    leaves no changed board behind.
  - `contour` is the left fold `Reserve` over the halo candidates, in the
    source's loop order, so `busy` grows in the same order as the list in
    the source.
- **Placement** (`placement.dfy`, module `Placement`): the invariant
  `Placed`, which `add_ship` keeps while a fleet is laid out:
  - every ship is whole and on the board;
  - its cells and its on-board halo are busy;
  - no two ships touch;
  - the field shows a deck exactly on the ship cells.
- **Play** (`play.dfy`, module `Play`): the invariant `InPlay`, which holds
  after `begin` and which `shot` keeps:
  - each ship's lives equal its cells not yet fired on;
  - `count` is the number of ships with no lives left.
- **Generation** (`generator.dfy`, module `Generator`):
  - `try_board` places the fleet `[3, 2, 2, 1, 1, 1, 1]` under a shared
    budget of 2000 `add_ship` attempts. The random candidates come in as a
    sequence of exactly 2000 draws; attempt number `k + 1` uses `draws[k]`.
  - `random_board` retries `try_board` over a finite sequence of passes.
- **Turns** (`turns.dfy`, module `Turns`):
  - `Player.move` asks for targets until `shot` accepts one.
  - One pass of the loop body of `Game.loop` hands the turn over unless the
    shot earned a repeat, and ends the game when a board's count reaches 7.
  - `Game.__init__` builds both boards; the counter `Game.loop` starts from is 0, so the user moves first.

`Wrappers` (`wrappers.dfy`) holds the `Option` and `Result` types.

## Model

| member | source | states |
|---|---|---|
| Ships.NewShip | main.py:50-54 | a new ship keeps the nose, length and orientation it is given, and a well-shaped one starts with as many lives as it has cells, at least one |
| Ships.Dots | main.py:56-63 | a ship of length `n` (at least 1, orientation 0 or 1) occupies exactly `n` cells |
| Ships.DotsLine | main.py:56-63 | the cells start at the nose, each is the previous one shifted by one along the orientation's axis, and no cell repeats |
| Ships.Shooten | main.py:65-67 | a shot lands on a ship exactly when the target is one of the ship's cells |
| Ships.ShootenIff | main.py:65-67 | a point is hit exactly when it is the nose shifted by some `i` below the length along the orientation's axis; cell `i` is the nose shifted by `i` |
| Ships.Around | main.py:97-104 | each cell contributes nine halo candidates |
| Ships.AroundTouch | main.py:97-104 | the nine candidates around a cell are exactly the cells within Chebyshev distance 1 of it |
| Ships.Halo | main.py:102-104 | the candidate list of `contour` has nine entries per ship cell |
| Ships.HaloTouch | main.py:102-104 | a cell is a halo candidate exactly when it touches some ship cell |
| Boards.NewBoard | main.py:72-78 | a new board is `size`×`size`, all cells empty, nothing busy, no ships, count 0 |
| Boards.Out | main.py:91-93 | a cell is off the board exactly when a coordinate lies outside `0 .. size - 1` |
| Boards.Paint | main.py:116 | painting one cell changes that cell only and nothing else on the board |
| Boards.Commit | main.py:115-117 | committing the ship cells appends them to `busy` in order and touches nothing but field and `busy` |
| Boards.CommitDraws | main.py:115-117 | after committing, exactly the ship cells show a deck; every other cell keeps its value |
| Boards.Reserve | main.py:102-108 | the contour loop only grows `busy`, changes nothing but field and `busy`, and leaves the field alone when not painting |
| Boards.ReserveTakes | main.py:102-108 | the old `busy` list is a prefix of the new one; a cell is busy afterwards exactly when it was busy before or is an on-board candidate; no cell is added twice |
| Boards.ReserveDraws | main.py:105-107 | when painting, exactly the on-board candidates that were not busy become a miss; every other cell keeps its value |
| Boards.Contour | main.py:95-108 | `contour` keeps the board well formed, changes nothing but field and `busy`, and leaves the field alone when `verb` is false |
| Boards.ContourTakes | main.py:95-108 | the old `busy` is a prefix of the new; a cell is busy afterwards exactly when it was busy before or is an on-board cell touching the ship; no cell is added twice |
| Boards.ContourDraws | main.py:95-108 | with `verb` set, exactly the on-board cells touching the ship that were not busy become a miss; every other cell keeps its value |
| Boards.AddShip | main.py:110-119 | a ship is accepted exactly when every cell is on the board and not busy, otherwise `WrongShip`; on success the ship is appended last, and size and count are kept |
| Boards.AddShipTakes | main.py:110-119 | after `add_ship` the old `busy` is a prefix of the new; a cell is busy exactly when it was before or is an on-board cell touching the ship; no cell is busy twice |
| Boards.AddShipPaints | main.py:110-119 | `add_ship` paints a deck exactly on the ship's cells; the halo is not painted and no other cell changes |
| Boards.FirstHit | main.py:128-129 | the ship a shot hits is the first in the list containing the target; none exactly when no ship contains it |
| Boards.Sinking | main.py:127-133 | the kill branch before its contour: the target is appended to `busy` and shows a hit, the ship hit loses its last life, the count grows by one, and every other cell keeps its value |
| Boards.Shot | main.py:121-142 | off-board gives `OutOfBoard`, a busy target gives `Used`, and a shot is accepted exactly otherwise; the target is appended to `busy`, after the old entries, which stay in order; a miss changes no ship and no count; a hit takes one life from the first ship hit; the result is "repeat" exactly when that ship still has lives; a kill adds one to the count |
| Boards.ShotDraws | main.py:127-142 | a miss or wound adds only the target to `busy`; a kill also reserves the ship's on-board halo; the target shows a hit or a miss; on a kill the untaken halo shows a miss; every other cell keeps its value |
| Boards.KillTakes | main.py:132-134 | after a kill, a cell is busy exactly when it was before, is the target, or is an on-board cell touching the sunk ship |
| Boards.KillDraws | main.py:131-134 | after a kill the target shows a hit, the untaken halo shows a miss, and every other cell keeps its value |
| Boards.Begin | main.py:144-145 | `begin` empties `busy` and keeps the size, field, ships and count |
| Placement.NewBoardPlaced | main.py:72-78 | an empty board satisfies the placement invariant |
| Placement.AddShipApart | main.py:102-119 | an accepted ship neither shares a cell with nor touches any ship already placed |
| Placement.AddShipReserves | main.py:102-119 | after `add_ship` every ship cell, old and new, is on the board with its whole on-board halo busy |
| Placement.AddShipShowsFleet | main.py:110-119 | after `add_ship` the field shows a deck exactly on the fleet's cells and is empty elsewhere |
| Placement.AddShipKeepsPlaced | main.py:110-119 | `add_ship` of a fresh ship keeps the placement invariant |
| Play.Remaining | main.py:127-130 | a ship has no cell left unfired exactly when all its cells are busy |
| Play.Sunk | main.py:132-133 | every ship is sunk exactly when the number of sunk ships equals the fleet size |
| Play.RemainingAll | main.py:144-145 | with nothing busy, every cell of a ship remains |
| Play.RemainingSame | main.py:125-130 | a ship's remaining cells depend only on whether its own cells are busy |
| Play.RemainingTake | main.py:127-130 | making one fresh cell of a ship busy lowers its remaining count by exactly one |
| Play.SunkUpdate | main.py:130-133 | replacing one ship changes the sunk count by whether it sank |
| Play.NoneSunk | main.py:50-54 | a fleet in which every ship has a life left has nothing sunk |
| Play.BeginStartsPlay | main.py:144-145 | `begin` on a laid-out board empties `busy`, keeps ships and field, and starts play with count 0 |
| Play.OnlyShip | main.py:128-129 | the first ship a shot hits is the only ship containing the target |
| Play.TargetOnlyKeeps | main.py:127-142 | a miss or a wound keeps every other ship's lives equal to its unfired cells |
| Play.KillKeeps | main.py:132-134 | a kill's halo reservation changes no other ship's unfired cells |
| Play.ShotKeepsApart | main.py:121-142 | a shot moves no ship, so the fleet stays apart |
| Play.ShotKeepsInPlay | main.py:121-142 | an accepted shot keeps lives equal to unfired cells and `count` equal to the sunk ships |
| Play.ShotOutcome | main.py:128-142 | in play, a shot gives "repeat" exactly when it hits a ship that still has lives; count grows by one exactly when it hits a ship with no lives left; otherwise count is kept; a shot off the fleet keeps every ship and the count and gives no repeat |
| Play.ShotTwice | main.py:125-127 | a second shot at the same cell is refused as used |
| Play.CountBounds | main.py:130-133 | in play, count stays between 0 and the fleet size and reaches it exactly when every ship is sunk; lives stay between 0 and the length |
| Generator.PlaceOne | main.py:216-225 | a placement accepts a candidate within the budget, and `add_ship` of that candidate gives the new board |
| Generator.PlaceOneFirst | main.py:216-225 | the accepted candidate is the first that fits; a placement gives up exactly when no candidate left in the budget fits |
| Generator.PlaceAll | main.py:212-225 | the lengths share one attempt counter, which only grows and never passes the budget; a success keeps the board well formed and its size |
| Generator.PlaceOneKeepsPlaced | main.py:216-225 | one accepted placement keeps the placement invariant |
| Generator.PlaceOneLength | main.py:220-222 | one accepted placement appends one ship of the requested length |
| Generator.PlaceAllPlaces | main.py:212-225 | placing a run of lengths keeps the placement invariant |
| Generator.PlaceAllLengths | main.py:212-225 | placing a run appends one ship per length, in order |
| Generator.TryBoard | main.py:211-227 | a board from `try_board` is well formed, has the size asked for, and has nothing busy |
| Generator.TryBoardSound | main.py:211-227 | a board from `try_board` has the fleet `[3, 2, 2, 1, 1, 1, 1]` in order; nothing busy and nothing sunk; every ship whole and on the board; no two ships touch; decks shown exactly on the ship cells |
| Generator.BeginReady | main.py:144-145 | `begin` on a laid-out board starts play with whole ships shown on the field |
| Generator.FirstBoard | main.py:229-234 | the success picked is a success at the index given |
| Generator.FirstBoardFirst | main.py:229-234 | the success picked is the first, and there is none exactly when every outcome failed |
| Generator.RandomBoard | main.py:229-234 | `random_board` returns the board of a pass that succeeded |
| Generator.RandomBoardFirst | main.py:229-234 | `random_board` takes the first pass that succeeds and fails only when every pass fails |
| Turns.MoveFrom | main.py:158-166 | a move returns the board and the repeat flag of an accepted shot at one of the remaining targets |
| Turns.Move | main.py:158-166 | a move returns the board and the repeat flag of an accepted shot at one of its targets |
| Turns.MoveFromFirst | main.py:158-166 | the target fired at is the first on the board and not used; every earlier target was refused |
| Turns.MoveFirst | main.py:158-166 | a move fires at the first acceptable target and finds none exactly when every target is off the board or used |
| Turns.Round | main.py:247-263 | a round completes exactly when the move finds a target; only the enemy board changes, and it becomes the board of the accepted shot; the game ends exactly when a count reaches 7; the user is the winner exactly when the computer's count is 7; otherwise the counter stays put after a repeat and advances by one after any other shot |
| Turns.RoundTurnOrder | main.py:247-263 | after a round that does not end the game, the same player moves again exactly when the shot wounded a ship still afloat |
| Turns.RoundKeepsReady | main.py:247-263 | a round keeps both boards in play, and each count grows by at most one |
| Turns.RoundWinner | main.py:255-262 | with seven ships a side, the user wins exactly when every computer ship is sunk; when the computer wins, every user ship is sunk |
| Turns.Run | main.py:238-263 | playing rounds keeps both boards well formed |
| Turns.RunKeepsReady | main.py:238-263 | a game played from ready boards stays ready; counts never go down; a win means every ship of the loser is sunk; an unfinished game has both counts below 7 |
| Turns.NewGame | main.py:197-203 | a game is built exactly when both sides get a board from `random_board`; the user's board and the computer's board are exactly the boards those two calls return, with the size asked for; the turn counter starts at 0, as `Game.loop` sets it at main.py:238, so the user moves first |
| Turns.NewGameReady | main.py:197-203 | a new game has both boards in play with seven ships each; nothing is fired on, and the user moves first |

## Left out

- `Board.__str__`, the `hid` flag and the field's glyphs: text rendering only. The field holds the four `Cell` values in place of the strings.
- Every `print`, `User.ask` and its input parsing: console I/O. Targets come in as a sequence of `Dot`s.
- `AI.ask` and the `random.randint` calls of `try_board`: randomness. The computer's targets and the placement candidates are parameters. Candidate coordinates are unconstrained integers, which covers the inclusive `randint(0, size)` range.
- `Game.greet`, `Game.start` and the module-level start of the game: process start-up.
- The exception classes' messages: the errors are the `BoardError` variants `OutOfBoard`, `Used` and `WrongShip`.
- `Ship.dots` returns `None` for a length below 1 or an orientation other than 0 or 1. Every caller would then fail while iterating. `Dots`, `AddShip` and `Shot` therefore require well-shaped ships (`Shaped`), which every ship of `try_board` is.
- `Board.size` is a `nat`. A negative size is not modelled.
- Generator.RandomBoard: `random_board` loops until a pass succeeds, which terminates only with probability 1. The model takes a finite sequence of passes and returns `None` when all of them fail.
- Turns.Move: `Player.move` keeps asking forever while shots are refused. The model takes a finite sequence of targets and returns `None` when none is accepted.
- Turns.Run: `Game.loop` runs until somebody wins. The model plays a finite sequence of rounds and returns the unfinished game when they run out.
- `Game.__init__` takes a board size, but `AI.ask` draws targets from 0 to 5 and `Game.loop` stops at a count of 7. Both fit only a 6×6 board with the standard fleet. The model keeps the size a parameter, keeps the win count at 7, and takes the computer's targets as input.
