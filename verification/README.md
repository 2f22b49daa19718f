# CSC148 exercises: Stonehenge, A1 games, linked lists, hash tables, trees, grades, race registry

This project is a Dafny model of the core of a collection of CSC148 (University of Toronto) course code, with proofs about that model. It covers:

- **Stonehenge (assignment 2).**
  - The hexagonal grid of `grid.py`: cells lettered A, B, … that players claim, and ley-lines that a player captures by holding at least half of their cells. There are three families of ley-lines: rows, and the left and right diagonals from fixed tables for sides 1 to 5.
  - The game state: turn, grid and scores (`Assignment/a2/Trash/stonehenge_state.py`). It offers the free cells while neither player has reached half of the ley-lines, makes a move on a copy of the grid, and computes the winner and the `rough_outcome` heuristic.
  - The second copy of that state and its helpers `gather_str` and `get_leyline` (`Assignment/a2/Trash/game_state_1.py`).
  - The game: `is_over`, `is_winner` and `str_to_move` (`stonehenge_game.py`). There is also a second copy of the game beside an abstract `Game` whose methods raise `NotImplementedError` (`Assignment/a2/Trash/game_1.py`).
- **Chopsticks and Subtract-Square (assignment 1).**
  - The states (`miscellaneous/blabla/state.py`): possible moves, validity and the move itself. Chopsticks hands add modulo 5; Subtract-Square removes a positive square.
  - The games (`game.py`): who has won, and how a typed move is read.
- **Linked lists.**
  - The list of `Labs/lab4/ex.py`, with `front`, `back` and `size`, modelled as a class over heap nodes. It is proved against its sequence of values.
  - The smaller list of `miscellaneous/blabla/game.py`.
- **Hash tables.** Two chained hash tables (`hash_table/hash_table_API.py` and `hash_table/Dannhy_Heap_Version/hash_table_implementation.py`). Both double their capacity when the load exceeds 0.7 and keep the stored mapping through the doubling.
- **Lab 8 recursion (`Labs/lab8/whatever.py`).**
  - The tallest perfect binary subtree.
  - Per-level node counts of an n-ary tree.
  - The width of a nested list, in both versions.
  - `prune`, and `bar`, which leaves its argument unchanged.
- **Grade entries (`Labs/lab2/grade.py`).** Letter points come from a table. Numeric points come from contiguous bands.
- **The race registry (`Labs/lab1/lab1.py`).** It maps runner emails to speed categories in registration order.

Classes whose methods update fields in the source (`Cell`, `Line`, `Grid`, `StonehengeState`, both `LinkedList`s, both `HashTable`s, `RaceRegistry`) are Dafny classes. Their methods are proved against value-level specification functions: the board of `GridLayout`, the `Snap` of a Stonehenge state, a list's `contents`, a table's `contents` map. Purely computing code is modelled as functions and lemmas.

Conventions of the model:

- **Exact thresholds.** The source's float thresholds are written as exact integer tests:
  - a ley-line falls to a player when `2 * count >= total`;
  - a game ends when a score satisfies `2 * score >= 3 * (size + 1)`;
  - a table doubles when `10 * items > 7 * capacity`.
- **Grade points** are integer tenths (4.0 is 40).
- **Python's `hash`** is a function given to a hash table when it is built.
- **Text functions.** Python's `str.isdigit`, `int`, `str.isalpha` and `str.upper` are modelled over ASCII in `PyText`.
- **Exceptions.** A raised exception is an `Err` carrying its Python name (`Wrappers.Error`).
- **Line owners.** A ley-line's unclaimed marker `'@'` is 0, as is an unclaimed cell's player.

## Model

| member | source | states |
|---|---|---|
| PyText.IsDigits | stonehenge_game.py:34 | `str.isdigit` over ASCII: non-empty and all decimal digits; `DecimalRoundTrip` relates it to `str` |
| PyText.DecimalValue | stonehenge_game.py:36 | `int` of a digit string; `DecimalRoundTrip` states it inverts `str` |
| PyText.Decimal | miscellaneous/blabla/state.py:260 | `str` of a natural number, never empty; `DecimalRoundTrip` states it is all digits and read back by `int` |
| PyText.DecimalRoundTrip | miscellaneous/blabla/state.py:260 | `str(n).isdigit()` holds and `int(str(n)) == n` for every natural n |
| PyText.IntText | grid.py:37 | `str` of any integer, never empty, starting with '-' exactly for a negative number |
| PyText.IsAlpha | stonehenge_game.py:100 | `str.isalpha` over ASCII: non-empty and all letters; `UpperFacts` states its properties |
| PyText.Upper | stonehenge_game.py:100 | `str.upper` over ASCII: same length, each lower-case letter capitalised and every other character kept |
| PyText.UpperFacts | stonehenge_game.py:100 | upper-casing a word gives a word of capitals, and upper-casing again changes nothing |
| GridLayout.CellCountFormula | grid.py:174-176 | the float expression `(3 + size) * size / 2 + size` that counts the cells is the exact number of cells covered by the horizontal ley-lines |
| GridLayout.LeyStartFormula | grid.py:179-184 | the `start` that the ley-line loop reaches after `i` rounds is `i * (i + 3) / 2` |
| GridLayout.LeyTableAt | grid.py:181-186 | horizontal ley-line `i` is the run of consecutive cells that starts where the previous lines end, with lengths 2, 3, ..., size + 1 and then size |
| GridLayout.LeyPartition | grid.py:174-186 | read in order, the horizontal ley-lines cover cells 0 to the cell count once each, in order |
| GridLayout.LeyRuns | grid.py:181-184 | every horizontal ley-line except the last ends exactly where the next one starts |
| GridLayout.Layout | grid.py:177-188 | there are size + 1 lines in each of the three directions; every index names a cell of the board; horizontal line `i` has the loop's length |
| GridLayout.LeyInRange | grid.py:182-186 | no horizontal ley-line indexes past the last cell |
| GridLayout.DiagonalsInRange | grid.py:255-264 | no left or right diagonal indexes past the last cell |
| GridLayout.DiagonalsNonEmpty | grid.py:255-288 | every diagonal of a board of size 1 to 5 holds at least one cell |
| GridLayout.DiagonalsMatch | grid.py:245-288 | for sizes 1 to 5, the literal tables of `get_left` and `get_right` are exactly the left and right diagonals computed from the row layout; any other size has no table (KeyError) |
| GridLayout.LeftDiagonals1 | grid.py:255 | the size-1 left table equals the computed left diagonals |
| GridLayout.RightDiagonals1 | grid.py:278 | the size-1 right table equals the computed right diagonals |
| GridLayout.LeftDiagonals2 | grid.py:256 | the size-2 left table equals the computed left diagonals |
| GridLayout.RightDiagonals2 | grid.py:279 | the size-2 right table equals the computed right diagonals |
| GridLayout.LeftDiagonals3 | grid.py:257 | the size-3 left table equals the computed left diagonals |
| GridLayout.RightDiagonals3 | grid.py:280 | the size-3 right table equals the computed right diagonals |
| GridLayout.LeftDiagonals4 | grid.py:258-259 | the size-4 left table equals the computed left diagonals |
| GridLayout.RightDiagonals4 | grid.py:281-282 | the size-4 right table equals the computed right diagonals |
| GridLayout.LeftDiagonals5 | grid.py:260-261 | the size-5 left table equals the computed left diagonals |
| GridLayout.LeftLines5 | grid.py:260-261 | the six computed size-5 left diagonals, listed out |
| GridLayout.RightDiagonals5 | grid.py:283-284 | the size-5 right table equals the computed right diagonals |
| GridLayout.RightLines5 | grid.py:283-284 | the six computed size-5 right diagonals, listed out |
| GridLayout.LeyBound | grid.py:181-186 | each horizontal ley-line ends inside the board |
| GridLayout.SmallBoard | grid.py:174-176 | a board of size 1 to 5 has at most 25 cells, so its letters stay in 'A'..'Y' |
| GridLayout.SizeErrorBounds | grid.py:174-188 | for a size outside 1 to 5, the error `Grid` meets first is ValueError exactly when the cell count `(3 + size) * size / 2 + size` passes the 1114047 letters `chr` can give from 65, that is for sizes from 1491 up or from -1496 down, and KeyError otherwise |
| GridLayout.FreshBoard | grid.py:163-188 | a new board of size 1 to 5 has the right number of cells and size + 1 lines in each direction, none of them held |
| GridLayout.PlayerNumber | grid.py:39-50 | the player number of a name is 1 for 'p1' and 2 for any other name |
| GridLayout.Update | grid.py:209-224 | a move on a well-formed board gives a well-formed board of the same size |
| GridLayout.CountsBound | grid.py:140-145 | the cells a line's two players hold add up to at most its length |
| GridLayout.UpdateChanges | grid.py:39-50 | a move changes at most one cell, the unclaimed one whose letter it names, which goes to the mover; every held line keeps its holder |
| GridLayout.UpdateSettles | grid.py:117-126 | after any move, no unclaimed line has half of its cells held by one player |
| GridLayout.FreshSettled | grid.py:163-188 | a new board is settled: no line is held by half of its cells yet |
| GridLayout.CaptureByMover | grid.py:117-126 | on a settled board, every line that a move captures goes to the mover |
| GridLayout.OpponentScoreKept | grid.py:226-242 | on a settled board, a move never changes the opponent's score |
| GridLayout.ScoresBound | grid.py:226-242 | the two scores together are at most the 3 * (size + 1) ley-lines |
| GridLayout.ScoreMonotone | grid.py:117 | no move lowers a score, because a held line is never re-taken |
| GridLayout.UpdateParts | grid.py:218-224 | the cells are claimed first, and then every line of each direction is judged on the updated cells |
| GridLayout.UpdateDoctest | grid.py:213-216 | on a new size-1 board, the mover claiming 'A' yields cells [mover, 0, 0], a score of 3 for the mover and 0 for the other player |
| GridLayout.CellAfter | grid.py:218 | after a move, each cell holds what `update_cell` gives its letter |
| StonehengeGrid.Cell.constructor | grid.py:17-27 | a cell holds the given letter and player |
| StonehengeGrid.Cell.Str | grid.py:29-37 | an unclaimed cell shows its letter; a claimed cell shows the decimal digits of its player |
| StonehengeGrid.Cell.UpdateCell | grid.py:39-50 | only an unclaimed cell whose letter is the move is claimed, for the player number of the name; any other cell is unchanged; the cell itself is returned |
| StonehengeGrid.Cell.Copy | grid.py:52-65 | a new cell with the same letter and player |
| StonehengeGrid.ClaimAll | grid.py:119-121 | the loop of `update_line` offers the move to every cell of the line, and nothing else changes |
| StonehengeGrid.Line.constructor | grid.py:78-89 | a line over the given cells with the given holder, both counts 0 and `total` equal to the number of cells |
| StonehengeGrid.Line.CheckScore | grid.py:128-145 | the two counts become the numbers of the line's cells held by 1 and by 2; their sum is at most the number of cells |
| StonehengeGrid.Line.UpdateLine | grid.py:106-126 | a held line and its cells stay as they are; an unclaimed line offers the move to each of its cells, recounts, and is then captured by player 1 if 2 * player_1 >= total, else by player 2 if 2 * player_2 >= total |
| StonehengeGrid.Line.Copy | grid.py:91-104 | a new line over new copies of the cells, with the same holder, counts and total |
| StonehengeGrid.CopyCells | grid.py:102 | new cells, one per given cell, each with the same letter and player |
| StonehengeGrid.CopyLines | grid.py:205-207 | new, distinct lines, each a copy of the corresponding line and sharing nothing with the original |
| StonehengeGrid.BuildLines | grid.py:262-265 | one new unclaimed line per table row over the listed cells; a row index past the cells is an error |
| StonehengeGrid.GetLeft | grid.py:245-265 | sizes without a table raise KeyError; otherwise new distinct unclaimed lines over the cells of the left table |
| StonehengeGrid.GetRight | grid.py:268-288 | sizes without a table raise KeyError; otherwise new distinct unclaimed lines over the cells of the right table |
| StonehengeGrid.NewCells | grid.py:174-176 | `count` new unclaimed cells lettered 'A', 'B', ... in order |
| StonehengeGrid.LeyLines | grid.py:177-186 | the horizontal ley-lines: new, distinct, unclaimed lines over the grid's own cells, laid out as the row table says |
| StonehengeGrid.RisingLeyLines | grid.py:179-184 | the loop builds the lines of 2 to size + 1 cells and leaves `start` at the beginning of the last row |
| StonehengeGrid.NewLeyLine | grid.py:182-186 | the line for row `j` is a new unclaimed line over that row's run of cells |
| StonehengeGrid.Build | grid.py:174-188 | a fresh layout: the cells lettered in order and unclaimed, and the three directions of lines over them, all distinct and new |
| StonehengeGrid.GridCells | grid.py:174-176 | the cells of `Grid(size)`: one per letter from 'A', all unclaimed, at most 25 |
| StonehengeGrid.Diagonals | grid.py:187-188 | the right and left diagonals are new, distinct lines over the grid's cells and share no line with each other |
| StonehengeGrid.Grid.constructor | grid.py:163-188 | a new grid of size 1 to 5 is consistent and unclaimed; its board is the fresh board, and every line spans the grid's own cells as its table row says |
| StonehengeGrid.Grid.UpdateGrid | grid.py:209-224 | the grid's new board is the move applied to its old board; its footprint is unchanged and it stays consistent |
| StonehengeGrid.Grid.Offer | grid.py:221-223 | one `update_line` call inside the grid: a held line stays as it is; an unclaimed one is captured as its updated cells say |
| StonehengeGrid.Grid.Assemble | grid.py:189-191 | the grid made from given cells and lines keeps exactly those |
| StonehengeGrid.Grid.Copy | grid.py:193-207 | a new grid, sharing no object with the original, that is consistent and shows the same board |
| StonehengeGrid.Grid.CopyParts | grid.py:204-207 | copies of the cells and of the three directions of lines, all new and distinct, each line a copy of the original one |
| StonehengeGrid.Grid.GetScore | grid.py:226-242 | the score is the number of lines in all three directions that the player holds |
| StonehengeGrid.NewGrid | grid.py:163-188 | `Grid(size)` fails exactly for sizes outside 1 to 5: with ValueError when `chr(65 + n)` is reached for a code point past the last one, which happens exactly for sizes from 1491 up or from -1496 down, and with KeyError from the missing diagonal table otherwise; for sizes 1 to 5 it returns a new consistent grid showing the fresh board |
| StonehengeStates.Initial | Assignment/a2/Trash/stonehenge_state.py:24-39 | a new state of size 1 to 5 has a well-formed board of that size (the fresh board, both scores 0, the given turn) |
| StonehengeStates.Free | Assignment/a2/Trash/stonehenge_state.py:178-179 | the moves of the unclaimed cells are never more than the cells |
| StonehengeStates.FreeMeaning | Assignment/a2/Trash/stonehenge_state.py:178-179 | a move is listed exactly when it is the one-letter name of an unclaimed cell, and the letters come in strictly increasing grid order |
| StonehengeStates.MovesMeaning | Assignment/a2/Trash/stonehenge_state.py:166-179 | there are no moves once a score satisfies 2 * score >= 3 * (size + 1); otherwise the moves are exactly the letters of the unclaimed cells, one letter each, in grid order |
| StonehengeStates.Next | Assignment/a2/Trash/stonehenge_state.py:181-200 | the state after a move has a well-formed board of the same size and the other player's turn |
| StonehengeStates.InitialSound | Assignment/a2/Trash/stonehenge_state.py:24-39 | a new state is sound: its scores are those its board gives and its board is settled |
| StonehengeStates.NextSound | Assignment/a2/Trash/stonehenge_state.py:195-200 | a move keeps the state sound, because the scores are recomputed with `get_score` |
| StonehengeStates.NextScores | Assignment/a2/Trash/stonehenge_state.py:195-200 | from a sound state a move never lowers the mover's score and leaves the opponent's unchanged |
| StonehengeStates.FinishWins | Assignment/a2/Trash/stonehenge_state.py:231-250 | a finishing move from a sound state that is not over ends the game (no moves left) with the mover as `get_winner` |
| StonehengeStates.RoughMeaning | Assignment/a2/Trash/stonehenge_state.py:202-229 | `rough_outcome` is -1, 0 or 1. With no moves it is 1 iff `get_winner` names the player to move, never 0. With moves it is 1 iff some move finishes the game, and -1 iff none does and every move leaves the opponent a finishing move |
| StonehengeStates.AllThreatened | Assignment/a2/Trash/stonehenge_state.py:224-229 | `all(result)` holds iff after every move the opponent has a finishing move |
| StonehengeStates.AnyFinishing | Assignment/a2/Trash/stonehenge_state.py:222 | the `any` over `finished` holds iff some listed move finishes the game |
| StonehengeStates.RoughSound | Assignment/a2/Trash/stonehenge_state.py:202-229 | from a sound state with moves, a 1 means the mover can win in one move, and a -1 means every move lets the opponent win in one |
| StonehengeStates.EqSameMoves | Assignment/a2/Trash/stonehenge_state.py:115-143 | states that `__eq__` calls equal, having the same size, offer the same moves and name the same winner |
| StonehengeStates.MovesDoctest | Assignment/a2/Trash/stonehenge_state.py:172-174 | the size-1 start offers 'A', 'B', 'C' |
| StonehengeStates.FinishedDoctest | Assignment/a2/Trash/stonehenge_state.py:235-248 | at size 1, 'A' finishes the game and p1 is then the winner |
| StonehengeStates.RoughDoctest | Assignment/a2/Trash/stonehenge_state.py:209-214 | the size-1 start is worth 1, and the state after 'A' is worth -1 |
| StonehengeStates.UnclaimedFree | Assignment/a2/Trash/stonehenge_state.py:178-179 | over cells lettered in order, the comprehension on the grid's cells lists the same moves as the board's unclaimed cells |
| StonehengeStates.StonehengeState.constructor | Assignment/a2/Trash/stonehenge_state.py:24-39 | a new state over a new grid is consistent and its view is the initial state |
| StonehengeStates.StonehengeState.WithGrid | Assignment/a2/Trash/stonehenge_state.py:37-39 | a state over a given grid keeps that grid, with both scores 0 |
| StonehengeStates.StonehengeState.GetPossibleMoves | Assignment/a2/Trash/stonehenge_state.py:166-179 | the moves are those of the state's view |
| StonehengeStates.StonehengeState.IsValidMove | Assignment/a2/Trash/game_state_1.py:59-63 | a move is valid iff the game is not over and it is the letter of an unclaimed cell of the grid |
| StonehengeStates.StonehengeState.MakeMove | Assignment/a2/Trash/stonehenge_state.py:181-200 | a new state with its own new grid, whose view is the move applied to the receiver's view; the receiver is unchanged |
| StonehengeStates.StonehengeState.SetScores | Assignment/a2/Trash/stonehenge_state.py:198-199 | only the two scores change |
| StonehengeStates.StonehengeState.Finished | Assignment/a2/Trash/stonehenge_state.py:231-241 | `finished(move)` holds iff the state after the move has a score at the threshold; the receiver is unchanged |
| StonehengeStates.StonehengeState.GetWinner | Assignment/a2/Trash/stonehenge_state.py:243-250 | the winner is that of the state's view: 'p1' iff p1 has reached the threshold, else 'p2' |
| StonehengeStates.StonehengeState.Equals | Assignment/a2/Trash/stonehenge_state.py:115-143 | equal iff the player to move, every cell's holder in order, and both scores agree |
| StonehengeStates.StonehengeState.RoughOutcome | Assignment/a2/Trash/stonehenge_state.py:202-229 | the loops compute exactly `Rough` of the receiver's view, whose meaning `RoughMeaning` states; the receiver is unchanged |
| StonehengeStates.MovedCopy | Assignment/a2/Trash/stonehenge_state.py:195-199 | a new grid showing the move applied to the original board, with its two scores; the original grid is unchanged |
| StonehengeStates.FinishFlags | Assignment/a2/Trash/stonehenge_state.py:222 | the list of `finished` over the possible moves, in order |
| StonehengeStates.ReplyFlags | Assignment/a2/Trash/stonehenge_state.py:224-228 | the list `result`: for each possible move, whether the opponent then has a finishing move |
| StonehengeStates.Threat | Assignment/a2/Trash/stonehenge_state.py:226-228 | one entry of `result`: whether the opponent has a finishing move after this move |
| StonehengeStates.FreshGrid | Assignment/a2/Trash/stonehenge_state.py:38 | a new grid of the size, showing the fresh board |
| StonehengeStates.NewState | Assignment/a2/Trash/stonehenge_state.py:24-39 | building a state fails exactly for sizes outside 1 to 5, with the grid's ValueError for sizes from 1491 up or from -1496 down and its KeyError otherwise; for sizes 1 to 5 the new state's view is the initial state |
| StonehengeStates.Moves | Assignment/a2/Trash/stonehenge_state.py:166-179 | `get_possible_moves`: none once a score has reached the threshold, otherwise the unclaimed cells' letters; `MovesMeaning` and `FreeMeaning` state its properties |
| StonehengeStates.Winner | Assignment/a2/Trash/stonehenge_state.py:243-250 | `get_winner`: 'p1' when player 1 has reached the threshold, else 'p2'; `FinishWins` and `StonehengeGames.IsWinnerMatchesWinner` state its properties |
| StonehengeStates.Rough | Assignment/a2/Trash/stonehenge_state.py:202-229 | `rough_outcome` on the state's view; `RoughMeaning` and `RoughSound` state its properties |
| StonehengeStates.Eq | Assignment/a2/Trash/stonehenge_state.py:115-143 | what `__eq__` compares through `__repr__`: player to move, cells and both scores; `EqSameMoves` states its properties |
| GameStates.CurrentPlayerName | Assignment/a2/Trash/game_state_1.py:44-51 | 'p1' exactly on player 1's turn, otherwise 'p2' |
| GameStates.IsValidMove | Assignment/a2/Trash/game_state_1.py:59-63 | a move is valid iff it occurs in the list of possible moves |
| GameStateOne.Moved | Assignment/a2/Trash/game_state_1.py:240-244 | entry k of the variant's `result` is true iff the opponent has some move after move k, since a state object is always truthy |
| GameStateOne.RoughVariantMeaning | Assignment/a2/Trash/game_state_1.py:228-247 | the variant is -1, 0 or 1. With moves it is -1 iff no move finishes the game and every move leaves the opponent some move. It is 1 exactly when the other copy's `rough_outcome` is 1, and is -1 whenever that one is -1 |
| GameStateOne.AllMoved | Assignment/a2/Trash/game_state_1.py:245 | `all(result)` holds iff every move leaves the opponent at least one move |
| GameStateOne.RoughOutcomeVariant | Assignment/a2/Trash/game_state_1.py:228-247 | the method computes exactly the variant of the receiver's state, whose meaning `RoughVariantMeaning` states |
| GameStateOne.MovedFlags | Assignment/a2/Trash/game_state_1.py:240-244 | the loop builds the variant's list `result`, one entry per possible move, in order |
| GameStateOne.AnyChild | Assignment/a2/Trash/game_state_1.py:242-244 | one entry: true iff the state after the move has a move |
| GameStateOne.MakeEach | Assignment/a2/Trash/game_state_1.py:243-244 | the comprehension makes one child state per possible move |
| GameStateOne.GatherAppend | Assignment/a2/Trash/game_state_1.py:269 | gathering a concatenated list gathers each part, left part first |
| GameStateOne.GatherFlat | Assignment/a2/Trash/game_state_1.py:263-269 | a flat list of strings gives back exactly those strings, in order |
| GameStateOne.GatherWrap | Assignment/a2/Trash/game_state_1.py:267-269 | a list around one value gathers what the value gathers; items that are neither strings nor lists contribute nothing |
| GameStateOne.Alphabet | Assignment/a2/Trash/game_state_1.py:276 | 26 one-letter strings, 'A' to 'Z' in order |
| GameStateOne.Slice | Assignment/a2/Trash/game_state_1.py:279-282 | Python slicing with a non-negative start: within bounds it is the plain slice; a start past the end gives the empty list; the result is never longer than the list |
| GameStateOne.LeyRows | Assignment/a2/Trash/game_state_1.py:272-283 | for a positive side there are side + 1 groups, group `j` being the letters of lengths 2, 3, ..., side + 1 and then side, cut one after the other from 'A'; for other sides a single slice |
| GameStateOne.GetLeyline | Assignment/a2/Trash/game_state_1.py:272-283 | the `start`/`length` loop returns exactly those groups |
| GameStateOne.LeylineMatchesGrid | Assignment/a2/Trash/game_state_1.py:272-283 | for sides 1 to 5, group `j` of `get_leyline` lists the letters of the cells of the grid's horizontal ley-line `j`, one for one |
| GameStateOne.RoughVariant | Assignment/a2/Trash/game_state_1.py:228-247 | the variant `rough_outcome`; `RoughVariantMeaning` states its properties |
| GameStateOne.GatherStr | Assignment/a2/Trash/game_state_1.py:263-269 | `gather_str`; `GatherFlat`, `GatherWrap` and `GatherAppend` state its properties |
| StonehengeGames.InitMeaning | stonehenge_game.py:21-36 | a side outside 1 to 5 fails as the grid does: ValueError from side 1491 on, KeyError below. Otherwise the game keeps the side text, and its state is `StonehengeState(p1_starts, int(side))`: fresh board of that size, the given first player, playable and not over |
| StonehengeGames.InitDoctest | stonehenge_game.py:21-36 | side '1' gives the state of `StonehengeState(True, 1)` |
| StonehengeGames.IsOverMatchesMoves | stonehenge_game.py:54-65 | for a state of the game's side, `is_over` is the same threshold test (2 * score >= 3 * (side + 1)) under which `get_possible_moves` is empty; a game not over offers every free cell |
| StonehengeGames.IsOverDoctest | stonehenge_game.py:54-65 | after p1 claims 'A' on a side-1 board the game is over |
| StonehengeGames.Play | stonehenge_game.py:54-65 | playing moves while the game is not over keeps the board well formed and of the same size |
| StonehengeGames.StepPlayable | stonehenge_game.py:67-84 | a move made before the game is over keeps the state playable: sound, and never both scores at the threshold |
| StonehengeGames.PlayPlayable | stonehenge_game.py:67-84 | every state reached by play from a playable state is playable |
| StonehengeGames.IsWinnerMatchesWinner | stonehenge_game.py:67-84 | in a playable state, nobody wins before the game is over; once it is over, `is_winner` holds for the player `get_winner` names; never for both players |
| StonehengeGames.PlayedGameWinner | stonehenge_game.py:67-84 | a game set up with a valid side and played with any moves has a winner exactly when it is over, and never two |
| StonehengeGames.IsWinnerDoctest | stonehenge_game.py:67-84 | in a side-1 game that p2 starts, p2 claiming 'A' makes p2 the winner |
| StonehengeGames.StrToMoveMeaning | stonehenge_game.py:86-100 | a string gives a named move iff it is all letters, and anything else gives the invalid move 1; the name has the same length, only capitals, and reading it again gives the same move |
| StonehengeGames.StrToMoveDoctest | stonehenge_game.py:86-100 | 'a' gives 'A', 'B' gives 'B', and 'c21' gives 1 |
| StonehengeGames.Init | stonehenge_game.py:21-36 | the initialiser on a digit side; `InitMeaning` states its properties |
| StonehengeGames.IsOver | stonehenge_game.py:54-65 | `is_over`: a score has reached `(side + 1) * 3 / 2`; `IsOverMatchesMoves` states its properties |
| StonehengeGames.IsWinner | stonehenge_game.py:67-84 | `is_winner`; `IsWinnerMatchesWinner` and `PlayedGameWinner` state its properties |
| StonehengeGames.StrToMove | stonehenge_game.py:86-100 | `str_to_move`; `StrToMoveMeaning` states its properties |
| GameOne.CopiesAgree | Assignment/a2/Trash/game_1.py:76-106 | this copy's `is_over`, `is_winner` and `str_to_move` answer exactly as those of stonehenge_game.py; the initialiser with `StonehengeState` imported fails or builds the same game as there |
| GameOne.InitAsWrittenFails | Assignment/a2/Trash/game_1.py:52-62 | the initialiser as written always raises NameError, even for side '1', which the corrected initialiser accepts |
| GameOne.AbstractInit | Assignment/a2/Trash/game_1.py:13-17 | the abstract initialiser raises; `AbstractRaises` states it |
| GameOne.InitAsWritten | Assignment/a2/Trash/game_1.py:52-62 | the initialiser as written; `InitAsWrittenFails` states that it always raises NameError |
| GameOne.Init | Assignment/a2/Trash/game_1.py:52-62 | the initialiser with `StonehengeState` imported; `CopiesAgree` states that it builds the game of stonehenge_game.py |
| GameOne.IsOver | Assignment/a2/Trash/game_1.py:25-29 | `is_over`, raising on the base; `AbstractRaises` and `CopiesAgree` state its properties |
| GameOne.IsWinner | Assignment/a2/Trash/game_1.py:31-37 | `is_winner`, raising on the base; `AbstractRaises` and `CopiesAgree` state its properties |
| GameOne.StrToMove | Assignment/a2/Trash/game_1.py:39-44 | `str_to_move`, raising on the base; `AbstractRaises` and `CopiesAgree` state its properties |
| A1State.Equal | miscellaneous/blabla/state.py:40-47 | true exactly for the same subclass with the same turn flag and equal moves, so states of different games are never equal |
| A1State.CurrentPlayerName | miscellaneous/blabla/state.py:60-66 | 'p1' exactly on player 1's turn, otherwise 'p2' |
| A1State.ChopsticksStart | miscellaneous/blabla/state.py:78-89 | a Chopsticks state with the given turn and one finger on each of the four hands |
| A1State.ChopsticksValidity | miscellaneous/blabla/state.py:133-150 | a move is valid iff it is one of 'll', 'lr', 'rl', 'rr' and neither the mover's attacking hand nor the opponent's target hand is empty, reading the move from the mover's side |
| A1State.ChopsticksIsValidMove | miscellaneous/blabla/state.py:133-150 | `is_valid_move` as written, with its index arithmetic on the hands; `ChopsticksValidity` states what it means |
| A1State.ChopsticksPossibleMoves | miscellaneous/blabla/state.py:120-131 | exactly the valid moves, listed without repeats in the order 'll', 'lr', 'rl', 'rr' (an order-keeping sublist of the four), so at most four |
| A1State.Keep | miscellaneous/blabla/state.py:129-130 | the comprehension keeps an order-preserving sublist of its candidates, no longer than they are |
| A1State.SublistIn | miscellaneous/blabla/state.py:129-130 | every move an order-keeping sublist lists comes from the candidates |
| A1State.SublistDistinct | miscellaneous/blabla/state.py:129-130 | an order-keeping sublist of repeat-free candidates has no repeats |
| A1State.ChopsticksStartMoves | miscellaneous/blabla/state.py:125-127 | at the start all four moves are legal, in the order 'll', 'lr', 'rl', 'rr' |
| A1State.ChopsticksMakeMove | miscellaneous/blabla/state.py:152-185 | the new state has the other player's turn; the opponent's hand named by the move gains the fingers of the mover's hand it names, and every hand is then taken mod 5 |
| A1State.ChopsticksStep | miscellaneous/blabla/state.py:152-185 | from hands of 0 to 4, only the targeted opponent hand changes, to (target + attacker) mod 5, and all hands stay within 0 to 4 |
| A1State.ChopsticksDoctest | miscellaneous/blabla/state.py:157-159 | from the start, p1's 'll' gives p2's turn with hands 1-1 and 2-1 |
| A1State.SquaresFrom | miscellaneous/blabla/state.py:247-248 | the listed squares are strictly increasing, within the limit, and include the square of every start-or-larger number within it |
| A1State.SquarePossibleMoves | miscellaneous/blabla/state.py:238-248 | the moves are strictly increasing, and a number is a move iff it is a positive square no larger than the current number |
| A1State.SquaresAreMoves | miscellaneous/blabla/state.py:247-248 | the squares listed from 1 are exactly the positive squares up to the limit |
| A1State.SquareMovesPositive | miscellaneous/blabla/state.py:247-248 | no move is 0 or negative |
| A1State.SquareMovesFromFive | miscellaneous/blabla/state.py:243-245 | from 5 the moves are 1 and 4 |
| A1State.SquareIsValidMove | miscellaneous/blabla/state.py:250-261 | `is_valid_move` as written: not None, digits as text, and in the possible moves; `SquareValidityMeaning` states what it means |
| A1State.SquareValidityMeaning | miscellaneous/blabla/state.py:250-261 | None is never valid; a number, or a digit string read with `int`, is valid iff it is a positive square no larger than the current number; a non-digit string never is |
| A1State.SquareValidDoctest | miscellaneous/blabla/state.py:254-257 | 2 is not a valid move from 5 |
| A1State.SquareMakeMove | miscellaneous/blabla/state.py:263-275 | the turn passes and the new number plus the move is the old number |
| A1State.SquareMoveDecreases | miscellaneous/blabla/state.py:263-275 | a legal move leaves a non-negative number strictly smaller than before, so a game always ends |
| A1State.EqualDoctest | miscellaneous/blabla/state.py:40-66 | a Subtract-Square state is not equal to a Chopsticks state, and a Chopsticks state on p2's turn names 'p2' |
| A1Game.Equal | game.py:37-44 | true exactly for the same game class, the same turn flag and equal current states |
| A1Game.NewChopsticks | game.py:71-82 | a Chopsticks game starts from the Chopsticks start state with the given turn |
| A1Game.NewSubtractSquare | game.py:164-169 | a Subtract-Square game starts from the chosen number with the given turn |
| A1Game.EqualDoctest | game.py:37-44 | `Chopsticks(True) != Chopsticks(False)`, and a game equals a game built the same way |
| A1Game.ChopsticksIsOver | game.py:123-143 | `is_over`: both hands of one player are empty; `ChopsticksWinnerRule` and `ChopsticksStartNotOver` state its properties |
| A1Game.ChopsticksIsWinner | game.py:123-146 | `is_winner`: once the game is over, 'p2' wins when player 1's hands are empty and 'p1' otherwise; `ChopsticksWinnerRule` states its properties |
| A1Game.SquareIsOver | game.py:186-192 | `is_over`: the number has reached 0; `SquareOverIffNoMoves` states its properties |
| A1Game.SquareIsWinner | game.py:186-201 | `is_winner`: the game is over and the named player is not the one to move; `SquareWinnerRule` states its properties |
| A1Game.ChopsticksWinnerRule | game.py:123-146 | nobody wins before the game is over; once it is over exactly one of 'p1' and 'p2' wins, and it is 'p2' iff both of p1's hands are empty |
| A1Game.ChopsticksStartNotOver | game.py:123-143 | the start is not over and p1 has not won |
| A1Game.ChopsticksStrToMove | game.py:148-157 | the move is the string itself |
| A1Game.SquareWinnerRule | game.py:186-201 | before 0 nobody wins; at 0 the player who just moved wins and the player to move loses |
| A1Game.SquareOverIffNoMoves | game.py:186-192 | for a non-negative number, the game is over exactly when no move is left |
| A1Game.SquareStrToMove | game.py:203-208 | a valid string is all digits and gives `int(move)`, which is a legal move; any other string gives 0 |
| A1Game.SquareStrToMoveSeparates | game.py:203-208 | the result is a legal move iff the string was valid, since 0 is never a legal move |
| GameOne.AbstractRaises | Assignment/a2/Trash/game_1.py:13-44 | the abstract initialiser, `is_over`, `is_winner` and `str_to_move` all raise NotImplementedError |
| LinkedListLab.Node.constructor | Labs/lab4/ex.py:17-22 | a node holds the given value and successor |
| LinkedListLab.FirstIndex | Labs/lab4/ex.py:128-131 | the index of the first occurrence of the value, or the length when it does not occur; no earlier entry equals it |
| LinkedListLab.NegativeIndexFromEnd | Labs/lab4/ex.py:233-238 | index p - size names the same position as p, for reading and writing; a write followed by a read of the same position gives back the value written; a write changes no other position |
| LinkedListLab.LinkedList.constructor | Labs/lab4/ex.py:76-80 | an empty list: no nodes, `front` and `back` None, size 0 |
| LinkedListLab.LinkedList.Len | Labs/lab4/ex.py:301-305 | the length is the number of values in the list |
| LinkedListLab.LinkedList.Append | Labs/lab4/ex.py:139-167 | the value goes last and size grows by 1; the new node is `back`; on an empty list it is also `front`, otherwise `front` stays |
| LinkedListLab.LinkedList.Prepend | Labs/lab4/ex.py:169-190 | the value goes first and size grows by 1; the new node is `front`; on an empty list it is also `back`, otherwise `back` stays |
| LinkedListLab.LinkedList.DeleteFront | Labs/lab4/ex.py:192-219 | on a non-empty list the first value goes and size drops by 1; `back` is None once the list is empty |
| LinkedListLab.LinkedList.DeleteFrontAsWritten | Labs/lab4/ex.py:212-219 | as written: `front` moves to its successor and size drops by 1, but `back` is cleared whenever the first and last values are equal |
| LinkedListLab.LinkedList.FindFirst | Labs/lab4/ex.py:129-131 | the walk stops at the node of the first occurrence of the value, or at None when there is none |
| LinkedListLab.LinkedList.RemoveAfter | Labs/lab4/ex.py:133-136 | unlinking the successor of node k removes value k + 1, keeps the list consistent, moves `back` when needed, and drops size by 1 |
| LinkedListLab.LinkedList.InsertAfter | Labs/lab4/ex.py:282-283 | linking a new node after node k puts the value at position k + 1 and grows size by 1 |
| LinkedListLab.LinkedList.DeleteAfter | Labs/lab4/ex.py:123-136 | as written: no change when size <= 1 or the value is absent; AttributeError, with no change, when its first occurrence is last; otherwise the value after the first occurrence is removed |
| LinkedListLab.LinkedList.DeleteAfterChecked | Labs/lab4/ex.py:123-127 | as documented: the value after the first occurrence is removed when there is one; otherwise the list is unchanged |
| LinkedListLab.LinkedList.NodeAt | Labs/lab4/ex.py:235-237 | walking `steps` nodes from `front` reaches node `steps`, or None just past the end |
| LinkedListLab.LinkedList.SetItem | Labs/lab4/ex.py:221-238 | IndexError, with nothing changed, unless -size <= index < size; otherwise the values become those of Python's `lst[index] = value`; nodes, links, `front`, `back` and size stay |
| LinkedListLab.LinkedList.GetItem | Labs/lab4/ex.py:307-331 | as written: index == size raises AttributeError; every other index behaves as Python list indexing (IndexError out of range, negative from the end) |
| LinkedListLab.LinkedList.GetItemChecked | Labs/lab4/ex.py:307-331 | with the range test `index >= size`: exactly Python list indexing |
| LinkedListLab.LinkedList.InsertBefore | Labs/lab4/ex.py:260-283 | an empty list raises; otherwise value1 goes just before the first occurrence of value2, or nothing changes when value2 is absent |
| LinkedListLab.LinkedList.Contains | Labs/lab4/ex.py:333-355 | true iff some node holds the value |
| LinkedListLab.LinkedList.Equal | Labs/lab4/ex.py:45-60 | true iff the other object is a linked list with the same values in the same order; nodes compare by value |
| LinkedListLab.DeleteFrontCounterexample | Labs/lab4/ex.py:212-219 | on 5, 3, 5 the as-written `delete_front` leaves two nodes but no `back` |
| LinkedListLab.GetItemCounterexample | Labs/lab4/ex.py:320-331 | on the one-element list, index 1 raises AttributeError as written and IndexError with the corrected test |
| LinkedListLab.DeleteAfterCounterexample | Labs/lab4/ex.py:128-136 | on 1, 2, `delete_after(2)` raises AttributeError and leaves both values |
| LinkedListSketch.Node.constructor | miscellaneous/blabla/game.py:14-19 | a node holds the given value and successor |
| LinkedListSketch.Node.Str | miscellaneous/blabla/game.py:21-34 | the loop renders the chain from this node: each value followed by " ->", separated by spaces, closed by "\|" |
| LinkedListSketch.RenderShape | miscellaneous/blabla/game.py:21-34 | a rendering starts with the first value and ends with "->\|" |
| LinkedListSketch.RenderDoctest | miscellaneous/blabla/game.py:25-27 | 5, 7 renders as "5 -> 7 ->\|" and 1, 2, 3 as "1 -> 2 -> 3 ->\|" |
| LinkedListSketch.RenderSetDoctest | miscellaneous/blabla/game.py:65-70 | 1, 2, 5 and 1, 2, 6 render as the doctest prints them |
| LinkedListSketch.LinkedList.constructor | miscellaneous/blabla/game.py:47-51 | an empty list with no front and size 0 |
| LinkedListSketch.LinkedList.SetItem | miscellaneous/blabla/game.py:53-81 | IndexError, with nothing changed, unless -size <= index < size; otherwise the values become those of Python's `lst[index] = value`; the nodes, their links, `front` and size stay |
| LinkedListSketch.SetItemDoctest | miscellaneous/blabla/game.py:58-70 | on 1, 2, 3: `lnk[2] = 5` prints "1 -> 2 -> 5 ->\|", then `lnk[-1] = 6` prints "1 -> 2 -> 6 ->\|" |
| HashBuckets.Slot | hash_table/hash_table_API.py:74 | the bucket of a key is `hash(key) % capacity`, always a valid bucket index for a positive capacity |
| HashBuckets.Replaced | hash_table/hash_table_API.py:84-86 | overwriting the pairs of a key keeps the bucket's length |
| HashBuckets.EmptyTable | hash_table/hash_table_API.py:32 | `capacity` buckets, all empty |
| HashBuckets.Overwrite | hash_table/hash_table_API.py:84-86 | the replace loop turns every pair of the key into the new pair and keeps the rest in place |
| HashBuckets.ReplacedHolds | hash_table/Dannhy_Heap_Version/hash_table_implementation.py:73-77 | after the replace loop the new pair is in the bucket exactly when the key was there before |
| HashBuckets.NonEmptyEmpty | hash_table/hash_table_API.py:32 | a new table has no non-empty bucket |
| HashBuckets.NonEmptyUpdate | hash_table/hash_table_API.py:78-81 | replacing one bucket changes the number of non-empty buckets only by that bucket |
| HashBuckets.InvEmpty | hash_table/hash_table_API.py:23-32 | empty buckets represent the empty mapping with no items |
| HashBuckets.InvHasKey | hash_table/hash_table_API.py:34-42 | a key is stored exactly when its own bucket holds it |
| HashBuckets.InvAppend | hash_table/hash_table_API.py:77-79 | appending the pair of a new key to its bucket keeps the invariant, with one more item |
| HashBuckets.InvReplace | hash_table/hash_table_API.py:83-86 | overwriting the pair of a stored key keeps the invariant and the number of items |
| HashBuckets.RebuiltKeys | hash_table/hash_table_API.py:59-61 | after re-inserting up to a position of the old table, the keys present are exactly those walked over |
| HashBuckets.RebuiltAgrees | hash_table/hash_table_API.py:59-61 | each re-inserted key has its old value, and the pair at the current position has not been re-inserted yet |
| HashBuckets.RebuiltAll | hash_table/hash_table_API.py:59-61 | once every old bucket is walked, the re-inserted mapping is exactly the old one |
| HashTableApi.HashTable.constructor | hash_table/hash_table_API.py:23-32 | a table of `capacity` empty buckets, no items, no collisions, representing the empty mapping |
| HashTableApi.HashTable.Contains | hash_table/hash_table_API.py:34-42 | `__contains__` looks only in the key's bucket, and is true iff the key is stored |
| HashTableApi.HashTable.Place | hash_table/hash_table_API.py:73-86 | a new key is appended to its bucket with one more item, and one more collision iff the bucket was non-empty; a stored key has its pair overwritten in place, with items and collisions unchanged; the mapping gains or updates that key |
| HashTableApi.HashTable.Insert | hash_table/hash_table_API.py:65-88 | the mapping gains or updates the key, and the capacity doubles iff the new density exceeds 0.7, so 10 * items <= 7 * capacity holds afterwards; an existing key keeps items and collisions, a new one adds an item |
| HashTableApi.HashTable.Double | hash_table/hash_table_API.py:44-61 | twice the capacity, the same mapping and item count; collisions are not reset and never decrease |
| HashTableApi.HashTable.ReinsertBucket | hash_table/hash_table_API.py:60-61 | re-inserting old bucket `b` extends the rebuilt mapping by that bucket's pairs and keeps the invariant |
| HashTableApi.HashTable.Retrieve | hash_table/hash_table_API.py:90-106 | the stored value of the key, or KeyError when it is absent |
| HashTableApi.RangeMap | hash_table/hash_table_API.py:125-126 | the pairs (i, i) for i in `range(n)`: exactly the keys 0..n-1, each mapped to itself |
| HashTableApi.CreateDict | hash_table/hash_table_API.py:122-129 | `create_dict(n)` builds a fresh table that maps exactly the keys of `range(n)` to themselves, holds that many items and keeps its density at most 0.7 |
| HashTableApi.InsertNext | hash_table/hash_table_API.py:125-126 | one turn of the loop adds the new key i, extending the map to `range(i + 1)` and the item count by one |
| HashTableApi.CreateDictTwo | hash_table/hash_table_API.py:122-129 | `create_dict(2)` has doubled to capacity 4 and retrieves 0 and 1 but not 2, whatever the hash |
| HashTableDannhy.HashTable.constructor | hash_table/Dannhy_Heap_Version/hash_table_implementation.py:21-27 | a table of `capacity` empty buckets, no items, no collisions, representing the empty mapping |
| HashTableDannhy.HashTable.Store | hash_table/Dannhy_Heap_Version/hash_table_implementation.py:70-82 | an existing key has its pairs replaced, with items and collisions unchanged; a new key is appended with one more item, and one more collision iff the bucket was non-empty; at most one pair per key |
| HashTableDannhy.HashTable.SetItem | hash_table/Dannhy_Heap_Version/hash_table_implementation.py:58-85 | the mapping gains or updates the key, and the capacity doubles iff the new density exceeds 0.7 |
| HashTableDannhy.HashTable.Double | hash_table/Dannhy_Heap_Version/hash_table_implementation.py:38-56 | items and collisions are reset and rebuilt, the capacity doubles, and the mapping and item count stay the same |
| HashTableDannhy.HashTable.ReinsertBucket | hash_table/Dannhy_Heap_Version/hash_table_implementation.py:52-54 | re-inserting old bucket `b` extends the rebuilt mapping by that bucket's pairs and keeps the invariant |
| HashTableDannhy.SetItemDoctest | hash_table/Dannhy_Heap_Version/hash_table_implementation.py:62-68 | `HashTable(2)` has capacity 2, and after two insertions capacity 4, whatever the hash |
| Trees.NodeCountBound | Labs/lab8/whatever.py:12-15 | a binary tree of height h (0 for the empty tree, one more than the taller child otherwise) has at most 2^h - 1 nodes |
| Trees.Height | Labs/lab8/whatever.py:12-15 | `height`; `NodeCountBound` and `TallestBound` state its properties |
| Trees.IsPerfect | Labs/lab8/whatever.py:17-21 | `is_PT`; `PerfectIffFull` states what it means |
| Trees.Tallest | Labs/lab8/whatever.py:23-26 | `tallest`; `TallestBound` states its properties |
| Trees.TPBT | Labs/lab8/whatever.py:23-28 | `TPBT`; `TPBTSecond` states its properties |
| Trees.PerfectIffFull | Labs/lab8/whatever.py:17-21 | `is_PT` (empty or leaf, or both subtrees perfect of equal height) holds exactly when the tree has 2^h - 1 nodes, the independent definition of a perfect tree |
| Trees.TallestBound | Labs/lab8/whatever.py:23-26 | `tallest` never exceeds the height, and equals it exactly when the tree is perfect |
| Trees.TPBTSecond | Labs/lab8/whatever.py:23-28 | the second component of `TPBT` is true exactly when the whole tree is perfect; the first is at most the height |
| Trees.NodesBeyondDepth | Labs/lab8/whatever.py:88-98 | no node of an n-ary tree lies at or below its number of levels |
| Trees.CountByLevel | Labs/lab8/whatever.py:88-98 | `count_by_level` returns one entry per level, entry i being the number of nodes at depth i |
| Trees.LevelSumIsSize | Labs/lab8/whatever.py:88-98 | summing the per-level node counts over all levels counts every node once |
| Trees.LevelCountsTotal | Labs/lab8/whatever.py:88-98 | the list `count_by_level` returns starts with the root's 1 and sums to the number of nodes |
| Trees.PruneSound | Labs/lab8/whatever.py:113-118 | `prune` gives None exactly when the root fails the predicate; otherwise every remaining node satisfies it and pruning the result again changes nothing |
| Trees.PruneForestSound | Labs/lab8/whatever.py:116-117 | pruning a list of children keeps only subtrees whose every node satisfies the predicate, and pruning that list again changes nothing |
| Trees.PruneTwiceHarmless | Labs/lab8/whatever.py:116-117 | the comprehension's second call of `prune` on each surviving child gives the same tree as pruning once |
| Trees.Prune | Labs/lab8/whatever.py:113-118 | `prune` on values; `PruneSound` states its properties |
| Trees.PruneAsWritten | Labs/lab8/whatever.py:116-117 | `prune` with its second call per child; `PruneTwiceHarmless` states it gives what `Prune` gives |
| Trees.Bar | Labs/lab8/whatever.py:125-129 | `bar` leaves its argument list's contents unchanged, since it only swaps local names |
| Trees.BarScript | Labs/lab8/whatever.py:154-156 | `q = [0]; bar(q)` leaves `q` as `[0]` |
| Trees.EntriesAtZero | Labs/lab8/whatever.py:53-55 | a list's entries at depth 0 are its own elements |
| Trees.NoListNoEntries | Labs/lab8/whatever.py:58-60 | a level with no list on it has no entries below it |
| Trees.AddCounts | Labs/lab8/whatever.py:61-64 | merging a sub-dictionary keeps every key of either side and adds the counts of shared keys |
| Trees.WidthHelper | Labs/lab8/whatever.py:54-65 | `width.helper(lst, d)` has exactly the keys d - j for the levels j the recursion reaches, each mapped to the number of entries at depth j |
| Trees.MaxValue | Labs/lab8/whatever.py:68 | the maximum of a non-empty dictionary's values is one of them and bounds all of them |
| Trees.Width | Labs/lab8/whatever.py:53-68 | `width` is the largest entry count over the levels the helper reaches; it is at least `len(lst)`, and exactly `len(lst)` when d is 0 |
| Trees.DepthLenBound | Labs/lab8/whatever.py:72-84 | `count_by_depth` with a non-negative countdown d returns at most d + 1 counts |
| Trees.ForestEntriesBeyond | Labs/lab8/whatever.py:72-84 | levels past the counts `count_by_depth` returns hold no entries |
| Trees.AddShifted | Labs/lab8/whatever.py:79-83 | the inner loop adds `temp[i]` into entry i + 1, extending the list where needed and keeping entry 0 |
| Trees.CountByDepth | Labs/lab8/whatever.py:72-84 | entry k of `count_by_depth` is 1 for the list itself at k = 0 and the number of entries at depth k - 1 beyond it |
| Trees.SeqMax | Labs/lab8/whatever.py:85 | the maximum of a non-empty list is an element and bounds every element |
| Trees.WidthNew | Labs/lab8/whatever.py:71-85 | `width_new` is the largest level count; it is 1 when d is 0 and at least `len(lst)` otherwise |
| Grade.LetterPoints | Labs/lab2/grade.py:49-61 | a letter grade's points come from the fixed table (in tenths, 0 to 40); a letter outside the table raises KeyError, and only then |
| Grade.LetterTableFacts | Labs/lab2/grade.py:49-50 | 'A+' and 'A' are both 4.0, 'B+' is 3.3, 'F' is 0.0, and 'E' is not in the table |
| Grade.FirstBand | Labs/lab2/grade.py:85-87 | the loop over the numeric table returns the points of a band whose range holds the grade, and nothing exactly when no band holds it |
| Grade.NumericPoints | Labs/lab2/grade.py:80-87 | a numeric grade below 50 gives 0.0, one above 100 gives None, and one in 50..100 gives between 0.7 and 4.0 |
| Grade.BandsTile | Labs/lab2/grade.py:71-72 | the numeric bands run from 100 down to 50, each non-empty and starting right after the next one ends |
| Grade.UniqueBand | Labs/lab2/grade.py:71-72 | each grade in 50..100 lies in exactly one band |
| Grade.BandPoints | Labs/lab2/grade.py:83-87 | a grade in 50..100 gets the points of the one band holding it |
| Grade.NumericPointsMonotone | Labs/lab2/grade.py:71-87 | points never decrease as the numeric grade rises, up to 100 |
| Grade.GeneratePoints | Labs/lab2/grade.py:58-87 | `generate_points` dispatched on the subclass: a numeric grade never raises and yields None exactly above 100; a letter entry raises exactly for a letter outside the table |
| Grade.Equal | Labs/lab2/grade.py:25-29 | two entries are equal exactly when they are of the same subclass with the same course, weight and grade |
| RaceRegistry.Matching | Labs/lab1/lab1.py:72-76 | the emails kept are exactly the keys the map sends to the category, no more of them than keys |
| RaceRegistry.MatchingKeepsOrder | Labs/lab1/lab1.py:73-75 | over a repeat-free key order the matching emails have no repeats and keep the keys' order |
| RaceRegistry.Registry.constructor | Labs/lab1/lab1.py:11-19 | a new registry maps exactly its one email to its category, and its email string is that email |
| RaceRegistry.Registry.Register | Labs/lab1/lab1.py:41-51 | `register` adds the runner or overwrites its category, keeps an existing runner's place in key order, and always appends ", email" to the email string |
| RaceRegistry.Registry.EmailToCategory | Labs/lab1/lab1.py:53-61 | the registered category when the email is registered, and KeyError exactly otherwise |
| RaceRegistry.Registry.CategoryToEmail | Labs/lab1/lab1.py:63-76 | exactly the emails registered in the category, without repeats, in first-registration order |
| RaceRegistry.Registry.Equal | Labs/lab1/lab1.py:21-30 | registries are equal exactly when every email looks up to the same category, or the same KeyError, in both |
| RaceRegistry.EqualDoctest | Labs/lab1/lab1.py:24-27 | the doctests: two registries of jack are equal, anna's and jack's are not |
| RaceRegistry.RepeatRegistration | Labs/lab1/lab1.py:21-51 | registering the same runner twice gives a registry equal to one registered once, although its email string differs |
| RaceRegistry.CategoryDoctest | Labs/lab1/lab1.py:66-69 | the doctest: ann then jack, both 'under 20 min', are listed in that order |

## Left out

- Rendering is not modelled: every `__str__`, `__repr__`, `get_template` and `get_instructions` builds display text only. The exceptions are the node rendering of `miscellaneous/blabla/game.py`, modelled as `LinkedListSketch.Node.Str`, and the repr content that `StonehengeState.__eq__` compares, modelled as equality of the player to move, the cells and both scores.
- Console input is not modelled. The `input()` loops in `StonehengeGame.__init__` and `StateSubstractSquare.__init__` only re-ask until the text is a digit string, so the model takes that string (or number) as a parameter that satisfies the loop's exit test.
- The minimax strategies and the match driver that call these games are not part of this model. Their `strategy` module is not among the repository's files.
- Scripts under `if __name__ == '__main__'` are not modelled, except the `bar` script in `Labs/lab8/whatever.py`. This leaves out the GPA printout of `Labs/lab2/grade.py` and the registration printout of `Labs/lab1/lab1.py`.
- StonehengeGrid.NewGrid, StonehengeStates.NewState and StonehengeGames.InitMeaning: the cell count `(3 + size) * size / 2 + size` is a float in the source. For sizes so large (beyond about 10^154 in absolute value) that the true division overflows a float, OverflowError is raised before `chr`; the model reports ValueError there, because float arithmetic is not modelled.
- Float arithmetic is not modelled: grade weights are exact reals, grade points are tenths, and `NumericGradeEntry`'s `round(grade)` is taken as already done (grades are integers).
- The text functions of `PyText` cover ASCII only: Python's `isdigit`, `isalpha` and `upper` also accept and map non-ASCII characters.
- In `Assignment/a2/Trash/game_state_1.py`, `StonehengeState` has no `__eq__` (so identity is compared) and its `__repr__` omits the scores. Neither is modelled, because neither affects play.
- In the same file, `get_possible_moves`, `make_move`, `finished` and `get_winner` are line for line those of `stonehenge_state.py`. The model reuses `StonehengeStates` for them instead of repeating them.
- `side` is annotated `int` in `Assignment/a2/Trash/game_1.py`. An integer argument would fail at `isdigit` with AttributeError, so the model takes the side as a digit string, as in `stonehenge_game.py`.
- `Labs/lab4/ex.py`'s `__add__` (240-258) and `copy` (285-299) are left out:
  - they return a node and share or mutate the nodes of their arguments, against what their documentation says;
  - the model's per-list footprint of distinct nodes cannot describe two lists sharing nodes.
- `Labs/lab4/ex.py`'s node and list `__str__` (24-43, 82-99) are left out as rendering. The same walk is modelled for the other list as `LinkedListSketch.Node.Str`.
- The Dannhy hash table's `__contains__` and `__getitem__` have empty bodies (they return None), so there is nothing to model.
- The `stats` method, timing and plotting of the hash-table files are left out: they are diagnostics only.
- `dict_search` of `hash_table/hash_table_API.py` is not modelled: it looks up a random key, and randomness is outside the model.
- The hash-table constructors require capacity at least 1: with capacity 0 the source's `hash(key) % capacity` divides by zero on the first use. A negative capacity builds an empty list of buckets (`range(capacity)` is empty), and the first use then raises IndexError, since any index into that empty list fails.
- HashTableApi.HashTable.Insert: the collision counter is only bounded below. `double` re-inserts without resetting it, so its value depends on the whole history of doublings.
- HashTableApi.HashTable.Double: the collision counter is only bounded below, for the same reason.
- Trees.PruneSound: `prune` is modelled on tree values. The source returns the same root object with its `children` reassigned; that identity and the in-place update are not captured.
- `unique_paths` and `extend_third_level` of `Labs/lab8/whatever.py` are left out: they depend on the identity and hashing of node objects. `Tree`'s shared mutable default `children=[]` is also left out; the model's trees always carry their own child sequence.
- `foo` of `Labs/lab8/whatever.py` is not modelled: it only appends 1 and then None to its argument.

## Findings

| source | as written | input that shows it | evidently intended | confidence | as-written member | corrected member |
|---|---|---|---|---|---|---|
| Labs/lab4/ex.py:214-215 | `self.front == self.back` uses the node `__eq__`, which compares values, so `back` is cleared whenever the first and last values are equal | the list 5, 3, 5, then `delete_front()`: two nodes remain but `back` is None | clear `back` only when the front node is the back node (the list becomes empty) | not executed | LinkedListLab.LinkedList.DeleteFrontAsWritten, LinkedListLab.DeleteFrontCounterexample | LinkedListLab.LinkedList.DeleteFront |
| Labs/lab4/ex.py:320-321 | the range test is `index > self.size`, so `index == size` passes and the walk ends on None, raising AttributeError | the list 1 and `lnk[1]` | `index >= self.size`, raising IndexError as a Python list does | not executed | LinkedListLab.LinkedList.GetItem, LinkedListLab.GetItemCounterexample | LinkedListLab.LinkedList.GetItemChecked |
| Labs/lab4/ex.py:132-133 | when the first occurrence of the value is in the last node, `temp.next_.next_` dereferences None, raising AttributeError | the list 1, 2 and `delete_after(2)` | leave the list unchanged, as the documentation says when there is no following node | not executed | LinkedListLab.LinkedList.DeleteAfter, LinkedListLab.DeleteAfterCounterexample | LinkedListLab.LinkedList.DeleteAfterChecked |
| Assignment/a2/Trash/game_1.py:5-62 | the module imports only `GameState`, so `StonehengeState(...)` in `StonehengeGame.__init__` raises NameError | `StonehengeGame(True, '1')` | import `StonehengeState` and build the side-1 state, as `stonehenge_game.py` does | not executed | GameOne.InitAsWrittenFails | GameOne.CopiesAgree |
