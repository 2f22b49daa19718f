/** The `GameState` superclass of Assignment/a2/Trash/game_state_1.py: the
    outcome scores the heuristics return, whose turn it is, and move
    validity as membership in the list of possible moves. */
module GameStates {
  /** The outcome scores: a win, a loss and a tie for the player to move. */
  const WIN: int := 1
  const LOSE: int := -1
  const DRAW: int := 0

  /** `get_current_player_name`: 'p1' on player 1's turn, 'p2' otherwise. */
  function CurrentPlayerName(p1Turn: bool): (name: string)
    ensures name == "p1" <==> p1Turn
    ensures name == "p1" || name == "p2"
  {
    if p1Turn then "p1" else "p2"
  }

  /** `is_valid_move`: the move is one of the possible moves. */
  function IsValidMove<M(==)>(moves: seq<M>, move: M): (b: bool)
    ensures b <==> exists i :: 0 <= i < |moves| && moves[i] == move
  {
    move in moves
  }
}
