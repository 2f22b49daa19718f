/** The two A1 games built on those states (game.py). */
module A1Game {
  import opened A1State
  import opened PyText

  /** `Game` and its subclasses. `isP1Turn` is the flag given at construction. */
  datatype Game =
    | ChopsticksGame(isP1Turn: bool, current: State)
    | SubtractSquareGame(isP1Turn: bool, current: State)

  /** `Game.__eq__`: same subclass, same turn flag and equal current states. */
  function Equal(a: Game, b: Game): (r: bool)
    ensures r <==> a == b
  {
    a.ChopsticksGame? == b.ChopsticksGame? && a.isP1Turn == b.isP1Turn
      && A1State.Equal(a.current, b.current)
  }

  /** `Chopsticks(is_p1_turn)`: a game at the Chopsticks start. */
  function NewChopsticks(isP1Turn: bool): (g: Game)
    ensures g.ChopsticksGame? && g.current == ChopsticksStart(isP1Turn)
  {
    ChopsticksGame(isP1Turn, ChopsticksStart(isP1Turn))
  }

  /** `SubstractSquare(is_p1_turn)`, with the number the user would type given
      as `start` (the input loop accepts only non-negative whole numbers). */
  function NewSubtractSquare(isP1Turn: bool, start: nat): (g: Game)
    ensures g.SubtractSquareGame? && g.current == SubtractSquare(isP1Turn, start)
  {
    SubtractSquareGame(isP1Turn, SubtractSquare(isP1Turn, start))
  }

  /** The doctest of `__eq__`: the turn flag tells two Chopsticks games apart. */
  lemma EqualDoctest()
    ensures !Equal(NewChopsticks(true), NewChopsticks(false))
    ensures Equal(NewChopsticks(true), NewChopsticks(true))
  {
  }

  // ---------------------------------------------------------------- Chopsticks

  /** `Chopsticks.is_over`: some player's two hands sum to 0. */
  predicate ChopsticksIsOver(s: State)
    requires s.Chopsticks?
  {
    var h := s.hands;
    h.p1Left + h.p1Right == 0 || h.p2Left + h.p2Right == 0
  }

  /** `Chopsticks.is_winner`. */
  predicate ChopsticksIsWinner(g: Game, player: string)
    requires g.ChopsticksGame? && g.current.Chopsticks?
  {
    var h := g.current.hands;
    if h.p1Left + h.p1Right == 0 then ChopsticksIsOver(g.current) && player == "p2"
    else ChopsticksIsOver(g.current) && player == "p1"
  }

  /** Nobody wins a game that is not over; once it is over exactly one of
      'p1', 'p2' wins, and 'p2' is the one iff p1's hands are empty. */
  lemma ChopsticksWinnerRule(g: Game)
    requires g.ChopsticksGame? && g.current.Chopsticks?
    requires HandsInRange(g.current.hands)
    ensures !ChopsticksIsOver(g.current) ==> !ChopsticksIsWinner(g, "p1") && !ChopsticksIsWinner(g, "p2")
    ensures ChopsticksIsOver(g.current) ==>
      (ChopsticksIsWinner(g, "p1") != ChopsticksIsWinner(g, "p2"))
      && (ChopsticksIsWinner(g, "p2") <==> g.current.hands.p1Left == 0 && g.current.hands.p1Right == 0)
  {
  }

  /** The game is not over at the start, so nobody has won. */
  lemma ChopsticksStartNotOver(isP1Turn: bool)
    ensures !ChopsticksIsOver(NewChopsticks(isP1Turn).current)
    ensures !ChopsticksIsWinner(NewChopsticks(isP1Turn), "p1")
  {
  }

  /** `Chopsticks.str_to_move`: the string itself is the move. */
  function ChopsticksStrToMove(move: string): (m: string)
    ensures m == move
  {
    move
  }

  // ----------------------------------------------------------- Subtract-Square

  /** `SubstractSquare.is_over`: the number is 0. */
  predicate SquareIsOver(s: State)
    requires s.SubtractSquare?
  {
    s.number == 0
  }

  /** `SubstractSquare.is_winner`: the game is over and `player` is not the
      one to move, so the player facing 0 loses. */
  predicate SquareIsWinner(g: Game, player: string)
    requires g.SubtractSquareGame? && g.current.SubtractSquare?
  {
    SquareIsOver(g.current) && player != CurrentPlayerName(g.current)
  }

  /** At 0 the player who just moved wins and the player to move loses; before
      that nobody wins. */
  lemma SquareWinnerRule(g: Game)
    requires g.SubtractSquareGame? && g.current.SubtractSquare?
    ensures g.current.number != 0 ==> !SquareIsWinner(g, "p1") && !SquareIsWinner(g, "p2")
    ensures g.current.number == 0 ==>
      (SquareIsWinner(g, "p1") <==> !g.current.isP1Turn)
      && (SquareIsWinner(g, "p2") <==> g.current.isP1Turn)
  {
  }

  /** At 0 there are no moves left, so the game ends exactly when the mover
      has nothing to play. */
  lemma SquareOverIffNoMoves(s: State)
    requires s.SubtractSquare? && s.number >= 0
    ensures SquareIsOver(s) <==> SquarePossibleMoves(s) == []
  {
    if s.number > 0 {
      assert 1 * 1 == 1;
      assert 1 in SquarePossibleMoves(s);
    }
  }

  /** `SubstractSquare.str_to_move`: the move's number when it is valid,
      else 0. */
  function SquareStrToMove(g: Game, move: string): (m: int)
    requires g.SubtractSquareGame? && g.current.SubtractSquare?
    ensures SquareIsValidMove(g.current, Text(move)) ==>
      IsDigits(move) && m == DecimalValue(move) && m in SquarePossibleMoves(g.current)
    ensures !SquareIsValidMove(g.current, Text(move)) ==> m == 0
  {
    if SquareIsValidMove(g.current, Text(move)) then DecimalValue(move) else 0
  }

  /** The 0 that `str_to_move` returns for a bad string is never legal, so an
      invalid entry is never mistaken for a move. */
  lemma SquareStrToMoveSeparates(g: Game, move: string)
    requires g.SubtractSquareGame? && g.current.SubtractSquare?
    ensures SquareStrToMove(g, move) in SquarePossibleMoves(g.current)
            <==> SquareIsValidMove(g.current, Text(move))
  {
    if 0 in SquarePossibleMoves(g.current) {
      SquareMovesPositive(g.current, 0);
    }
  }
}
