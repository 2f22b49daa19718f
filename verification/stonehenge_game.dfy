/** The Stonehenge game of stonehenge_game.py: the side it was set up with,
    its current state, and the game-level questions the driver asks of it
    (`is_over`, `is_winner`, `str_to_move`). The current state is taken by
    its content, a `StonehengeStates.Snap`. */
module StonehengeGames {
  import opened Wrappers
  import opened PyText
  import opened GridLayout
  import opened GameStates
  import opened StonehengeStates

  /** A game: the side text it was given and the state play has reached. */
  datatype Game = Game(side: string, current: Snap)

  /** What `str_to_move` returns: a move name, or the invalid move 1. */
  datatype Move = Named(name: string) | Invalid(code: int)

  /** `StonehengeGame(p1_starts, side)` with a digit string `side`: the side
      is kept as text and the state is `StonehengeState(p1_starts, int(side))`,
      whose grid tables exist only for sides 1 to 5 (a side past 1490 has
      too many cells to letter). */
  function Init(p1Starts: bool, side: string): (r: Result<Game>)
    requires IsDigits(side)
  {
    var n := DecimalValue(side);
    if !GoodSize(n) then Err(SizeError(n)) else Ok(Game(side, Initial(p1Starts, n)))
  }

  /** `is_over(state)`: either score has reached `(side + 1) * 3 / 2`, the
      side being the game's. */
  predicate IsOver(g: Game, state: Snap)
    requires IsDigits(g.side)
  {
    var n := DecimalValue(g.side);
    Reached(state.p1, n) || Reached(state.p2, n)
  }

  /** `is_winner(player)`: only an ended game has a winner; then 'p1' wins on
      a strictly larger score, and any other name on a strictly larger
      player-2 score. */
  predicate IsWinner(g: Game, player: string)
    requires IsDigits(g.side)
  {
    if IsOver(g, g.current) then
      (if player == "p1" then g.current.p1 > g.current.p2 else g.current.p2 > g.current.p1)
    else false
  }

  /** `str_to_move`: an all-letter string, upper-cased; anything else, 1. */
  function StrToMove(t: string): Move {
    if IsAlpha(t) then Named(Upper(t)) else Invalid(1)
  }

  // ------------------------------------------------------------------- init

  /** A digit side outside 1..5 fails as the grid does: ValueError from 1491
      on, where the cells cannot all be lettered, KeyError below; otherwise the
      game keeps the side and starts from a fresh state of that side with
      the given first player, which is sound and not over. */
  lemma InitMeaning(p1Starts: bool, side: string)
    requires IsDigits(side)
    ensures Init(p1Starts, side).Err? <==> !GoodSize(DecimalValue(side))
    ensures Init(p1Starts, side).Err? ==>
      Init(p1Starts, side).error == if DecimalValue(side) >= 1491 then ValueError else KeyError
    ensures Init(p1Starts, side).Ok? ==>
      var g := Init(p1Starts, side).value;
      && g.side == side && g.current.board.size == DecimalValue(side)
      && g.current.p1Turn == p1Starts && g.current.board == FreshBoard(DecimalValue(side))
      && Playable(g.current) && !IsOver(g, g.current)
  {
    if GoodSize(DecimalValue(side)) {
      InitialSound(p1Starts, DecimalValue(side));
    } else {
      SizeErrorBounds(DecimalValue(side));
    }
  }

  /** The doctest: side '1' gives the state of `StonehengeState(True, 1)`. */
  lemma InitDoctest()
    ensures IsDigits("1") && Init(true, "1") == Ok(Game("1", Initial(true, 1)))
  {
    SideOne();
  }

  lemma SideOne()
    ensures IsDigits("1") && DecimalValue("1") == 1
  {
  }

  // ---------------------------------------------------------------- is_over

  /** For a state of the game's own side, `is_over` is the same threshold test
      with which the state's `get_possible_moves` returns no move, and a game
      that is not over offers every free cell. */
  lemma IsOverMatchesMoves(g: Game, s: Snap)
    requires IsDigits(g.side) && WellFormed(s.board) && s.board.size == DecimalValue(g.side)
    ensures IsOver(g, s) <==> Over(s)
    ensures IsOver(g, s) ==> Moves(s) == []
    ensures !IsOver(g, s) ==> Moves(s) == Free(s.board.cells)
  {
  }

  /** The doctest: after p1 claims 'A' on a side-1 grid, the game is over. */
  lemma IsOverDoctest()
    ensures IsDigits("1") && IsOver(Game("1", Initial(true, 1)), Next(Initial(true, 1), "A"))
  {
    var s := Initial(true, 1);
    var t := Next(s, "A");
    UpdateDoctest(s.board, "p1", t.board);
    assert t.p1 == 3;
    SideOne();
  }

  // -------------------------------------------------------------- is_winner

  /** A state that play can reach: sound, and never both scores at the
      threshold. */
  ghost predicate Playable(s: Snap) {
    Sound(s) && !(Reached(s.p1, s.board.size) && Reached(s.p2, s.board.size))
  }

  /** The state after `ms`, each move made while the game is not over. */
  function Play(s: Snap, ms: seq<string>): (t: Snap)
    requires WellFormed(s.board)
    ensures WellFormed(t.board) && t.board.size == s.board.size
    decreases |ms|
  {
    if ms == [] || Over(s) then s else Play(Next(s, ms[0]), ms[1..])
  }

  /** A move made before the game is over keeps the state playable: only the
      mover's score changes, and the opponent had not reached the threshold. */
  lemma StepPlayable(s: Snap, move: string)
    requires Playable(s) && !Over(s)
    ensures Playable(Next(s, move))
  {
    NextSound(s, move);
    NextScores(s, move);
  }

  /** Every state of a game played from a playable state is playable. */
  lemma {:induction false} PlayPlayable(s: Snap, ms: seq<string>)
    requires Playable(s)
    ensures Playable(Play(s, ms))
    decreases |ms|
  {
    if ms != [] && !Over(s) {
      StepPlayable(s, ms[0]);
      PlayPlayable(Next(s, ms[0]), ms[1..]);
    }
  }

  /** In a playable state of the game's side, `is_winner` names exactly the
      player `get_winner` names once the game is over, and nobody before. */
  lemma IsWinnerMatchesWinner(g: Game)
    requires IsDigits(g.side) && Playable(g.current) && g.current.board.size == DecimalValue(g.side)
    ensures !IsOver(g, g.current) ==> !IsWinner(g, "p1") && !IsWinner(g, "p2")
    ensures IsOver(g, g.current) ==> IsWinner(g, Winner(g.current))
    ensures !(IsWinner(g, "p1") && IsWinner(g, "p2"))
  {
  }

  /** A game set up with a valid side and played for any moves has a winner
      exactly when it is over, and never two. */
  lemma {:induction false} PlayedGameWinner(p1Starts: bool, side: string, ms: seq<string>)
    requires IsDigits(side) && GoodSize(DecimalValue(side))
    ensures var g0 := Init(p1Starts, side).value;
      var g := g0.(current := Play(g0.current, ms));
      && (IsOver(g, g.current) <==> IsWinner(g, "p1") || IsWinner(g, "p2"))
      && !(IsWinner(g, "p1") && IsWinner(g, "p2"))
  {
    InitMeaning(p1Starts, side);
    var g0 := Init(p1Starts, side).value;
    PlayPlayable(g0.current, ms);
    IsWinnerMatchesWinner(g0.(current := Play(g0.current, ms)));
  }

  /** The doctest: in a side-1 game that p2 starts, p2 claiming 'A' wins. */
  lemma IsWinnerDoctest()
    ensures IsDigits("1") && IsWinner(Game("1", Next(Initial(false, 1), "A")), "p2")
  {
    var s := Initial(false, 1);
    var t := Next(s, "A");
    UpdateDoctest(s.board, "p2", t.board);
    assert t.p2 == 3 && t.p1 == 0;
    SideOne();
  }

  // ------------------------------------------------------------ str_to_move

  /** `str_to_move` names a move exactly for an all-letter string; the name
      has the string's length and only capitals, so reading it again gives
      the same move; every other string gives the invalid move 1. */
  lemma StrToMoveMeaning(t: string)
    ensures StrToMove(t).Named? <==> IsAlpha(t)
    ensures StrToMove(t).Invalid? ==> StrToMove(t).code == 1
    ensures StrToMove(t).Named? ==>
      var m := StrToMove(t).name;
      && |m| == |t| && (forall i :: 0 <= i < |m| ==> 'A' <= m[i] <= 'Z')
      && StrToMove(m) == StrToMove(t)
  {
    if IsAlpha(t) {
      UpperFacts(t);
    }
  }

  /** The doctests: 'a' gives 'A', 'B' gives 'B', 'c21' gives 1. */
  lemma StrToMoveDoctest()
    ensures StrToMove("a") == Named("A")
    ensures StrToMove("B") == Named("B")
    ensures StrToMove("c21") == Invalid(1)
  {
    assert Upper("a") == "A";
    assert Upper("B") == "B";
    assert !IsLetter("c21"[1]);
  }
}
