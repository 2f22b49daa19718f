/** Assignment/a2/Trash/game_1.py: the abstract `Game`, whose every method
    raises NotImplementedError, and a second copy of the Stonehenge game.
    A game object is either the abstract base or a Stonehenge game, and each
    method dispatches on which one it is, as Python's overriding does. */
module GameOne {
  import opened Wrappers
  import opened PyText
  import opened GridLayout
  import opened StonehengeStates
  import StonehengeGames

  /** An instance of `Game` itself, or of its `StonehengeGame`. */
  datatype GameObject = AbstractGame | StonehengeOne(side: string, current: Snap)

  /** A game object whose methods can be called: a Stonehenge game keeps the
      digit string its initialiser checked. */
  predicate Callable(k: GameObject) {
    k.StonehengeOne? ==> IsDigits(k.side)
  }

  /** `Game(p1_starts)`: the abstract initialiser raises. */
  function AbstractInit(p1Starts: bool): Result<GameObject> {
    Err(NotImplementedError)
  }

  /** `StonehengeGame(p1_starts, side)` as written, with a digit string
      `side`: the module imports only `GameState`, so looking up
      `StonehengeState` raises NameError before the state is built. */
  function InitAsWritten(p1Starts: bool, side: string): Result<GameObject>
    requires IsDigits(side)
  {
    Err(NameError)
  }

  /** `StonehengeGame(p1_starts, side)` with `StonehengeState` imported: the
      state of `int(side)`, whose grid tables exist for sides 1 to 5; other
      sides raise what `Grid` raises: KeyError, or ValueError for a side
      past 1490. */
  function Init(p1Starts: bool, side: string): Result<GameObject>
    requires IsDigits(side)
  {
    var n := DecimalValue(side);
    if GoodSize(n) then Ok(StonehengeOne(side, Initial(p1Starts, n))) else Err(SizeError(n))
  }

  /** `is_over(state)`: raises on the base; otherwise a score reaching
      `(side + 1) * 3 / 2`. */
  function IsOver(k: GameObject, state: Snap): Result<bool>
    requires Callable(k)
  {
    match k
    case AbstractGame => Err(NotImplementedError)
    case StonehengeOne(side, _) =>
      var n := DecimalValue(side);
      Ok(2 * state.p1 >= 3 * (n + 1) || 2 * state.p2 >= 3 * (n + 1))
  }

  /** `is_winner(player)`: raises on the base; otherwise false until the game
      is over, then a strict comparison of the two scores. */
  function IsWinner(k: GameObject, player: string): Result<bool>
    requires Callable(k)
  {
    match k
    case AbstractGame => Err(NotImplementedError)
    case StonehengeOne(_, s) =>
      if IsOver(k, s) == Ok(true) then Ok(if player == "p1" then s.p1 > s.p2 else s.p2 > s.p1)
      else Ok(false)
  }

  /** `str_to_move(string)`: raises on the base; otherwise the upper-cased
      word, or 1 for anything that is not all letters. */
  function StrToMove(k: GameObject, t: string): Result<StonehengeGames.Move> {
    match k
    case AbstractGame => Err(NotImplementedError)
    case StonehengeOne(_, _) =>
      Ok(if !IsAlpha(t) then StonehengeGames.Invalid(1) else StonehengeGames.Named(Upper(t)))
  }

  /** Every method of the abstract `Game` raises NotImplementedError. */
  lemma AbstractRaises(p1Starts: bool, state: Snap, player: string, t: string)
    ensures AbstractInit(p1Starts) == Err(NotImplementedError)
    ensures IsOver(AbstractGame, state) == Err(NotImplementedError)
    ensures IsWinner(AbstractGame, player) == Err(NotImplementedError)
    ensures StrToMove(AbstractGame, t) == Err(NotImplementedError)
  {
  }

  /** The Stonehenge copy here answers every question as the game of
      stonehenge_game.py does, and its repaired initialiser builds the same
      game. */
  lemma CopiesAgree(p1Starts: bool, side: string, s: Snap, state: Snap, player: string, t: string)
    requires IsDigits(side)
    ensures
      var k, g := StonehengeOne(side, s), StonehengeGames.Game(side, s);
      && IsOver(k, state) == Ok(StonehengeGames.IsOver(g, state))
      && IsWinner(k, player) == Ok(StonehengeGames.IsWinner(g, player))
      && StrToMove(k, t) == Ok(StonehengeGames.StrToMove(t))
    ensures Init(p1Starts, side).Err? <==> StonehengeGames.Init(p1Starts, side).Err?
    ensures Init(p1Starts, side).Err? ==> Init(p1Starts, side).error == StonehengeGames.Init(p1Starts, side).error
    ensures Init(p1Starts, side).Ok? ==>
      var g := StonehengeGames.Init(p1Starts, side).value;
      Init(p1Starts, side).value == StonehengeOne(g.side, g.current)
  {
  }

  /** The initialiser as written never builds a game, even for side '1',
      which the repaired one accepts. */
  lemma InitAsWrittenFails(p1Starts: bool, side: string)
    requires IsDigits(side)
    ensures InitAsWritten(p1Starts, side) == Err(NameError)
    ensures side == "1" ==> Init(p1Starts, side) == Ok(StonehengeOne("1", Initial(p1Starts, 1)))
  {
    if side == "1" {
      assert DecimalValue(side) == 1;
    }
  }
}
