/** Game states of the two A1 games, Chopsticks and Subtract-Square
    (miscellaneous/blabla/state.py). */
module A1State {
  import opened PyText

  /** The four hands of Chopsticks: the dictionary `{1: [l, r], 2: [l, r]}`. */
  datatype Hands = Hands(p1Left: int, p1Right: int, p2Left: int, p2Right: int)

  /** `State` and its two subclasses; `moves` is the hands for Chopsticks and
      the current number for Subtract-Square. */
  datatype State =
    | Chopsticks(isP1Turn: bool, hands: Hands)
    | SubtractSquare(isP1Turn: bool, number: int)

  /** `State.__eq__`: same subclass, same turn flag and equal `moves`. */
  function Equal(a: State, b: State): (r: bool)
    ensures r <==> a == b
    ensures a.Chopsticks? != b.Chopsticks? ==> !r
  {
    match (a, b)
    case (Chopsticks(t1, h1), Chopsticks(t2, h2)) => t1 == t2 && h1 == h2
    case (SubtractSquare(t1, n1), SubtractSquare(t2, n2)) => t1 == t2 && n1 == n2
    case _ => false
  }

  /** `get_current_player_name`. */
  function CurrentPlayerName(s: State): (name: string)
    ensures name == "p1" <==> s.isP1Turn
    ensures name == "p1" || name == "p2"
  {
    if s.isP1Turn then "p1" else "p2"
  }

  // ---------------------------------------------------------------- Chopsticks

  /** `StateChopsticks(is_p1_turn)`: every hand shows one finger. */
  function ChopsticksStart(isP1Turn: bool): (s: State)
    ensures s.Chopsticks? && s.isP1Turn == isP1Turn
    ensures forall p, side :: p in {1, 2} && side in {'l', 'r'} ==> Hand(s.hands, p, side) == 1
  {
    Chopsticks(isP1Turn, Hands(1, 1, 1, 1))
  }

  /** The hand `side` ('l' or 'r') of player `p` (1 or 2). */
  function Hand(h: Hands, p: int, side: char): int {
    if p == 1 then (if side == 'l' then h.p1Left else h.p1Right)
    else (if side == 'l' then h.p2Left else h.p2Right)
  }

  const ChopsticksMoves: seq<string> := ["ll", "lr", "rl", "rr"]

  function Mover(s: State): int { if s.isP1Turn then 1 else 2 }
  function Opponent(s: State): int { if s.isP1Turn then 2 else 1 }

  /** `StateChopsticks.is_valid_move`, as written: one of the four moves, and
      the product of the two hands the move touches is not zero. */
  predicate ChopsticksIsValidMove(s: State, move: string)
    requires s.Chopsticks?
  {
    var h := s.hands;
    move in ChopsticksMoves &&
    !((move == "ll" && h.p1Left * h.p2Left == 0)
      || (move == (if s.isP1Turn then "lr" else "rl") && h.p1Left * h.p2Right == 0)
      || (move == (if s.isP1Turn then "rl" else "lr") && h.p1Right * h.p2Left == 0)
      || (move == "rr" && h.p1Right * h.p2Right == 0))
  }

  /** A move names the mover's attacking hand and then the opponent's target
      hand; it is valid exactly when neither of those hands is empty. */
  lemma ChopsticksValidity(s: State, move: string)
    requires s.Chopsticks?
    ensures ChopsticksIsValidMove(s, move) <==>
      move in ChopsticksMoves && Hand(s.hands, Mover(s), move[0]) != 0
                              && Hand(s.hands, Opponent(s), move[1]) != 0
  {
    var h := s.hands;
    assert h.p1Left * h.p2Left == 0 <==> h.p1Left == 0 || h.p2Left == 0;
    assert h.p1Left * h.p2Right == 0 <==> h.p1Left == 0 || h.p2Right == 0;
    assert h.p1Right * h.p2Left == 0 <==> h.p1Right == 0 || h.p2Left == 0;
    assert h.p1Right * h.p2Right == 0 <==> h.p1Right == 0 || h.p2Right == 0;
  }

  /** `StateChopsticks.get_possible_moves`: the valid moves among
      'll', 'lr', 'rl', 'rr', in that order. */
  function ChopsticksPossibleMoves(s: State): (moves: seq<string>)
    requires s.Chopsticks?
    ensures forall m :: m in moves <==> ChopsticksIsValidMove(s, m)
    ensures Sublist(moves, ChopsticksMoves) && |moves| <= 4
    ensures forall i, j :: 0 <= i < j < |moves| ==> moves[i] != moves[j]
  {
    SublistDistinct(Keep(s, ChopsticksMoves), ChopsticksMoves);
    Keep(s, ChopsticksMoves)
  }

  /** `r` is `c` with some entries dropped, the rest kept in their order. */
  predicate Sublist(r: seq<string>, c: seq<string>)
    decreases |c|
  {
    if r == [] then true
    else if c == [] then false
    else (r[0] == c[0] && Sublist(r[1..], c[1..])) || Sublist(r, c[1..])
  }

  /** Every entry of a sublist is an entry of the list. */
  lemma {:induction false} SublistIn(r: seq<string>, c: seq<string>)
    requires Sublist(r, c)
    ensures forall x :: x in r ==> x in c
    decreases |c|
  {
    if r != [] {
      if r[0] == c[0] && Sublist(r[1..], c[1..]) {
        SublistIn(r[1..], c[1..]);
        assert r == [r[0]] + r[1..];
      } else {
        SublistIn(r, c[1..]);
      }
    }
  }

  /** A sublist of a list without repeats has no repeats. */
  lemma {:induction false} SublistDistinct(r: seq<string>, c: seq<string>)
    requires Sublist(r, c) && forall i, j :: 0 <= i < j < |c| ==> c[i] != c[j]
    ensures forall i, j :: 0 <= i < j < |r| ==> r[i] != r[j]
    decreases |c|
  {
    if r != [] {
      if r[0] == c[0] && Sublist(r[1..], c[1..]) {
        SublistDistinct(r[1..], c[1..]);
        SublistIn(r[1..], c[1..]);
        forall j | 0 < j < |r|
          ensures r[0] != r[j]
        {
          assert r[j] == r[1..][j - 1];
          assert r[j] in c[1..];
        }
        forall i, j | 0 < i < j < |r|
          ensures r[i] != r[j]
        {
          assert r[i] == r[1..][i - 1] && r[j] == r[1..][j - 1];
        }
      } else {
        SublistDistinct(r, c[1..]);
      }
    }
  }

  /** The valid candidates, in the candidates' order. */
  function Keep(s: State, candidates: seq<string>): (r: seq<string>)
    requires s.Chopsticks?
    ensures forall m :: m in r <==> m in candidates && ChopsticksIsValidMove(s, m)
    ensures Sublist(r, candidates) && |r| <= |candidates|
  {
    if candidates == [] then []
    else
      var rest := Keep(s, candidates[1..]);
      if ChopsticksIsValidMove(s, candidates[0]) then
        assert ([candidates[0]] + rest)[1..] == rest;
        [candidates[0]] + rest
      else rest
  }

  /** At the start every one of the four moves is legal. */
  lemma ChopsticksStartMoves(isP1Turn: bool)
    ensures ChopsticksPossibleMoves(ChopsticksStart(isP1Turn)) == ChopsticksMoves
  {
    var s := ChopsticksStart(isP1Turn);
    assert Keep(s, []) == [];
    assert ["rr"][1..] == [];
    assert Keep(s, ["rr"]) == ["rr"];
    assert ["rl", "rr"][1..] == ["rr"];
    assert Keep(s, ["rl", "rr"]) == ["rl", "rr"];
    assert ["lr", "rl", "rr"][1..] == ["rl", "rr"];
    assert Keep(s, ["lr", "rl", "rr"]) == ["lr", "rl", "rr"];
    assert ChopsticksMoves[1..] == ["lr", "rl", "rr"];
  }

  /** `StateChopsticks.make_move`: a new state with the other player to move,
      built from a copy of the hands in which the targeted hand gains the
      attacking hand's fingers, and then every hand is reduced mod 5. */
  method ChopsticksMakeMove(s: State, move: string) returns (next: State)
    requires s.Chopsticks?
    ensures next.Chopsticks? && next.isP1Turn == !s.isP1Turn
    ensures forall p, side :: p in {1, 2} && side in {'l', 'r'} ==>
      Hand(next.hands, p, side) ==
        (if move in ChopsticksMoves && p == Opponent(s) && side == move[1]
         then (Hand(s.hands, p, side) + Hand(s.hands, Mover(s), move[0])) % 5
         else Hand(s.hands, p, side) % 5)
  {
    var h := s.hands;
    var p1 := [h.p1Left, h.p1Right];
    var p2 := [h.p2Left, h.p2Right];
    if s.isP1Turn {
      if move == "ll" {
        p2 := p2[0 := h.p2Left + h.p1Left];
      } else if move == "lr" {
        p2 := p2[1 := h.p2Right + h.p1Left];
      } else if move == "rl" {
        p2 := p2[0 := h.p2Left + h.p1Right];
      } else if move == "rr" {
        p2 := p2[1 := h.p2Right + h.p1Right];
      }
    } else {
      if move == "ll" {
        p1 := p1[0 := h.p1Left + h.p2Left];
      } else if move == "lr" {
        p1 := p1[1 := h.p1Right + h.p2Left];
      } else if move == "rl" {
        p1 := p1[0 := h.p1Left + h.p2Right];
      } else if move == "rr" {
        p1 := p1[1 := h.p1Right + h.p2Right];
      }
    }
    next := Chopsticks(!s.isP1Turn, Hands(p1[0] % 5, p1[1] % 5, p2[0] % 5, p2[1] % 5));
  }

  /** Every hand holds 0 to 4 fingers. */
  predicate HandsInRange(h: Hands) {
    0 <= h.p1Left < 5 && 0 <= h.p1Right < 5 && 0 <= h.p2Left < 5 && 0 <= h.p2Right < 5
  }

  /** From hands in 0..4, a move changes only the targeted opponent hand,
      which becomes (target + attacker) mod 5, and the hands stay in 0..4. */
  method ChopsticksStep(s: State, move: string) returns (next: State)
    requires s.Chopsticks? && HandsInRange(s.hands) && move in ChopsticksMoves
    ensures next.Chopsticks? && next.isP1Turn == !s.isP1Turn && HandsInRange(next.hands)
    ensures Hand(next.hands, Opponent(s), move[1])
            == (Hand(s.hands, Opponent(s), move[1]) + Hand(s.hands, Mover(s), move[0])) % 5
    ensures forall p, side ::
      (p in {1, 2} && side in {'l', 'r'} && !(p == Opponent(s) && side == move[1])) ==>
        Hand(next.hands, p, side) == Hand(s.hands, p, side)
  {
    var h := s.hands;
    assert h.p1Left % 5 == h.p1Left && h.p1Right % 5 == h.p1Right;
    assert h.p2Left % 5 == h.p2Left && h.p2Right % 5 == h.p2Right;
    next := ChopsticksMakeMove(s, move);
    assert move[0] in {'l', 'r'} && move[1] in {'l', 'r'};
    assert Hand(next.hands, 1, 'l') == next.hands.p1Left;
    assert Hand(next.hands, 1, 'r') == next.hands.p1Right;
    assert Hand(next.hands, 2, 'l') == next.hands.p2Left;
    assert Hand(next.hands, 2, 'r') == next.hands.p2Right;
  }

  /** The doctest of `make_move`: p1's left hand hits p2's left hand. */
  method ChopsticksDoctest() returns (next: State)
    ensures next == Chopsticks(false, Hands(1, 1, 2, 1))
  {
    next := ChopsticksMakeMove(ChopsticksStart(true), "ll");
    assert Hand(next.hands, 1, 'l') == 1 && Hand(next.hands, 1, 'r') == 1;
    assert Hand(next.hands, 2, 'l') == 2 && Hand(next.hands, 2, 'r') == 1;
  }

  // ----------------------------------------------------------- Subtract-Square

  /** `x` is the square of a positive whole number. */
  ghost predicate PositiveSquare(x: int) {
    exists k :: 1 <= k <= x && k * k == x
  }

  /** `[n ** 2 for n in range(k, limit + 1) if n ** 2 <= limit]`. */
  function SquaresFrom(k: int, limit: int): (r: seq<int>)
    requires k >= 1
    decreases limit + 1 - k
    ensures forall i :: 0 <= i < |r| ==> k * k <= r[i] <= limit
    ensures forall i, j :: 0 <= i < j < |r| ==> r[i] < r[j]
    ensures forall j :: k <= j && j * j <= limit ==> j * j in r
    ensures forall x :: x in r ==> exists j :: k <= j <= limit && j * j == x
  {
    if k > limit then
      assert forall j :: k <= j && j * j <= limit ==> false by {
        forall j | k <= j ensures j * j > limit { assert j * j >= j; }
      }
      []
    else
      var rest := SquaresFrom(k + 1, limit);
      assert (k + 1) * (k + 1) > k * k;
      if k * k <= limit then [k * k] + rest else rest
  }

  /** `StateSubstractSquare.get_possible_moves`: the positive squares up to
      the current number, in increasing order. */
  function SquarePossibleMoves(s: State): (moves: seq<int>)
    requires s.SubtractSquare?
    ensures forall i, j :: 0 <= i < j < |moves| ==> moves[i] < moves[j]
    ensures forall x :: x in moves <==> x <= s.number && PositiveSquare(x)
  {
    SquaresAreMoves(s.number);
    SquaresFrom(1, s.number)
  }

  /** The squares listed from 1 are exactly the positive squares up to the
      limit. */
  lemma SquaresAreMoves(limit: int)
    ensures forall x :: x in SquaresFrom(1, limit) <==> x <= limit && PositiveSquare(x)
  {
    var r := SquaresFrom(1, limit);
    forall x | x <= limit && PositiveSquare(x) ensures x in r {
      var k :| 1 <= k <= x && k * k == x;
    }
    forall x | x in r ensures PositiveSquare(x) {
      var j :| 1 <= j <= limit && j * j == x;
      assert j <= j * j;
    }
  }

  /** No legal Subtract-Square move is 0 or negative. */
  lemma SquareMovesPositive(s: State, x: int)
    requires s.SubtractSquare? && x in SquarePossibleMoves(s)
    ensures x >= 1
  {
    var k :| 1 <= k <= x && k * k == x;
  }

  /** The doctest of `get_possible_moves`: from 5 the moves are 1 and 4. */
  lemma SquareMovesFromFive()
    ensures SquarePossibleMoves(SubtractSquare(true, 5)) == [1, 4]
  {
    assert SquaresFrom(6, 5) == [];
    assert SquaresFrom(5, 5) == [];
    assert SquaresFrom(4, 5) == [];
    assert SquaresFrom(3, 5) == [];
    assert SquaresFrom(2, 5) == [4];
  }

  /** A Subtract-Square move as it reaches `is_valid_move`: an int from a
      strategy, a string from the user, or None. */
  datatype SquareMove = Number(n: int) | Text(t: string) | NoMove

  /** `StateSubstractSquare.is_valid_move`: not None, its `str` is all digits,
      and its `int` is a possible move. */
  predicate SquareIsValidMove(s: State, move: SquareMove)
    requires s.SubtractSquare?
  {
    match move
    case NoMove => false
    case Number(n) => n >= 0 && n in SquarePossibleMoves(s)
    case Text(t) => IsDigits(t) && DecimalValue(t) in SquarePossibleMoves(s)
  }

  /** A move is valid exactly when it names a positive square no larger than
      the current number, whether it arrives as a number or as digits; None
      never is. */
  lemma SquareValidityMeaning(s: State, move: SquareMove)
    requires s.SubtractSquare?
    ensures move.NoMove? ==> !SquareIsValidMove(s, move)
    ensures move.Number? ==>
      (SquareIsValidMove(s, move) <==> PositiveSquare(move.n) && move.n <= s.number)
    ensures move.Text? ==>
      (SquareIsValidMove(s, move) <==>
       IsDigits(move.t) && PositiveSquare(DecimalValue(move.t)) && DecimalValue(move.t) <= s.number)
  {
    if move.Number? && PositiveSquare(move.n) {
      var k :| 1 <= k <= move.n && k * k == move.n;
    }
  }

  /** The doctest of `is_valid_move`: 2 is not a move from 5. */
  lemma SquareValidDoctest()
    ensures !SquareIsValidMove(SubtractSquare(true, 5), Number(2))
  {
    SquareMovesFromFive();
  }

  /** `StateSubstractSquare.make_move`: subtract the move and pass the turn. */
  function SquareMakeMove(s: State, move: int): (next: State)
    requires s.SubtractSquare?
    ensures next.SubtractSquare? && next.isP1Turn == !s.isP1Turn
    ensures next.number + move == s.number
  {
    SubtractSquare(!s.isP1Turn, s.number - move)
  }

  /** A legal move keeps the number non-negative and makes it strictly smaller,
      so a Subtract-Square game always ends. */
  lemma SquareMoveDecreases(s: State, move: int)
    requires s.SubtractSquare? && move in SquarePossibleMoves(s)
    ensures 0 <= SquareMakeMove(s, move).number < s.number
  {
    SquareMovesPositive(s, move);
  }

  /** A different game's state is never equal: the doctest of `__eq__`. */
  lemma EqualDoctest()
    ensures !Equal(SubtractSquare(true, 2), ChopsticksStart(true))
    ensures CurrentPlayerName(ChopsticksStart(false)) == "p2"
  {
  }
}
