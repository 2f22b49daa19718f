/** The Stonehenge game state of Assignment/a2/Trash/stonehenge_state.py.
    A state is a turn flag, a grid and the two scores read off the grid
    after the last move. `Snap` is that state as a value; the class
    `StonehengeState` holds a real `Grid` and is proved against it.

    Every threshold of the source is the float test
    `score >= (size + 1) * 3 / 2`, kept here as the exact
    `2 * score >= 3 * (size + 1)`. */
module StonehengeStates {
  import opened Wrappers
  import opened GridLayout
  import opened StonehengeGrid
  import opened GameStates

  /** Whose turn it is, the board of the grid, and the two scores. */
  datatype Snap = Snap(p1Turn: bool, board: Board, p1: int, p2: int)

  /** `score >= (size + 1) * 3 / 2`: at least half of the `3 * (size + 1)`
      ley-lines. */
  predicate Reached(score: int, size: int) {
    2 * score >= 3 * (size + 1)
  }

  /** Some player has reached the threshold. */
  predicate Over(s: Snap) {
    Reached(s.p1, s.board.size) || Reached(s.p2, s.board.size)
  }

  /** A state the game can reach: its scores are those of its board, and
      no unclaimed line is already held by half of its cells. */
  ghost predicate Sound(s: Snap) {
    && WellFormed(s.board) && Settled(s.board)
    && s.p1 == Score(s.board, 1) && s.p2 == Score(s.board, 2)
  }

  /** `StonehengeState(is_p1_turn, size)`: a new grid and no score. */
  function Initial(p1Turn: bool, size: int): (s: Snap)
    requires GoodSize(size)
    ensures WellFormed(s.board) && s.board.size == size
  {
    Snap(p1Turn, FreshBoard(size), 0, 0)
  }

  /** The letters of the unclaimed cells, in grid order. */
  function Free(cells: seq<int>): (ms: seq<string>)
    requires |cells| <= 25
    ensures |ms| <= |cells|
  {
    if cells == [] then []
    else Free(cells[..|cells| - 1]) + (if cells[|cells| - 1] == 0 then [[Letter(|cells| - 1)]] else [])
  }

  /** `get_possible_moves`: nothing once a player has reached the
      threshold, otherwise the unclaimed cells' letters. */
  function Moves(s: Snap): seq<string>
    requires |s.board.cells| <= 25
  {
    if Over(s) then [] else Free(s.board.cells)
  }

  /** `make_move`: the turn passes, the move is claimed for the player to
      move on a copy of the grid, and both scores are read off it again. */
  function Next(s: Snap, move: string): (t: Snap)
    requires WellFormed(s.board)
    ensures WellFormed(t.board) && t.board.size == s.board.size && t.p1Turn == !s.p1Turn
  {
    var b := Update(s.board, CurrentPlayerName(s.p1Turn), move);
    Snap(!s.p1Turn, b, Score(b, 1), Score(b, 2))
  }

  /** `finished`: the move brings one of the two scores to the threshold. */
  predicate Finishes(s: Snap, move: string)
    requires WellFormed(s.board)
  {
    Reached(Next(s, move).p1, s.board.size) || Reached(Next(s, move).p2, s.board.size)
  }

  /** `get_winner`: 'p1' when player 1 has reached the threshold, 'p2' in
      every other case, even when nobody has. */
  function Winner(s: Snap): string {
    if Reached(s.p1, s.board.size) then "p1" else "p2"
  }

  /** `[self.finished(move) for move in ms]`. */
  function Finishing(s: Snap, ms: seq<string>): (bs: seq<bool>)
    requires WellFormed(s.board)
    ensures |bs| == |ms| && forall k :: 0 <= k < |ms| ==> bs[k] == Finishes(s, ms[k])
  {
    seq(|ms|, k requires 0 <= k < |ms| => Finishes(s, ms[k]))
  }

  /** After the move, the opponent has a finishing move:
      `any([new_state.finished(move) for move in new_state.get_possible_moves()])`. */
  predicate Threatened(s: Snap, move: string)
    requires WellFormed(s.board)
  {
    var t := Next(s, move);
    true in Finishing(t, Moves(t))
  }

  /** The list `result` of `rough_outcome`. */
  function Replies(s: Snap, ms: seq<string>): (bs: seq<bool>)
    requires WellFormed(s.board)
    ensures |bs| == |ms| && forall k :: 0 <= k < |ms| ==> bs[k] == Threatened(s, ms[k])
  {
    seq(|ms|, k requires 0 <= k < |ms| => Threatened(s, ms[k]))
  }

  /** `rough_outcome`: at the end, a win if the winner is the player to
      move; a win if some move finishes the game; a loss if every move
      leaves the opponent a finishing move; a draw otherwise. */
  function Rough(s: Snap): int
    requires WellFormed(s.board)
  {
    var ms := Moves(s);
    if ms == [] then (if Winner(s) == CurrentPlayerName(s.p1Turn) then WIN else LOSE)
    else if true in Finishing(s, ms) then WIN
    else if false !in Replies(s, ms) then LOSE
    else DRAW
  }

  /** The content `__repr__` prints and `__eq__` compares: the player to
      move, each cell's holder in order, and the two scores. The cells'
      letters are printed too, but in a well-formed grid they follow from
      the position. */
  predicate Eq(s: Snap, t: Snap) {
    && CurrentPlayerName(s.p1Turn) == CurrentPlayerName(t.p1Turn)
    && s.board.cells == t.board.cells
    && s.p1 == t.p1 && s.p2 == t.p2
  }

  // -------------------------------------------------------------- properties

  /** The moves are the unclaimed cells' letters, one letter each, in
      strictly increasing order, so none is listed twice. */
  lemma {:induction false} FreeMeaning(cells: seq<int>)
    requires |cells| <= 25
    ensures forall m :: m in Free(cells) <==> exists n :: 0 <= n < |cells| && cells[n] == 0 && m == [Letter(n)]
    ensures forall i :: 0 <= i < |Free(cells)| ==> |Free(cells)[i]| == 1
    ensures forall i, j :: 0 <= i < j < |Free(cells)| ==> Free(cells)[i][0] < Free(cells)[j][0]
  {
    if cells != [] {
      var pre, last := cells[..|cells| - 1], |cells| - 1;
      FreeMeaning(pre);
      var f := Free(pre);
      forall i | 0 <= i < |f|
        ensures f[i][0] < Letter(last)
      {
        assert f[i] in f;
      }
      forall m | exists n :: 0 <= n < |cells| && cells[n] == 0 && m == [Letter(n)]
        ensures m in Free(cells)
      {
        var n :| 0 <= n < |cells| && cells[n] == 0 && m == [Letter(n)];
        if n < last {
          assert pre[n] == 0;
        }
      }
    }
  }

  /** `get_possible_moves` is empty exactly when the game is over or every
      cell is claimed; otherwise it lists the unclaimed cells' letters in
      grid order. */
  lemma MovesMeaning(s: Snap)
    requires |s.board.cells| <= 25
    ensures Over(s) ==> Moves(s) == []
    ensures !Over(s) ==> forall m :: m in Moves(s) <==>
      exists n :: 0 <= n < |s.board.cells| && s.board.cells[n] == 0 && m == [Letter(n)]
    ensures forall i :: 0 <= i < |Moves(s)| ==> |Moves(s)[i]| == 1
    ensures forall i, j :: 0 <= i < j < |Moves(s)| ==> Moves(s)[i][0] < Moves(s)[j][0]
  {
    FreeMeaning(s.board.cells);
  }

  /** A new state is sound, and so is every state a move leads to. */
  lemma InitialSound(p1Turn: bool, size: int)
    requires GoodSize(size)
    ensures Sound(Initial(p1Turn, size))
  {
    var b := FreshBoard(size);
    FreshSettled(size);
    CountNone(b.ley, Held(1));
    CountNone(b.right, Held(1));
    CountNone(b.left, Held(1));
    CountNone(b.ley, Held(2));
    CountNone(b.right, Held(2));
    CountNone(b.left, Held(2));
  }

  lemma {:induction false} CountNone<T>(s: seq<T>, x: T)
    requires x !in s
    ensures Count(s, x) == 0
  {
    if s != [] {
      assert s[..|s| - 1] <= s;
      CountNone(s[..|s| - 1], x);
    }
  }

  lemma NextSound(s: Snap, move: string)
    requires WellFormed(s.board)
    ensures Sound(Next(s, move))
  {
    UpdateSettles(s.board, CurrentPlayerName(s.p1Turn), move);
  }

  /** A move from a sound state never lowers the mover's score and leaves
      the opponent's as it was. */
  lemma NextScores(s: Snap, move: string)
    requires Sound(s)
    ensures var t := Next(s, move);
      if s.p1Turn then t.p1 >= s.p1 && t.p2 == s.p2 else t.p2 >= s.p2 && t.p1 == s.p1
  {
    var name := CurrentPlayerName(s.p1Turn);
    ScoreMonotone(s.board, name, move, PlayerNumber(name));
    OpponentScoreKept(s.board, name, move);
  }

  /** A finishing move from a sound state that is not over ends the game
      with the mover as `get_winner`: the basis of `rough_outcome`'s 1. */
  lemma FinishWins(s: Snap, move: string)
    requires Sound(s) && !Over(s) && Finishes(s, move)
    ensures Over(Next(s, move)) && Moves(Next(s, move)) == []
    ensures Winner(Next(s, move)) == CurrentPlayerName(s.p1Turn)
  {
    NextScores(s, move);
  }

  /** `rough_outcome` is one of LOSE, DRAW and WIN, and reads as follows:
      with no move left, a win iff the winner is the player to move; with
      moves left, a win iff some move finishes the game, and a loss iff
      none does and every move leaves the opponent one that does. */
  lemma RoughMeaning(s: Snap)
    requires WellFormed(s.board)
    ensures Rough(s) == LOSE || Rough(s) == DRAW || Rough(s) == WIN
    ensures Moves(s) == [] ==> (Rough(s) == WIN <==> Winner(s) == CurrentPlayerName(s.p1Turn))
    ensures Moves(s) == [] ==> Rough(s) != DRAW
    ensures Moves(s) != [] ==> (Rough(s) == WIN <==> exists m :: m in Moves(s) && Finishes(s, m))
    ensures Moves(s) != [] ==> (Rough(s) == LOSE <==>
      && (forall m :: m in Moves(s) ==> !Finishes(s, m))
      && (forall m :: m in Moves(s) ==> exists m2 :: m2 in Moves(Next(s, m)) && Finishes(Next(s, m), m2)))
  {
    var ms := Moves(s);
    AnyFinishing(s, ms);
    AllThreatened(s, ms);
  }

  /** `all(result)`: every move leaves the opponent a finishing move. */
  lemma AllThreatened(s: Snap, ms: seq<string>)
    requires WellFormed(s.board)
    ensures false !in Replies(s, ms) <==>
      forall m :: m in ms ==> exists m2 :: m2 in Moves(Next(s, m)) && Finishes(Next(s, m), m2)
  {
    var rs := Replies(s, ms);
    if false !in rs {
      forall m | m in ms
        ensures exists m2 :: m2 in Moves(Next(s, m)) && Finishes(Next(s, m), m2)
      {
        var k :| 0 <= k < |ms| && ms[k] == m;
        assert rs[k];
        AnyFinishing(Next(s, m), Moves(Next(s, m)));
      }
    } else {
      var k :| 0 <= k < |ms| && !rs[k];
      AnyFinishing(Next(s, ms[k]), Moves(Next(s, ms[k])));
      assert ms[k] in ms;
    }
  }

  lemma AnyFinishing(s: Snap, ms: seq<string>)
    requires WellFormed(s.board)
    ensures true in Finishing(s, ms) <==> exists m :: m in ms && Finishes(s, m)
  {
    if exists m :: m in ms && Finishes(s, m) {
      var m :| m in ms && Finishes(s, m);
      var k :| 0 <= k < |ms| && ms[k] == m;
      assert Finishing(s, ms)[k];
    }
  }

  /** From a sound state, a 1 with moves left is a win the player to move
      can force in one move, and a -1 with moves left means that after
      every move the opponent can win in one. */
  lemma RoughSound(s: Snap)
    requires Sound(s) && Moves(s) != []
    ensures Rough(s) == WIN ==>
      exists m :: m in Moves(s) && Over(Next(s, m)) && Winner(Next(s, m)) == CurrentPlayerName(s.p1Turn)
    ensures Rough(s) == LOSE ==> forall m :: m in Moves(s) ==>
      exists m2 :: m2 in Moves(Next(s, m)) && Winner(Next(Next(s, m), m2)) == CurrentPlayerName(!s.p1Turn)
  {
    RoughMeaning(s);
    if Rough(s) == WIN {
      var m :| m in Moves(s) && Finishes(s, m);
      FinishWins(s, m);
    }
    if Rough(s) == LOSE {
      forall m | m in Moves(s)
        ensures exists m2 :: m2 in Moves(Next(s, m)) && Winner(Next(Next(s, m), m2)) == CurrentPlayerName(!s.p1Turn)
      {
        var t := Next(s, m);
        var m2 :| m2 in Moves(t) && Finishes(t, m2);
        NextSound(s, m);
        FinishWins(t, m2);
      }
    }
  }

  /** States that `__eq__` calls equal have the same size, the same
      possible moves and the same `get_winner`. */
  lemma EqSameMoves(s: Snap, t: Snap)
    requires WellFormed(s.board) && WellFormed(t.board) && Eq(s, t)
    ensures s.board.size == t.board.size
    ensures Moves(s) == Moves(t) && Winner(s) == Winner(t)
  {
    if s.board.size < t.board.size {
      LeyStartMonotone(s.board.size, t.board.size);
    } else if t.board.size < s.board.size {
      LeyStartMonotone(t.board.size, s.board.size);
    }
  }

  /** The `get_possible_moves` doctest: the size-1 start offers 'A', 'B'
      and 'C'. */
  lemma MovesDoctest()
    ensures Moves(Initial(true, 1)) == ["A", "B", "C"]
  {
    var s := Initial(true, 1);
    assert CellCount(1) == 3;
    assert s.board.cells == [0, 0, 0];
    assert [0, 0, 0][..2] == [0, 0] && [0, 0][..1] == [0] && [0][..0] == [];
    assert [Letter(0)] == "A" && [Letter(1)] == "B" && [Letter(2)] == "C";
  }

  /** The `finished` and `get_winner` doctests: at size 1, 'A' finishes the
      game and 'p1', who played it, is the winner. */
  lemma FinishedDoctest()
    ensures Finishes(Initial(true, 1), "A")
    ensures Winner(Next(Initial(true, 1), "A")) == "p1"
  {
    var s := Initial(true, 1);
    UpdateDoctest(s.board, "p1", Next(s, "A").board);
  }

  /** The size-1 `rough_outcome` doctests: the start is worth 1 to the
      player to move, and the state after 'A' is worth -1. */
  lemma RoughDoctest()
    ensures Rough(Initial(true, 1)) == WIN
    ensures Rough(Next(Initial(true, 1), "A")) == LOSE
  {
    var s := Initial(true, 1);
    MovesDoctest();
    FinishedDoctest();
    assert Finishing(s, Moves(s))[0];
  }

  // ------------------------------------------------------------------ objects

  /** `[str(n) for n in cells if n.player == 0]`. */
  function UnclaimedCells(cs: seq<Cell>): seq<string>
    reads cs
  {
    if cs == [] then []
    else UnclaimedCells(cs[..|cs| - 1]) + (if cs[|cs| - 1].player == 0 then [cs[|cs| - 1].Str()] else [])
  }

  /** Over cells lettered 'A', 'B', ... in order, the comprehension lists
      the letters of the cells whose holder is 0. */
  lemma {:induction false} UnclaimedFree(cs: seq<Cell>)
    requires |cs| <= 25 && forall n :: 0 <= n < |cs| ==> cs[n].letter == [Letter(n)]
    ensures UnclaimedCells(cs) == Free(Holders(cs))
  {
    if cs != [] {
      UnclaimedFree(cs[..|cs| - 1]);
      assert Holders(cs)[..|cs| - 1] == Holders(cs[..|cs| - 1]);
    }
  }

  /** The per-cell comparison of two `__repr__` texts: same letters and
      same holders, in order. */
  predicate SameClaims(cs: seq<Cell>, ds: seq<Cell>)
    reads cs, ds
  {
    |cs| == |ds| && forall k :: 0 <= k < |cs| ==> cs[k].letter == ds[k].letter && cs[k].player == ds[k].player
  }

  class StonehengeState {
    const p1Turn: bool
    const size: int
    const grid: Grid
    var p1: int
    var p2: int
    /** The state and every object of its grid. */
    ghost var Repr: set<object>

    ghost predicate Valid()
      reads this, Repr
    {
      && this in Repr && grid in Repr && grid.Repr <= Repr && this !in grid.Repr
      && grid.Valid() && grid.size == size
    }

    /** The state as a value. */
    ghost function View(): (s: Snap)
      requires Valid()
      reads this, Repr
      ensures WellFormed(s.board) && s.board.size == size
    {
      Snap(p1Turn, grid.View(), p1, p2)
    }

    /** `StonehengeState(is_p1_turn, size)` without a grid: a new grid of
        that size and both scores 0. */
    constructor(isP1Turn: bool, size: int)
      requires GoodSize(size)
      ensures Valid() && fresh(Repr)
      ensures View() == Initial(isP1Turn, size)
    {
      var g := FreshGrid(size);
      p1Turn, this.size, grid := isP1Turn, size, g;
      p1, p2 := 0, 0;
      new;
      Repr := {this} + g.Repr;
    }

    /** `StonehengeState(is_p1_turn, size, grid)`: the grid given, both
        scores 0. */
    constructor WithGrid(isP1Turn: bool, size: int, g: Grid)
      requires g.Valid() && g.size == size
      ensures Valid() && grid == g && Repr == {this} + g.Repr
      ensures View() == Snap(isP1Turn, g.View(), 0, 0)
    {
      p1Turn, this.size, grid := isP1Turn, size, g;
      p1, p2 := 0, 0;
      new;
      Repr := {this} + g.Repr;
    }

    /** `get_possible_moves`. */
    function GetPossibleMoves(): (ms: seq<string>)
      requires Valid()
      reads this, Repr
      ensures ms == Moves(View())
    {
      UnclaimedFree(grid.cells);
      if Reached(p1, size) || Reached(p2, size) then [] else UnclaimedCells(grid.cells)
    }

    /** `is_valid_move`, inherited from `GameState`. */
    function IsValidMove(move: string): (b: bool)
      requires Valid()
      reads this, Repr
      ensures b <==> !Over(View()) && exists n :: 0 <= n < |grid.cells| && grid.cells[n].player == 0 && move == [Letter(n)]
    {
      MovesMeaning(View());
      GameStates.IsValidMove(GetPossibleMoves(), move)
    }

    /** `make_move`: a new state with the turn passed, over a copy of the
        grid updated for the player to move, with both scores recounted.
        The receiver is left as it was. */
    method MakeMove(move: string) returns (t: StonehengeState)
      requires Valid()
      ensures fresh(t) && fresh(t.Repr) && t.Valid()
      ensures t.View() == Next(old(View()), move)
    {
      var g, a, b := MovedCopy(grid, CurrentPlayerName(p1Turn), move);
      ghost var after := g.View();
      t := new StonehengeState.WithGrid(!p1Turn, size, g);
      t.SetScores(a, b);
    }

    /** `new_state.p1, new_state.p2 = ...`: only the scores change. */
    method SetScores(a: int, b: int)
      requires Valid()
      modifies this
      ensures Valid() && Repr == old(Repr)
      ensures View() == old(View()).(p1 := a, p2 := b)
    {
      p1, p2 := a, b;
    }

    /** `finished`: the state after the move has a score at the threshold.
        As in the source, the move is made a second time to read `p2`. */
    method Finished(move: string) returns (b: bool)
      requires Valid()
      ensures b == Finishes(old(View()), move)
    {
      var t := MakeMove(move);
      if Reached(t.p1, size) {
        b := true;
      } else {
        var u := MakeMove(move);
        b := Reached(u.p2, size);
      }
    }

    /** `get_winner`. */
    function GetWinner(): (w: string)
      requires Valid()
      reads this, Repr
      ensures w == Winner(View())
    {
      if Reached(p1, size) then "p1" else "p2"
    }

    /** `__eq__`: the `__repr__` texts agree, which is the same player to
        move, the same letters and holders of the cells, and the same
        scores. */
    function Equals(other: StonehengeState): (r: bool)
      requires Valid() && other.Valid()
      reads this, Repr, other, other.Repr
      ensures r <==> Eq(View(), other.View())
    {
      assert SameClaims(grid.cells, other.grid.cells) <==> Holders(grid.cells) == Holders(other.grid.cells) by {
        if Holders(grid.cells) == Holders(other.grid.cells) {
          assert |grid.cells| == |other.grid.cells|;
        }
      }
      && CurrentPlayerName(p1Turn) == CurrentPlayerName(other.p1Turn)
      && SameClaims(grid.cells, other.grid.cells)
      && p1 == other.p1 && p2 == other.p2
    }

    /** `rough_outcome`, with its lists built by loops. */
    method RoughOutcome() returns (r: int)
      requires Valid()
      ensures r == Rough(old(View()))
    {
      if GetPossibleMoves() == [] {
        return if GetWinner() == CurrentPlayerName(p1Turn) then WIN else LOSE;
      }
      var flags := FinishFlags(this);
      if true in flags {
        return WIN;
      }
      var result := ReplyFlags(this);
      return if false !in result then LOSE else DRAW;
    }
  }

  /** `self.grid.copy()`, then `update_grid(name, move)` and the two
      `get_score` calls on the copy. The source builds the new state around
      the copy before updating it; nothing can observe that order, since
      the new state is not yet shared. */
  method MovedCopy(grid: Grid, name: string, move: string) returns (g: Grid, a: int, b: int)
    requires grid.Valid()
    ensures fresh(g) && fresh(g.Repr) && g.Valid() && g.size == grid.size
    ensures g.View() == Update(old(grid.View()), name, move)
    ensures a == Score(g.View(), 1) && b == Score(g.View(), 2)
  {
    ghost var v0 := grid.View();
    g := grid.Copy();
    assert g.View() == v0;
    g.UpdateGrid(name, move);
    a, b := Scores(g);
  }

  method Scores(g: Grid) returns (a: int, b: int)
    requires g.Valid()
    ensures a == Score(g.View(), 1) && b == Score(g.View(), 2)
  {
    a := g.GetScore(1);
    b := g.GetScore(2);
  }

  /** `[st.finished(move) for move in st.get_possible_moves()]`. */
  method FinishFlags(st: StonehengeState) returns (flags: seq<bool>)
    requires st.Valid()
    ensures flags == Finishing(old(st.View()), Moves(old(st.View())))
  {
    ghost var s0 := st.View();
    var ms := st.GetPossibleMoves();
    ghost var want := Finishing(s0, ms);
    flags := [];
    var i := 0;
    while i < |ms|
      invariant 0 <= i <= |ms| && flags == want[..i] && st.Valid() && st.View() == s0
    {
      var f := st.Finished(ms[i]);
      assert want[..i + 1] == want[..i] + [want[i]];
      flags := flags + [f];
      i := i + 1;
    }
    assert want[..i] == want;
  }

  /** The list `result` of `rough_outcome`, built by its loop. */
  method ReplyFlags(st: StonehengeState) returns (result: seq<bool>)
    requires st.Valid()
    ensures result == Replies(old(st.View()), Moves(old(st.View())))
  {
    ghost var s0 := st.View();
    var ms := st.GetPossibleMoves();
    ghost var want := Replies(s0, ms);
    result := [];
    var i := 0;
    while i < |ms|
      invariant 0 <= i <= |ms| && result == want[..i] && st.Valid() && st.View() == s0
    {
      var b := Threat(st, ms[i], s0);
      assert want[..i + 1] == want[..i] + [want[i]];
      result := result + [b];
      i := i + 1;
    }
    assert want[..i] == want;
  }

  /** One entry of that list: the move is made, and the opponent's moves
      from there are tried for one that finishes the game. */
  method Threat(st: StonehengeState, move: string, ghost s0: Snap) returns (b: bool)
    requires st.Valid() && st.View() == s0
    ensures b == Threatened(s0, move)
  {
    var t := st.MakeMove(move);
    var fs := FinishFlags(t);
    b := true in fs;
  }

  /** `Grid(size)`, seen only through its view. */
  method FreshGrid(size: int) returns (g: Grid)
    requires GoodSize(size)
    ensures fresh(g.Repr) && g.Valid() && g.size == size && g.View() == FreshBoard(size)
  {
    g := new Grid(size);
  }

  /** `StonehengeState(is_p1_turn, size)` for any size: a size outside 1
      to 5 raises what `Grid` raises, ValueError for sizes with too many
      cells to letter and KeyError otherwise. */
  method NewState(isP1Turn: bool, size: int) returns (r: Result<StonehengeState>)
    ensures !GoodSize(size) <==> r.Err?
    ensures r.Err? ==> r.error == (if size >= 1491 || size <= -1496 then ValueError else KeyError)
    ensures r.Ok? ==> fresh(r.value) && r.value.Valid() && r.value.View() == Initial(isP1Turn, size)
  {
    if !GoodSize(size) {
      SizeErrorBounds(size);
      return Err(SizeError(size));
    }
    var st := new StonehengeState(isP1Turn, size);
    return Ok(st);
  }
}
