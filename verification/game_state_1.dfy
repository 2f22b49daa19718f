/** The second copy of the Stonehenge state, in
    Assignment/a2/Trash/game_state_1.py, with its two helper functions.
    Its `get_possible_moves`, `make_move`, `finished` and `get_winner` are
    those of `StonehengeStates`, so its states are `StonehengeState`
    objects here; only `rough_outcome` differs. */
module GameStateOne {
  import opened GridLayout
  import opened GameStates
  import opened StonehengeStates

  // ------------------------------------------------------------ rough outcome

  /** The variant's list `result`: `any` of the states the opponent's moves
      lead to. A state object is always true, so an entry is true exactly
      when the opponent has a move at all. */
  function Moved(s: Snap, ms: seq<string>): (bs: seq<bool>)
    requires WellFormed(s.board)
    ensures |bs| == |ms| && forall k :: 0 <= k < |ms| ==> bs[k] == (Moves(Next(s, ms[k])) != [])
  {
    seq(|ms|, k requires 0 <= k < |ms| => Moves(Next(s, ms[k])) != [])
  }

  /** The variant `rough_outcome`: as in `StonehengeStates.Rough` up to the
      last test, which asks whether every move leaves the opponent some
      move rather than a finishing one. */
  function RoughVariant(s: Snap): int
    requires WellFormed(s.board)
  {
    var ms := Moves(s);
    if ms == [] then (if Winner(s) == CurrentPlayerName(s.p1Turn) then WIN else LOSE)
    else if true in Finishing(s, ms) then WIN
    else if false !in Moved(s, ms) then LOSE
    else DRAW
  }

  /** The variant is one of LOSE, DRAW and WIN; with moves left it is a
      loss iff no move finishes the game and every move leaves the opponent
      a move. It agrees with `Rough` on wins, and every loss `Rough` finds
      is a loss for it too. */
  lemma RoughVariantMeaning(s: Snap)
    requires WellFormed(s.board)
    ensures RoughVariant(s) == LOSE || RoughVariant(s) == DRAW || RoughVariant(s) == WIN
    ensures Moves(s) != [] ==> (RoughVariant(s) == LOSE <==>
      && (forall m :: m in Moves(s) ==> !Finishes(s, m))
      && (forall m :: m in Moves(s) ==> Moves(Next(s, m)) != []))
    ensures RoughVariant(s) == WIN <==> Rough(s) == WIN
    ensures Rough(s) == LOSE ==> RoughVariant(s) == LOSE
  {
    var ms := Moves(s);
    AnyFinishing(s, ms);
    AllMoved(s, ms);
    if ms != [] && Rough(s) == LOSE {
      forall k | 0 <= k < |ms|
        ensures Moved(s, ms)[k]
      {
        assert Replies(s, ms)[k];
      }
    }
  }

  lemma AllMoved(s: Snap, ms: seq<string>)
    requires WellFormed(s.board)
    ensures false !in Moved(s, ms) <==> forall m :: m in ms ==> Moves(Next(s, m)) != []
  {
    var bs := Moved(s, ms);
    if false in bs {
      var k :| 0 <= k < |ms| && !bs[k];
      assert ms[k] in ms;
    }
  }

  /** The variant `rough_outcome`, over the shared state class. */
  method RoughOutcomeVariant(st: StonehengeState) returns (r: int)
    requires st.Valid()
    ensures r == RoughVariant(old(st.View()))
  {
    if st.GetPossibleMoves() == [] {
      return if st.GetWinner() == CurrentPlayerName(st.p1Turn) then WIN else LOSE;
    }
    var flags := FinishFlags(st);
    if true in flags {
      return WIN;
    }
    var result := MovedFlags(st);
    return if false !in result then LOSE else DRAW;
  }

  /** The loop building the variant's `result`. */
  method MovedFlags(st: StonehengeState) returns (result: seq<bool>)
    requires st.Valid()
    ensures result == Moved(old(st.View()), Moves(old(st.View())))
  {
    ghost var s0 := st.View();
    var ms := st.GetPossibleMoves();
    ghost var want := Moved(s0, ms);
    result := [];
    var i := 0;
    while i < |ms|
      invariant 0 <= i <= |ms| && result == want[..i] && st.Valid() && st.View() == s0
    {
      var b := AnyChild(st, ms[i], s0);
      assert want[..i + 1] == want[..i] + [want[i]];
      result := result + [b];
      i := i + 1;
    }
    assert want[..i] == want;
  }

  /** One entry: the move is made, every opponent move is made from there,
      and `any` of the resulting states is taken. */
  method AnyChild(st: StonehengeState, move: string, ghost s0: Snap) returns (b: bool)
    requires st.Valid() && st.View() == s0
    ensures b == (Moves(Next(s0, move)) != [])
  {
    var t := st.MakeMove(move);
    var children := MakeEach(t);
    b := |children| > 0;
  }

  /** `[state.make_move(move) for move in state.get_possible_moves()]`. */
  method MakeEach(st: StonehengeState) returns (children: seq<StonehengeState>)
    requires st.Valid()
    ensures |children| == |Moves(old(st.View()))|
  {
    var ms := st.GetPossibleMoves();
    children := [];
    var i := 0;
    while i < |ms|
      invariant 0 <= i <= |ms| && |children| == i && st.Valid()
    {
      var t := st.MakeMove(ms[i]);
      children := children + [t];
      i := i + 1;
    }
  }

  // --------------------------------------------------------------- gather_str

  /** The values `gather_str` meets: strings, lists, and anything else. */
  datatype PyVal = PyStr(s: string) | PyList(items: seq<PyVal>) | PyOther

  /** `gather_str`: a string gives itself, a list the concatenation of what
      its items give, from the left, and anything else nothing. */
  function GatherStr(v: PyVal): seq<string>
    decreases v, 1
  {
    match v
    case PyStr(s) => [s]
    case PyOther => []
    case PyList(xs) => GatherAll(xs)
  }

  /** `sum([gather_str(x) for x in xs], [])`. */
  function GatherAll(xs: seq<PyVal>): seq<string>
    decreases xs, 0
  {
    if xs == [] then [] else GatherAll(xs[..|xs| - 1]) + GatherStr(xs[|xs| - 1])
  }

  /** Gathering a concatenation gathers each part. */
  lemma {:induction false} GatherAppend(xs: seq<PyVal>, ys: seq<PyVal>)
    ensures GatherAll(xs + ys) == GatherAll(xs) + GatherAll(ys)
    decreases |ys|
  {
    if ys == [] {
      assert xs + ys == xs;
    } else {
      var ys', y := ys[..|ys| - 1], ys[|ys| - 1];
      assert (xs + ys)[..|xs + ys| - 1] == xs + ys' && (xs + ys)[|xs + ys| - 1] == y;
      assert GatherAll(xs + ys) == GatherAll(xs + ys') + GatherStr(y);
      assert GatherAll(ys) == GatherAll(ys') + GatherStr(y);
      GatherAppend(xs, ys');
    }
  }

  /** The items of a flat list of strings. */
  function Strs(ss: seq<string>): (xs: seq<PyVal>)
    ensures |xs| == |ss| && forall i :: 0 <= i < |ss| ==> xs[i] == PyStr(ss[i])
  {
    seq(|ss|, i requires 0 <= i < |ss| => PyStr(ss[i]))
  }

  /** A flat list of strings gives those strings back, in order. */
  lemma {:induction false} GatherFlat(ss: seq<string>)
    ensures GatherStr(PyList(Strs(ss))) == ss
  {
    if ss != [] {
      var pre := ss[..|ss| - 1];
      GatherFlat(pre);
      assert Strs(ss)[..|ss| - 1] == Strs(pre);
      assert GatherAll(Strs(ss)) == GatherAll(Strs(pre)) + GatherStr(PyStr(ss[|ss| - 1]));
    }
  }

  /** Wrapping a value in a list changes nothing, and neither do items that
      are neither strings nor lists. */
  lemma GatherWrap(v: PyVal, n: nat)
    ensures GatherStr(PyList([v])) == GatherStr(v)
    ensures GatherAll(seq(n, _ => PyOther)) == []
  {
    assert [v][..0] == [];
    assert GatherAll([v]) == GatherAll([]) + GatherStr(v);
    OthersGiveNothing(n);
  }

  lemma {:induction false} OthersGiveNothing(n: nat)
    ensures GatherAll(seq(n, _ => PyOther)) == []
  {
    if n > 0 {
      OthersGiveNothing(n - 1);
      assert seq(n, _ => PyOther)[..n - 1] == seq(n - 1, _ => PyOther);
      assert GatherAll(seq(n, _ => PyOther)) == GatherAll(seq(n - 1, _ => PyOther)) + GatherStr(PyOther);
    }
  }

  // -------------------------------------------------------------- get_leyline

  /** `[chr(65 + n) for n in range(26)]`. */
  function Alphabet(): (cell: seq<string>)
    ensures |cell| == 26 && forall n :: 0 <= n < 26 ==> cell[n] == [Letter(n)]
  {
    seq(26, n requires 0 <= n < 26 => [Letter(n)])
  }

  /** Python's `lst[i:j]` for a non-negative start: a negative end counts
      from the back, and both ends are clamped to the list. */
  function Slice<T>(lst: seq<T>, i: int, j: int): (r: seq<T>)
    requires 0 <= i
    ensures |r| <= |lst|
    ensures i <= j <= |lst| ==> r == lst[i..j]
    ensures |lst| <= i ==> r == []
  {
    var e := if j < 0 then j + |lst| else j;
    var e' := if e < 0 then 0 else if e > |lst| then |lst| else e;
    var b := if i > |lst| then |lst| else i;
    if b >= e' then [] else lst[b..e']
  }

  /** Group `j` of `get_leyline(side)` for a positive side: `LeyLength(side, j)`
      letters from `LeyStart(j)`, clamped to the alphabet. */
  function Group(side: nat, j: nat): seq<string> {
    Slice(Alphabet(), LeyStart(j), LeyStart(j) + LeyLength(side, j))
  }

  /** What `get_leyline(side)` returns: for a positive side, groups of
      lengths 2, 3, ..., side + 1 and then side, cut one after the other
      from the alphabet; otherwise the single group `cell[0:side]`. */
  function LeyRows(side: int): (rows: seq<seq<string>>)
    ensures side <= 0 ==> rows == [Slice(Alphabet(), 0, side)]
    ensures side > 0 ==> |rows| == side + 1 && forall j :: 0 <= j <= side ==> rows[j] == Group(side, j)
  {
    if side <= 0 then [Slice(Alphabet(), 0, side)]
    else seq(side + 1, j requires 0 <= j <= side => Group(side, j))
  }

  /** `get_leyline`. */
  method GetLeyline(side: int) returns (result: seq<seq<string>>)
    ensures result == LeyRows(side)
  {
    var cell := Alphabet();
    var length, start := 2, 0;
    result := [];
    while length <= side + 1
      invariant 2 <= length && (side >= 1 ==> length <= side + 2) && (side < 1 ==> length == 2)
      invariant start == LeyStart(length - 2) && |result| == length - 2
      invariant forall j :: 0 <= j < |result| ==> result[j] == Group(side, j)
    {
      result := result + [Slice(cell, start, start + length)];
      start := start + length;
      length := length + 1;
    }
    result := result + [Slice(cell, start, start + side)];
    if side > 0 {
      assert result[side] == Group(side, side);
    }
  }

  /** For every side `Grid` accepts, `get_leyline` lists, group by group,
      the letters of the cells of `Grid`'s horizontal ley-lines: the two
      layouts agree. */
  lemma LeylineMatchesGrid(side: int)
    requires GoodSize(side)
    ensures |LeyRows(side)| == |LeyTable(side)| == side + 1
    ensures forall j :: 0 <= j <= side ==> |LeyRows(side)[j]| == |LeyTable(side)[j]|
    ensures forall j, k :: 0 <= j <= side && 0 <= k < |LeyTable(side)[j]| ==>
      0 <= LeyTable(side)[j][k] < 26 && LeyRows(side)[j][k] == [Letter(LeyTable(side)[j][k])]
  {
    SmallBoard(side);
    forall j | 0 <= j <= side
      ensures |LeyRows(side)[j]| == |LeyTable(side)[j]|
      ensures forall k :: 0 <= k < |LeyTable(side)[j]| ==>
        0 <= LeyTable(side)[j][k] < 26 && LeyRows(side)[j][k] == [Letter(LeyTable(side)[j][k])]
    {
      LeyTableAt(side, j);
      LeyBound(side, j);
    }
  }
}
