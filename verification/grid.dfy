/** The classes of grid.py: cells that players claim, ley-lines over those
    cells, and the grid that owns both. `Grid` is proved against the board
    value of `GridLayout` through its `View`.

    In a grid built from a size, every line holds the grid's own cell
    objects; in a copy every line holds copies of its own. Either way the
    grid stays consistent because a move updates cells by letter: the
    invariant is that each unclaimed line's cells carry the letters and
    holders of the grid cells its table row names. */
module StonehengeGrid {
  import opened Wrappers
  import opened PyText
  import opened GridLayout

  /** A lettered cell; `player` is 0 until a player claims it. */
  class Cell {
    const letter: string
    var player: int

    /** `Cell(letter, player)`; the source's default player is 0. */
    constructor(letter: string, player: int)
      ensures this.letter == letter && this.player == player
    {
      this.letter, this.player := letter, player;
    }

    /** `__str__`: the letter while nobody holds the cell, otherwise the
        holder's number in decimal. */
    function Str(): (s: string)
      reads this
      ensures player == 0 ==> s == letter
      ensures player > 0 ==> IsDigits(s) && DecimalValue(s) == player
    {
      if player == 0 then letter
      else if player > 0 then DecimalRoundTrip(player); IntText(player)
      else IntText(player)
    }

    /** `update_cell`: an unclaimed cell whose letter is the move goes to 1
        for 'p1' and to 2 for any other name; otherwise nothing changes.
        The cell itself is returned. */
    method UpdateCell(name: string, move: string) returns (r: Cell)
      modifies this
      ensures r == this
      ensures old(player) == 0 && letter == move ==> player == PlayerNumber(name)
      ensures !(old(player) == 0 && letter == move) ==> player == old(player)
    {
      if player == 0 && letter == move {
        player := if name == "p1" then 1 else 2;
      }
      r := this;
    }

    /** `copy`: a new cell with the same letter and holder. */
    method Copy() returns (c: Cell)
      ensures fresh(c) && c.letter == letter && c.player == player
    {
      c := new Cell(letter, 0);
      c.player := player;
    }
  }

  /** The holders of a run of cells. */
  ghost function Holders(cs: seq<Cell>): (ps: seq<int>)
    reads cs
    ensures |ps| == |cs| && forall k :: 0 <= k < |cs| ==> ps[k] == cs[k].player
  {
    seq(|cs|, k requires 0 <= k < |cs| reads cs => cs[k].player)
  }

  /** The holders of a run of lines. */
  ghost function Owners(ls: seq<Line>): (os: seq<Owner>)
    reads ls
    ensures |os| == |ls| && forall j :: 0 <= j < |ls| ==> os[j] == ls[j].player
  {
    seq(|ls|, j requires 0 <= j < |ls| reads ls => ls[j].player)
  }

  /** The claim loop shared by `update_line` and the comprehension of
      `update_grid`: `update_cell` on every cell, in order. A cell listed
      twice is claimed once, since a claimed cell is left alone. */
  method ClaimAll(cs: seq<Cell>, name: string, move: string) returns (r: seq<Cell>)
    modifies cs
    ensures r == cs
    ensures forall c :: c in cs ==> c.player == Claim(old(c.player), c.letter, move, PlayerNumber(name))
  {
    ghost var who := PlayerNumber(name);
    r := cs;
    var i := 0;
    while i < |r|
      invariant 0 <= i <= |r| && r == cs
      invariant forall c :: c in cs ==> c.player == old(c.player) || c.player == Claim(old(c.player), c.letter, move, who)
      invariant forall k :: 0 <= k < i ==> r[k].player == Claim(old(r[k].player), r[k].letter, move, who)
    {
      var c := r[i].UpdateCell(name, move);
      r := r[i := c];
      i := i + 1;
    }
  }

  /** A ley-line: its cells, its holder, and the per-player counts of its
      cells that `check_score` refreshes. */
  class Line {
    var cells: seq<Cell>
    var player: Owner
    var player1: int
    var player2: int
    const total: int

    /** `Line(cells, player)`: the counts start at 0 and `total` is the
        number of cells; the source's default holder is '@'. */
    constructor(cells: seq<Cell>, player: Owner)
      ensures this.cells == cells && this.player == player
      ensures player1 == 0 && player2 == 0 && total == |cells|
    {
      this.cells, this.player := cells, player;
      this.player1, this.player2, this.total := 0, 0, |cells|;
    }

    /** `check_score`: the counts become the numbers of cells held by 1
        and by 2, which together never exceed the line's length. */
    method CheckScore()
      modifies this
      ensures cells == old(cells) && player == old(player)
      ensures player1 == Count(Holders(cells), 1) && player2 == Count(Holders(cells), 2)
      ensures player1 + player2 <= |cells|
    {
      player1, player2 := 0, 0;
      ghost var ps := Holders(cells);
      for i := 0 to |cells|
        invariant cells == old(cells) && player == old(player)
        invariant player1 == Count(ps[..i], 1) && player2 == Count(ps[..i], 2)
      {
        assert ps[..i + 1][..i] == ps[..i] && ps[i] == cells[i].player;
        if cells[i].player == 1 {
          player1 := player1 + 1;
        } else if cells[i].player == 2 {
          player2 := player2 + 1;
        }
      }
      assert ps[..|cells|] == ps;
      CountsBound(ps);
    }

    /** `update_line`: a held line is left as it is. An unclaimed one
        claims the move's cell among its own and is then captured by the
        player holding at least half of its cells, player 1 tested first. */
    method UpdateLine(name: string, move: string)
      requires total == |cells|
      modifies this, cells
      ensures cells == old(cells)
      ensures old(player) != Unclaimed ==>
        && player == old(player) && player1 == old(player1) && player2 == old(player2)
        && forall c :: c in cells ==> c.player == old(c.player)
      ensures old(player) == Unclaimed ==>
        && (forall c :: c in cells ==> c.player == Claim(old(c.player), c.letter, move, PlayerNumber(name)))
        && player1 == Count(Holders(cells), 1) && player2 == Count(Holders(cells), 2)
        && player == Capture(Holders(cells))
    {
      if player == Unclaimed {
        var updated := ClaimAll(cells, name, move);
        cells := updated;
        CheckScore();
        if 2 * player1 >= total {
          player := Held(1);
        } else if 2 * player2 >= total {
          player := Held(2);
        }
      }
    }

    /** `copy`: a new line over new copies of the cells, with the same
        holder and counts. */
    method Copy() returns (l: Line)
      ensures fresh(l) && l.player == player && l.player1 == player1 && l.player2 == player2
      ensures |l.cells| == |cells| && l.total == |cells|
      ensures forall k :: 0 <= k < |cells| ==>
        fresh(l.cells[k]) && l.cells[k].letter == cells[k].letter && l.cells[k].player == cells[k].player
      ensures fresh(CellObjects(l.cells))
    {
      var copies := CopyCells(cells);
      l := new Line(copies, player);
      l.player1, l.player2 := player1, player2;
    }
  }

  /** `[cell.copy() for cell in cs]`. */
  method CopyCells(cs: seq<Cell>) returns (r: seq<Cell>)
    ensures |r| == |cs|
    ensures forall k :: 0 <= k < |cs| ==> fresh(r[k]) && r[k].letter == cs[k].letter && r[k].player == cs[k].player
    ensures fresh(CellObjects(r))
  {
    r := [];
    for k := 0 to |cs|
      invariant |r| == k
      invariant forall m :: 0 <= m < k ==> fresh(r[m]) && r[m].letter == cs[m].letter && r[m].player == cs[m].player
    {
      var c := cs[k].Copy();
      r := r + [c];
    }
  }

  /** No line object occurs twice. */
  predicate Distinct(ls: seq<Line>) {
    forall a, b :: 0 <= a < b < |ls| ==> ls[a] != ls[b]
  }

  /** No line of `a` is a line of `b`. */
  predicate Apart(a: seq<Line>, b: seq<Line>) {
    forall i, j :: 0 <= i < |a| && 0 <= j < |b| ==> a[i] != b[j]
  }

  lemma DistinctConcat(a: seq<Line>, b: seq<Line>)
    requires Distinct(a) && Distinct(b) && Apart(a, b)
    ensures Distinct(a + b)
  {
  }

  /** `[line.copy() for line in ls]`; `objs` holds the new lines and
      their new cells. */
  method CopyLines(ls: seq<Line>, ghost orig: set<object>) returns (r: seq<Line>, ghost objs: set<object>)
    requires forall j, k :: 0 <= j < |ls| && 0 <= k < |ls[j].cells| ==> ls[j].cells[k] in orig
    ensures Distinct(r) && Copied(r, ls, objs, orig) && fresh(objs)
  {
    r, objs := [], {};
    for j := 0 to |ls|
      invariant Distinct(r) && Copied(r, ls[..j], objs, orig) && fresh(objs)
    {
      var l := ls[j].Copy();
      ghost var objs2 := objs + {l} + CellObjects(l.cells);
      CopiedExtend(r, ls[..j], l, ls[j], objs, objs2, orig);
      r, objs := r + [l], objs2;
      assert ls[..j + 1] == ls[..j] + [ls[j]];
    }
    assert ls[..|ls|] == ls;
  }

  /** The loop of `get_left` and `get_right`: one new unclaimed line per
      row of the table, over the listed cells themselves. An index past
      the end of the cells is an IndexError. */
  method BuildLines(lst: seq<Cell>, form: seq<seq<int>>) returns (r: Result<seq<Line>>)
    requires forall j, k :: 0 <= j < |form| && 0 <= k < |form[j]| ==> form[j][k] >= 0
    ensures r.Ok? <==> InRange(form, |lst|)
    ensures r.Ok? ==> Spans(r.value, lst, form) && Distinct(r.value)
    ensures r.Ok? ==> forall j :: 0 <= j < |r.value| ==> fresh(r.value[j])
    ensures r.Ok? ==> fresh(LineObjects(r.value))
  {
    var result: seq<Line> := [];
    for j := 0 to |form|
      invariant InRange(form[..j], |lst|)
      invariant Spans(result, lst, form[..j]) && Distinct(result)
      invariant forall m :: 0 <= m < j ==> fresh(result[m])
    {
      var row := form[j];
      var k := 0;
      while k < |row|
        invariant 0 <= k <= |row| && forall m :: 0 <= m < k ==> row[m] < |lst|
      {
        if row[k] >= |lst| {
          return Err(IndexError);
        }
        k := k + 1;
      }
      var line := new Line(seq(|row|, m requires 0 <= m < |row| => lst[row[m]]), Unclaimed);
      result := result + [line];
    }
    assert form[..|form|] == form;
    return Ok(result);
  }

  /** `ls` are unclaimed lines, one per row of `form`, each over the cells
      of `lst` its row names. */
  ghost predicate Spans(ls: seq<Line>, lst: seq<Cell>, form: seq<seq<int>>)
    reads ls
  {
    && |ls| == |form| && InRange(form, |lst|)
    && forall j :: 0 <= j < |ls| ==>
      && ls[j].player == Unclaimed && ls[j].player1 == 0 && ls[j].player2 == 0
      && |ls[j].cells| == |form[j]| && ls[j].total == |form[j]|
      && forall k :: 0 <= k < |form[j]| ==> ls[j].cells[k] == lst[form[j][k]]
  }

  /** `get_left`: sizes 1 to 5 have a table, any other size is a KeyError. */
  method GetLeft(lst: seq<Cell>, size: int) returns (r: Result<seq<Line>>)
    ensures LeftTable(size).None? ==> r == Err(KeyError)
    ensures LeftTable(size).Some? ==> (r.Ok? <==> InRange(LeftTable(size).value, |lst|))
    ensures r.Ok? ==> Spans(r.value, lst, LeftTable(size).value) && Distinct(r.value)
    ensures r.Ok? ==> forall j :: 0 <= j < |r.value| ==> fresh(r.value[j])
    ensures r.Ok? ==> fresh(LineObjects(r.value))
  {
    match LeftTable(size)
    case None => r := Err(KeyError);
    case Some(form) => r := BuildLines(lst, form);
  }

  /** `get_right`: sizes 1 to 5 have a table, any other size is a KeyError. */
  method GetRight(lst: seq<Cell>, size: int) returns (r: Result<seq<Line>>)
    ensures RightTable(size).None? ==> r == Err(KeyError)
    ensures RightTable(size).Some? ==> (r.Ok? <==> InRange(RightTable(size).value, |lst|))
    ensures r.Ok? ==> Spans(r.value, lst, RightTable(size).value) && Distinct(r.value)
    ensures r.Ok? ==> forall j :: 0 <= j < |r.value| ==> fresh(r.value[j])
    ensures r.Ok? ==> fresh(LineObjects(r.value))
  {
    match RightTable(size)
    case None => r := Err(KeyError);
    case Some(form) => r := BuildLines(lst, form);
  }

  /** The list comprehension of `Grid.__init__`: new unclaimed cells
      lettered 'A', 'B', ... */
  method NewCells(count: nat) returns (cs: seq<Cell>)
    requires 65 + count <= 0xD800
    ensures |cs| == count
    ensures forall m :: 0 <= m < count ==> fresh(cs[m]) && cs[m].letter == [Letter(m)] && cs[m].player == 0
    ensures fresh(CellObjects(cs))
  {
    cs := [];
    for n := 0 to count
      invariant |cs| == n
      invariant forall m :: 0 <= m < n ==> fresh(cs[m]) && cs[m].letter == [Letter(m)] && cs[m].player == 0
    {
      var c := new Cell([(65 + n) as char], 0);
      cs := cs + [c];
    }
  }

  /** The ley-line loop of `Grid.__init__`: lines of `interval` cells for
      intervals 2 to size + 1, each starting where the last ended, then one
      line of `size` cells. */
  method LeyLines(cs: seq<Cell>, size: nat) returns (ley: seq<Line>)
    requires |cs| == CellCount(size)
    ensures Spans(ley, cs, LeyTable(size)) && Distinct(ley)
    ensures forall j :: 0 <= j < |ley| ==> fresh(ley[j])
    ensures fresh(LineObjects(ley))
  {
    var start;
    ley, start := RisingLeyLines(cs, size);
    var last := NewLeyLine(cs, size, size, start, size);
    ley := ley + [last];
    assert forall j :: 0 <= j < |ley| ==> LeyLineAt(ley[j], cs, size, j);
    LeySpans(ley, cs, size);
  }

  /** The loop itself: the lines of 2 to size + 1 cells, and where the
      next line starts. */
  method RisingLeyLines(cs: seq<Cell>, size: nat) returns (ley: seq<Line>, start: int)
    requires |cs| == CellCount(size)
    ensures |ley| == size && start == LeyStart(size) && Distinct(ley)
    ensures forall j :: 0 <= j < |ley| ==> fresh(ley[j])
    ensures forall j :: 0 <= j < |ley| ==> LeyLineAt(ley[j], cs, size, j)
  {
    ley := [];
    var interval := 2;
    start := 0;
    while interval <= size + 1
      invariant 2 <= interval <= size + 2 && start == LeyStart(interval - 2) && |ley| == interval - 2
      invariant forall j :: 0 <= j < |ley| ==> fresh(ley[j])
      invariant forall j :: 0 <= j < |ley| ==> LeyLineAt(ley[j], cs, size, j)
      invariant Distinct(ley)
    {
      var line := NewLeyLine(cs, size, interval - 2, start, interval);
      ley := ley + [line];
      start, interval := start + interval, interval + 1;
    }
  }

  /** `Line(cells[start:start + length])` for ley-line `j`. */
  method NewLeyLine(cs: seq<Cell>, size: nat, j: nat, start: int, length: int) returns (line: Line)
    requires |cs| == CellCount(size) && j <= size && start == LeyStart(j) && length == LeyLength(size, j)
    ensures fresh(line) && LeyLineAt(line, cs, size, j)
  {
    LeyBound(size, j);
    line := new Line(cs[start..start + length], Unclaimed);
  }

  /** Line `j` is a new unclaimed line over the `j`-th run of cells. */
  ghost predicate LeyLineAt(l: Line, cs: seq<Cell>, size: nat, j: nat)
    reads l
  {
    && LeyStart(j) + LeyLength(size, j) <= |cs|
    && l.cells == cs[LeyStart(j)..LeyStart(j) + LeyLength(size, j)]
    && l.player == Unclaimed && l.player1 == 0 && l.player2 == 0 && l.total == LeyLength(size, j)
  }

  lemma LeySpans(ley: seq<Line>, cs: seq<Cell>, size: nat)
    requires |cs| == CellCount(size) && |ley| == size + 1
    requires forall j :: 0 <= j < |ley| ==> LeyLineAt(ley[j], cs, size, j)
    ensures Spans(ley, cs, LeyTable(size))
  {
    var t := LeyTable(size);
    forall j | 0 <= j < |t|
      ensures |ley[j].cells| == |t[j]| && ley[j].total == |t[j]|
      ensures forall k :: 0 <= k < |t[j]| ==> 0 <= t[j][k] < |cs| && ley[j].cells[k] == cs[t[j][k]]
    {
      LeyTableAt(size, j);
    }
  }

  ghost function CellObjects(cs: seq<Cell>): (r: set<object>)
    ensures forall n :: 0 <= n < |cs| ==> cs[n] in r
  {
    set c | c in cs
  }

  ghost function LineObjects(ls: seq<Line>): (r: set<object>)
    ensures forall j :: 0 <= j < |ls| ==> ls[j] in r
  {
    set l | l in ls
  }

  /** The body of `Grid.__init__` for a size: the cells, the ley-lines
      and the diagonals of `get_right` and `get_left`, all new. */
  method Build(size: int) returns (cs: seq<Cell>, ley: seq<Line>, rs: seq<Line>, ls: seq<Line>, ghost objs: set<object>)
    requires GoodSize(size)
    ensures |cs| == CellCount(size) <= 25
    ensures forall n :: 0 <= n < |cs| ==> cs[n].letter == [Letter(n)] && cs[n].player == 0
    ensures Spans(ley, cs, LeyTable(size)) && Spans(rs, cs, RightLines(size))
    ensures Spans(ls, cs, LeftLines(size))
    ensures Distinct(ley + rs + ls)
    ensures objs == CellObjects(cs) + LineObjects(ley) + LineObjects(rs) + LineObjects(ls) && fresh(objs)
  {
    Layout(size);
    cs := GridCells(size);
    ley := LeyLines(cs, size);
    rs, ls := Diagonals(cs, size);
    assert Apart(ley, rs) && Apart(ley + rs, ls);
    DistinctConcat(ley, rs);
    DistinctConcat(ley + rs, ls);
    objs := CellObjects(cs) + LineObjects(ley) + LineObjects(rs) + LineObjects(ls);
  }

  /** The cells of `Grid(size)`, one per letter from 'A'; the float
      expression of the source is exact here, as `(3 + size) * size` is
      even. */
  method GridCells(size: int) returns (cs: seq<Cell>)
    requires GoodSize(size)
    ensures |cs| == CellCount(size) <= 25
    ensures forall n :: 0 <= n < |cs| ==> fresh(cs[n]) && cs[n].letter == [Letter(n)] && cs[n].player == 0
    ensures fresh(CellObjects(cs))
  {
    SmallBoard(size);
    CellCountFormula(size);
    cs := NewCells((3 + size) * size / 2 + size);
  }

  /** `get_right` and `get_left` of `Grid.__init__` for a size with tables. */
  method Diagonals(cs: seq<Cell>, size: int) returns (rs: seq<Line>, ls: seq<Line>)
    requires GoodSize(size) && |cs| == CellCount(size)
    ensures Spans(rs, cs, RightLines(size)) && Spans(ls, cs, LeftLines(size))
    ensures Distinct(rs) && Distinct(ls) && Apart(rs, ls)
    ensures forall j :: 0 <= j < |rs| ==> fresh(rs[j])
    ensures forall j :: 0 <= j < |ls| ==> fresh(ls[j])
    ensures fresh(LineObjects(rs)) && fresh(LineObjects(ls))
  {
    Layout(size);
    DiagonalsMatch(size);
    var right := GetRight(cs, size);
    var left := GetLeft(cs, size);
    rs, ls := right.value, left.value;
  }

  /** A cell of a line agrees with a grid cell in letter and holder. */
  ghost predicate Mirrors(c: Cell, d: Cell)
    reads c, d
  {
    c.letter == d.letter && c.player == d.player
  }

  /** The Stonehenge grid: its cells in letter order and its ley-lines in
      the three directions. */
  class Grid {
    const size: int
    var cells: seq<Cell>
    const leylines: seq<Line>
    const rights: seq<Line>
    const lefts: seq<Line>
    /** Every object the grid reaches: itself, its cells, its lines and
        their cells. */
    ghost var Repr: set<object>

    ghost predicate Valid()
      reads this, Repr
    {
      && this in Repr
      && GoodSize(size) && |cells| == CellCount(size) <= 25
      && (forall n :: 0 <= n < |cells| ==> cells[n] in Repr)
      && (forall n :: 0 <= n < |cells| ==> cells[n].letter == [Letter(n)])
      && Direction(leylines, LeyTable(size))
      && Direction(rights, RightLines(size))
      && Direction(lefts, LeftLines(size))
      && Distinct(leylines + rights + lefts)
    }

    /** One line per table row, each consistent with the grid. */
    ghost predicate Direction(ls: seq<Line>, t: seq<seq<int>>)
      reads this, Repr
    {
      |ls| == |t| && forall j :: 0 <= j < |ls| ==> LineOk(ls[j], t[j])
    }

    /** The line has the row's length and, while unclaimed, mirrors the grid
        cells the row names. */
    ghost predicate LineOk(l: Line, row: seq<int>)
      reads this, Repr
    {
      && l in Repr
      && |l.cells| == |row| && l.total == |row|
      && (forall k :: 0 <= k < |row| ==> l.cells[k] in Repr && 0 <= row[k] < |cells| && cells[row[k]] in Repr)
      && (l.player == Unclaimed ==> forall k :: 0 <= k < |row| ==> Mirrors(l.cells[k], cells[row[k]]))
    }

    /** The board this grid represents. */
    ghost function View(): (b: Board)
      requires Valid()
      reads this, Repr
      ensures WellFormed(b)
    {
      Board(size, Holders(cells), Owners(leylines), Owners(rights), Owners(lefts))
    }

    /** `Grid(size)`: the cells 'A', 'B', ... unclaimed, the horizontal
        ley-lines cut by the start/interval loop, and the diagonals from
        `get_left` and `get_right`, all over the grid's own cells. Sizes
        outside 1 to 5 fail, as `NewGrid` states. */
    constructor(size: int)
      requires GoodSize(size)
      ensures Valid() && fresh(Repr) && this.size == size
      ensures View() == FreshBoard(size)
      ensures Spans(leylines, cells, LeyTable(size))
      ensures Spans(rights, cells, RightLines(size))
      ensures Spans(lefts, cells, LeftLines(size))
    {
      var cs, ley, rs, ls, objs := Build(size);
      this.size, cells := size, cs;
      leylines, rights, lefts := ley, rs, ls;
      new;
      Repr := {this} + objs;
      assert fresh(Repr);
      FreshValid();
      FreshView();
    }

    /** The grid a constructor has just assembled from lines over its own
        cells is consistent. */
    lemma FreshValid()
      requires GoodSize(size) && |cells| == CellCount(size) <= 25
      requires Spans(leylines, cells, LeyTable(size))
      requires Spans(rights, cells, RightLines(size)) && Spans(lefts, cells, LeftLines(size))
      requires Distinct(leylines + rights + lefts)
      requires forall n :: 0 <= n < |cells| ==> cells[n].letter == [Letter(n)]
      requires this in Repr && forall n :: 0 <= n < |cells| ==> cells[n] in Repr
      requires forall j :: 0 <= j < |leylines| ==> leylines[j] in Repr
      requires forall j :: 0 <= j < |rights| ==> rights[j] in Repr
      requires forall j :: 0 <= j < |lefts| ==> lefts[j] in Repr
      ensures Valid()
    {
      SpansDirection(leylines, LeyTable(size));
      SpansDirection(rights, RightLines(size));
      SpansDirection(lefts, LeftLines(size));
    }

    /** Nobody holds anything yet on a grid of new cells and lines. */
    lemma FreshView()
      requires Valid()
      requires forall n :: 0 <= n < |cells| ==> cells[n].player == 0
      requires forall j :: 0 <= j < |leylines| ==> leylines[j].player == Unclaimed
      requires forall j :: 0 <= j < |rights| ==> rights[j].player == Unclaimed
      requires forall j :: 0 <= j < |lefts| ==> lefts[j].player == Unclaimed
      ensures View() == FreshBoard(size)
    {
      assert Holders(cells) == FreshBoard(size).cells;
      assert Owners(leylines) == FreshBoard(size).ley;
      assert Owners(rights) == FreshBoard(size).right;
      assert Owners(lefts) == FreshBoard(size).left;
    }

    /** Lines over the grid's own cells are consistent with it. */
    lemma SpansDirection(ls: seq<Line>, t: seq<seq<int>>)
      requires Spans(ls, cells, t)
      requires forall j :: 0 <= j < |ls| ==> ls[j] in Repr
      requires forall n :: 0 <= n < |cells| ==> cells[n] in Repr
      ensures Direction(ls, t)
    {
    }
  
    /** `update_grid`: every cell is offered the move, then the ley-lines of
        the three directions are updated index by index. The board becomes
        the one the move gives. */
    method UpdateGrid(name: string, move: string)
      requires Valid()
      modifies Repr
      ensures Valid() && Repr == old(Repr)
      ensures View() == Update(old(View()), name, move)
    {
      ghost var who := PlayerNumber(name);
      ghost var before := View();
      ghost var p0 := Players(Repr);
      ghost var ley0, right0, left0 := LineCells(leylines), LineCells(rights), LineCells(lefts);
      Layout(size);
      Entry(p0, move, who);
      DistinctParts(leylines, rights, lefts);
      ClaimCells(name, move, p0, ley0, right0, left0, before);
      var i := 0;
      while i <= size
        invariant 0 <= i <= size + 1
        invariant cells == old(cells) && Repr == old(Repr)
        invariant Sweep(i, i, i, p0, move, who, ley0, right0, left0, before)
      {
        Step(i, name, move, p0, ley0, right0, left0, before);
        i := i + 1;
      }
      Finish(before, p0, name, move, ley0, right0, left0);
    }

    /** The players of the grid's cells and the cells of its lines on entry
        to `update_grid`, with the agreement `Valid` promises. */
    lemma Entry(p0: map<Cell, int>, move: string, who: int)
      requires Valid() && p0 == Players(Repr)
      ensures forall n :: 0 <= n < |cells| ==> cells[n] in p0 && p0[cells[n]] == View().cells[n]
      ensures Agree(LineCells(leylines), Owners(leylines), LeyTable(size), cells, p0)
      ensures Agree(LineCells(rights), Owners(rights), RightLines(size), cells, p0)
      ensures Agree(LineCells(lefts), Owners(lefts), LeftLines(size), cells, p0)
      ensures Done(leylines, LineCells(leylines), Owners(leylines), 0, p0, move, who)
      ensures Done(rights, LineCells(rights), Owners(rights), 0, p0, move, who)
      ensures Done(lefts, LineCells(lefts), Owners(lefts), 0, p0, move, who)
      ensures AllTouched(p0, move, who)
    {
    }

    /** The comprehension of `update_grid`: `update_cell` on every grid
        cell, which leaves the lines' holders alone. */
    method ClaimCells(name: string, move: string, ghost p0: map<Cell, int>,
                      ghost ley0: seq<seq<Cell>>, ghost right0: seq<seq<Cell>>, ghost left0: seq<seq<Cell>>,
                      ghost before: Board)
      requires this in Repr && forall n :: 0 <= n < |cells| ==> cells[n] in Repr
      requires forall n :: 0 <= n < |cells| ==> cells[n] in p0 && p0[cells[n]] == cells[n].player
      requires AllTouched(p0, move, PlayerNumber(name))
      requires Done(leylines, ley0, before.ley, 0, p0, move, PlayerNumber(name))
      requires Done(rights, right0, before.right, 0, p0, move, PlayerNumber(name))
      requires Done(lefts, left0, before.left, 0, p0, move, PlayerNumber(name))
      modifies this, cells
      ensures cells == old(cells) && Repr == old(Repr)
      ensures AllTouched(p0, move, PlayerNumber(name))
      ensures forall n :: 0 <= n < |cells| ==> cells[n] in Repr && Claimed(cells[n], p0, move, PlayerNumber(name))
      ensures Done(leylines, ley0, before.ley, 0, p0, move, PlayerNumber(name))
      ensures Done(rights, right0, before.right, 0, p0, move, PlayerNumber(name))
      ensures Done(lefts, left0, before.left, 0, p0, move, PlayerNumber(name))
    {
      var claimed := ClaimAll(cells, name, move);
      cells := claimed;
    }

    /** Every cell the grid reaches has at most gone through the move's
        claim since the snapshot `p0`. */
    ghost predicate AllTouched(p0: map<Cell, int>, move: string, who: int)
      reads this, Repr
    {
      forall c: Cell :: c in Repr ==> Touched(c, p0, move, who)
    }

    /** The lines sit in the grid with the cells `cs0` and their totals. */
    ghost predicate Placed(ls: seq<Line>, cs0: seq<seq<Cell>>)
      reads this, Repr
    {
      && |ls| == |cs0|
      && forall j :: 0 <= j < |ls| ==>
        && ls[j] in Repr && ls[j].cells == cs0[j] && ls[j].total == |cs0[j]|
        && forall k :: 0 <= k < |cs0[j]| ==> cs0[j][k] in Repr
    }

    /** The lines of one direction before index `i` are updated as the move
        prescribes, the others not yet: a held line keeps its holder, and an
        unclaimed one has its cells claimed and goes to the capture of them. */
    ghost predicate Done(ls: seq<Line>, cs0: seq<seq<Cell>>, o0: seq<Owner>, i: int,
                         p0: map<Cell, int>, move: string, who: int)
      reads this, Repr
    {
      && Placed(ls, cs0) && |o0| == |ls|
      && forall j :: 0 <= j < |ls| ==>
        && (j >= i || o0[j] != Unclaimed ==> ls[j].player == o0[j])
        && (j < i && o0[j] == Unclaimed ==>
              && (forall k :: 0 <= k < |cs0[j]| ==> Claimed(cs0[j][k], p0, move, who))
              && ls[j].player == Capture(Claims(cs0[j], p0, move, who)))
    }

    /** The state of the loop of `update_grid`: every cell at most claimed,
        the grid cells claimed, and the three directions updated up to the
        indices `a`, `b` and `c`. */
    ghost predicate Sweep(a: int, b: int, c: int, p0: map<Cell, int>, move: string, who: int,
                          ley0: seq<seq<Cell>>, right0: seq<seq<Cell>>, left0: seq<seq<Cell>>, before: Board)
      reads this, Repr
    {
      && AllTouched(p0, move, who)
      && (forall n :: 0 <= n < |cells| ==> cells[n] in Repr && Claimed(cells[n], p0, move, who))
      && Done(leylines, ley0, before.ley, a, p0, move, who)
      && Done(rights, right0, before.right, b, p0, move, who)
      && Done(lefts, left0, before.left, c, p0, move, who)
    }

    /** One round of the loop of `update_grid`: line `i` of each direction. */
    method Step(i: int, name: string, move: string, ghost p0: map<Cell, int>,
                ghost ley0: seq<seq<Cell>>, ghost right0: seq<seq<Cell>>, ghost left0: seq<seq<Cell>>,
                ghost before: Board)
      requires 0 <= i < |leylines| && i < |rights| && i < |lefts|
      requires Distinct(leylines) && Distinct(rights) && Distinct(lefts)
      requires Apart(leylines, rights) && Apart(leylines, lefts) && Apart(rights, lefts)
      requires Sweep(i, i, i, p0, move, PlayerNumber(name), ley0, right0, left0, before)
      modifies Repr
      ensures cells == old(cells) && Repr == old(Repr)
      ensures Sweep(i + 1, i + 1, i + 1, p0, move, PlayerNumber(name), ley0, right0, left0, before)
    {
      OfferAt(leylines, ley0, before.ley, i, rights, right0, before.right, i, lefts, left0, before.left, i, name, move, p0);
      OfferAt(rights, right0, before.right, i, leylines, ley0, before.ley, i + 1, lefts, left0, before.left, i, name, move, p0);
      OfferAt(lefts, left0, before.left, i, leylines, ley0, before.ley, i + 1, rights, right0, before.right, i + 1, name, move, p0);
    }

    /** `update_line` on line `i` of the direction `ls`, which moves the
        progress of that direction on by one and keeps the others. */
    method OfferAt(ls: seq<Line>, ghost cs0: seq<seq<Cell>>, ghost o0: seq<Owner>, i: int,
                   ghost xs: seq<Line>, ghost xs0: seq<seq<Cell>>, ghost xo: seq<Owner>, ghost xi: int,
                   ghost ys: seq<Line>, ghost ys0: seq<seq<Cell>>, ghost yo: seq<Owner>, ghost yi: int,
                   name: string, move: string, ghost p0: map<Cell, int>)
      requires 0 <= i < |ls| && Distinct(ls) && Apart(ls, xs) && Apart(ls, ys)
      requires AllTouched(p0, move, PlayerNumber(name))
      requires forall n :: 0 <= n < |cells| ==> cells[n] in Repr && Claimed(cells[n], p0, move, PlayerNumber(name))
      requires Done(ls, cs0, o0, i, p0, move, PlayerNumber(name))
      requires Done(xs, xs0, xo, xi, p0, move, PlayerNumber(name))
      requires Done(ys, ys0, yo, yi, p0, move, PlayerNumber(name))
      modifies ls[i], ls[i].cells
      ensures AllTouched(p0, move, PlayerNumber(name))
      ensures forall n :: 0 <= n < |cells| ==> cells[n] in Repr && Claimed(cells[n], p0, move, PlayerNumber(name))
      ensures Done(ls, cs0, o0, i + 1, p0, move, PlayerNumber(name))
      ensures Done(xs, xs0, xo, xi, p0, move, PlayerNumber(name))
      ensures Done(ys, ys0, yo, yi, p0, move, PlayerNumber(name))
    {
      Offer(ls[i], name, move, p0);
    }

    /** `update_line` on one line of the grid. */
    method Offer(l: Line, name: string, move: string, ghost p0: map<Cell, int>)
      requires AllTouched(p0, move, PlayerNumber(name))
      requires l in Repr && l.total == |l.cells|
      requires forall k :: 0 <= k < |l.cells| ==> l.cells[k] in Repr
      modifies l, l.cells
      ensures AllTouched(p0, move, PlayerNumber(name))
      ensures forall c: Cell :: c in Repr && old(Claimed(c, p0, move, PlayerNumber(name))) ==> Claimed(c, p0, move, PlayerNumber(name))
      ensures l.cells == old(l.cells)
      ensures old(l.player) != Unclaimed ==> l.player == old(l.player)
      ensures old(l.player) == Unclaimed ==>
        && (forall k :: 0 <= k < |l.cells| ==> Claimed(l.cells[k], p0, move, PlayerNumber(name)))
        && l.player == Capture(Claims(l.cells, p0, move, PlayerNumber(name)))
    {
      ghost var who := PlayerNumber(name);
      l.UpdateLine(name, move);
      if old(l.player) == Unclaimed {
        assert forall k :: 0 <= k < |l.cells| ==> Claimed(l.cells[k], p0, move, who);
        assert Holders(l.cells) == Claims(l.cells, p0, move, who);
      }
    }

    /** After the loop of `update_grid` the grid is consistent again and
        represents the board the move gives. */
    lemma Finish(before: Board, p0: map<Cell, int>, name: string, move: string,
                 ley0: seq<seq<Cell>>, right0: seq<seq<Cell>>, left0: seq<seq<Cell>>)
      requires this in Repr && GoodSize(size) && |cells| == CellCount(size) <= 25
      requires forall n :: 0 <= n < |cells| ==> cells[n] in Repr && cells[n].letter == [Letter(n)]
      requires Distinct(leylines + rights + lefts)
      requires WellFormed(before) && before.size == size && |before.cells| == |cells|
      requires forall n :: 0 <= n < |cells| ==> cells[n] in p0 && p0[cells[n]] == before.cells[n]
      requires forall n :: 0 <= n < |cells| ==> Claimed(cells[n], p0, move, PlayerNumber(name))
      requires Agree(ley0, before.ley, LeyTable(size), cells, p0)
      requires Agree(right0, before.right, RightLines(size), cells, p0)
      requires Agree(left0, before.left, LeftLines(size), cells, p0)
      requires Done(leylines, ley0, before.ley, size + 1, p0, move, PlayerNumber(name))
      requires Done(rights, right0, before.right, size + 1, p0, move, PlayerNumber(name))
      requires Done(lefts, left0, before.left, size + 1, p0, move, PlayerNumber(name))
      ensures Valid()
      ensures View() == Update(before, name, move)
    {
      Layout(size);
      var who := PlayerNumber(name);
      var after := Update(before, name, move);
      assert Holders(cells) == after.cells;
      DirectionAfter(leylines, ley0, before.ley, LeyTable(size), p0, move, who, after.cells);
      DirectionAfter(rights, right0, before.right, RightLines(size), p0, move, who, after.cells);
      DirectionAfter(lefts, left0, before.left, LeftLines(size), p0, move, who, after.cells);
    }

    /** One direction after the loop: consistent with the grid, and held as
        the move prescribes. */
    lemma DirectionAfter(ls: seq<Line>, cs0: seq<seq<Cell>>, o0: seq<Owner>, t: seq<seq<int>>,
                         p0: map<Cell, int>, move: string, who: int, cells1: seq<int>)
      requires forall n :: 0 <= n < |cells| ==> cells[n] in Repr && Claimed(cells[n], p0, move, who)
      requires |cells1| == |cells|
      requires forall n :: 0 <= n < |cells| ==> cells[n] in p0 && cells1[n] == Claim(p0[cells[n]], cells[n].letter, move, who)
      requires Agree(cs0, o0, t, cells, p0)
      requires Done(ls, cs0, o0, |t|, p0, move, who)
      ensures Direction(ls, t)
      ensures Owners(ls) == NewOwners(o0, cells1, t)
    {
      forall j | 0 <= j < |t| && o0[j] == Unclaimed
        ensures Claims(cs0[j], p0, move, who) == Pick(cells1, t[j])
      {
      }
    }

    /** `Grid(size, cells, lines)` with both given, as `copy` calls it: the
        grid takes the cells and the three directions of lines as they are.
        `objs` is what the grid reaches besides itself. */
    constructor Assemble(size: int, cells: seq<Cell>, ley: seq<Line>, rs: seq<Line>, ls: seq<Line>,
                         ghost objs: set<object>)
      requires |cells| > 0
      ensures this.size == size && this.cells == cells
      ensures leylines == ley && rights == rs && lefts == ls
      ensures Repr == {this} + objs
    {
      this.size, this.cells := size, cells;
      leylines, rights, lefts := ley, rs, ls;
      new;
      Repr := {this} + objs;
    }

    /** `copy`: a new grid over copies of the cells, whose lines are copies
        holding copies of their own cells; it represents the same board. */
    method Copy() returns (g: Grid)
      requires Valid()
      ensures fresh(g) && fresh(g.Repr) && g.Valid() && g.size == size
      ensures g.View() == View()
    {
      var cs, ley, rs, ls, objs := CopyParts();
      g := new Grid.Assemble(size, cs, ley, rs, ls, objs);
      CopiedWider(ley, leylines, objs, g.Repr, Repr);
      CopiedWider(rs, rights, objs, g.Repr, Repr);
      CopiedWider(ls, lefts, objs, g.Repr, Repr);
      CopiedValid(g);
    }

    /** The arguments `copy` passes to `Grid`: copies of the cells and of
        the lines of the three directions, all new. */
    method CopyParts() returns (cs: seq<Cell>, ley: seq<Line>, rs: seq<Line>, ls: seq<Line>, ghost objs: set<object>)
      requires Valid()
      ensures |cs| == |cells| > 0 && fresh(objs)
      ensures forall n :: 0 <= n < |cells| ==>
        cs[n] in objs && cs[n].letter == cells[n].letter && cs[n].player == cells[n].player
      ensures Distinct(ley + rs + ls)
      ensures Copied(ley, leylines, objs, Repr) && Copied(rs, rights, objs, Repr)
      ensures Copied(ls, lefts, objs, Repr)
    {
      cs := CopyCells(cells);
      ghost var f0 := CellObjects(cs);
      ghost var f1, f2, f3;
      ley, f1 := CopyLines(leylines, Repr);
      rs, f2 := CopyLines(rights, Repr);
      assert Apart(ley, rs);
      ls, f3 := CopyLines(lefts, Repr);
      assert Apart(ley + rs, ls);
      DistinctConcat(ley, rs);
      DistinctConcat(ley + rs, ls);
      objs := f0 + f1 + f2 + f3;
      CopiedWider(ley, leylines, f1, objs, Repr);
      CopiedWider(rs, rights, f2, objs, Repr);
      CopiedWider(ls, lefts, f3, objs, Repr);
    }

    /** A grid whose cells and lines copy this one's is consistent and
        represents the same board. */
    lemma CopiedValid(g: Grid)
      requires Valid()
      requires g in g.Repr && g.size == size && |g.cells| == |cells|
      requires forall n :: 0 <= n < |cells| ==>
        g.cells[n] in g.Repr && g.cells[n].letter == cells[n].letter && g.cells[n].player == cells[n].player
      requires Distinct(g.leylines + g.rights + g.lefts)
      requires Copied(g.leylines, leylines, g.Repr, Repr) && Copied(g.rights, rights, g.Repr, Repr)
      requires Copied(g.lefts, lefts, g.Repr, Repr)
      ensures g.Valid() && g.View() == View()
    {
      CopiedDirection(g, g.leylines, leylines, LeyTable(size));
      CopiedDirection(g, g.rights, rights, RightLines(size));
      CopiedDirection(g, g.lefts, lefts, LeftLines(size));
      assert Holders(g.cells) == Holders(cells);
      assert Owners(g.leylines) == Owners(leylines);
      assert Owners(g.rights) == Owners(rights);
      assert Owners(g.lefts) == Owners(lefts);
    }

    lemma CopiedDirection(g: Grid, ms: seq<Line>, ls: seq<Line>, t: seq<seq<int>>)
      requires Direction(ls, t)
      requires |g.cells| == |cells|
      requires forall n :: 0 <= n < |cells| ==>
        g.cells[n] in g.Repr && g.cells[n].letter == cells[n].letter && g.cells[n].player == cells[n].player
      requires Copied(ms, ls, g.Repr, Repr)
      ensures g.Direction(ms, t)
    {
    }

    /** `get_score`: the lines of all three directions held by `player`. */
    method GetScore(player: int) returns (score: int)
      requires Valid()
      ensures score == Score(View(), player)
    {
      ghost var ley, rs, ls := Owners(leylines), Owners(rights), Owners(lefts);
      score := 0;
      var i := 0;
      while i < |leylines|
        invariant 0 <= i <= |leylines|
        invariant score == Count(ley[..i], Held(player)) + Count(rs[..i], Held(player)) + Count(ls[..i], Held(player))
      {
        assert ley[..i + 1][..i] == ley[..i] && rs[..i + 1][..i] == rs[..i] && ls[..i + 1][..i] == ls[..i];
        score := score + if leylines[i].player == Held(player) then 1 else 0;
        score := score + if rights[i].player == Held(player) then 1 else 0;
        score := score + if lefts[i].player == Held(player) then 1 else 0;
        i := i + 1;
      }
      assert ley[..i] == ley && rs[..i] == rs && ls[..i] == ls;
    }
  }

  /** `Grid(size)` for any size: a size outside 1 to 5 raises ValueError
      when there are too many cells to letter with `chr`, and otherwise the
      KeyError of `get_left`. */
  method NewGrid(size: int) returns (r: Result<Grid>)
    ensures !GoodSize(size) <==> r.Err?
    ensures r.Err? ==> r.error == (if size >= 1491 || size <= -1496 then ValueError else KeyError)
    ensures r.Ok? ==> fresh(r.value) && r.value.Valid() && r.value.View() == FreshBoard(size)
  {
    if !GoodSize(size) {
      SizeErrorBounds(size);
      return Err(SizeError(size));
    }
    var g := new Grid(size);
    return Ok(g);
  }

  /** The lines `ms`, which sit in `repr` with their cells, copy the lines
      `ls`, whose cells sit in `orig`: same holders, and cells with the same
      letters and holders. */
  ghost predicate Copied(ms: seq<Line>, ls: seq<Line>, repr: set<object>, orig: set<object>)
    reads ms, ls, repr, orig
  {
    && |ms| == |ls|
    && forall j :: 0 <= j < |ls| ==>
      && ms[j] in repr && ms[j].player == ls[j].player
      && |ms[j].cells| == |ls[j].cells| && ms[j].total == |ls[j].cells|
      && forall k :: 0 <= k < |ls[j].cells| ==>
        && ms[j].cells[k] in repr && ls[j].cells[k] in orig
        && ms[j].cells[k].letter == ls[j].cells[k].letter && ms[j].cells[k].player == ls[j].cells[k].player
  }

  /** Copying one more line extends the copy. */
  lemma CopiedExtend(ms: seq<Line>, ls: seq<Line>, m: Line, l: Line, repr: set<object>, repr2: set<object>, orig: set<object>)
    requires Copied(ms, ls, repr, orig) && repr + {m} + CellObjects(m.cells) <= repr2
    requires m.player == l.player && |m.cells| == |l.cells| && m.total == |l.cells|
    requires forall k :: 0 <= k < |l.cells| ==>
      l.cells[k] in orig && m.cells[k].letter == l.cells[k].letter && m.cells[k].player == l.cells[k].player
    ensures Copied(ms + [m], ls + [l], repr2, orig)
  {
    var ms2, ls2 := ms + [m], ls + [l];
    assert forall j :: 0 <= j < |ms| ==> ms2[j] == ms[j] && ls2[j] == ls[j];
  }

  lemma CopiedWider(ms: seq<Line>, ls: seq<Line>, repr: set<object>, repr2: set<object>, orig: set<object>)
    requires Copied(ms, ls, repr, orig) && repr <= repr2
    ensures Copied(ms, ls, repr2, orig)
  {
  }

  /** The players of the cells among `objs`. */
  ghost function Players(objs: set<object>): (p: map<Cell, int>)
    reads objs
    ensures forall c: Cell :: c in objs ==> c in p && p[c] == c.player
  {
    map c: Cell | c in objs :: c.player
  }

  /** The cells of each line. */
  ghost function LineCells(ls: seq<Line>): (cs: seq<seq<Cell>>)
    reads ls
    ensures |cs| == |ls| && forall j :: 0 <= j < |ls| ==> cs[j] == ls[j].cells
  {
    seq(|ls|, j requires 0 <= j < |ls| reads ls => ls[j].cells)
  }

  /** Since the snapshot `p0` the cell has at most gone through the move's
      claim. */
  ghost predicate Touched(c: Cell, p0: map<Cell, int>, move: string, who: int)
    reads c
  {
    c in p0 && (c.player == p0[c] || c.player == Claim(p0[c], c.letter, move, who))
  }

  /** Since the snapshot `p0` the cell has gone through the move's claim. */
  ghost predicate Claimed(c: Cell, p0: map<Cell, int>, move: string, who: int)
    reads c
  {
    c in p0 && c.player == Claim(p0[c], c.letter, move, who)
  }

  /** The holders the move's claim gives the cells `cs`, from the snapshot. */
  ghost function Claims(cs: seq<Cell>, p0: map<Cell, int>, move: string, who: int): (ps: seq<int>)
    requires forall k :: 0 <= k < |cs| ==> cs[k] in p0
    ensures |ps| == |cs|
  {
    seq(|cs|, k requires 0 <= k < |cs| => Claim(p0[cs[k]], cs[k].letter, move, who))
  }

  /** In the snapshot, the line cells `cs0` of each unclaimed line carry the
      letters and holders of the grid cells their row of `t` names. */
  ghost predicate Agree(cs0: seq<seq<Cell>>, o0: seq<Owner>, t: seq<seq<int>>, cells: seq<Cell>, p0: map<Cell, int>) {
    && |cs0| == |o0| == |t|
    && forall j :: 0 <= j < |t| ==>
      && |cs0[j]| == |t[j]|
      && forall k :: 0 <= k < |t[j]| ==>
        && 0 <= t[j][k] < |cells| && cs0[j][k] in p0 && cells[t[j][k]] in p0
        && (o0[j] == Unclaimed ==>
              cs0[j][k].letter == cells[t[j][k]].letter && p0[cs0[j][k]] == p0[cells[t[j][k]]])
  }

  /** The three directions have no line in common. */
  lemma DistinctParts(a: seq<Line>, b: seq<Line>, c: seq<Line>)
    requires Distinct(a + b + c)
    ensures Distinct(a) && Distinct(b) && Distinct(c)
    ensures Apart(a, b) && Apart(a, c) && Apart(b, c)
  {
    forall i, j | 0 <= i < |a| && 0 <= j < |b| ensures a[i] != b[j] {
      assert (a + b + c)[i] == a[i] && (a + b + c)[|a| + j] == b[j];
    }
    forall i, j | 0 <= i < |a| && 0 <= j < |c| ensures a[i] != c[j] {
      assert (a + b + c)[i] == a[i] && (a + b + c)[|a| + |b| + j] == c[j];
    }
    forall i, j | 0 <= i < |b| && 0 <= j < |c| ensures b[i] != c[j] {
      assert (a + b + c)[|a| + i] == b[i] && (a + b + c)[|a| + |b| + j] == c[j];
    }
    forall i, j | 0 <= i < j < |a| ensures a[i] != a[j] {
      assert (a + b + c)[i] == a[i] && (a + b + c)[j] == a[j];
    }
    forall i, j | 0 <= i < j < |b| ensures b[i] != b[j] {
      assert (a + b + c)[|a| + i] == b[i] && (a + b + c)[|a| + j] == b[j];
    }
    forall i, j | 0 <= i < j < |c| ensures c[i] != c[j] {
      assert (a + b + c)[|a| + |b| + i] == c[i] && (a + b + c)[|a| + |b| + j] == c[j];
    }
  }
}
