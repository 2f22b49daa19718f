/** The Stonehenge board of grid.py as a value: the fixed layout of
    `Grid.__init__`, `get_left` and `get_right`, and the rules by which a
    move claims a cell and captures ley-lines. A board records which
    player holds each cell (0 for nobody) and who holds each ley-line. */
module GridLayout {
  import opened Wrappers

  // ------------------------------------------------------------------ layout

  /** The number of cells of a side-`size` board: the horizontal ley-lines
      before the last, then the `size` cells of the last. */
  function CellCount(size: nat): nat {
    LeyStart(size) + size
  }

  /** `int(((3 + size) * size / 2) + size)` of `Grid.__init__` counts the
      cells: the product is even, so the float division is exact. */
  lemma CellCountFormula(size: nat)
    ensures (3 + size) * size / 2 + size == CellCount(size)
  {
    LeyStartFormula(size);
    assert (3 + size) * size == size * (size + 3);
  }

  lemma {:induction false} LeyStartFormula(i: nat)
    ensures LeyStart(i) == i * (i + 3) / 2
  {
    if i > 0 {
      LeyStartFormula(i - 1);
      assert i * (i + 3) == (i - 1) * (i + 2) + 2 * (i + 1);
    }
  }

  /** `chr(65 + n)`, the letter of cell `n`. */
  function Letter(n: nat): char
    requires 65 + n < 0xD800
  {
    (65 + n) as char
  }

  function Range(a: int, b: int): (r: seq<int>)
    requires a <= b
    ensures |r| == b - a && forall k :: 0 <= k < |r| ==> r[k] == a + k
  {
    seq(b - a, k requires 0 <= k < b - a => a + k)
  }

  /** The lines of a table one after the other. */
  function Flatten(t: seq<seq<int>>): seq<int> {
    if t == [] then [] else Flatten(t[..|t| - 1]) + t[|t| - 1]
  }

  /** Where the `i`-th horizontal ley-line starts: the lines before it have
      lengths 2, 3, ..., i + 1. */
  function LeyStart(i: nat): nat {
    if i == 0 then 0 else LeyStart(i - 1) + i + 1
  }

  /** The length of the `i`-th horizontal ley-line: 2, 3, ..., size + 1 for
      the loop of `Grid.__init__`, then `size` for the last one. */
  function LeyLength(size: nat, i: nat): nat {
    if i < size then i + 2 else size
  }

  /** The cell indices of the horizontal ley-lines. */
  function LeyTable(size: nat): (t: seq<seq<int>>)
    ensures |t| == size + 1
  {
    LeyFrom(size, 0)
  }

  /** Line `i` of the horizontal ley-lines is the run of `LeyLength(size, i)`
      cells from `LeyStart(i)`. */
  lemma LeyTableAt(size: nat, i: nat)
    requires i <= size
    ensures LeyTable(size)[i] == Range(LeyStart(i), LeyStart(i) + LeyLength(size, i))
  {
    LeyFromAt(size, 0, i);
  }

  lemma {:induction false} LeyFromAt(size: nat, j: nat, i: nat)
    requires j + i <= size
    ensures LeyFrom(size, j)[i] == Range(LeyStart(j + i), LeyStart(j + i) + LeyLength(size, j + i))
    decreases i
  {
    if i > 0 {
      LeyFromAt(size, j + 1, i - 1);
    }
  }

  /** Horizontal ley-lines `i` to `size`. */
  function LeyFrom(size: nat, i: nat): (t: seq<seq<int>>)
    ensures |t| == if i <= size then size + 1 - i else 0
    decreases size + 1 - i
  {
    if i > size then [] else [Range(LeyStart(i), LeyStart(i) + LeyLength(size, i))] + LeyFrom(size, i + 1)
  }

  /** The table `form` of `get_left`; any other size is a KeyError. */
  function LeftTable(size: int): Option<seq<seq<int>>> {
    match size
    case 1 => Some([[0], [1, 2]])
    case 2 => Some([[0, 2], [1, 3, 5], [4, 6]])
    case 3 => Some([[0, 2, 5], [1, 3, 6, 9], [4, 7, 10], [8, 11]])
    case 4 => Some([[0, 2, 5, 9], [1, 3, 6, 10, 14], [4, 7, 11, 15], [8, 12, 16], [13, 17]])
    case 5 => Some([[0, 2, 5, 9, 14], [1, 3, 6, 10, 15, 20], [4, 7, 11, 16, 21],
                    [8, 12, 17, 22], [13, 18, 23], [19, 24]])
    case _ => None
  }

  /** The table `form` of `get_right`; any other size is a KeyError. */
  function RightTable(size: int): Option<seq<seq<int>>> {
    match size
    case 1 => Some([[1], [0, 2]])
    case 2 => Some([[1, 4], [0, 3, 6], [2, 5]])
    case 3 => Some([[1, 4, 8], [0, 3, 7, 11], [2, 6, 10], [5, 9]])
    case 4 => Some([[1, 4, 8, 13], [0, 3, 7, 12, 17], [2, 6, 11, 16], [5, 10, 15], [9, 14]])
    case 5 => Some([[1, 4, 8, 13, 19], [0, 3, 7, 12, 18, 24], [2, 6, 11, 17, 23],
                    [5, 10, 16, 22], [9, 15, 21], [14, 20]])
    case _ => None
  }

  /** The cells where left diagonal `j` crosses horizontal rows `r` to
      `size - 1`: position `j` of each. */
  function LeftRun(r: nat, size: nat, j: nat): (t: seq<int>)
    ensures |t| == if r < size then size - r else 0
    decreases size - r
  {
    if r >= size then [] else [LeyStart(r) + j] + LeftRun(r + 1, size, j)
  }

  /** The cells where right diagonal `j` crosses horizontal rows `r` to
      `size - 1`: position `r + 1 - j` of each. */
  function RightRun(r: nat, size: nat, j: nat): (t: seq<int>)
    ensures |t| == if r < size then size - r else 0
    decreases size - r
  {
    if r >= size then [] else [LeyStart(r) + r + 1 - j] + RightRun(r + 1, size, j)
  }

  /** Left diagonal `j` of a side-`size` board: it starts on row `j - 1`
      (row 0 for `j == 0`) and, except for `j == 0`, ends on the short
      last row at position `j - 1`. */
  function LeftLine(size: nat, j: nat): (t: seq<int>)
    requires j <= size
    ensures |t| == if j == 0 then size else size + 2 - j
  {
    LeftRun(if j == 0 then 0 else j - 1, size, j) + (if j >= 1 then [LeyStart(size) + j - 1] else [])
  }

  /** Right diagonal `j`, the mirror image: it ends on the last row at
      position `size - j`. */
  function RightLine(size: nat, j: nat): (t: seq<int>)
    requires j <= size
    ensures |t| == if j == 0 then size else size + 2 - j
  {
    RightRun(if j == 0 then 0 else j - 1, size, j) + (if j >= 1 then [LeyStart(size) + size - j] else [])
  }

  /** Left diagonals `j` to `size`. */
  function LeftFrom(size: nat, j: nat): (t: seq<seq<int>>)
    ensures |t| == if j <= size then size + 1 - j else 0
    decreases size + 1 - j
  {
    if j > size then [] else [LeftLine(size, j)] + LeftFrom(size, j + 1)
  }

  /** Entry `i` of `LeftFrom(size, j)` is diagonal `j + i`. */
  lemma {:induction false} LeftFromAt(size: nat, j: nat, i: nat)
    requires j + i <= size
    ensures LeftFrom(size, j)[i] == LeftLine(size, j + i)
    decreases i
  {
    if i > 0 {
      LeftFromAt(size, j + 1, i - 1);
    }
  }

  /** The left diagonals of a side-`size` board. */
  function LeftLines(size: nat): (t: seq<seq<int>>)
    ensures |t| == size + 1
  {
    LeftFrom(size, 0)
  }

  /** Right diagonals `j` to `size`. */
  function RightFrom(size: nat, j: nat): (t: seq<seq<int>>)
    ensures |t| == if j <= size then size + 1 - j else 0
    decreases size + 1 - j
  {
    if j > size then [] else [RightLine(size, j)] + RightFrom(size, j + 1)
  }

  /** Entry `i` of `RightFrom(size, j)` is diagonal `j + i`. */
  lemma {:induction false} RightFromAt(size: nat, j: nat, i: nat)
    requires j + i <= size
    ensures RightFrom(size, j)[i] == RightLine(size, j + i)
    decreases i
  {
    if i > 0 {
      RightFromAt(size, j + 1, i - 1);
    }
  }

  /** The right diagonals of a side-`size` board. */
  function RightLines(size: nat): (t: seq<seq<int>>)
    ensures |t| == size + 1
  {
    RightFrom(size, 0)
  }

  /** The fixed tables of `get_left` and `get_right` are the diagonals of
      the board, for every size they list. */
  lemma DiagonalsMatch(size: int)
    requires GoodSize(size)
    ensures LeftTable(size) == Some(LeftLines(size))
    ensures RightTable(size) == Some(RightLines(size))
  {
    if size == 1 { LeftDiagonals1(); RightDiagonals1(); }
    else if size == 2 { LeftDiagonals2(); RightDiagonals2(); }
    else if size == 3 { LeftDiagonals3(); RightDiagonals3(); }
    else if size == 4 { LeftDiagonals4(); RightDiagonals4(); }
    else { LeftDiagonals5(); RightDiagonals5(); }
  }

  lemma LeftDiagonals1()
    ensures LeftTable(1) == Some(LeftLines(1))
  {
    assert LeftLine(1, 0) == [0];
    assert LeftLine(1, 1) == [1, 2];
    assert LeftLines(1) == [LeftLine(1, 0), LeftLine(1, 1)];
  }

  lemma RightDiagonals1()
    ensures RightTable(1) == Some(RightLines(1))
  {
    assert RightLine(1, 0) == [1];
    assert RightLine(1, 1) == [0, 2];
    assert RightLines(1) == [RightLine(1, 0), RightLine(1, 1)];
  }

  lemma LeftDiagonals2()
    ensures LeftTable(2) == Some(LeftLines(2))
  {
    assert LeftLine(2, 0) == [0, 2];
    assert LeftLine(2, 1) == [1, 3, 5];
    assert LeftLine(2, 2) == [4, 6];
    assert LeftLines(2) == [LeftLine(2, 0), LeftLine(2, 1), LeftLine(2, 2)];
  }

  lemma RightDiagonals2()
    ensures RightTable(2) == Some(RightLines(2))
  {
    assert RightLine(2, 0) == [1, 4];
    assert RightLine(2, 1) == [0, 3, 6];
    assert RightLine(2, 2) == [2, 5];
    assert RightLines(2) == [RightLine(2, 0), RightLine(2, 1), RightLine(2, 2)];
  }

  lemma LeftDiagonals3()
    ensures LeftTable(3) == Some(LeftLines(3))
  {
    assert LeftLine(3, 0) == [0, 2, 5];
    assert LeftLine(3, 1) == [1, 3, 6, 9];
    assert LeftLine(3, 2) == [4, 7, 10];
    assert LeftLine(3, 3) == [8, 11];
    assert LeftLines(3) == [LeftLine(3, 0), LeftLine(3, 1), LeftLine(3, 2), LeftLine(3, 3)];
  }

  lemma RightDiagonals3()
    ensures RightTable(3) == Some(RightLines(3))
  {
    assert RightLine(3, 0) == [1, 4, 8];
    assert RightLine(3, 1) == [0, 3, 7, 11];
    assert RightLine(3, 2) == [2, 6, 10];
    assert RightLine(3, 3) == [5, 9];
    assert RightLines(3) == [RightLine(3, 0), RightLine(3, 1), RightLine(3, 2), RightLine(3, 3)];
  }

  lemma LeftDiagonals4()
    ensures LeftTable(4) == Some(LeftLines(4))
  {
    assert LeftLine(4, 0) == [0, 2, 5, 9];
    assert LeftLine(4, 1) == [1, 3, 6, 10, 14];
    assert LeftLine(4, 2) == [4, 7, 11, 15];
    assert LeftLine(4, 3) == [8, 12, 16];
    assert LeftLine(4, 4) == [13, 17];
    assert LeftLines(4) == [LeftLine(4, 0), LeftLine(4, 1), LeftLine(4, 2), LeftLine(4, 3), LeftLine(4, 4)];
  }

  lemma RightDiagonals4()
    ensures RightTable(4) == Some(RightLines(4))
  {
    assert RightLine(4, 0) == [1, 4, 8, 13];
    assert RightLine(4, 1) == [0, 3, 7, 12, 17];
    assert RightLine(4, 2) == [2, 6, 11, 16];
    assert RightLine(4, 3) == [5, 10, 15];
    assert RightLine(4, 4) == [9, 14];
    assert RightLines(4) == [RightLine(4, 0), RightLine(4, 1), RightLine(4, 2), RightLine(4, 3), RightLine(4, 4)];
  }

  lemma LeftDiagonals5()
    ensures LeftTable(5) == Some(LeftLines(5))
  {
    LeftLines5();
    assert LeftLines(5) == [LeftLine(5, 0), LeftLine(5, 1), LeftLine(5, 2), LeftLine(5, 3), LeftLine(5, 4), LeftLine(5, 5)];
  }

  lemma LeftLines5()
    ensures LeftLine(5, 0) == [0, 2, 5, 9, 14]
    ensures LeftLine(5, 1) == [1, 3, 6, 10, 15, 20]
    ensures LeftLine(5, 2) == [4, 7, 11, 16, 21]
    ensures LeftLine(5, 3) == [8, 12, 17, 22]
    ensures LeftLine(5, 4) == [13, 18, 23]
    ensures LeftLine(5, 5) == [19, 24]
  {
  }

  lemma RightDiagonals5()
    ensures RightTable(5) == Some(RightLines(5))
  {
    RightLines5();
    assert RightLines(5) == [RightLine(5, 0), RightLine(5, 1), RightLine(5, 2), RightLine(5, 3), RightLine(5, 4), RightLine(5, 5)];
  }

  lemma RightLines5()
    ensures RightLine(5, 0) == [1, 4, 8, 13, 19]
    ensures RightLine(5, 1) == [0, 3, 7, 12, 18, 24]
    ensures RightLine(5, 2) == [2, 6, 11, 17, 23]
    ensures RightLine(5, 3) == [5, 10, 16, 22]
    ensures RightLine(5, 4) == [9, 15, 21]
    ensures RightLine(5, 5) == [14, 20]
  {
  }

  /** Every index of the table names one of `n` cells. */
  predicate InRange(t: seq<seq<int>>, n: int) {
    forall j, k :: 0 <= j < |t| && 0 <= k < |t[j]| ==> 0 <= t[j][k] < n
  }

  /** The sizes `Grid` can be built for. */
  predicate GoodSize(size: int) {
    1 <= size <= 5
  }

  /** `int(((3 + size) * size / 2) + size)` for any integer size: the
      product of two integers three apart is even, so the division is exact
      (a negative count makes `range` empty). */
  function RawCellCount(size: int): int {
    (3 + size) * size / 2 + size
  }

  /** The most cells `chr(65 + n)` can letter: beyond, it passes 0x10FFFF. */
  const MaxCells: int := 0x10FFFF - 65 + 1

  /** What `Grid(size)` raises for a size without a table: the cells are
      lettered first, so a count past `MaxCells` raises ValueError in `chr`;
      otherwise `get_left` raises KeyError. */
  function SizeError(size: int): Error
    requires !GoodSize(size)
  {
    if RawCellCount(size) > MaxCells then ValueError else KeyError
  }

  /** The sizes for which `chr` fails: 1491 and up, and -1496 and down. */
  lemma SizeErrorBounds(size: int)
    requires !GoodSize(size)
    ensures SizeError(size) == ValueError <==> size >= 1491 || size <= -1496
    ensures SizeError(size) != ValueError ==> SizeError(size) == KeyError
  {
    var q := size * (size + 5);
    assert RawCellCount(size) == q / 2 by {
      assert (3 + size) * size + 2 * size == q;
    }
    if size >= 1491 {
      MulBoth(size, size + 5, 1491, 1496);
    } else if size <= -1496 {
      assert q == (-size) * (-size - 5);
      MulBoth(-size, -size - 5, 1496, 1491);
    } else if size >= 0 {
      MulBoth(1490, 1495, size, size + 5);
    } else if size <= -5 {
      assert q == (-size) * (-size - 5);
      MulBoth(1495, 1490, -size, -size - 5);
    } else {
      assert q == (-size) * (-size - 5);
      assert q <= 0 by { MulBoth(-size, size + 5, -size, 0); }
    }
  }

  /** Products of non-negative numbers grow with their factors. */
  lemma MulBoth(a: int, b: int, x: int, y: int)
    requires a >= x >= 0 && b >= y >= 0
    ensures a * b >= x * y
  {
    assert a * b >= x * b;
    assert x * b >= x * y;
  }

  /** The horizontal ley-lines cut the board into consecutive runs: read
      line after line they list every cell exactly once, in order. */
  lemma LeyPartition(size: nat)
    ensures Flatten(LeyTable(size)) == Range(0, CellCount(size))
  {
    var t := LeyTable(size);
    LeyRuns(size);
    LeyTableAt(size, size);
    RunsPrefix(t, size);
    assert t[..size + 1] == t;
    assert t[..size + 1][..size] == t[..size];
    RangeConcat(0, LeyStart(size), CellCount(size));
  }

  /** Each horizontal line but the last ends where the next starts. */
  lemma LeyRuns(size: nat)
    ensures forall j :: 0 <= j < size ==> LeyTable(size)[j] == Range(LeyStart(j), LeyStart(j + 1))
  {
    forall j | 0 <= j < size
      ensures LeyTable(size)[j] == Range(LeyStart(j), LeyStart(j + 1))
    {
      LeyTableAt(size, j);
    }
  }

  /** Lines that continue each other flatten to one run from 0. */
  lemma {:induction false} RunsPrefix(t: seq<seq<int>>, i: nat)
    requires i <= |t|
    requires forall j :: 0 <= j < i ==> t[j] == Range(LeyStart(j), LeyStart(j + 1))
    ensures Flatten(t[..i]) == Range(0, LeyStart(i))
  {
    if i > 0 {
      RunsPrefix(t, i - 1);
      assert t[..i][..i - 1] == t[..i - 1];
      RangeConcat(0, LeyStart(i - 1), LeyStart(i));
    }
  }

  lemma RangeConcat(a: int, b: int, c: int)
    requires a <= b <= c
    ensures Range(a, b) + Range(b, c) == Range(a, c)
  {
    var r := Range(a, b) + Range(b, c);
    assert forall k :: 0 <= k < |r| ==> r[k] == Range(a, c)[k];
  }

  /** Each direction has `size + 1` ley-lines over the board's cells; the
      horizontal ones have lengths 2, ..., size + 1 and then size. */
  lemma Layout(size: nat)
    ensures InRange(LeyTable(size), CellCount(size))
    ensures InRange(LeftLines(size), CellCount(size))
    ensures InRange(RightLines(size), CellCount(size))
    ensures forall i :: 0 <= i <= size ==> |LeyTable(size)[i]| == LeyLength(size, i)
  {
    LeyInRange(size);
    DiagonalsInRange(size);
    forall i | 0 <= i <= size
      ensures |LeyTable(size)[i]| == LeyLength(size, i)
    {
      LeyTableAt(size, i);
    }
  }

  /** Every horizontal ley-line names cells of the board only. */
  lemma LeyInRange(size: nat)
    ensures InRange(LeyTable(size), CellCount(size))
  {
    forall j, k | 0 <= j < |LeyTable(size)| && 0 <= k < |LeyTable(size)[j]|
      ensures 0 <= LeyTable(size)[j][k] < CellCount(size)
    {
      LeyTableAt(size, j);
      LeyBound(size, j);
    }
  }

  /** Every diagonal, of any size, names cells of the board only. */
  lemma DiagonalsInRange(size: nat)
    ensures InRange(LeftLines(size), CellCount(size))
    ensures InRange(RightLines(size), CellCount(size))
  {
    forall j, k | 0 <= j <= size && 0 <= k < |LeftLines(size)[j]|
      ensures 0 <= LeftLines(size)[j][k] < CellCount(size)
    {
      LeftRunBound(if j == 0 then 0 else j - 1, size, j);
      LeftFromAt(size, 0, j);
      assert LeftLines(size)[j][k] in LeftLine(size, j);
    }
    forall j, k | 0 <= j <= size && 0 <= k < |RightLines(size)[j]|
      ensures 0 <= RightLines(size)[j][k] < CellCount(size)
    {
      RightRunBound(if j == 0 then 0 else j - 1, size, j);
      RightFromAt(size, 0, j);
      assert RightLines(size)[j][k] in RightLine(size, j);
    }
  }

  /** Every diagonal of a board with cells holds a cell. */
  lemma DiagonalsNonEmpty(size: nat)
    requires size >= 1
    ensures forall j :: 0 <= j <= size ==> |LeftLines(size)[j]| > 0 && |RightLines(size)[j]| > 0
  {
    forall j | 0 <= j <= size
      ensures |LeftLines(size)[j]| > 0 && |RightLines(size)[j]| > 0
    {
      LeftFromAt(size, 0, j);
      RightFromAt(size, 0, j);
    }
  }

  /** The part of a left diagonal above the last row stays above it. */
  lemma {:induction false} LeftRunBound(r: nat, size: nat, j: nat)
    requires j <= r + 1
    ensures forall x :: x in LeftRun(r, size, j) ==> 0 <= x < LeyStart(size)
    decreases size - r
  {
    if r < size {
      LeftRunBound(r + 1, size, j);
      LeyStartMonotone(r + 1, size);
    }
  }

  /** The part of a right diagonal above the last row stays above it. */
  lemma {:induction false} RightRunBound(r: nat, size: nat, j: nat)
    requires j <= r + 1
    ensures forall x :: x in RightRun(r, size, j) ==> 0 <= x < LeyStart(size)
    decreases size - r
  {
    if r < size {
      RightRunBound(r + 1, size, j);
      LeyStartMonotone(r + 1, size);
    }
  }

  /** A horizontal ley-line ends inside the board. */
  lemma LeyBound(size: nat, i: nat)
    requires i <= size
    ensures LeyStart(i) + LeyLength(size, i) <= CellCount(size)
  {
    if i < size {
      LeyStartMonotone(i + 1, size);
    }
  }

  lemma {:induction false} LeyStartMonotone(i: nat, j: nat)
    requires i <= j
    ensures LeyStart(i) <= LeyStart(j)
    decreases j - i
  {
    if i < j {
      LeyStartMonotone(i + 1, j);
    }
  }

  // ------------------------------------------------------------------- board

  /** The holder of a ley-line: the marker '@' while nobody holds it, then
      a player number. The marker is a string, so it equals no number. */
  datatype Owner = Unclaimed | Held(player: int)

  /** Who holds each cell, and each horizontal, right and left ley-line. */
  datatype Board = Board(size: int, cells: seq<int>, ley: seq<Owner>, right: seq<Owner>, left: seq<Owner>)

  predicate WellFormed(b: Board) {
    && GoodSize(b.size)
    && |b.cells| == CellCount(b.size) <= 25
    && |b.ley| == b.size + 1 && |b.right| == b.size + 1 && |b.left| == b.size + 1
  }

  /** A board of a size `Grid` accepts has at most 25 cells, lettered 'A'
      to 'Y'. */
  lemma SmallBoard(size: int)
    requires GoodSize(size)
    ensures CellCount(size) <= 25
  {
    LeyStartMonotone(size, 5);
  }

  /** A new grid: nobody holds anything. */
  function FreshBoard(size: int): (b: Board)
    requires GoodSize(size)
    ensures WellFormed(b)
  {
    SmallBoard(size);
    Board(size, seq(CellCount(size), _ => 0),
          seq(size + 1, _ => Unclaimed), seq(size + 1, _ => Unclaimed), seq(size + 1, _ => Unclaimed))
  }

  /** The player number `update_cell` gives a name: 1 for 'p1', 2 for any
      other name. */
  function PlayerNumber(name: string): (p: int)
    ensures p == 1 || p == 2
  {
    if name == "p1" then 1 else 2
  }

  /** `update_cell`: an unclaimed cell whose letter is the move goes to
      player `who`; any other cell keeps its holder. */
  function Claim(holder: int, letter: string, move: string, who: int): int {
    if holder == 0 && letter == move then who else holder
  }

  /** The players holding the cells of one ley-line. */
  function Pick(cells: seq<int>, line: seq<int>): (ps: seq<int>)
    requires forall k :: 0 <= k < |line| ==> 0 <= line[k] < |cells|
    ensures |ps| == |line|
  {
    seq(|line|, k requires 0 <= k < |line| => cells[line[k]])
  }

  /** How many entries are `x`. */
  function Count<T(==)>(s: seq<T>, x: T): nat {
    if s == [] then 0 else Count(s[..|s| - 1], x) + (if s[|s| - 1] == x then 1 else 0)
  }

  /** Lines 123-126 of `update_line`: a player holding at least half the
      cells captures the line, player 1 tested first. */
  function Capture(ps: seq<int>): Owner {
    if 2 * Count(ps, 1) >= |ps| then Held(1) else if 2 * Count(ps, 2) >= |ps| then Held(2) else Unclaimed
  }

  /** `update_line` on every line of one direction once the cells are
      updated: a claimed line keeps its holder, an unclaimed one is
      captured if some player now holds half of it. */
  function NewOwners(owners: seq<Owner>, cells: seq<int>, t: seq<seq<int>>): (r: seq<Owner>)
    requires |owners| == |t| && InRange(t, |cells|)
    ensures |r| == |owners|
  {
    seq(|owners|, j requires 0 <= j < |owners| =>
      if owners[j] != Unclaimed then owners[j] else Capture(Pick(cells, t[j])))
  }

  /** `update_grid`: the move claims its cell for the player named, then
      every ley-line is re-examined. */
  function Update(b: Board, name: string, move: string): (r: Board)
    requires WellFormed(b)
    ensures WellFormed(r) && r.size == b.size
  {
    Layout(b.size);
    var who := PlayerNumber(name);
    var cells := seq(|b.cells|, n requires 0 <= n < |b.cells| => Claim(b.cells[n], [Letter(n)], move, who));
    Board(b.size, cells,
          NewOwners(b.ley, cells, LeyTable(b.size)),
          NewOwners(b.right, cells, RightLines(b.size)),
          NewOwners(b.left, cells, LeftLines(b.size)))
  }

  /** `get_score`: the ley-lines of all three directions held by `player`. */
  function Score(b: Board, player: int): nat {
    Count(b.ley, Held(player)) + Count(b.right, Held(player)) + Count(b.left, Held(player))
  }

  // --------------------------------------------------------------- properties

  /** Each player holds at most as many cells of a line as it has. */
  lemma {:induction false} CountsBound(ps: seq<int>)
    ensures Count(ps, 1) + Count(ps, 2) <= |ps|
  {
    if ps != [] {
      CountsBound(ps[..|ps| - 1]);
    }
  }

  /** The move changes at most one cell, the unclaimed one lettered `move`,
      which goes to the mover; every other cell keeps its holder. A line
      once held is never re-taken. */
  lemma UpdateChanges(b: Board, name: string, move: string)
    requires WellFormed(b)
    ensures forall n :: 0 <= n < |b.cells| ==>
      Update(b, name, move).cells[n] == (if b.cells[n] == 0 && move == [Letter(n)] then PlayerNumber(name) else b.cells[n])
    ensures forall j :: 0 <= j <= b.size && b.ley[j] != Unclaimed ==> Update(b, name, move).ley[j] == b.ley[j]
    ensures forall j :: 0 <= j <= b.size && b.right[j] != Unclaimed ==> Update(b, name, move).right[j] == b.right[j]
    ensures forall j :: 0 <= j <= b.size && b.left[j] != Unclaimed ==> Update(b, name, move).left[j] == b.left[j]
  {
  }

  /** No unclaimed line is held by a half of its cells already: what every
      board reached by `update_grid` satisfies. */
  ghost predicate Settled(b: Board)
    requires WellFormed(b)
  {
    Layout(b.size);
    && Unsettled(b.ley, b.cells, LeyTable(b.size)) == {}
    && Unsettled(b.right, b.cells, RightLines(b.size)) == {}
    && Unsettled(b.left, b.cells, LeftLines(b.size)) == {}
  }

  /** The unclaimed lines that some player holds half of. */
  ghost function Unsettled(owners: seq<Owner>, cells: seq<int>, t: seq<seq<int>>): set<int>
    requires |owners| == |t| && InRange(t, |cells|)
  {
    set j | 0 <= j < |owners| && owners[j] == Unclaimed && Capture(Pick(cells, t[j])) != Unclaimed
  }

  lemma SettledNewOwners(owners: seq<Owner>, cells: seq<int>, t: seq<seq<int>>)
    requires |owners| == |t| && InRange(t, |cells|)
    ensures Unsettled(NewOwners(owners, cells, t), cells, t) == {}
  {
  }

  /** Every board `update_grid` produces is settled, and so is a new one. */
  lemma UpdateSettles(b: Board, name: string, move: string)
    requires WellFormed(b)
    ensures Settled(Update(b, name, move))
  {
    Layout(b.size);
    var r := Update(b, name, move);
    SettledNewOwners(b.ley, r.cells, LeyTable(b.size));
    SettledNewOwners(b.right, r.cells, RightLines(b.size));
    SettledNewOwners(b.left, r.cells, LeftLines(b.size));
  }

  lemma FreshSettled(size: int)
    requires GoodSize(size)
    ensures Settled(FreshBoard(size))
  {
    Layout(size);
    DiagonalsNonEmpty(size);
    var b := FreshBoard(size);
    FreshLinesSettled(b.ley, b.cells, LeyTable(size));
    FreshLinesSettled(b.right, b.cells, RightLines(size));
    FreshLinesSettled(b.left, b.cells, LeftLines(size));
  }

  lemma FreshLinesSettled(owners: seq<Owner>, cells: seq<int>, t: seq<seq<int>>)
    requires |owners| == |t| && InRange(t, |cells|)
    requires forall n :: 0 <= n < |cells| ==> cells[n] == 0
    requires forall j :: 0 <= j < |t| ==> |t[j]| > 0
    ensures Unsettled(owners, cells, t) == {}
  {
    forall j | 0 <= j < |t|
      ensures Capture(Pick(cells, t[j])) == Unclaimed
    {
      CountZeros(Pick(cells, t[j]), 1);
      CountZeros(Pick(cells, t[j]), 2);
    }
  }

  lemma {:induction false} CountZeros(s: seq<int>, p: int)
    requires p != 0 && forall k :: 0 <= k < |s| ==> s[k] == 0
    ensures Count(s, p) == 0
  {
    if s != [] {
      CountZeros(s[..|s| - 1], p);
    }
  }

  /** If `s2` differs from `s` only where `s` held 0 and `s2` holds `who`,
      the count of any other non-zero value is unchanged and the count of
      `who` does not drop. */
  lemma {:induction false} CountClaimed(s: seq<int>, s2: seq<int>, who: int, p: int)
    requires |s2| == |s| && who != 0 && p != 0
    requires forall k :: 0 <= k < |s| ==> s2[k] == s[k] || (s[k] == 0 && s2[k] == who)
    ensures p != who ==> Count(s2, p) == Count(s, p)
    ensures Count(s2, p) >= Count(s, p)
  {
    if s != [] {
      CountClaimed(s[..|s| - 1], s2[..|s2| - 1], who, p);
    }
  }

  /** On a settled board a move captures only lines for the mover. */
  lemma CaptureByMover(b: Board, name: string, move: string)
    requires WellFormed(b) && Settled(b)
    ensures var r := Update(b, name, move);
      && (forall j :: 0 <= j <= b.size && b.ley[j] == Unclaimed && r.ley[j] != Unclaimed ==> r.ley[j] == Held(PlayerNumber(name)))
      && (forall j :: 0 <= j <= b.size && b.right[j] == Unclaimed && r.right[j] != Unclaimed ==> r.right[j] == Held(PlayerNumber(name)))
      && (forall j :: 0 <= j <= b.size && b.left[j] == Unclaimed && r.left[j] != Unclaimed ==> r.left[j] == Held(PlayerNumber(name)))
  {
    Layout(b.size);
    UpdateParts(b, name, move);
    var r, who := Update(b, name, move), PlayerNumber(name);
    forall n | 0 <= n < |b.cells|
      ensures r.cells[n] == b.cells[n] || (b.cells[n] == 0 && r.cells[n] == who)
    {
      CellAfter(b, name, move, n);
    }
    LinesByMover(b.ley, b.cells, r.cells, LeyTable(b.size), who);
    LinesByMover(b.right, b.cells, r.cells, RightLines(b.size), who);
    LinesByMover(b.left, b.cells, r.cells, LeftLines(b.size), who);
  }

  lemma LinesByMover(owners: seq<Owner>, cells: seq<int>, cells2: seq<int>, t: seq<seq<int>>, who: int)
    requires |owners| == |t| && InRange(t, |cells|) && |cells2| == |cells|
    requires who == 1 || who == 2
    requires forall n :: 0 <= n < |cells| ==> cells2[n] == cells[n] || (cells[n] == 0 && cells2[n] == who)
    requires Unsettled(owners, cells, t) == {}
    ensures forall j :: 0 <= j < |t| && owners[j] == Unclaimed && NewOwners(owners, cells2, t)[j] != Unclaimed ==>
      NewOwners(owners, cells2, t)[j] == Held(who)
  {
    forall j | 0 <= j < |t| && owners[j] == Unclaimed && NewOwners(owners, cells2, t)[j] != Unclaimed
      ensures NewOwners(owners, cells2, t)[j] == Held(who)
    {
      var ps, ps2 := Pick(cells, t[j]), Pick(cells2, t[j]);
      assert j !in Unsettled(owners, cells, t);
      CountClaimed(ps, ps2, who, 3 - who);
    }
  }

  /** On a settled board a move never raises the opponent's score: held
      lines are kept and new captures go to the mover. */
  lemma OpponentScoreKept(b: Board, name: string, move: string)
    requires WellFormed(b) && Settled(b)
    ensures Score(Update(b, name, move), 3 - PlayerNumber(name)) == Score(b, 3 - PlayerNumber(name))
  {
    var r, other := Update(b, name, move), 3 - PlayerNumber(name);
    UpdateChanges(b, name, move);
    CaptureByMover(b, name, move);
    CountOthers(b.ley, r.ley, other);
    CountOthers(b.right, r.right, other);
    CountOthers(b.left, r.left, other);
  }

  lemma {:induction false} CountOthers(s: seq<Owner>, s2: seq<Owner>, p: int)
    requires |s2| == |s|
    requires forall k :: 0 <= k < |s| ==> s2[k] == s[k] || (s[k] == Unclaimed && s2[k] != Held(p))
    ensures Count(s2, Held(p)) == Count(s, Held(p))
  {
    if s != [] {
      CountOthers(s[..|s| - 1], s2[..|s2| - 1], p);
    }
  }

  /** The two players together hold at most all `3 * (size + 1)` lines. */
  lemma ScoresBound(b: Board)
    requires WellFormed(b)
    ensures Score(b, 1) + Score(b, 2) <= 3 * (b.size + 1)
  {
    HeldBound(b.ley);
    HeldBound(b.right);
    HeldBound(b.left);
  }

  lemma {:induction false} HeldBound(s: seq<Owner>)
    ensures Count(s, Held(1)) + Count(s, Held(2)) <= |s|
  {
    if s != [] {
      HeldBound(s[..|s| - 1]);
    }
  }

  /** Scores never drop: held lines are never re-taken. */
  lemma ScoreMonotone(b: Board, name: string, move: string, player: int)
    requires WellFormed(b)
    ensures Score(Update(b, name, move), player) >= Score(b, player)
  {
    var r := Update(b, name, move);
    CountKept(b.ley, r.ley, player);
    CountKept(b.right, r.right, player);
    CountKept(b.left, r.left, player);
  }

  lemma {:induction false} CountKept(s: seq<Owner>, s2: seq<Owner>, p: int)
    requires |s2| == |s|
    requires forall k :: 0 <= k < |s| && s[k] != Unclaimed ==> s2[k] == s[k]
    ensures Count(s2, Held(p)) >= Count(s, Held(p))
  {
    if s != [] {
      CountKept(s[..|s| - 1], s2[..|s2| - 1], p);
    }
  }

  lemma DoctestOwners(cells: seq<int>, who: int)
    requires who == 1 || who == 2
    requires |cells| == 3 && cells[0] == who && cells[1] == 0 && cells[2] == 0
    ensures NewOwners([Unclaimed, Unclaimed], cells, LeyTable(1)) == [Held(who), Unclaimed]
    ensures NewOwners([Unclaimed, Unclaimed], cells, RightLines(1)) == [Unclaimed, Held(who)]
    ensures NewOwners([Unclaimed, Unclaimed], cells, LeftLines(1)) == [Held(who), Unclaimed]
  {
    DiagonalsMatch(1);
    Layout(1);
    LeyTableAt(1, 0);
    LeyTableAt(1, 1);
    assert LeyTable(1)[0] == [0, 1] && LeyTable(1)[1] == [2];
    CountPair(who, 0, 1);
    CountPair(who, 0, 2);
    CountPair(0, 0, 1);
    CountPair(0, 0, 2);
    assert Capture([who, 0]) == Held(who) && Capture([0]) == Unclaimed;
    assert Capture([who]) == Held(who) && Capture([0, 0]) == Unclaimed;
    DoctestLine(cells, LeyTable(1), [who, 0], [0]);
    DoctestLine(cells, RightLines(1), [0], [who, 0]);
    DoctestLine(cells, LeftLines(1), [who], [0, 0]);
  }

  /** The owners of two unclaimed lines after a move, given who holds
      their cells. */
  lemma DoctestLine(cells: seq<int>, t: seq<seq<int>>, p0: seq<int>, p1: seq<int>)
    requires |t| == 2 && InRange(t, |cells|)
    requires Pick(cells, t[0]) == p0 && Pick(cells, t[1]) == p1
    ensures NewOwners([Unclaimed, Unclaimed], cells, t) == [Capture(p0), Capture(p1)]
  {
  }

  /** `update_grid` re-examines every line over the updated cells. */
  lemma UpdateParts(b: Board, name: string, move: string)
    requires WellFormed(b)
    requires InRange(LeyTable(b.size), |b.cells|)
    requires InRange(RightLines(b.size), |b.cells|) && InRange(LeftLines(b.size), |b.cells|)
    ensures var r := Update(b, name, move);
      && r.ley == NewOwners(b.ley, r.cells, LeyTable(b.size))
      && r.right == NewOwners(b.right, r.cells, RightLines(b.size))
      && r.left == NewOwners(b.left, r.cells, LeftLines(b.size))
  {
    Layout(b.size);
  }

  /** The doctests of `update_grid` and `get_score`: on a side-1 board, the
      player claiming 'A' holds cell A and all three lines through it. */
  lemma UpdateDoctest(b: Board, name: string, r: Board)
    requires b == FreshBoard(1) && r == Update(b, name, "A")
    ensures |r.cells| == 3 && r.cells[0] == PlayerNumber(name) && r.cells[1] == 0 && r.cells[2] == 0
    ensures Score(r, PlayerNumber(name)) == 3 && Score(r, 3 - PlayerNumber(name)) == 0
  {
    DoctestCells(b, name, r);
    Layout(1);
    UpdateParts(b, name, "A");
    assert b.ley == [Unclaimed, Unclaimed] && b.right == [Unclaimed, Unclaimed] && b.left == [Unclaimed, Unclaimed];
    DoctestOwners(r.cells, PlayerNumber(name));
    DoctestCounts(PlayerNumber(name));
  }

  lemma DoctestCells(b: Board, name: string, r: Board)
    requires b == FreshBoard(1) && r == Update(b, name, "A")
    ensures |r.cells| == 3 && r.cells[0] == PlayerNumber(name) && r.cells[1] == 0 && r.cells[2] == 0
  {
    assert CellCount(1) == 3;
    assert b.cells[0] == 0 && b.cells[1] == 0 && b.cells[2] == 0;
    assert [Letter(0)] == "A" && [Letter(1)] == "B" && [Letter(2)] == "C";
    CellAfter(b, name, "A", 0);
    CellAfter(b, name, "A", 1);
    CellAfter(b, name, "A", 2);
  }

  lemma CellAfter(b: Board, name: string, move: string, n: int)
    requires WellFormed(b) && 0 <= n < |b.cells|
    ensures Update(b, name, move).cells[n] == Claim(b.cells[n], [Letter(n)], move, PlayerNumber(name))
  {
    SmallBoard(b.size);
  }

  lemma DoctestCounts(who: int)
    requires who == 1 || who == 2
    ensures Count([Held(who), Unclaimed], Held(who)) == 1 && Count([Unclaimed, Held(who)], Held(who)) == 1
    ensures Count([Held(who), Unclaimed], Held(3 - who)) == 0 && Count([Unclaimed, Held(who)], Held(3 - who)) == 0
  {
    CountPair(Held(who), Unclaimed, Held(who));
    CountPair(Unclaimed, Held(who), Held(who));
    CountPair(Held(who), Unclaimed, Held(3 - who));
    CountPair(Unclaimed, Held(who), Held(3 - who));
  }

  /** `Count` on one and on two entries. */
  lemma CountPair<T>(a: T, b: T, x: T)
    ensures Count([a], x) == if a == x then 1 else 0
    ensures Count([a, b], x) == (if a == x then 1 else 0) + (if b == x then 1 else 0)
  {
    assert [a, b][..1] == [a] && [a][..0] == [];
  }
}
