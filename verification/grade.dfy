/** Grade entries of a transcript (Labs/lab2/grade.py).
    Grade points are integer tenths: 4.0 is 40, 0.7 is 7. */
module Grade {
  import opened Wrappers

  /** The fixed letter-grade table of `LetterGradeEntry`. */
  const LetterTable: map<string, int> :=
    map["A+" := 40, "A" := 40, "A-" := 37, "B+" := 33, "B" := 30, "B-" := 27,
        "C+" := 23, "C" := 20, "C-" := 17, "D+" := 13, "D" := 10, "D-" := 7, "F" := 0]

  /** One row of the numeric table: points for grades in lo..hi (both inclusive). */
  datatype Band = Band(points: int, lo: int, hi: int)

  /** The numeric table of `NumericGradeEntry`, in the dictionary's insertion order. */
  const NumericTable: seq<Band> :=
    [Band(40, 85, 100), Band(37, 80, 84), Band(33, 77, 79), Band(30, 73, 76),
     Band(27, 70, 72), Band(23, 67, 69), Band(20, 63, 66), Band(17, 60, 62),
     Band(13, 57, 59), Band(10, 53, 56), Band(7, 50, 52)]

  /** A grade entry: the two subclasses of `GradeEntry`. Weights are compared
      only for equality and are kept as exact reals. */
  datatype GradeEntry =
    | Letter(courseId: string, weight: real, letter: string)
    | Numeric(courseId: string, weight: real, grade: int)

  /** `LetterGradeEntry.generate_points`: a lookup that raises KeyError for
      a letter outside the table. */
  function LetterPoints(letter: string): (r: Result<int>)
    ensures r.Ok? <==> letter in LetterTable
    ensures r.Err? ==> r.error == KeyError
    ensures r.Ok? ==> 0 <= r.value <= 40
  {
    if letter in LetterTable then Ok(LetterTable[letter]) else Err(KeyError)
  }

  /** The first band of `table` whose range holds `grade`, as the `for` loop
      over the dictionary finds it; None when no band holds it. */
  function FirstBand(table: seq<Band>, grade: int): (r: Option<int>)
    ensures r.None? <==> forall i :: 0 <= i < |table| ==> !(table[i].lo <= grade <= table[i].hi)
    ensures r.Some? ==> exists i :: 0 <= i < |table| && table[i].lo <= grade <= table[i].hi
                                    && r.value == table[i].points
  {
    if table == [] then None
    else if table[0].lo <= grade <= table[0].hi then Some(table[0].points)
    else
      var rest := FirstBand(table[1..], grade);
      assert rest.Some? ==> exists i :: 1 <= i < |table| && table[i].lo <= grade <= table[i].hi
                                       && rest.value == table[i].points by {
        if rest.Some? {
          var j :| 0 <= j < |table[1..]| && table[1..][j].lo <= grade <= table[1..][j].hi
                   && rest.value == table[1..][j].points;
          assert table[j + 1] == table[1..][j];
        }
      }
      rest
  }

  /** `NumericGradeEntry.generate_points`: 0.0 below 50, the band's points from
      50 to 100, and None (the function falls off its loop) above 100. */
  function NumericPoints(grade: int): (r: Option<int>)
    ensures grade < 50 ==> r == Some(0)
    ensures grade > 100 ==> r.None?
    ensures 50 <= grade <= 100 ==> r.Some? && 7 <= r.value <= 40
  {
    if grade < 50 then Some(0)
    else
      assert 50 <= grade <= 100 ==>
        (exists i :: 0 <= i < |NumericTable| && NumericTable[i].lo <= grade <= NumericTable[i].hi) by {
        if 50 <= grade <= 100 { CoveringBand(grade); }
      }
      FirstBand(NumericTable, grade)
  }

  /** The band whose range holds `grade`, for 50 <= grade <= 100. */
  function BandIndex(grade: int): (i: nat)
    requires 50 <= grade <= 100
    ensures i < |NumericTable| && NumericTable[i].lo <= grade <= NumericTable[i].hi
  {
    if grade >= 85 then 0 else if grade >= 80 then 1 else if grade >= 77 then 2
    else if grade >= 73 then 3 else if grade >= 70 then 4 else if grade >= 67 then 5
    else if grade >= 63 then 6 else if grade >= 60 then 7 else if grade >= 57 then 8
    else if grade >= 53 then 9 else 10
  }

  lemma CoveringBand(grade: int)
    requires 50 <= grade <= 100
    ensures exists i :: 0 <= i < |NumericTable| && NumericTable[i].lo <= grade <= NumericTable[i].hi
  {
    var i := BandIndex(grade);
  }

  /** The numeric bands are disjoint and contiguous: they tile 50..100 with no
      gap and no overlap, each one starting right after the next one ends. */
  lemma BandsTile()
    ensures NumericTable[0].hi == 100 && NumericTable[|NumericTable| - 1].lo == 50
    ensures forall i :: 0 <= i < |NumericTable| ==> NumericTable[i].lo <= NumericTable[i].hi
    ensures forall i :: 0 <= i < |NumericTable| - 1 ==> NumericTable[i + 1].hi + 1 == NumericTable[i].lo
  {
  }

  /** Each grade in 50..100 lies in exactly one band, and that band's points are
      what `NumericPoints` returns. */
  lemma {:induction false} UniqueBand(grade: int, i: nat)
    requires 50 <= grade <= 100
    requires i < |NumericTable| && NumericTable[i].lo <= grade <= NumericTable[i].hi
    ensures i == BandIndex(grade)
  {
    BandsTile();
    var k := BandIndex(grade);
    if i < k {
      BandsOrdered(i, k);
    } else if k < i {
      BandsOrdered(k, i);
    }
  }

  /** The points `NumericPoints` finds for a grade in 50..100 are those of
      the one band holding it. */
  lemma BandPoints(grade: int)
    requires 50 <= grade <= 100
    ensures NumericPoints(grade) == Some(NumericTable[BandIndex(grade)].points)
  {
    var r := NumericPoints(grade);
    var j :| 0 <= j < |NumericTable| && NumericTable[j].lo <= grade <= NumericTable[j].hi
             && r.value == NumericTable[j].points;
    UniqueBand(grade, j);
  }

  /** An earlier band lies entirely above a later one. */
  lemma {:induction false} BandsOrdered(i: nat, k: nat)
    requires i < k < |NumericTable|
    ensures NumericTable[k].hi < NumericTable[i].lo
  {
    BandsTile();
    if k > i + 1 {
      BandsOrdered(i, k - 1);
    }
  }

  /** Points never decrease as the numeric grade rises, up to 100. */
  lemma NumericPointsMonotone(g1: int, g2: int)
    requires g1 <= g2 <= 100
    ensures NumericPoints(g1).Some? && NumericPoints(g2).Some?
    ensures NumericPoints(g1).value <= NumericPoints(g2).value
  {
    if g1 >= 50 {
      BandPoints(g1);
      BandPoints(g2);
    }
  }

  /** The letter table's values quoted in the course handout. */
  lemma LetterTableFacts()
    ensures LetterPoints("A+") == Ok(40) && LetterPoints("A") == Ok(40)
    ensures LetterPoints("F") == Ok(0) && LetterPoints("B+") == Ok(33)
    ensures LetterPoints("E") == Err(KeyError)
  {
  }

  /** `GradeEntry.generate_points`, dispatched on the subclass; a letter outside
      the table raises KeyError, a numeric grade above 100 yields None. */
  function GeneratePoints(e: GradeEntry): (r: Result<Option<int>>)
    ensures e.Numeric? ==> r.Ok? && (r.value.None? <==> e.grade > 100)
    ensures e.Letter? ==> (r.Err? <==> e.letter !in LetterTable)
  {
    match e
    case Letter(_, _, letter) =>
      (match LetterPoints(letter)
       case Ok(p) => Ok(Some(p))
       case Err(err) => Err(err))
    case Numeric(_, _, grade) => Ok(NumericPoints(grade))
  }

  /** `GradeEntry.__eq__`: same subclass, course, weight and grade. */
  function Equal(a: GradeEntry, b: GradeEntry): (r: bool)
    ensures r <==> a == b
    ensures r ==> a.courseId == b.courseId && a.weight == b.weight
  {
    match (a, b)
    case (Letter(c1, w1, g1), Letter(c2, w2, g2)) => c1 == c2 && w1 == w2 && g1 == g2
    case (Numeric(c1, w1, g1), Numeric(c2, w2, g2)) => c1 == c2 && w1 == w2 && g1 == g2
    case _ => false
  }
}
