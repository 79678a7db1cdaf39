/**
 * The ranking the page query asks the database for
 * (student-rank-app/src/app/api/students/route.ts:64-91):
 *
 *   DENSE_RANK() OVER ([PARTITION BY institution_name] ORDER BY total_marks DESC)
 *
 * computed inside the `ranked_students` common table expression over the whole
 * `students` table, before the WHERE clause of the outer SELECT keeps some rows.
 * The database itself is not modelled; this module gives the meaning of that
 * ranking as a specification over a sequence of rows.
 */
module DenseRank {
  import StudentsQuery

  /** The columns of a `students` row that the ranking and the filters look at
      (student-rank-app/src/types/student.ts). */
  datatype Row = Row(
    id: int,
    rollNumber: string,
    studentName: string,
    institutionName: string,
    totalMarks: int,
    year: string,
    examType: string)

  /** Two rows are ranked together: always without a partition, and only within
      the same institution with `PARTITION BY institution_name`. */
  predicate SamePartition(a: Row, b: Row, partitioned: bool)
  {
    !partitioned || a.institutionName == b.institutionName
  }

  /** The distinct marks above `x`'s within its partition. */
  ghost function HigherMarks(rows: seq<Row>, x: Row, partitioned: bool): set<int>
  {
    set r | r in rows && SamePartition(r, x, partitioned) && r.totalMarks > x.totalMarks :: r.totalMarks
  }

  /** `DENSE_RANK()` ordered by `total_marks DESC`: one more than the number of
      distinct higher marks in the partition. */
  ghost function Rank(rows: seq<Row>, x: Row, partitioned: bool): (r: nat)
    ensures r >= 1
  {
    1 + |HigherMarks(rows, x, partitioned)|
  }

  lemma StrictSubsetCard(a: set<int>, b: set<int>, e: int)
    requires a <= b && e in b && e !in a
    ensures |a| < |b|
  {
    assert b == a + (b - a);
    assert e in b - a;
  }

  /** Rows of the same partition with equal marks share a rank. */
  lemma TiesShareRank(rows: seq<Row>, x: Row, y: Row, partitioned: bool)
    requires SamePartition(x, y, partitioned) && x.totalMarks == y.totalMarks
    ensures Rank(rows, x, partitioned) == Rank(rows, y, partitioned)
  {
    assert HigherMarks(rows, x, partitioned) == HigherMarks(rows, y, partitioned);
  }

  /** Within a partition, more marks give a strictly better (smaller) rank. */
  lemma HigherMarksBetterRank(rows: seq<Row>, x: Row, y: Row, partitioned: bool)
    requires y in rows && SamePartition(x, y, partitioned) && y.totalMarks > x.totalMarks
    ensures Rank(rows, y, partitioned) < Rank(rows, x, partitioned)
  {
    var hx, hy := HigherMarks(rows, x, partitioned), HigherMarks(rows, y, partitioned);
    assert hy <= hx;
    assert y.totalMarks in hx && y.totalMarks !in hy;
    StrictSubsetCard(hy, hx, y.totalMarks);
  }

  /** Rank 1 goes exactly to the rows no row of the partition outscores. */
  lemma RankOneIsTop(rows: seq<Row>, x: Row, partitioned: bool)
    ensures Rank(rows, x, partitioned) == 1 <==>
      forall r :: r in rows && SamePartition(r, x, partitioned) ==> r.totalMarks <= x.totalMarks
  {
    if exists r :: r in rows && SamePartition(r, x, partitioned) && r.totalMarks > x.totalMarks {
      var r :| r in rows && SamePartition(r, x, partitioned) && r.totalMarks > x.totalMarks;
      assert r.totalMarks in HigherMarks(rows, x, partitioned);
    }
  }

  /** `r` is in `x`'s partition with more marks. */
  predicate Above(r: Row, x: Row, partitioned: bool)
  {
    SamePartition(r, x, partitioned) && r.totalMarks > x.totalMarks
  }

  /** Among the rows above `x` in its partition, one with the fewest marks. */
  lemma {:induction false} LeastAbove(rows: seq<Row>, x: Row, partitioned: bool, z: Row) returns (y: Row)
    requires z in rows && Above(z, x, partitioned)
    ensures y in rows && Above(y, x, partitioned)
    ensures forall r :: r in rows && Above(r, x, partitioned) ==> y.totalMarks <= r.totalMarks
    decreases |rows|
  {
    var init, last := rows[..|rows| - 1], rows[|rows| - 1];
    assert rows == init + [last];
    if exists r :: r in init && Above(r, x, partitioned) {
      var r :| r in init && Above(r, x, partitioned);
      var best := LeastAbove(init, x, partitioned, r);
      y := if Above(last, x, partitioned) && last.totalMarks < best.totalMarks then last else best;
    } else {
      y := last;
    }
  }

  /** Dense ranks have no gaps: a row ranked below 1 has a row of its partition
      ranked exactly one better. */
  lemma NoGaps(rows: seq<Row>, x: Row, partitioned: bool) returns (y: Row)
    requires Rank(rows, x, partitioned) > 1
    ensures y in rows && SamePartition(y, x, partitioned)
    ensures Rank(rows, y, partitioned) == Rank(rows, x, partitioned) - 1
  {
    RankOneIsTop(rows, x, partitioned);
    var z :| z in rows && SamePartition(z, x, partitioned) && z.totalMarks > x.totalMarks;
    y := LeastAbove(rows, x, partitioned, z);
    var hx, hy := HigherMarks(rows, x, partitioned), HigherMarks(rows, y, partitioned);
    assert hy == hx - {y.totalMarks};
  }

  // ---------------------------------------------------------------------------
  // Ranking before the WHERE clause
  // ---------------------------------------------------------------------------

  /** A row of `ranked_students`: the row and the rank computed over the whole table. */
  datatype RankedRow = RankedRow(row: Row, rank: nat)

  /** The common table expression `ranked_students`. */
  ghost function Ranked(rows: seq<Row>, partitioned: bool): (rr: seq<RankedRow>)
    ensures |rr| == |rows|
    ensures forall i :: 0 <= i < |rows| ==> rr[i].row == rows[i]
  {
    seq(|rows|, i requires 0 <= i < |rows| => RankedRow(rows[i], Rank(rows, rows[i], partitioned)))
  }

  /** The outer `WHERE`: the ranked rows whose row satisfies `keep`, in order. */
  function Where(rr: seq<RankedRow>, keep: Row -> bool): (out: seq<RankedRow>)
    ensures |out| <= |rr|
    ensures forall r :: r in out <==> r in rr && keep(r.row)
  {
    if |rr| == 0 then []
    else (if keep(rr[0].row) then [rr[0]] else []) + Where(rr[1..], keep)
  }

  /** The rows `keep` selects, as a table of their own. */
  function Select(rows: seq<Row>, keep: Row -> bool): (out: seq<Row>)
    ensures forall r :: r in out <==> r in rows && keep(r)
  {
    if |rows| == 0 then []
    else (if keep(rows[0]) then [rows[0]] else []) + Select(rows[1..], keep)
  }

  /** Whatever the filter keeps, each kept row carries the rank it has in the whole
      table: the WHERE clause does not re-rank. */
  lemma FilterKeepsTableRank(rows: seq<Row>, partitioned: bool, keep: Row -> bool)
    ensures forall r :: r in Where(Ranked(rows, partitioned), keep) ==>
      r.row in rows && keep(r.row) && r.rank == Rank(rows, r.row, partitioned)
  {
  }

  /** With `PARTITION BY institution_name`, a row's rank is its rank among all
      the rows carrying exactly its institution name, whatever their year and
      exam type. */
  lemma PartitionedRankIsRankWithinInstitution(rows: seq<Row>, name: string, x: Row)
    requires x in rows && x.institutionName == name
    ensures Rank(rows, x, true) == Rank(Select(rows, (r: Row) => r.institutionName == name), x, false)
  {
    var mine := Select(rows, (r: Row) => r.institutionName == name);
    assert HigherMarks(rows, x, true) == HigherMarks(mine, x, false);
  }

  /** A filtered page shows whole-table ranks, which differ from ranks among the
      kept rows: without a partition, the second-best student overall is shown
      with rank 2 even when the filter keeps only that student. */
  lemma UnpartitionedRankIsNotRankWithinFilter()
    ensures var a := Row(1, "300001", "A", "X College", 500, "2024", "HSC");
      var b := Row(2, "300002", "B", "Y College", 480, "2024", "HSC");
      && Rank([a, b], b, false) == 2
      && Rank(Select([a, b], (r: Row) => r.institutionName == "Y College"), b, false) == 1
  {
    var a := Row(1, "300001", "A", "X College", 500, "2024", "HSC");
    var b := Row(2, "300002", "B", "Y College", 480, "2024", "HSC");
    assert HigherMarks([a, b], b, false) == {500};
    var kept := Select([a, b], (r: Row) => r.institutionName == "Y College");
    assert HigherMarks(kept, b, false) == {};
  }

  /** The institution partition does not make the rank one within the filter
      either: it spans every year and exam type of the institution, while the
      results view always filters by year and exam type. A 2024 row below the
      institution's 2023 row has rank 2, although it heads the 2024 page. */
  lemma PartitionSpansYears()
    ensures var a := Row(1, "300001", "A", "X College", 500, "2023", "HSC");
      var b := Row(2, "300002", "B", "X College", 480, "2024", "HSC");
      var keep := (r: Row) => r.institutionName == "X College" && r.year == "2024";
      && Rank([a, b], b, true) == 2
      && Select([a, b], keep) == [b]
      && Rank(Select([a, b], keep), b, true) == 1
  {
    var a := Row(1, "300001", "A", "X College", 500, "2023", "HSC");
    var b := Row(2, "300002", "B", "X College", 480, "2024", "HSC");
    var keep := (r: Row) => r.institutionName == "X College" && r.year == "2024";
    assert HigherMarks([a, b], b, true) == {500};
    assert Select([a, b], keep) == [b] by {
      assert !keep(a) && keep(b);
      assert [a, b][1..] == [b];
    }
    assert HigherMarks([b], b, true) == {};
  }

  /** The institution filter compares names case-insensitively
      (`LOWER(institution_name) = LOWER($n)`), but the partition groups exact
      names: rows of "X College" and "X COLLEGE" both pass the filter for
      "x college", yet each heads its own partition with rank 1, where one
      ranking would have put the second at rank 2. */
  lemma CaseVariantsRankApart()
    ensures var a := Row(1, "300001", "A", "X College", 500, "2024", "HSC");
      var b := Row(2, "300002", "B", "X COLLEGE", 480, "2024", "HSC");
      var keep := (r: Row) => StudentsQuery.ToLower(r.institutionName) == StudentsQuery.ToLower("x college");
      && keep(a) && keep(b)
      && Rank([a, b], a, true) == 1 && Rank([a, b], b, true) == 1
      && Rank([a, b], b, false) == 2
  {
    var a := Row(1, "300001", "A", "X College", 500, "2024", "HSC");
    var b := Row(2, "300002", "B", "X COLLEGE", 480, "2024", "HSC");
    LowerCollegeNames();
    assert HigherMarks([a, b], a, true) == {};
    assert HigherMarks([a, b], b, true) == {};
    assert HigherMarks([a, b], b, false) == {500};
  }

  lemma LowerCollegeNames()
    ensures StudentsQuery.ToLower("X College") == "x college"
    ensures StudentsQuery.ToLower("X COLLEGE") == "x college"
    ensures StudentsQuery.ToLower("x college") == "x college"
  {
  }

  /** Marks 500, 500, 480, 300 are ranked 1, 1, 2, 3: ties share a rank and
      the next mark down takes the next rank, with no gap. */
  lemma TiedMarksScenario()
    ensures var rows := [
        Row(1, "1", "A", "I", 500, "2024", "HSC"), Row(2, "2", "B", "I", 500, "2024", "HSC"),
        Row(3, "3", "C", "I", 480, "2024", "HSC"), Row(4, "4", "D", "I", 300, "2024", "HSC")];
      && Rank(rows, rows[0], false) == 1 && Rank(rows, rows[1], false) == 1
      && Rank(rows, rows[2], false) == 2 && Rank(rows, rows[3], false) == 3
  {
    var rows := [
        Row(1, "1", "A", "I", 500, "2024", "HSC"), Row(2, "2", "B", "I", 500, "2024", "HSC"),
        Row(3, "3", "C", "I", 480, "2024", "HSC"), Row(4, "4", "D", "I", 300, "2024", "HSC")];
    assert HigherMarks(rows, rows[0], false) == {};
    TiesShareRank(rows, rows[0], rows[1], false);
    assert HigherMarks(rows, rows[2], false) == {500};
    assert HigherMarks(rows, rows[3], false) == {500, 480};
  }
}
