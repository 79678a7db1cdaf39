/**
 * The result scraper (result_scraper.py): the batch range taken from the saved
 * progress, the roll loop with its retries, progress and continuous-failure
 * counter, and the flattening of one result page into a CSV row.
 *
 * The browser and the HTML parser are not modelled: each attempt for a roll is
 * an input `Attempt`, either an exception or the cell texts of the two result
 * tables together with whether appending to the CSV file fails.
 */
module Scraper {

  import opened Optional
  import opened NumberText
  import SubjectParse

  const MaxRetries := 3
  const OverallStartRoll := 300000
  const OverallEndRoll := 340000
  const BatchSize := 20000
  const MaxContinuousFailures := 10

  // ---------------------------------------------------------------------------
  // Progress and batch range
  // ---------------------------------------------------------------------------

  /** `load_progress`: the saved `last_scraped_roll`, or the roll before the
      first one when there is no progress file. */
  function LoadProgress(saved: Option<int>): int
  {
    match saved
    case None => OverallStartRoll - 1
    case Some(roll) => roll
  }

  /** `current_end_roll` for a batch starting after `last`. */
  function BatchEnd(last: int): (e: int)
    // never past the overall end, and never more than a batch
    ensures e <= OverallEndRoll && e - (last + 1) + 1 <= BatchSize
    // and as far as both limits allow
    ensures e == OverallEndRoll || e == last + BatchSize
  {
    var start := last + 1;
    if start + BatchSize - 1 < OverallEndRoll then start + BatchSize - 1 else OverallEndRoll
  }

  /** With no progress file the first batch is rolls 300000 to 319999. */
  lemma FirstBatch()
    ensures LoadProgress(None) + 1 == OverallStartRoll
    ensures BatchEnd(LoadProgress(None)) == 319999
  {
  }

  // ---------------------------------------------------------------------------
  // Extracting the two tables
  // ---------------------------------------------------------------------------

  /** A table as the cell texts of its rows. */
  type Table = seq<seq<string>>

  /** `general_info` after the rows of `rows`: a row of exactly four cells gives
      two key/value pairs, the second written after the first. */
  function GeneralInfoOf(rows: Table): map<string, string>
  {
    if |rows| == 0 then map[]
    else
      var info := GeneralInfoOf(rows[..|rows| - 1]);
      var cols := rows[|rows| - 1];
      if |cols| == 4 then info[cols[0] := cols[1]][cols[2] := cols[3]] else info
  }

  /** The table with class `tftable`, absent when the page has none. */
  function GeneralInfoOfTable(table: Option<Table>): map<string, string>
  {
    match table
    case None => map[]
    case Some(rows) => GeneralInfoOf(rows)
  }

  /** The loop filling `general_info`. */
  method ExtractGeneralInfo(table: Option<Table>) returns (generalInfo: map<string, string>)
    ensures generalInfo == GeneralInfoOfTable(table)
  {
    generalInfo := map[];
    if table.Some? {
      var rows := table.value;
      var n := 0;
      while n < |rows|
        invariant 0 <= n <= |rows|
        invariant generalInfo == GeneralInfoOf(rows[..n])
      {
        var cols := rows[n];
        if |cols| == 4 {
          generalInfo := generalInfo[cols[0] := cols[1]];
          generalInfo := generalInfo[cols[2] := cols[3]];
        }
        assert rows[..n + 1][..n] == rows[..n];
        n := n + 1;
      }
      assert rows[..|rows|] == rows;
    }
  }

  /** Row `row` names `key` among its two keys. */
  predicate NamesKey(row: seq<string>, key: string)
  {
    |row| == 4 && (row[0] == key || row[2] == key)
  }

  /** The value a four-cell row gives `key`; the second pair wins. */
  function ValueIn(row: seq<string>, key: string): string
    requires NamesKey(row, key)
  {
    if row[2] == key then row[3] else row[1]
  }

  /** The keys of `general_info` are exactly the keys of the four-cell rows. */
  lemma {:induction false} GeneralInfoKeys(rows: Table, key: string)
    ensures key in GeneralInfoOf(rows) <==> exists i :: 0 <= i < |rows| && NamesKey(rows[i], key)
  {
    if |rows| > 0 {
      var init := rows[..|rows| - 1];
      GeneralInfoKeys(init, key);
      if exists i :: 0 <= i < |init| && NamesKey(init[i], key) {
        var i :| 0 <= i < |init| && NamesKey(init[i], key);
        assert NamesKey(rows[i], key);
      }
      if exists i :: 0 <= i < |rows| && NamesKey(rows[i], key) {
        var i :| 0 <= i < |rows| && NamesKey(rows[i], key);
        if i < |init| {
          assert NamesKey(init[i], key);
        }
      }
    }
  }

  /** A key takes the value of the last four-cell row that names it. */
  lemma {:induction false} GeneralInfoLastWins(rows: Table, key: string, i: nat)
    requires i < |rows| && NamesKey(rows[i], key)
    requires forall j :: i < j < |rows| ==> !NamesKey(rows[j], key)
    ensures key in GeneralInfoOf(rows) && GeneralInfoOf(rows)[key] == ValueIn(rows[i], key)
  {
    var init := rows[..|rows| - 1];
    if i < |init| {
      GeneralInfoLastWins(init, key, i);
      assert !NamesKey(rows[|rows| - 1], key);
    }
  }

  /** One entry of `subject_grades`. */
  datatype SubjectGrade = SubjectGrade(code: string, subject: string, grade: string)

  /** The subjects of `rows`: each row of exactly three cells, in order. */
  function SubjectRows(rows: Table): seq<SubjectGrade>
  {
    if |rows| == 0 then []
    else
      var cols := rows[|rows| - 1];
      SubjectRows(rows[..|rows| - 1]) + (if |cols| == 3 then [SubjectGrade(cols[0], cols[1], cols[2])] else [])
  }

  /** `subject_grades` from the table with class `tftable2`, its first row being
      the header. */
  function SubjectsOfTable(table: Option<Table>): seq<SubjectGrade>
  {
    match table
    case None => []
    case Some(rows) => if |rows| == 0 then [] else SubjectRows(rows[1..])
  }

  /** The loop filling `subject_grades`, from the second row on. */
  method ExtractSubjects(table: Option<Table>) returns (subjectGrades: seq<SubjectGrade>)
    ensures subjectGrades == SubjectsOfTable(table)
  {
    subjectGrades := [];
    if table.Some? && |table.value| > 0 {
      var rows := table.value;
      var n := 1;
      while n < |rows|
        invariant 1 <= n <= |rows|
        invariant subjectGrades == SubjectRows(rows[1..n])
      {
        var cols := rows[n];
        if |cols| == 3 {
          subjectGrades := subjectGrades + [SubjectGrade(cols[0], cols[1], cols[2])];
        }
        assert rows[1..n + 1][..n - 1] == rows[1..n];
        n := n + 1;
      }
      assert rows[1..|rows|] == rows[1..];
    }
  }

  /** The subject a three-cell row stands for. */
  function GradeOfRow(cols: seq<string>): SubjectGrade
    requires |cols| == 3
  {
    SubjectGrade(cols[0], cols[1], cols[2])
  }

  /** Every subject comes from a three-cell row, and every three-cell row gives
      a subject. */
  lemma {:induction false} SubjectRowsExact(rows: Table)
    ensures forall g :: g in SubjectRows(rows) ==> exists i :: 0 <= i < |rows| && |rows[i]| == 3 && g == GradeOfRow(rows[i])
    ensures forall i :: 0 <= i < |rows| && |rows[i]| == 3 ==> GradeOfRow(rows[i]) in SubjectRows(rows)
  {
    if |rows| > 0 {
      var init := rows[..|rows| - 1];
      SubjectRowsExact(init);
      forall g | g in SubjectRows(rows)
        ensures exists i :: 0 <= i < |rows| && |rows[i]| == 3 && g == GradeOfRow(rows[i])
      {
        if g in SubjectRows(init) {
          var i :| 0 <= i < |init| && |init[i]| == 3 && g == GradeOfRow(init[i]);
          assert rows[i] == init[i];
        } else {
          assert g == GradeOfRow(rows[|rows| - 1]);
        }
      }
      forall i | 0 <= i < |rows| && |rows[i]| == 3 ensures GradeOfRow(rows[i]) in SubjectRows(rows) {
        if i < |init| {
          assert rows[i] == init[i];
        }
      }
    }
  }

  /** The header row is never read as a subject. */
  lemma HeaderIgnored(header: seq<string>, header': seq<string>, rows: Table)
    ensures SubjectsOfTable(Some([header] + rows)) == SubjectsOfTable(Some([header'] + rows))
  {
    assert ([header] + rows)[1..] == rows == ([header'] + rows)[1..];
  }

  // ---------------------------------------------------------------------------
  // csv_data
  // ---------------------------------------------------------------------------

  /** An insertion-ordered dictionary from column name to cell text. */
  type Entries = seq<(string, string)>

  /** The column names, in order. */
  function KeysOf(d: Entries): seq<string>
  {
    seq(|d|, i requires 0 <= i < |d| => d[i].0)
  }

  /** The cell texts, in order. */
  function ValuesOf(d: Entries): seq<string>
  {
    seq(|d|, i requires 0 <= i < |d| => d[i].1)
  }

  /** `d[key] = value` on a Python dict: an existing key keeps its place, so
      the dict grows by at most one entry, and afterwards `key` has `value`. */
  function DictSet(d: Entries, key: string, value: string): (r: Entries)
    ensures |d| <= |r| <= |d| + 1
    ensures DictGet(r, key) == value
  {
    if |d| == 0 then [(key, value)]
    else if d[0].0 == key then [(key, value)] + d[1..]
    else [d[0]] + DictSet(d[1..], key, value)
  }

  /** A new key is appended at the end. */
  lemma {:induction false} DictSetNewKey(d: Entries, key: string, value: string)
    requires key !in KeysOf(d)
    ensures DictSet(d, key, value) == d + [(key, value)]
  {
    if |d| > 0 {
      assert KeysOf(d)[0] == d[0].0;
      assert key !in KeysOf(d[1..]) by {
        forall i | 0 <= i < |d| - 1 ensures KeysOf(d[1..])[i] != key {
          assert KeysOf(d[1..])[i] == KeysOf(d)[i + 1];
        }
      }
      DictSetNewKey(d[1..], key, value);
    }
  }

  /** Setting a key leaves every entry with another key where it was, with its
      value; an existing key is overwritten in place, so the dict keeps its size. */
  lemma {:induction false} DictSetKeepsOthers(d: Entries, key: string, value: string)
    ensures forall i :: 0 <= i < |d| && d[i].0 != key ==> DictSet(d, key, value)[i] == d[i]
    ensures key in KeysOf(d) ==> |DictSet(d, key, value)| == |d|
  {
    if |d| > 0 && d[0].0 != key {
      DictSetKeepsOthers(d[1..], key, value);
      var r := DictSet(d, key, value);
      assert r == [d[0]] + DictSet(d[1..], key, value);
      forall i | 0 <= i < |d| && d[i].0 != key ensures r[i] == d[i] {
        if i > 0 {
          assert d[1..][i - 1] == d[i];
        }
      }
      if key in KeysOf(d) {
        var k :| 0 <= k < |d| && KeysOf(d)[k] == key;
        assert k > 0 && KeysOf(d[1..])[k - 1] == key;
      }
    }
  }

  /** `csv_data.get(key)` when the value is a string, `''` standing for a
      missing key (both are falsy). */
  function DictGet(d: Entries, key: string): string
  {
    if |d| == 0 then "" else if d[0].0 == key then d[0].1 else DictGet(d[1..], key)
  }

  /** The twelve fixed columns, in the order of the `csv_data` literal. */
  const FixedColumns: seq<string> := ["Roll No", "Name", "Board", "Father's Name", "Group",
    "Mother's Name", "Session", "Reg. NO", "Type", "Institute", "Result", "DATE OF BIRTH"]

  /** `general_info.get(key, '')`. */
  function Lookup(info: map<string, string>, key: string): string
  {
    if key in info then info[key] else ""
  }

  /** The `csv_data` literal: the roll number, then the eleven looked-up fields. */
  function FixedCsv(roll: int, info: map<string, string>): (d: Entries)
    ensures KeysOf(d) == FixedColumns
    ensures d[0].1 == IntToString(roll)
    ensures forall i :: 1 <= i < 12 ==> d[i].1 == Lookup(info, FixedColumns[i])
  {
    // the roll number, then `general_info.get(key, '')` for each other column
    var d := [("Roll No", IntToString(roll))]
      + seq(11, i requires 0 <= i < 11 => (FixedColumns[i + 1], Lookup(info, FixedColumns[i + 1])));
    assert FixedColumns[0] == "Roll No";
    assert forall i :: 0 <= i < 12 ==> d[i].0 == FixedColumns[i];
    d
  }

  /** `f'Subject_{i}_{field}'`. */
  function SubjectKey(i: nat, field: string): string
  {
    "Subject_" + NatToString(i) + "_" + field
  }

  /** The three columns of subject `i` (counting from 1). */
  function SubjectEntries(i: nat, g: SubjectGrade): Entries
  {
    [(SubjectKey(i, "Code"), g.code), (SubjectKey(i, "Name"), g.subject), (SubjectKey(i, "Grade"), g.grade)]
  }

  /** `csv_data` after the first `n` subjects were added. */
  function CsvUpTo(roll: int, info: map<string, string>, subjects: seq<SubjectGrade>, n: nat): Entries
    requires n <= |subjects|
  {
    if n == 0 then FixedCsv(roll, info)
    else CsvUpTo(roll, info, subjects, n - 1) + SubjectEntries(n, subjects[n - 1])
  }

  /** A key is one of the fixed columns or a subject column numbered 1..n. */
  predicate CsvKey(key: string, n: nat)
  {
    key in FixedColumns
    || exists i, f :: 1 <= i <= n && f in {"Code", "Name", "Grade"} && key == SubjectKey(i, f)
  }

  /** The keys after subject `n` are those before it and its three columns. */
  lemma KeysAddSubject(roll: int, info: map<string, string>, subjects: seq<SubjectGrade>, n: nat)
    requires 0 < n <= |subjects|
    ensures KeysOf(CsvUpTo(roll, info, subjects, n))
      == KeysOf(CsvUpTo(roll, info, subjects, n - 1)) + SubjectKeys(n)
  {
  }

  /** A column of the first `m` subjects is a column of the first `n >= m`. */
  lemma CsvKeyWiden(key: string, m: nat, n: nat)
    requires CsvKey(key, m) && m <= n
    ensures CsvKey(key, n)
  {
    if key !in FixedColumns {
      var i, f :| 1 <= i <= m && f in {"Code", "Name", "Grade"} && key == SubjectKey(i, f);
      assert 1 <= i <= n;
    }
  }

  /** `csv_data` has twelve columns and three per subject, and every key is a
      fixed column or a subject column. */
  lemma {:induction false} CsvUpToKeys(roll: int, info: map<string, string>, subjects: seq<SubjectGrade>, n: nat)
    requires n <= |subjects|
    ensures |CsvUpTo(roll, info, subjects, n)| == 12 + 3 * n
    ensures forall k :: k in KeysOf(CsvUpTo(roll, info, subjects, n)) ==> CsvKey(k, n)
  {
    if n > 0 {
      CsvUpToKeys(roll, info, subjects, n - 1);
      KeysAddSubject(roll, info, subjects, n);
      var kp := KeysOf(CsvUpTo(roll, info, subjects, n - 1));
      forall k | k in KeysOf(CsvUpTo(roll, info, subjects, n)) ensures CsvKey(k, n) {
        if k in kp {
          CsvKeyWiden(k, n - 1, n);
        } else {
          assert k == SubjectKey(n, "Code") || k == SubjectKey(n, "Name") || k == SubjectKey(n, "Grade");
        }
      }
    }
  }

  /** A run of digits followed by `_` determines where the `_` is. */
  lemma DigitsThenUnderscore(a: string, b: string, x: string, y: string)
    requires forall i :: 0 <= i < |a| ==> '0' <= a[i] <= '9'
    requires forall i :: 0 <= i < |b| ==> '0' <= b[i] <= '9'
    requires a + "_" + x == b + "_" + y
    ensures a == b && x == y
  {
    var s, t := a + "_" + x, b + "_" + y;
    assert s[|a|] == '_' && t[|b|] == '_';
    assert forall i :: 0 <= i < |a| ==> s[i] == a[i];
    assert forall i :: 0 <= i < |b| ==> t[i] == b[i];
    assert |a| == |b|;
    assert s[..|a|] == a && t[..|b|] == b;
    assert s[|a| + 1..] == x && t[|b| + 1..] == y;
  }

  /** Different subject numbers or fields give different column names. */
  lemma SubjectKeyInjective(i: nat, f: string, j: nat, g: string)
    requires SubjectKey(i, f) == SubjectKey(j, g)
    ensures i == j && f == g
  {
    var a, b := NatToString(i), NatToString(j);
    var s := "Subject_" + a + "_" + f;
    assert s[8..] == a + "_" + f;
    assert ("Subject_" + b + "_" + g)[8..] == b + "_" + g;
    DigitsThenUnderscore(a, b, f, g);
    NatToStringInjective(i, j);
  }

  /** A subject column is never one of the fixed columns. */
  lemma SubjectKeyNotFixed(i: nat, f: string)
    ensures SubjectKey(i, f) !in FixedColumns
  {
    var k := SubjectKey(i, f);
    assert k[1] == 'u';
    forall c | c in FixedColumns ensures c != k {
      assert c[1] != 'u';
    }
  }

  /** The column of subject `n` is not among the columns present before it. */
  lemma FreshSubjectKey(key: string, m: nat, n: nat, f: string)
    requires CsvKey(key, m) && m < n
    ensures key != SubjectKey(n, f)
  {
    SubjectKeyNotFixed(n, f);
    if key !in FixedColumns {
      var i, g :| 1 <= i <= m && g in {"Code", "Name", "Grade"} && key == SubjectKey(i, g);
      if key == SubjectKey(n, f) {
        SubjectKeyInjective(i, g, n, f);
      }
    }
  }

  /** Setting three distinct new keys appends them in order. */
  lemma DictSetThreeNew(d: Entries, k1: string, v1: string, k2: string, v2: string, k3: string, v3: string)
    requires k1 !in KeysOf(d) && k2 !in KeysOf(d) && k3 !in KeysOf(d)
    requires k1 != k2 && k1 != k3 && k2 != k3
    ensures DictSet(DictSet(DictSet(d, k1, v1), k2, v2), k3, v3) == d + [(k1, v1), (k2, v2), (k3, v3)]
  {
    DictSetNewKey(d, k1, v1);
    var d1 := d + [(k1, v1)];
    assert KeysOf(d1) == KeysOf(d) + [k1];
    DictSetNewKey(d1, k2, v2);
    var d2 := d1 + [(k2, v2)];
    assert KeysOf(d2) == KeysOf(d1) + [k2];
    DictSetNewKey(d2, k3, v3);
    assert d2 + [(k3, v3)] == d + [(k1, v1), (k2, v2), (k3, v3)];
  }

  /** Adding subject `n` to `csv_data` appends its three columns. */
  lemma AddSubject(roll: int, info: map<string, string>, subjects: seq<SubjectGrade>, n: nat)
    requires 0 < n <= |subjects|
    ensures var prev := CsvUpTo(roll, info, subjects, n - 1);
      var g := subjects[n - 1];
      DictSet(DictSet(DictSet(prev, SubjectKey(n, "Code"), g.code), SubjectKey(n, "Name"), g.subject),
              SubjectKey(n, "Grade"), g.grade)
      == CsvUpTo(roll, info, subjects, n)
  {
    var prev := CsvUpTo(roll, info, subjects, n - 1);
    var kc, kn, kg := SubjectKey(n, "Code"), SubjectKey(n, "Name"), SubjectKey(n, "Grade");
    CsvUpToKeys(roll, info, subjects, n - 1);
    forall k | k in KeysOf(prev) ensures k != kc && k != kn && k != kg {
      FreshSubjectKey(k, n - 1, n, "Code");
      FreshSubjectKey(k, n - 1, n, "Name");
      FreshSubjectKey(k, n - 1, n, "Grade");
    }
    if kc == kn { SubjectKeyInjective(n, "Code", n, "Name"); }
    if kc == kg { SubjectKeyInjective(n, "Code", n, "Grade"); }
    if kn == kg { SubjectKeyInjective(n, "Name", n, "Grade"); }
    var g := subjects[n - 1];
    DictSetThreeNew(prev, kc, g.code, kn, g.subject, kg, g.grade);
  }

  /** Preparing `csv_data` and adding the subject columns. */
  method BuildCsvData(roll: int, generalInfo: map<string, string>, subjectGrades: seq<SubjectGrade>)
    returns (csvData: Entries)
    ensures csvData == CsvUpTo(roll, generalInfo, subjectGrades, |subjectGrades|)
  {
    csvData := FixedCsv(roll, generalInfo);
    var i := 0;
    while i < |subjectGrades|
      invariant 0 <= i <= |subjectGrades|
      invariant csvData == CsvUpTo(roll, generalInfo, subjectGrades, i)
    {
      var subject := subjectGrades[i];
      AddSubject(roll, generalInfo, subjectGrades, i + 1);
      csvData := DictSet(csvData, SubjectKey(i + 1, "Code"), subject.code);
      csvData := DictSet(csvData, SubjectKey(i + 1, "Name"), subject.subject);
      csvData := DictSet(csvData, SubjectKey(i + 1, "Grade"), subject.grade);
      i := i + 1;
    }
  }

  /** Adding subjects leaves the columns already there in place. */
  lemma {:induction false} CsvPrefix(roll: int, info: map<string, string>, subjects: seq<SubjectGrade>, m: nat, n: nat)
    requires m <= n <= |subjects|
    ensures |CsvUpTo(roll, info, subjects, m)| == 12 + 3 * m
    ensures |CsvUpTo(roll, info, subjects, n)| == 12 + 3 * n
    ensures CsvUpTo(roll, info, subjects, n)[..12 + 3 * m] == CsvUpTo(roll, info, subjects, m)
  {
    CsvUpToKeys(roll, info, subjects, m);
    CsvUpToKeys(roll, info, subjects, n);
    if m < n {
      CsvPrefix(roll, info, subjects, m, n - 1);
      var prev := CsvUpTo(roll, info, subjects, n - 1);
      assert CsvUpTo(roll, info, subjects, n)[..12 + 3 * (n - 1)] == prev;
    }
  }

  /** Subject j's three columns, counting j from 0. */
  lemma CsvSubjectColumns(roll: int, info: map<string, string>, subjects: seq<SubjectGrade>, n: nat, j: nat)
    requires j < n <= |subjects|
    ensures |CsvUpTo(roll, info, subjects, n)| == 12 + 3 * n
    ensures CsvUpTo(roll, info, subjects, n)[12 + 3 * j..15 + 3 * j] == SubjectEntries(j + 1, subjects[j])
  {
    CsvPrefix(roll, info, subjects, j + 1, n);
    CsvUpToKeys(roll, info, subjects, j);
    var d := CsvUpTo(roll, info, subjects, n);
    var e := CsvUpTo(roll, info, subjects, j + 1);
    assert d[12 + 3 * j..15 + 3 * j] == e[12 + 3 * j..15 + 3 * j];
  }

  /** The layout of a CSV row: the twelve fixed columns, then code, name and
      grade of subject j at columns 12 + 3j, 13 + 3j and 14 + 3j. */
  lemma CsvLayout(roll: int, info: map<string, string>, subjects: seq<SubjectGrade>, n: nat)
    requires n <= |subjects|
    ensures var d := CsvUpTo(roll, info, subjects, n);
      && |d| == 12 + 3 * n
      && KeysOf(d)[..12] == FixedColumns
      && d[0].1 == IntToString(roll)
      && (forall i :: 1 <= i < 12 ==> d[i].1 == Lookup(info, FixedColumns[i]))
      && (forall j :: 0 <= j < n ==>
            (&& d[12 + 3 * j] == (SubjectKey(j + 1, "Code"), subjects[j].code)
             && d[13 + 3 * j] == (SubjectKey(j + 1, "Name"), subjects[j].subject)
             && d[14 + 3 * j] == (SubjectKey(j + 1, "Grade"), subjects[j].grade)))
  {
    var d := CsvUpTo(roll, info, subjects, n);
    CsvPrefix(roll, info, subjects, 0, n);
    var fixed := FixedCsv(roll, info);
    assert d[..12] == fixed;
    assert forall i :: 0 <= i < 12 ==> d[i] == fixed[i];
    assert KeysOf(d)[..12] == KeysOf(fixed);
    forall j | 0 <= j < n
      ensures && d[12 + 3 * j] == (SubjectKey(j + 1, "Code"), subjects[j].code)
              && d[13 + 3 * j] == (SubjectKey(j + 1, "Name"), subjects[j].subject)
              && d[14 + 3 * j] == (SubjectKey(j + 1, "Grade"), subjects[j].grade)
    {
      CsvSubjectColumns(roll, info, subjects, n, j);
      var t := d[12 + 3 * j..15 + 3 * j];
      assert t[0] == d[12 + 3 * j] && t[1] == d[13 + 3 * j] && t[2] == d[14 + 3 * j];
    }
  }

  /** No two columns of `csv_data` share a name, so the dict has 12 + 3n entries. */
  lemma {:induction false} CsvKeysDistinct(roll: int, info: map<string, string>, subjects: seq<SubjectGrade>, n: nat)
    requires n <= |subjects|
    ensures var ks := KeysOf(CsvUpTo(roll, info, subjects, n));
      forall a, b :: 0 <= a < b < |ks| ==> ks[a] != ks[b]
  {
    if n == 0 {
      FixedColumnsDistinct();
    } else {
      CsvKeysDistinct(roll, info, subjects, n - 1);
      KeysAddSubject(roll, info, subjects, n);
      OldKeysNotAdded(roll, info, subjects, n);
      AddedKeysDistinct(n);
      DistinctAppend(KeysOf(CsvUpTo(roll, info, subjects, n - 1)), SubjectKeys(n));
    }
  }

  /** The twelve fixed column names are different. */
  lemma FixedColumnsDistinct()
    ensures forall a, b :: 0 <= a < b < 12 ==> FixedColumns[a] != FixedColumns[b]
  {
    forall a, b | 0 <= a < b < 12 ensures FixedColumns[a] != FixedColumns[b] {
      var x, y := FixedColumns[a], FixedColumns[b];
      assert |x| != |y| || x[0] != y[0] || x[1] != y[1];
    }
  }

  /** The three columns of subject `n`. */
  function SubjectKeys(n: nat): seq<string>
  {
    [SubjectKey(n, "Code"), SubjectKey(n, "Name"), SubjectKey(n, "Grade")]
  }

  /** The three columns of a subject are different. */
  lemma AddedKeysDistinct(n: nat)
    ensures forall a, b :: 0 <= a < b < 3 ==> SubjectKeys(n)[a] != SubjectKeys(n)[b]
  {
    if SubjectKey(n, "Code") == SubjectKey(n, "Name") { SubjectKeyInjective(n, "Code", n, "Name"); }
    if SubjectKey(n, "Code") == SubjectKey(n, "Grade") { SubjectKeyInjective(n, "Code", n, "Grade"); }
    if SubjectKey(n, "Name") == SubjectKey(n, "Grade") { SubjectKeyInjective(n, "Name", n, "Grade"); }
  }

  /** No column present before subject `n` is one of its columns. */
  lemma OldKeysNotAdded(roll: int, info: map<string, string>, subjects: seq<SubjectGrade>, n: nat)
    requires 0 < n <= |subjects|
    ensures forall k :: k in KeysOf(CsvUpTo(roll, info, subjects, n - 1)) ==> k !in SubjectKeys(n)
  {
    CsvUpToKeys(roll, info, subjects, n - 1);
    forall k | k in KeysOf(CsvUpTo(roll, info, subjects, n - 1)) ensures k !in SubjectKeys(n) {
      FreshSubjectKey(k, n - 1, n, "Code");
      FreshSubjectKey(k, n - 1, n, "Name");
      FreshSubjectKey(k, n - 1, n, "Grade");
    }
  }

  /** Two lists of distinct keys with no key in common join into one. */
  lemma DistinctAppend(xs: seq<string>, ys: seq<string>)
    requires forall a, b :: 0 <= a < b < |xs| ==> xs[a] != xs[b]
    requires forall a, b :: 0 <= a < b < |ys| ==> ys[a] != ys[b]
    requires forall k :: k in xs ==> k !in ys
    ensures var zs := xs + ys; forall a, b :: 0 <= a < b < |zs| ==> zs[a] != zs[b]
  {
    var zs := xs + ys;
    forall a, b | 0 <= a < b < |zs| ensures zs[a] != zs[b] {
      if b < |xs| {
        assert zs[a] == xs[a] && zs[b] == xs[b];
      } else if a >= |xs| {
        assert zs[a] == ys[a - |xs|] && zs[b] == ys[b - |xs|];
      } else {
        assert zs[a] == xs[a] && zs[b] == ys[b - |xs|];
        assert xs[a] in xs;
      }
    }
  }

  /** The cells the scraper writes are the columns the importer reads: roll
      number first, institution and result (the GPA) at cells 9 and 10, and
      subject j's code, name and grade at cells 12 + 3j, 13 + 3j, 14 + 3j, so
      the importer sees exactly one triple per subject. */
  lemma ScrapedRowFeedsImporter(roll: int, info: map<string, string>, subjects: seq<SubjectGrade>)
    ensures var cells := ValuesOf(CsvUpTo(roll, info, subjects, |subjects|));
      && SubjectParse.TripleCount(cells) == |subjects|
      && cells[0] == IntToString(roll)
      && cells[9] == Lookup(info, "Institute") && cells[10] == Lookup(info, "Result")
      && forall j :: 0 <= j < |subjects| ==>
           cells[12 + 3 * j] == subjects[j].code && cells[13 + 3 * j] == subjects[j].subject
           && cells[14 + 3 * j] == subjects[j].grade
  {
    var cells := ValuesOf(CsvUpTo(roll, info, subjects, |subjects|));
    FixedCells(roll, info, subjects);
    SubjectParse.TripleCountOfLength(cells, |subjects|);
    forall j | 0 <= j < |subjects|
      ensures cells[12 + 3 * j] == subjects[j].code && cells[13 + 3 * j] == subjects[j].subject
           && cells[14 + 3 * j] == subjects[j].grade
    {
      SubjectCells(roll, info, subjects, j);
    }
  }

  lemma FixedCells(roll: int, info: map<string, string>, subjects: seq<SubjectGrade>)
    ensures var cells := ValuesOf(CsvUpTo(roll, info, subjects, |subjects|));
      && |cells| == 12 + 3 * |subjects|
      && cells[0] == IntToString(roll)
      && cells[9] == Lookup(info, "Institute") && cells[10] == Lookup(info, "Result")
  {
    var d := CsvUpTo(roll, info, subjects, |subjects|);
    CsvPrefix(roll, info, subjects, 0, |subjects|);
    var fixed := FixedCsv(roll, info);
    assert d[..12] == fixed;
    assert d[0] == fixed[0] && d[9] == fixed[9] && d[10] == fixed[10];
  }

  lemma SubjectCells(roll: int, info: map<string, string>, subjects: seq<SubjectGrade>, j: nat)
    requires j < |subjects|
    ensures var cells := ValuesOf(CsvUpTo(roll, info, subjects, |subjects|));
      && |cells| == 12 + 3 * |subjects|
      && cells[12 + 3 * j] == subjects[j].code && cells[13 + 3 * j] == subjects[j].subject
      && cells[14 + 3 * j] == subjects[j].grade
  {
    var d := CsvUpTo(roll, info, subjects, |subjects|);
    CsvSubjectColumns(roll, info, subjects, |subjects|, j);
    var t := d[12 + 3 * j..15 + 3 * j];
    assert d[12 + 3 * j] == t[0] && d[13 + 3 * j] == t[1] && d[14 + 3 * j] == t[2];
  }

  // ---------------------------------------------------------------------------
  // One attempt, and the retries for one roll
  // ---------------------------------------------------------------------------

  /** What an attempt for a roll meets: an exception (timeout, WebDriver error
      or anything else) before the CSV row is ready, or the cell texts of the
      two tables, each possibly missing, and whether appending the row to the
      CSV file raises. */
  datatype Attempt =
    | Raised
    | Loaded(generalTable: Option<Table>, subjectTable: Option<Table>, writeFails: bool)

  /** `not csv_data.get('Name') or not csv_data.get('Result')`. */
  predicate IsBlank(d: Entries)
  {
    DictGet(d, "Name") == "" || DictGet(d, "Result") == ""
  }

  /** The row an attempt writes to the CSV file, or `None` when it does not
      succeed (an exception, a blank entry, or a failed write). */
  function AttemptRow(roll: int, a: Attempt): (r: Option<Entries>)
    ensures r.Some? ==> a.Loaded? && !a.writeFails && !IsBlank(r.value)
  {
    match a
    case Raised => None
    case Loaded(general, subjectTable, writeFails) =>
      var d := CsvUpTo(roll, GeneralInfoOfTable(general), SubjectsOfTable(subjectTable), |SubjectsOfTable(subjectTable)|);
      if IsBlank(d) || writeFails then None else Some(d)
  }

  /** The body of the `try` block of one attempt. */
  method TryAttempt(roll: int, a: Attempt) returns (written: Option<Entries>)
    ensures written == AttemptRow(roll, a)
  {
    if a.Raised? {
      return None;
    }
    var generalInfo := ExtractGeneralInfo(a.generalTable);
    var subjectGrades := ExtractSubjects(a.subjectTable);
    var csvData := BuildCsvData(roll, generalInfo, subjectGrades);
    if DictGet(csvData, "Name") == "" || DictGet(csvData, "Result") == "" {
      return None;
    }
    if a.writeFails {
      return None;
    }
    return Some(csvData);
  }

  /** The first successful attempt numbered `from` or later, below MaxRetries. */
  function FirstSuccess(roll: int, outcome: (int, nat) -> Attempt, from: nat): (r: Option<nat>)
    ensures r.Some? ==> from <= r.value < MaxRetries && AttemptRow(roll, outcome(roll, r.value)).Some?
    decreases MaxRetries - from
  {
    if from >= MaxRetries then None
    else if AttemptRow(roll, outcome(roll, from)).Some? then Some(from)
    else FirstSuccess(roll, outcome, from + 1)
  }

  /** No attempt before the first success succeeds. */
  lemma {:induction false} FirstSuccessIsFirst(roll: int, outcome: (int, nat) -> Attempt, from: nat)
    ensures var r := FirstSuccess(roll, outcome, from);
      forall a :: from <= a < MaxRetries && (r.None? || a < r.value) ==> AttemptRow(roll, outcome(roll, a)).None?
    decreases MaxRetries - from
  {
    if from < MaxRetries && AttemptRow(roll, outcome(roll, from)).None? {
      var r := FirstSuccess(roll, outcome, from);
      assert r == FirstSuccess(roll, outcome, from + 1);
      FirstSuccessIsFirst(roll, outcome, from + 1);
      forall a | from <= a < MaxRetries && (r.None? || a < r.value)
        ensures AttemptRow(roll, outcome(roll, a)).None?
      {
        if a != from {
          assert from + 1 <= a;
        }
      }
    }
  }

  /** The row written for `roll`, if any of its attempts succeeds. */
  function Scraped(roll: int, outcome: (int, nat) -> Attempt): Option<Entries>
  {
    match FirstSuccess(roll, outcome, 0)
    case None => None
    case Some(a) => AttemptRow(roll, outcome(roll, a))
  }

  /** The retry loop for one roll: at most MaxRetries attempts, stopping at the
      first success. */
  method ScrapeRoll(roll: int, outcome: (int, nat) -> Attempt) returns (written: Option<Entries>, attempts: nat)
    ensures written == Scraped(roll, outcome)
    ensures 1 <= attempts <= MaxRetries
    ensures FirstSuccess(roll, outcome, 0).Some? ==> attempts == FirstSuccess(roll, outcome, 0).value + 1
    ensures FirstSuccess(roll, outcome, 0).None? ==> attempts == MaxRetries
  {
    written := None;
    var attempt := 0;
    while attempt < MaxRetries
      invariant 0 <= attempt <= MaxRetries
      invariant FirstSuccess(roll, outcome, 0) == FirstSuccess(roll, outcome, attempt)
      invariant written == None
    {
      var result := TryAttempt(roll, outcome(roll, attempt));
      if result.Some? {
        written := result;
        return written, attempt + 1;
      }
      attempt := attempt + 1;
    }
    return written, MaxRetries;
  }

  /** A row is only ever written for a roll when one of its first three
      attempts produced a non-blank entry. */
  lemma ScrapedMeansNonBlankAttempt(roll: int, outcome: (int, nat) -> Attempt)
    ensures Scraped(roll, outcome).Some? <==>
      exists a :: 0 <= a < MaxRetries && AttemptRow(roll, outcome(roll, a)).Some?
    ensures Scraped(roll, outcome).Some? ==> !IsBlank(Scraped(roll, outcome).value)
  {
    FirstSuccessIsFirst(roll, outcome, 0);
  }

  // ---------------------------------------------------------------------------
  // The roll loop of a batch
  // ---------------------------------------------------------------------------

  /** The script's state across rolls: `progress['last_scraped_roll']`,
      `continuous_failure_count`, the rolls processed and the rows appended. */
  datatype RunState = RunState(lastScrapedRoll: int, continuousFailures: nat, processed: seq<int>, written: seq<Entries>)

  /** The rows each roll would write, as a function of the roll. */
  function RollResults(outcome: (int, nat) -> Attempt): int -> Option<Entries>
  {
    roll => Scraped(roll, outcome)
  }

  /** After processing `roll` with result `r`. */
  function Step(st: RunState, roll: int, r: Option<Entries>): RunState
  {
    match r
    case Some(row) => RunState(roll, 0, st.processed + [roll], st.written + [row])
    case None => RunState(st.lastScrapedRoll, st.continuousFailures + 1, st.processed + [roll], st.written)
  }

  /** The `for roll_number` loop from `roll` to `end`, with its two early exits. */
  function RunFrom(roll: int, end: int, st: RunState, results: int -> Option<Entries>): RunState
    decreases end - roll
  {
    if roll > end then st
    else if roll > OverallEndRoll then st
    else if st.continuousFailures >= MaxContinuousFailures then st
    else RunFrom(roll + 1, end, Step(st, roll, results(roll)), results)
  }

  /** A roll the loop reaches is processed, and the loop goes on from the next. */
  lemma RunFromStep(roll: int, end: int, st: RunState, results: int -> Option<Entries>)
    requires roll <= end && roll <= OverallEndRoll && st.continuousFailures < MaxContinuousFailures
    ensures RunFrom(roll, end, st, results) == RunFrom(roll + 1, end, Step(st, roll, results(roll)), results)
  {
  }

  /** A run that has reached `roll` in state `st` goes on from `roll + 1` in
      the state after `roll`. */
  lemma RunFromAdvance(start: int, end: int, init: RunState, roll: int, st: RunState, next: RunState,
                       results: int -> Option<Entries>)
    requires RunFrom(start, end, init, results) == RunFrom(roll, end, st, results)
    requires roll <= end && roll <= OverallEndRoll && st.continuousFailures < MaxContinuousFailures
    requires next == Step(st, roll, results(roll))
    ensures RunFrom(start, end, init, results) == RunFrom(roll + 1, end, next, results)
  {
    RunFromStep(roll, end, st, results);
  }

  /** One pass of the roll loop's body: scrape the roll, then record it as
      processed and either as the latest success or as one more failure. */
  method ProcessRoll(roll: int, outcome: (int, nat) -> Attempt,
                     lastScrapedRoll: int, continuousFailureCount: nat, processed: seq<int>, written: seq<Entries>)
    returns (lastScrapedRoll': int, continuousFailureCount': nat, processed': seq<int>, written': seq<Entries>)
    ensures RunState(lastScrapedRoll', continuousFailureCount', processed', written')
      == Step(RunState(lastScrapedRoll, continuousFailureCount, processed, written), roll, RollResults(outcome)(roll))
  {
    var row, _ := ScrapeRoll(roll, outcome);
    processed' := processed + [roll];
    if row.Some? {
      lastScrapedRoll' := roll;
      written' := written + [row.value];
      continuousFailureCount' := 0;
    } else {
      lastScrapedRoll' := lastScrapedRoll;
      written' := written;
      continuousFailureCount' := continuousFailureCount + 1;
    }
  }

  /** One batch of the script, from the saved progress. */
  method ScrapeBatch(saved: Option<int>, outcome: (int, nat) -> Attempt)
    returns (lastScrapedRoll: int, continuousFailureCount: nat, processed: seq<int>, written: seq<Entries>)
    ensures RunState(lastScrapedRoll, continuousFailureCount, processed, written)
      == RunFrom(LoadProgress(saved) + 1, BatchEnd(LoadProgress(saved)),
                 RunState(LoadProgress(saved), 0, [], []), RollResults(outcome))
  {
    var progress := LoadProgress(saved);
    var currentStartRoll := progress + 1;
    var currentEndRoll := if currentStartRoll + BatchSize - 1 < OverallEndRoll
      then currentStartRoll + BatchSize - 1 else OverallEndRoll;
    lastScrapedRoll, continuousFailureCount, processed, written :=
      ScrapeRolls(currentStartRoll, currentEndRoll, progress, outcome);
  }

  /** The `for roll_number` loop from `currentStartRoll` to `currentEndRoll`,
      with no failure yet and the saved progress `progress`. */
  method ScrapeRolls(currentStartRoll: int, currentEndRoll: int, progress: int, outcome: (int, nat) -> Attempt)
    returns (lastScrapedRoll: int, continuousFailureCount: nat, processed: seq<int>, written: seq<Entries>)
    ensures RunState(lastScrapedRoll, continuousFailureCount, processed, written)
      == RunFrom(currentStartRoll, currentEndRoll, RunState(progress, 0, [], []), RollResults(outcome))
  {
    lastScrapedRoll := progress;
    continuousFailureCount := 0;
    processed, written := [], [];
    ghost var init := RunState(progress, 0, [], []);
    ghost var results := RollResults(outcome);
    var roll := currentStartRoll;
    while roll <= currentEndRoll
      invariant RunFrom(currentStartRoll, currentEndRoll, init, results)
        == RunFrom(roll, currentEndRoll, RunState(lastScrapedRoll, continuousFailureCount, processed, written), results)
      decreases currentEndRoll - roll
    {
      ghost var st := RunState(lastScrapedRoll, continuousFailureCount, processed, written);
      if roll > OverallEndRoll {
        break;
      }
      if continuousFailureCount >= MaxContinuousFailures {
        break;
      }
      lastScrapedRoll, continuousFailureCount, processed, written :=
        ProcessRoll(roll, outcome, lastScrapedRoll, continuousFailureCount, processed, written);
      RunFromAdvance(currentStartRoll, currentEndRoll, init, roll, st,
        RunState(lastScrapedRoll, continuousFailureCount, processed, written), results);
      roll := roll + 1;
      assert RunFrom(currentStartRoll, currentEndRoll, init, results)
        == RunFrom(roll, currentEndRoll, RunState(lastScrapedRoll, continuousFailureCount, processed, written), results);
    }
  }

  /** The number of failed rolls at the end of `processed`. */
  function TrailingFailures(processed: seq<int>, results: int -> Option<Entries>): nat
  {
    if |processed| == 0 || results(processed[|processed| - 1]).Some? then 0
    else 1 + TrailingFailures(processed[..|processed| - 1], results)
  }

  /** The last roll of `processed` that succeeded, or `initial`. */
  function LastSuccess(processed: seq<int>, results: int -> Option<Entries>, initial: int): int
  {
    if |processed| == 0 then initial
    else if results(processed[|processed| - 1]).Some? then processed[|processed| - 1]
    else LastSuccess(processed[..|processed| - 1], results, initial)
  }

  /** The rows of the successful rolls of `processed`, in order. */
  function SuccessRows(processed: seq<int>, results: int -> Option<Entries>): seq<Entries>
  {
    if |processed| == 0 then []
    else
      var row := match results(processed[|processed| - 1]) case None => [] case Some(r) => [r];
      SuccessRows(processed[..|processed| - 1], results) + row
  }

  /** What the script's variables mean after processing `st.processed`. */
  predicate Consistent(st: RunState, initial: int, results: int -> Option<Entries>)
  {
    && st.continuousFailures == TrailingFailures(st.processed, results)
    && st.continuousFailures <= MaxContinuousFailures
    && st.lastScrapedRoll == LastSuccess(st.processed, results, initial)
    && st.written == SuccessRows(st.processed, results)
  }

  /** Processing one more roll keeps the variables' meaning, provided the loop
      only processes a roll while fewer than ten rolls in a row failed. */
  lemma StepConsistent(st: RunState, roll: int, initial: int, results: int -> Option<Entries>)
    requires Consistent(st, initial, results) && st.continuousFailures < MaxContinuousFailures
    ensures Consistent(Step(st, roll, results(roll)), initial, results)
  {
    var p := st.processed + [roll];
    assert p[..|p| - 1] == st.processed;
  }

  /** The rolls `lo`, `lo + 1`, ..., `hi - 1`. */
  function Rolls(lo: int, hi: int): (rs: seq<int>)
    ensures |rs| == (if lo < hi then hi - lo else 0)
    ensures forall i :: 0 <= i < |rs| ==> rs[i] == lo + i
    decreases hi - lo
  {
    if lo >= hi then [] else [lo] + Rolls(lo + 1, hi)
  }

  /** The loop keeps the variables' meaning. */
  lemma {:induction false} RunConsistent(roll: int, end: int, st: RunState, initial: int, results: int -> Option<Entries>)
    requires Consistent(st, initial, results)
    ensures Consistent(RunFrom(roll, end, st, results), initial, results)
    decreases end - roll
  {
    if roll <= end && roll <= OverallEndRoll && st.continuousFailures < MaxContinuousFailures {
      StepConsistent(st, roll, initial, results);
      RunConsistent(roll + 1, end, Step(st, roll, results(roll)), initial, results);
    }
  }

  /** The number of rolls the loop processes from `roll` on. */
  function RunLength(roll: int, end: int, st: RunState, results: int -> Option<Entries>): int
  {
    |RunFrom(roll, end, st, results).processed| - |st.processed|
  }

  /** The loop processes consecutive rolls from `roll` on, never past `end`,
      and stops before `end` only at the overall end or once ten rolls in a
      row have failed. */
  lemma {:induction false} RunRolls(roll: int, end: int, st: RunState, results: int -> Option<Entries>)
    ensures var r := RunFrom(roll, end, st, results);
      && |r.processed| >= |st.processed|
      && r.processed == st.processed + Rolls(roll, roll + RunLength(roll, end, st, results))
      && (roll + RunLength(roll, end, st, results) <= end + 1 || RunLength(roll, end, st, results) == 0)
      && (roll + RunLength(roll, end, st, results) <= end ==>
            roll + RunLength(roll, end, st, results) > OverallEndRoll
            || r.continuousFailures >= MaxContinuousFailures)
    decreases end - roll
  {
    if roll <= end && roll <= OverallEndRoll && st.continuousFailures < MaxContinuousFailures {
      var next := Step(st, roll, results(roll));
      RunRolls(roll + 1, end, next, results);
      var k := RunLength(roll + 1, end, next, results);
      assert RunLength(roll, end, st, results) == k + 1;
      assert Rolls(roll, roll + k + 1) == [roll] + Rolls(roll + 1, roll + 1 + k);
      assert next.processed + Rolls(roll + 1, roll + 1 + k) == st.processed + Rolls(roll, roll + k + 1);
    } else {
      assert st.processed + Rolls(roll, roll) == st.processed;
    }
  }

  /** The last successful roll only moves forward. */
  lemma {:induction false} LastSuccessMonotone(processed: seq<int>, results: int -> Option<Entries>, initial: int)
    requires forall i, j :: 0 <= i < j < |processed| ==> processed[i] < processed[j]
    requires forall i :: 0 <= i < |processed| ==> initial < processed[i]
    ensures LastSuccess(processed, results, initial) >= initial
    ensures forall k :: 0 <= k < |processed| && results(processed[k]).Some? ==>
      processed[k] <= LastSuccess(processed, results, initial)
  {
    if |processed| > 0 {
      var init := processed[..|processed| - 1];
      LastSuccessMonotone(init, results, initial);
      forall k | 0 <= k < |processed| && results(processed[k]).Some?
        ensures processed[k] <= LastSuccess(processed, results, initial)
      {
        if k < |init| && results(processed[|processed| - 1]).None? {
          assert init[k] == processed[k];
        }
      }
    }
  }

  /** After a batch: the counter is at most ten, `last_scraped_roll` is the
      latest successful roll of the batch (or the saved progress when none
      succeeded) and never below the saved progress, and the rows written are
      those of the successful rolls, in roll order. */
  lemma BatchOutcome(last: int, results: int -> Option<Entries>)
    ensures var st := RunFrom(last + 1, BatchEnd(last), RunState(last, 0, [], []), results);
      && st.continuousFailures <= MaxContinuousFailures
      && st.lastScrapedRoll == LastSuccess(st.processed, results, last)
      && st.lastScrapedRoll >= last
      && (forall i :: 0 <= i < |st.processed| && results(st.processed[i]).Some? ==> st.processed[i] <= st.lastScrapedRoll)
      && st.written == SuccessRows(st.processed, results)
  {
    var init := RunState(last, 0, [], []);
    RunConsistent(last + 1, BatchEnd(last), init, last, results);
    BatchRolls(last, results);
    var st := RunFrom(last + 1, BatchEnd(last), init, results);
    LastSuccessMonotone(st.processed, results, last);
  }

  /** A batch processes consecutive rolls after `last`: at most BatchSize of
      them, none past the batch end. */
  lemma BatchRolls(last: int, results: int -> Option<Entries>)
    ensures var st := RunFrom(last + 1, BatchEnd(last), RunState(last, 0, [], []), results);
      && |st.processed| <= BatchSize
      && (forall i :: 0 <= i < |st.processed| ==> st.processed[i] == last + 1 + i <= BatchEnd(last))
      && (forall i, j :: 0 <= i < j < |st.processed| ==> st.processed[i] < st.processed[j])
  {
    var st := RunFrom(last + 1, BatchEnd(last), RunState(last, 0, [], []), results);
    var n := BatchProcessedRun(last, results);
    forall i | 0 <= i < |st.processed|
      ensures st.processed[i] == last + 1 + i <= BatchEnd(last)
    {
    }
    forall i, j | 0 <= i < j < |st.processed|
      ensures st.processed[i] < st.processed[j]
    {
    }
  }

  /** The rolls of a batch are the first `n` after `last`, with `n` at most
      BatchSize and the last of them within the batch. */
  lemma BatchProcessedRun(last: int, results: int -> Option<Entries>) returns (n: int)
    ensures var st := RunFrom(last + 1, BatchEnd(last), RunState(last, 0, [], []), results);
      && 0 <= n <= BatchSize && (n > 0 ==> last + n <= BatchEnd(last))
      && st.processed == Rolls(last + 1, last + 1 + n)
  {
    var init := RunState(last, 0, [], []);
    RunRolls(last + 1, BatchEnd(last), init, results);
    n := RunLength(last + 1, BatchEnd(last), init, results);
  }

  /** Once the loop is past its saved progress, the progress never moves back. */
  lemma {:induction false} RunFromKeepsProgress(roll: int, end: int, st: RunState, results: int -> Option<Entries>)
    requires st.lastScrapedRoll < roll
    ensures RunFrom(roll, end, st, results).lastScrapedRoll >= st.lastScrapedRoll
    decreases end - roll
  {
    if roll <= end && roll <= OverallEndRoll && st.continuousFailures < MaxContinuousFailures {
      RunFromStep(roll, end, st, results);
      RunFromKeepsProgress(roll + 1, end, Step(st, roll, results(roll)), results);
    }
  }

  /** A failed roll is retried by the next batch only when no later roll of its
      batch succeeds: if the first roll of a batch fails and the second
      succeeds, the saved progress ends at or past the second, so the next
      batch starts after the failed roll and never scrapes it again. */
  lemma FailedRollSkippedAfterSuccess(last: int, results: int -> Option<Entries>)
    requires results(last + 1).None? && results(last + 2).Some?
    requires last + 2 <= BatchEnd(last)
    ensures var st := RunFrom(last + 1, BatchEnd(last), RunState(last, 0, [], []), results);
      st.lastScrapedRoll >= last + 2 && LoadProgress(Some(st.lastScrapedRoll)) + 1 > last + 1
  {
    var end := BatchEnd(last);
    var st0 := RunState(last, 0, [], []);
    RunFromStep(last + 1, end, st0, results);
    var st1 := Step(st0, last + 1, results(last + 1));
    assert st1.continuousFailures == 1;
    RunFromStep(last + 2, end, st1, results);
    var st2 := Step(st1, last + 2, results(last + 2));
    assert st2.lastScrapedRoll == last + 2;
    RunFromKeepsProgress(last + 3, end, st2, results);
  }

  /** Ten failed rolls in a row end the batch: with every roll failing, only
      the first ten rolls are processed. */
  lemma TenFailuresStop(last: int, results: int -> Option<Entries>)
    requires forall r :: results(r).None?
    requires last + 1 + 10 <= BatchEnd(last)
    ensures RunFrom(last + 1, BatchEnd(last), RunState(last, 0, [], []), results).processed == Rolls(last + 1, last + 11)
  {
    var end := BatchEnd(last);
    var init := RunState(last, 0, [], []);
    RunConsistent(last + 1, end, init, last, results);
    RunRolls(last + 1, end, init, results);
    var st := RunFrom(last + 1, end, init, results);
    AllFailTrailing(st.processed, results);
  }

  /** When every roll fails, the trailing failures are all the rolls. */
  lemma {:induction false} AllFailTrailing(processed: seq<int>, results: int -> Option<Entries>)
    requires forall r :: results(r).None?
    ensures TrailingFailures(processed, results) == |processed|
  {
    if |processed| > 0 {
      AllFailTrailing(processed[..|processed| - 1], results);
    }
  }
}
