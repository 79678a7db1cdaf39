/**
 * The CSV importer (import_data.py): `parse_subject_data`, which reads the
 * subject triples of a result row and adds up the scores, and the per-row
 * mapping of `process_csv_to_json`.
 *
 * A row is the list of its cells as strings (what `str(row[k])` yields).
 * The two regular expressions the importer uses are modelled by scanners
 * proved against a direct statement of what `re.search` finds.
 */
module SubjectParse {

  import opened Optional
  import opened PyText
  import opened NumberText

  // ---------------------------------------------------------------------------
  // The score pattern  (\d{2,3})\(.*\)  and the grade pattern  \((.*?)\)
  // ---------------------------------------------------------------------------

  /** An ASCII decimal digit. */
  predicate IsDigit(c: char)
  {
    '0' <= c <= '9'
  }

  /** A `)` is reachable from position `j` without crossing a line break:
      `.*\)` can match there, `.` not matching `\n`. */
  function ClosesOnLine(s: string, j: nat): bool
    decreases |s| - j
  {
    if j >= |s| then false
    else if s[j] == ')' then true
    else if s[j] == '\n' then false
    else ClosesOnLine(s, j + 1)
  }

  /** `ClosesOnLine` holds exactly when some `)` at or after `j` has no line
      break before it. */
  lemma {:induction false} ClosesOnLineMeaning(s: string, j: nat)
    ensures ClosesOnLine(s, j) <==> exists q :: j <= q < |s| && s[q] == ')' && NoBreakBetween(s, j, q)
    decreases |s| - j
  {
    if j < |s| && s[j] != ')' && s[j] != '\n' {
      ClosesOnLineMeaning(s, j + 1);
      if exists q :: j <= q < |s| && s[q] == ')' && NoBreakBetween(s, j, q) {
        var q :| j <= q < |s| && s[q] == ')' && NoBreakBetween(s, j, q);
        assert NoBreakBetween(s, j + 1, q);
      }
      if ClosesOnLine(s, j + 1) {
        var q :| j + 1 <= q < |s| && s[q] == ')' && NoBreakBetween(s, j + 1, q);
        assert NoBreakBetween(s, j, q);
      }
    } else if j < |s| && s[j] == ')' {
      assert NoBreakBetween(s, j, j);
    } else if j < |s| {
      forall q | j <= q < |s| && s[q] == ')' ensures !NoBreakBetween(s, j, q) {
        assert s[j] == '\n';
      }
    }
  }

  /** No line break in `s[j..q]`. */
  predicate NoBreakBetween(s: string, j: int, q: int)
    requires 0 <= j <= q <= |s|
  {
    forall k :: j <= k < q ==> s[k] != '\n'
  }

  /** `(\d{len})\(.*\)` matches at position `p`. */
  predicate ScoreAt(s: string, p: int, len: int)
  {
    0 <= p && (len == 2 || len == 3) && p + len < |s|
    && (forall k :: p <= k < p + len ==> IsDigit(s[k]))
    && s[p + len] == '(' && ClosesOnLine(s, p + len + 1)
  }

  /** Some match of the score pattern starts at `p`. */
  predicate ScoreStartsAt(s: string, p: int)
  {
    ScoreAt(s, p, 3) || ScoreAt(s, p, 2)
  }

  /** The leftmost match of the score pattern at or after `p`, as its start and
      its number of digits; at a start the three-digit form is tried first. */
  function FindScore(s: string, p: nat): (r: Option<(nat, nat)>)
    ensures r.Some? ==> p <= r.value.0 && r.value.0 + r.value.1 <= |s|
    decreases |s| - p
  {
    if p + 2 >= |s| then None
    else if ScoreAt(s, p, 3) then Some((p, 3))
    else if ScoreAt(s, p, 2) then Some((p, 2))
    else FindScore(s, p + 1)
  }

  /** `FindScore` returns the leftmost match at or after `p`. */
  lemma {:induction false} FindScoreLeftmost(s: string, p: nat)
    ensures var r := FindScore(s, p);
      && (r.Some? ==> ScoreAt(s, r.value.0, r.value.1))
      && (r.Some? ==> r.value.1 == 3 || !ScoreAt(s, r.value.0, 3))
      && (r.Some? ==> forall q :: p <= q < r.value.0 ==> !ScoreStartsAt(s, q))
      && (r.None? ==> forall q :: p <= q ==> !ScoreStartsAt(s, q))
    decreases |s| - p
  {
    if p + 2 < |s| && !ScoreAt(s, p, 3) && !ScoreAt(s, p, 2) {
      FindScoreLeftmost(s, p + 1);
    }
  }

  /** The integer value of the digits `s[p..p+len]`, which is what `int()`
      gives for the captured group. */
  function DigitsAt(s: string, p: nat, len: nat): nat
    requires p + len <= |s|
  {
    DigitsValue(s[p..p + len], 10)
  }

  /** The score `re.search(r'(\d{2,3})\(.*\)', s)` extracts, or `None` when the
      pattern does not match. */
  function ScoreOf(s: string): Option<nat>
  {
    match FindScore(s, 0)
    case None => None
    case Some((p, len)) => Some(DigitsAt(s, p, len))
  }

  /** `ScoreOf` finds a score exactly when the pattern matches somewhere, and
      then it is the value of the digits of the leftmost match, three digits
      being preferred to two at the same start. */
  lemma ScoreOfMatches(s: string)
    ensures ScoreOf(s).None? <==> forall q :: !ScoreStartsAt(s, q)
    ensures ScoreOf(s).Some? ==> exists p, len :: (ScoreAt(s, p, len)
      && (forall q :: 0 <= q < p ==> !ScoreStartsAt(s, q))
      && (len == 3 || !ScoreAt(s, p, 3))
      && ScoreOf(s).value == DigitsAt(s, p, len))
  {
    FindScoreLeftmost(s, 0);
    match FindScore(s, 0)
    case None =>
    case Some((p, len)) =>
      assert ScoreStartsAt(s, p);
  }

  /** At most three decimal digits denote at most 999. */
  lemma {:induction false} DigitsBound(t: string)
    requires forall k :: 0 <= k < |t| ==> IsDigit(t[k])
    ensures DigitsValue(t, 10) < Pow10(|t|)
  {
    if |t| > 0 {
      DigitsBound(t[..|t| - 1]);
    }
  }

  function Pow10(n: nat): (p: nat)
    ensures p >= 1
  {
    if n == 0 then 1 else 10 * Pow10(n - 1)
  }

  /** Every extracted score is in 0..999. */
  lemma ScoreBound(s: string)
    ensures ScoreOf(s).Some? ==> ScoreOf(s).value <= 999
  {
    match FindScore(s, 0)
    case None =>
    case Some((p, len)) =>
      FindScoreLeftmost(s, 0);
      var t := s[p..p + len];
      assert forall k :: 0 <= k < |t| ==> t[k] == s[p + k];
      DigitsBound(t);
      assert Pow10(2) == 100 && Pow10(3) == 1000;
  }

  /** The first `)` at or after `j`. */
  function FirstClose(s: string, j: nat): (q: nat)
    requires ClosesOnLine(s, j)
    ensures j <= q < |s|
    decreases |s| - j
  {
    if s[j] == ')' then j else FirstClose(s, j + 1)
  }

  /** `FirstClose` finds a `)` with neither a `)` nor a line break before it. */
  lemma {:induction false} FirstCloseIsFirst(s: string, j: nat)
    requires ClosesOnLine(s, j)
    ensures s[FirstClose(s, j)] == ')'
    ensures forall k :: j <= k < FirstClose(s, j) ==> s[k] != ')' && s[k] != '\n'
    decreases |s| - j
  {
    if s[j] != ')' {
      FirstCloseIsFirst(s, j + 1);
    }
  }

  /** `\(.*?\)` matches at position `p`. */
  predicate GradeAt(s: string, p: int)
  {
    0 <= p < |s| && s[p] == '(' && ClosesOnLine(s, p + 1)
  }

  /** The leftmost match of the grade pattern at or after `p`. */
  function FindGrade(s: string, p: nat): (r: Option<nat>)
    ensures r.Some? ==> p <= r.value < |s| && GradeAt(s, r.value)
    decreases |s| - p
  {
    if p >= |s| then None
    else if GradeAt(s, p) then Some(p)
    else FindGrade(s, p + 1)
  }

  /** `FindGrade` returns the leftmost match at or after `p`. */
  lemma {:induction false} FindGradeLeftmost(s: string, p: nat)
    ensures var r := FindGrade(s, p);
      && (r.Some? ==> GradeAt(s, r.value))
      && (r.Some? ==> forall q :: p <= q < r.value ==> !GradeAt(s, q))
      && (r.None? ==> forall q :: p <= q ==> !GradeAt(s, q))
    decreases |s| - p
  {
    if p < |s| && !GradeAt(s, p) {
      FindGradeLeftmost(s, p + 1);
    }
  }

  /** `grade_match.group(1) if grade_match else ''` for `\((.*?)\)`. */
  function GradeOf(s: string): string
  {
    match FindGrade(s, 0)
    case None => ""
    case Some(p) => s[p + 1..FirstClose(s, p + 1)]
  }

  /** The grade is the text between the leftmost `(` that is closed on its line
      and the first `)` after it, and it is empty when there is no such `(`. */
  lemma GradeOfMatches(s: string)
    ensures (exists p :: GradeAt(s, p)) ==> exists p :: (GradeAt(s, p)
      && (forall q :: 0 <= q < p ==> !GradeAt(s, q))
      && p + 1 + |GradeOf(s)| < |s| && s[p + 1..p + 1 + |GradeOf(s)|] == GradeOf(s)
      && s[p + 1 + |GradeOf(s)|] == ')')
    ensures (forall p :: !GradeAt(s, p)) ==> GradeOf(s) == ""
    ensures ')' !in GradeOf(s) && '\n' !in GradeOf(s)
  {
    FindGradeLeftmost(s, 0);
    match FindGrade(s, 0)
    case None =>
    case Some(p) =>
      var q := FirstClose(s, p + 1);
      FirstCloseIsFirst(s, p + 1);
      assert GradeOf(s) == s[p + 1..q];
  }

  /** A cell that matches the score pattern also matches the grade pattern, so
      the empty-grade fallback is never taken once a score was found. */
  lemma ScoreImpliesGrade(s: string, p: int, len: int)
    requires ScoreAt(s, p, len)
    ensures GradeAt(s, p + len)
  {
  }

  // ---------------------------------------------------------------------------
  // parse_subject_data
  // ---------------------------------------------------------------------------

  /** One entry of `subject_marks`. */
  datatype SubjectMark = SubjectMark(name: string, score: nat, grade: string)

  /** A matched triple, in the order the loop meets it. */
  datatype Subject = Subject(code: string, mark: SubjectMark)

  /** Where the subject triples start. */
  const FirstSubjectCell := 12

  /** The number of complete triples `row[12+3j], row[13+3j], row[14+3j]`. */
  function TripleCount(row: seq<string>): (n: nat)
    ensures n > 0 ==> FirstSubjectCell + 3 * n <= |row|
  {
    TriplesIn(|row|)
  }

  /** The complete triples in a row of `len` cells, counted as the loop over
      `range(12, len, 3)` meets them. */
  function TriplesIn(len: int): (n: nat)
    ensures n > 0 ==> FirstSubjectCell + 3 * n <= len
    decreases len
  {
    if len < FirstSubjectCell + 3 then 0 else 1 + TriplesIn(len - 3)
  }

  /** Triple `k` is complete exactly when `k` is below the count. */
  lemma {:induction false} TriplesInComplete(len: int, k: nat)
    ensures k < TriplesIn(len) <==> FirstSubjectCell + 3 * k + 2 < len
    decreases len
  {
    if len >= FirstSubjectCell + 3 && k > 0 {
      TriplesInComplete(len - 3, k - 1);
    }
  }

  /** Triple `k` is complete exactly when `k` is below the count: the test
      `i + 2 < len(row_data)` at `i = 12 + 3k`. */
  lemma TripleComplete(row: seq<string>, k: nat)
    ensures k < TripleCount(row) <==> FirstSubjectCell + 3 * k + 2 < |row|
  {
    TriplesInComplete(|row|, k);
  }

  /** A row of twelve cells and `n` whole triples has `n` triples. */
  lemma {:induction false} TripleCountOfLength(row: seq<string>, n: nat)
    requires |row| == FirstSubjectCell + 3 * n
    ensures TripleCount(row) == n
  {
    if n > 0 {
      TripleComplete(row, n - 1);
    }
    TripleComplete(row, n);
  }

  /** What triple `j` contributes: its code, name and mark when the stripped
      third cell matches the score pattern. */
  function TripleSubject(row: seq<string>, j: nat): Option<Subject>
    requires j < TripleCount(row)
  {
    var i := FirstSubjectCell + 3 * j;
    SubjectOf(Strip(row[i]), Strip(row[i + 1]), Strip(row[i + 2]))
  }

  /** The subject a stripped triple stands for, when its score cell matches. */
  function SubjectOf(code: string, name: string, cell: string): Option<Subject>
  {
    match ScoreOf(cell)
    case None => None
    case Some(score) => Some(Subject(code, SubjectMark(name, score, GradeOf(cell))))
  }

  /** What each of the first `k` triples contributes, in order. */
  function TripleResults(row: seq<string>, k: nat): (ts: seq<Option<Subject>>)
    requires k <= TripleCount(row)
    ensures |ts| == k
  {
    seq(k, j requires 0 <= j < k => TripleSubject(row, j))
  }

  /** The subjects among `ts`, in order. */
  function Kept(ts: seq<Option<Subject>>): seq<Subject>
  {
    if |ts| == 0 then []
    else Kept(ts[..|ts| - 1]) + (match ts[|ts| - 1] case None => [] case Some(e) => [e])
  }

  /** The matched triples among the first `k`, in order. */
  function Matched(row: seq<string>, k: nat): seq<Subject>
    requires k <= TripleCount(row)
  {
    Kept(TripleResults(row, k))
  }

  /** The sum of the scores of `es`. */
  function SumScores(es: seq<Subject>): nat
  {
    if |es| == 0 then 0 else SumScores(es[..|es| - 1]) + es[|es| - 1].mark.score
  }

  /** `subject_marks` after storing `es` one by one: a later code overwrites. */
  function MarksOf(es: seq<Subject>): map<string, SubjectMark>
  {
    if |es| == 0 then map[] else MarksOf(es[..|es| - 1])[es[|es| - 1].code := es[|es| - 1].mark]
  }

  /** One more triple: it is appended exactly when its third cell matches. */
  lemma MatchedStep(row: seq<string>, k: nat)
    requires k < TripleCount(row)
    ensures TripleSubject(row, k).None? ==> Matched(row, k + 1) == Matched(row, k)
    ensures TripleSubject(row, k).Some? ==> Matched(row, k + 1) == Matched(row, k) + [TripleSubject(row, k).value]
  {
    var ts := TripleResults(row, k + 1);
    assert ts[..k] == TripleResults(row, k);
    assert ts[k] == TripleSubject(row, k);
  }

  /** Storing one more subject: its score is added and its code (over)written. */
  lemma Snoc(es: seq<Subject>, e: Subject)
    ensures SumScores(es + [e]) == SumScores(es) + e.mark.score
    ensures MarksOf(es + [e]) == MarksOf(es)[e.code := e.mark]
  {
    assert (es + [e])[..|es|] == es;
  }

  /** The body of the `try` block for one triple: strip the three cells, and
      when the third matches `SCORE(GRADE)` add the score and store the mark
      under the code, overwriting an earlier entry for the same code. */
  method ReadTriple(codeCell: string, nameCell: string, scoreCell: string,
                    subjectMarks: map<string, SubjectMark>, totalMarks: int)
    returns (subjectMarks': map<string, SubjectMark>, totalMarks': int)
    ensures var r := SubjectOf(Strip(codeCell), Strip(nameCell), Strip(scoreCell));
      && (r.None? ==> subjectMarks' == subjectMarks && totalMarks' == totalMarks)
      && (r.Some? ==> subjectMarks' == subjectMarks[r.value.code := r.value.mark]
                      && totalMarks' == totalMarks + r.value.mark.score)
  {
    var subjectCode := Strip(codeCell);
    var subjectName := Strip(nameCell);
    var scoreGradeStr := Strip(scoreCell);
    var scoreMatch := ScoreOf(scoreGradeStr);
    subjectMarks', totalMarks' := subjectMarks, totalMarks;
    if scoreMatch.Some? {
      var score := scoreMatch.value;
      var grade := GradeOf(scoreGradeStr);
      totalMarks' := totalMarks + score;
      subjectMarks' := subjectMarks[subjectCode := SubjectMark(subjectName, score, grade)];
    }
  }

  /** What `ReadTriple` does to the map and the total for triple `k` keeps them
      equal to the map and the total of the matched triples. */
  lemma TripleAdvances(row: seq<string>, k: nat, marks: map<string, SubjectMark>, total: int,
                       marks': map<string, SubjectMark>, total': int)
    requires k < TripleCount(row)
    requires marks == MarksOf(Matched(row, k)) && total == SumScores(Matched(row, k))
    requires var i := FirstSubjectCell + 3 * k;
      var r := SubjectOf(Strip(row[i]), Strip(row[i + 1]), Strip(row[i + 2]));
      && (r.None? ==> marks' == marks && total' == total)
      && (r.Some? ==> marks' == marks[r.value.code := r.value.mark] && total' == total + r.value.mark.score)
    ensures marks' == MarksOf(Matched(row, k + 1)) && total' == SumScores(Matched(row, k + 1))
  {
    MatchedStep(row, k);
    if TripleSubject(row, k).Some? {
      Snoc(Matched(row, k), TripleSubject(row, k).value);
    }
  }

  /** `parse_subject_data(row)`: the subject map (before JSON serialisation)
      and the total of all matched scores. */
  method ParseSubjectData(row: seq<string>) returns (subjectMarks: map<string, SubjectMark>, totalMarks: int)
    ensures subjectMarks == MarksOf(Matched(row, TripleCount(row)))
    ensures totalMarks == SumScores(Matched(row, TripleCount(row)))
  {
    subjectMarks := map[];
    totalMarks := 0;
    var i := FirstSubjectCell;
    ghost var k := 0;
    while i < |row|
      invariant 0 <= k <= TripleCount(row) && i == FirstSubjectCell + 3 * k
      invariant subjectMarks == MarksOf(Matched(row, k))
      invariant totalMarks == SumScores(Matched(row, k))
      decreases |row| - i
    {
      TripleComplete(row, k);
      if i + 2 < |row| {
        ghost var marksBefore, totalBefore := subjectMarks, totalMarks;
        subjectMarks, totalMarks := ReadTriple(row[i], row[i + 1], row[i + 2], subjectMarks, totalMarks);
        TripleAdvances(row, k, marksBefore, totalBefore, subjectMarks, totalMarks);
        i := i + 3;
        k := k + 1;
      } else {
        break;
      }
    }
    TripleComplete(row, k);
  }

  /** Every matched triple adds at most 999, so
      `0 <= total_marks <= 999 * (number of triples)`. */
  lemma TotalBound(row: seq<string>, k: nat)
    requires k <= TripleCount(row)
    ensures SumScores(Matched(row, k)) <= 999 * k
  {
    var ts := TripleResults(row, k);
    forall j | 0 <= j < k && ts[j].Some? ensures ts[j].value.mark.score <= 999 {
      TripleScoreBound(row, j);
    }
    KeptTotalBound(ts);
  }

  /** A matched triple scores at most 999. */
  lemma TripleScoreBound(row: seq<string>, j: nat)
    requires j < TripleCount(row)
    ensures TripleSubject(row, j).Some? ==> TripleSubject(row, j).value.mark.score <= 999
  {
    ScoreBound(Strip(row[FirstSubjectCell + 3 * j + 2]));
  }

  /** When every subject among `ts` scores at most 999, the kept ones total at
      most 999 per entry of `ts`. */
  lemma {:induction false} KeptTotalBound(ts: seq<Option<Subject>>)
    requires forall j :: 0 <= j < |ts| && ts[j].Some? ==> ts[j].value.mark.score <= 999
    ensures SumScores(Kept(ts)) <= 999 * |ts|
  {
    if |ts| > 0 {
      var init := ts[..|ts| - 1];
      assert forall j :: 0 <= j < |init| ==> init[j] == ts[j];
      KeptTotalBound(init);
      match ts[|ts| - 1]
      case None =>
        assert Kept(ts) == Kept(init) + [];
        assert Kept(init) + [] == Kept(init);
      case Some(e) =>
        assert Kept(ts) == Kept(init) + [e];
        Snoc(Kept(init), e);
    }
  }

  /** Only the cells from index 12 on are read: two rows of the same length
      that agree there have the same matched triples. */
  lemma OnlySubjectCellsRead(a: seq<string>, b: seq<string>, k: nat)
    requires |a| == |b| && forall i :: FirstSubjectCell <= i < |a| ==> a[i] == b[i]
    requires k <= TripleCount(a)
    ensures TripleCount(a) == TripleCount(b) && Matched(a, k) == Matched(b, k)
  {
    var ta, tb := TripleResults(a, k), TripleResults(b, k);
    forall j | 0 <= j < k ensures ta[j] == tb[j] {
      SameTriple(a, b, j);
    }
    assert ta == tb;
  }

  /** Rows that agree from index 12 on agree on triple `j`. */
  lemma SameTriple(a: seq<string>, b: seq<string>, j: nat)
    requires |a| == |b| && forall i :: FirstSubjectCell <= i < |a| ==> a[i] == b[i]
    requires j < TripleCount(a)
    ensures TripleCount(a) == TripleCount(b) && TripleSubject(a, j) == TripleSubject(b, j)
  {
    var i := FirstSubjectCell + 3 * j;
    assert a[i] == b[i] && a[i + 1] == b[i + 1] && a[i + 2] == b[i + 2];
  }

  /** `es` holds a subject with code `c`. */
  predicate HasCode(es: seq<Subject>, c: string)
  {
    exists i :: 0 <= i < |es| && es[i].code == c
  }

  /** The map holds exactly the codes of the matched triples. */
  lemma {:induction false} MarksOfKeys(es: seq<Subject>, c: string)
    ensures c in MarksOf(es) <==> HasCode(es, c)
  {
    if |es| > 0 {
      var init, e := es[..|es| - 1], es[|es| - 1];
      assert es == init + [e];
      Snoc(init, e);
      MarksOfKeys(init, c);
      if HasCode(init, c) {
        var i :| 0 <= i < |init| && init[i].code == c;
        assert es[i].code == c;
      }
      if HasCode(es, c) && e.code != c {
        var i :| 0 <= i < |es| && es[i].code == c;
        assert init[i].code == c;
      }
    }
  }

  /** For each code the map keeps the mark of the last subject that carried it. */
  lemma {:induction false} MarksOfLastWins(es: seq<Subject>, i: nat)
    requires i < |es|
    requires forall j :: i < j < |es| ==> es[j].code != es[i].code
    ensures es[i].code in MarksOf(es) && MarksOf(es)[es[i].code] == es[i].mark
  {
    var init, e := es[..|es| - 1], es[|es| - 1];
    assert es == init + [e];
    Snoc(init, e);
    if i < |init| {
      MarksOfLastWins(init, i);
    }
  }

  /** A repeated code keeps only its last mark in the map, but both scores are
      in the total, so the total can exceed the sum of the stored scores. */
  lemma RepeatedCodeCountsTwice()
    ensures var es := [Subject("101", SubjectMark("BANGLA", 80, "A+")),
                       Subject("101", SubjectMark("BANGLA", 70, "A"))];
      SumScores(es) == 150 && MarksOf(es) == map["101" := SubjectMark("BANGLA", 70, "A")]
  {
    var es := [Subject("101", SubjectMark("BANGLA", 80, "A+")),
               Subject("101", SubjectMark("BANGLA", 70, "A"))];
    Snoc([], es[0]);
    assert [] + [es[0]] == [es[0]];
    Snoc([es[0]], es[1]);
    assert [es[0]] + [es[1]] == es;
  }

  /** A typical cell: `137(A-)` scores 137 with grade `A-`. */
  lemma TypicalCell()
    ensures ScoreOf("137(A-)") == Some(137)
    ensures GradeOf("137(A-)") == "A-"
  {
    var s := "137(A-)";
    assert ClosesOnLine(s, 6);
    assert ClosesOnLine(s, 4);
    assert ScoreAt(s, 0, 3);
    assert s[0..3] == "137";
    assert s[0..3][..2] == "13" && "13"[..1] == "1" && "1"[..0] == "";
    assert GradeAt(s, 3);
    assert FirstClose(s, 4) == 6;
    assert s[4..6] == "A-";
  }

  /** A two- or three-digit decimal form has two or three characters. */
  lemma ScoreTextLength(n: nat)
    requires 10 <= n <= 999
    ensures 2 <= |NatToString(n)| <= 3
  {
    if n >= 100 {
      assert NatToString(n) == NatToString(n / 10) + [DigitChar(n % 10)];
      assert |NatToString(n / 10)| == 2 by {
        assert NatToString(n / 10) == NatToString(n / 100) + [DigitChar(n / 10 % 10)];
      }
    } else {
      assert NatToString(n) == NatToString(n / 10) + [DigitChar(n % 10)];
    }
  }

  /** A `)` at the end, with no `)` and no line break from `j` up to it, closes
      the group opened before `j`, and it is the first `)` found. */
  lemma {:induction false} CloseAtEnd(s: string, j: nat)
    requires j < |s| && s[|s| - 1] == ')'
    requires forall k :: j <= k < |s| - 1 ==> s[k] != ')' && s[k] != '\n'
    ensures ClosesOnLine(s, j) && FirstClose(s, j) == |s| - 1
    decreases |s| - j
  {
    if j < |s| - 1 {
      CloseAtEnd(s, j + 1);
    }
  }

  /** A cell written as a score of two or three digits followed by its grade in
      parentheses reads back as that score and that grade. */
  lemma CellRoundTrip(n: nat, g: string)
    requires 10 <= n <= 999
    requires ')' !in g && '\n' !in g
    ensures ScoreOf(NatToString(n) + "(" + g + ")") == Some(n)
    ensures GradeOf(NatToString(n) + "(" + g + ")") == g
  {
    var d := NatToString(n);
    var len: nat := |d|;
    var s := d + "(" + g + ")";
    ScoreTextLength(n);
    assert s[..len] == d && s[len] == '(' && |s| == len + 2 + |g|;
    assert forall k :: len + 1 <= k < |s| - 1 ==> s[k] == g[k - len - 1];
    CloseAtEnd(s, len + 1);
    assert s[len + 1..|s| - 1] == g;
    assert ScoreAt(s, 0, len);
    assert len == 2 ==> !ScoreAt(s, 0, 3);
    FindScoreLeftmost(s, 0);
    assert ScoreStartsAt(s, 0);
    assert FindScore(s, 0) == Some((0, len));
    NatToStringValue(n);
    assert s[0..len] == d;
    assert GradeAt(s, len);
    FindGradeLeftmost(s, 0);
    assert forall q :: 0 <= q < len ==> !GradeAt(s, q);
    assert FindGrade(s, 0) == Some(len);
  }

  /** The leftmost match wins, trying three digits first at each start: in
      `1234(A)` the match starts at `2`. */
  lemma LeftmostThreeDigits()
    ensures ScoreOf("1234(A)") == Some(234)
  {
    var s := "1234(A)";
    assert ClosesOnLine(s, 5);
    assert !ScoreAt(s, 0, 3) && !ScoreAt(s, 0, 2);
    assert ScoreAt(s, 1, 3);
    assert s[1..4] == "234" && "234"[..2] == "23" && "23"[..1] == "2" && "2"[..0] == "";
  }

  // ---------------------------------------------------------------------------
  // process_csv_to_json
  // ---------------------------------------------------------------------------

  /** One record of `processed_data`, with `subject_marks` as a map rather than
      its JSON text. */
  datatype StudentRecord = StudentRecord(
    rollNumber: string,
    studentName: string,
    institutionName: string,
    gpa: string,
    totalMarks: int,
    board: string,
    fatherName: string,
    scienceGroup: string,
    motherName: string,
    year: string,
    examType: string,
    sessionYear: string,
    registrationId: string,
    studentType: string,
    dateOfBirth: string,
    subjectMarks: map<string, SubjectMark>)

  /** The record built from one row; `None` when the row has no cell 11, where
      `row[11]` fails. */
  function RecordOf(row: seq<string>, examYear: string, examType: string): (r: Option<StudentRecord>)
    ensures r.Some? <==> |row| >= FirstSubjectCell
    ensures r.Some? ==> (&& r.value.year == examYear && r.value.examType == examType
      && r.value.totalMarks == SumScores(Matched(row, TripleCount(row)))
      && r.value.subjectMarks == MarksOf(Matched(row, TripleCount(row)))
      && '"' !in r.value.institutionName)
  {
    if |row| < FirstSubjectCell then None
    else
      RemoveCharLeavesNone(Strip(row[9]), '"');
      Some(BuildRecord(row, examYear, examType))
  }

  /** The fields of the record of a row that has cell 11. */
  function BuildRecord(row: seq<string>, examYear: string, examType: string): StudentRecord
    requires |row| >= FirstSubjectCell
  {
      var es := Matched(row, TripleCount(row));
      StudentRecord(
        rollNumber := Strip(row[0]),
        studentName := Strip(row[1]),
        institutionName := RemoveAll(Strip(row[9]), "\""),
        gpa := Strip(RemoveAll(row[10], "GPA=")),
        totalMarks := SumScores(es),
        board := Strip(row[2]),
        fatherName := Strip(row[3]),
        scienceGroup := Strip(row[4]),
        motherName := Strip(row[5]),
        year := examYear,
        examType := examType,
        sessionYear := Strip(row[6]),
        registrationId := Strip(row[7]),
        studentType := Strip(row[8]),
        dateOfBirth := Strip(row[11]),
        subjectMarks := MarksOf(es))
  }

  /** All the values of `os` in order, or `None` as soon as one is missing. */
  function Collected<T>(os: seq<Option<T>>): Option<seq<T>>
  {
    if |os| == 0 then Some([])
    else
      match Collected(os[..|os| - 1])
      case None => None
      case Some(vs) => (match os[|os| - 1] case None => None case Some(v) => Some(vs + [v]))
  }

  /** One more element: `Collected` extends the values collected so far, or
      fails when that element is missing. */
  lemma CollectedStep<T>(os: seq<Option<T>>, i: nat)
    requires i < |os|
    ensures Collected(os[..i + 1]) ==
      match Collected(os[..i])
      case None => None
      case Some(vs) => if os[i].None? then None else Some(vs + [os[i].value])
  {
    assert os[..i + 1][..i] == os[..i];
  }

  /** `Collected` succeeds exactly when no value is missing, and then keeps
      every value in place. */
  lemma {:induction false} CollectedMeaning<T>(os: seq<Option<T>>)
    ensures Collected(os).Some? <==> forall k :: 0 <= k < |os| ==> os[k].Some?
    ensures Collected(os).Some? ==> (
      var vs := Collected(os).value;
      |vs| == |os| && forall k :: 0 <= k < |os| ==> Some(vs[k]) == os[k])
  {
    if |os| > 0 {
      var init := os[..|os| - 1];
      CollectedMeaning(init);
      assert forall k :: 0 <= k < |init| ==> init[k] == os[k];
      if Collected(init).Some? && os[|os| - 1].Some? {
        var vs := Collected(init).value;
        var v := os[|os| - 1].value;
        assert Collected(os) == Some(vs + [v]);
        assert forall k :: 0 <= k < |init| ==> (vs + [v])[k] == vs[k];
      }
    }
  }

  /** Once a prefix has a missing value, so has the whole sequence. */
  lemma {:induction false} CollectedPrefixNone<T>(os: seq<Option<T>>, m: nat)
    requires m <= |os| && Collected(os[..m]).None?
    ensures Collected(os).None?
    decreases |os|
  {
    if m == |os| {
      assert os[..m] == os;
    } else {
      var init := os[..|os| - 1];
      assert init[..m] == os[..m];
      CollectedPrefixNone(init, m);
    }
  }

  /** The record of each row, in order. */
  function RowRecords(rows: seq<seq<string>>, examYear: string, examType: string): (os: seq<Option<StudentRecord>>)
    ensures |os| == |rows|
  {
    seq(|rows|, k requires 0 <= k < |rows| => RecordOf(rows[k], examYear, examType))
  }

  /** `processed_data` for the rows of a file: one record per row, in order,
      or `None` when some row has no cell 11. */
  function AllRecords(rows: seq<seq<string>>, examYear: string, examType: string): Option<seq<StudentRecord>>
  {
    Collected(RowRecords(rows, examYear, examType))
  }

  /** The records exist exactly when every row has cell 11, and then record `k`
      is the record of row `k`. */
  lemma AllRecordsMeaning(rows: seq<seq<string>>, examYear: string, examType: string)
    ensures AllRecords(rows, examYear, examType).Some? <==> forall k :: 0 <= k < |rows| ==> |rows[k]| >= FirstSubjectCell
    ensures AllRecords(rows, examYear, examType).Some? ==> (
      var rs := AllRecords(rows, examYear, examType).value;
      |rs| == |rows| && forall k :: 0 <= k < |rows| ==> Some(rs[k]) == RecordOf(rows[k], examYear, examType))
  {
    var os := RowRecords(rows, examYear, examType);
    CollectedMeaning(os);
    assert forall k :: 0 <= k < |rows| ==> os[k] == RecordOf(rows[k], examYear, examType);
  }

  /** `process_csv_to_json` over the rows of the file: stops with `None` at the
      first row without cell 11. */
  method ProcessRows(rows: seq<seq<string>>, examYear: string, examType: string)
    returns (processed: Option<seq<StudentRecord>>)
    ensures processed == AllRecords(rows, examYear, examType)
  {
    ghost var os := RowRecords(rows, examYear, examType);
    var out: seq<StudentRecord> := [];
    var index := 0;
    while index < |rows|
      invariant 0 <= index <= |rows|
      invariant Collected(os[..index]) == Some(out)
    {
      var row := rows[index];
      assert os[index] == RecordOf(row, examYear, examType);
      if |row| < FirstSubjectCell {
        CollectedStep(os, index);
        CollectedPrefixNone(os, index + 1);
        return None;
      }
      var record := ProcessRow(row, examYear, examType);
      RecordOfBuilt(row, examYear, examType);
      CollectedStep(os, index);
      out := out + [record];
      index := index + 1;
    }
    assert os[..index] == os;
    return Some(out);
  }

  /** A row with cell 11 has the record `BuildRecord` gives. */
  lemma RecordOfBuilt(row: seq<string>, examYear: string, examType: string)
    requires |row| >= FirstSubjectCell
    ensures RecordOf(row, examYear, examType) == Some(BuildRecord(row, examYear, examType))
  {
  }

  /** The loop body of `process_csv_to_json` for a row that has cell 11. */
  method ProcessRow(row: seq<string>, examYear: string, examType: string) returns (record: StudentRecord)
    requires |row| >= FirstSubjectCell
    ensures record == BuildRecord(row, examYear, examType)
  {
      var subjectMarks, totalMarks := ParseSubjectData(row);
      record := StudentRecord(
        rollNumber := Strip(row[0]),
        studentName := Strip(row[1]),
        institutionName := RemoveAll(Strip(row[9]), "\""),
        gpa := Strip(RemoveAll(row[10], "GPA=")),
        totalMarks := totalMarks,
        board := Strip(row[2]),
        fatherName := Strip(row[3]),
        scienceGroup := Strip(row[4]),
        motherName := Strip(row[5]),
        year := examYear,
        examType := examType,
        sessionYear := Strip(row[6]),
        registrationId := Strip(row[7]),
        studentType := Strip(row[8]),
        dateOfBirth := Strip(row[11]),
        subjectMarks := subjectMarks);
  }

  /** The quotes are removed after stripping, so white space inside them is kept:
      the cell `"  Dhaka College  "` with its quotes becomes `  Dhaka College  `. */
  lemma QuotesRemovedAfterStrip()
    ensures RemoveAll(Strip("\" A \""), "\"") == " A "
  {
    var s := "\" A \"";
    assert s[0] == '"' && s[4] == '"';
    assert LeadingSpace(s) == 0;
    assert s[0..] == s;
    assert TrailingSpace(s) == 0;
    assert s[..5] == s;
    assert Strip(s) == s;
    assert s[..1] == "\"" && s[1..] == " A \"";
    assert " A \""[..1] != "\"" && " A \""[1..] == "A \"";
    assert "A \""[..1] != "\"" && "A \""[1..] == " \"";
    assert " \""[..1] != "\"" && " \""[1..] == "\"";
    assert "\""[..1] == "\"" && "\""[1..] == "";
    assert RemoveAll("\"", "\"") == "";
    assert RemoveAll(" \"", "\"") == " ";
    assert RemoveAll("A \"", "\"") == "A ";
    assert RemoveAll(" A \"", "\"") == " A ";
  }

  /** The two cleaned cells: `institution_name` is the stripped cell with
      every `"` left out and all else kept in order, and a `gpa` cell that is
      `GPA=` followed by text without `GPA=` becomes that text, stripped. */
  lemma CleanedCells(row: seq<string>, examYear: string, examType: string, gpaText: string)
    requires |row| >= FirstSubjectCell
    ensures RecordOf(row, examYear, examType).value.institutionName == Without(Strip(row[9]), '"')
    ensures row[10] == "GPA=" + gpaText && (forall i :: !OccursAt(gpaText, i, "GPA=")) ==>
      RecordOf(row, examYear, examType).value.gpa == Strip(gpaText)
  {
    RecordOfBuilt(row, examYear, examType);
    RemoveCharKeepsOthers(Strip(row[9]), '"');
    assert "\"" == ['"'];
    if row[10] == "GPA=" + gpaText && (forall i :: !OccursAt(gpaText, i, "GPA=")) {
      RemoveLeading("GPA=", gpaText);
    }
  }

  /** `gpa`: `GPA=5.00` becomes `5.00`. */
  lemma GpaPrefixRemoved()
    ensures Strip(RemoveAll("GPA=5.00", "GPA=")) == "5.00"
  {
    var s := "GPA=5.00";
    assert s[..4] == "GPA=";
    var t := s[4..];
    assert t == "5.00";
    forall i ensures !OccursAt(t, i, "GPA=") {
      if 0 <= i && i + 4 <= |t| {
        assert i == 0;
        assert t[0] != 'G';
      }
    }
    RemoveAbsent(t, "GPA=");
    assert t[0] == '5' && t[3] == '0';
    assert LeadingSpace(t) == 0 && t[0..] == t;
    assert TrailingSpace(t) == 0 && t[..4] == t;
  }
}
