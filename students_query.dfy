/**
 * The results endpoint (student-rank-app/src/app/api/students/route.ts, `GET`).
 *
 * The handler reads optional `page`, `limit`, `search`, `institution`, `year`,
 * `exam_type` and `sortBy` from the query string and builds two parameterised
 * SQL statements: a ranked, filtered, paginated SELECT and a COUNT over the same
 * filter. SQL text is modelled as a sequence of tokens in which literal text
 * written in the source and `$n` placeholders are kept apart; the values bound
 * to the placeholders travel in a separate parameter list, as in the source.
 *
 * The database is not modelled: the rows and the count it returns are inputs
 * to `Respond`, with `None` for a failed query.
 */
module StudentsQuery {

  import opened Optional
  import opened QueryString
  import NumberText

  // ---------------------------------------------------------------------------
  // SQL text and bound parameters
  // ---------------------------------------------------------------------------

  /** A piece of SQL text: literal text fixed by the source, or the placeholder `$n`. */
  datatype Token = Text(s: string) | Placeholder(n: nat)

  type Sql = seq<Token>

  /** A value in the parameter list: a string, or a JavaScript number (NaN is `None`). */
  datatype Param = Str(s: string) | Num(n: Option<int>)

  /** A token after binding: literal text, the value a placeholder stands for, or a
      placeholder whose index falls outside the parameter list. */
  datatype Bound = Lit(s: string) | Value(p: Param) | Dangling(n: nat)

  function BindToken(t: Token, params: seq<Param>): Bound
  {
    match t
    case Text(s) => Lit(s)
    case Placeholder(n) => if 1 <= n <= |params| then Value(params[n - 1]) else Dangling(n)
  }

  /** The statement as the database reads it once `$n` is replaced by `params[n - 1]`. */
  function Bind(sql: Sql, params: seq<Param>): (b: seq<Bound>)
    ensures |b| == |sql|
  {
    seq(|sql|, i requires 0 <= i < |sql| => BindToken(sql[i], params))
  }

  /** `parts.join(sep)`, one token sequence per part. */
  function JoinWith<T>(parts: seq<seq<T>>, sep: T): seq<T>
  {
    if |parts| == 0 then []
    else if |parts| == 1 then parts[0]
    else JoinWith(parts[..|parts| - 1], sep) + [sep] + parts[|parts| - 1]
  }

  // ---------------------------------------------------------------------------
  // Request parameters
  // ---------------------------------------------------------------------------

  /** `toLowerCase()` on one character (ASCII letters). */
  function ToLowerChar(c: char): char
  {
    if 'A' <= c <= 'Z' then (c as int - 'A' as int + 'a' as int) as char else c
  }

  /** `toLowerCase()` (ASCII letters): no capital letter is left, and every other
      character is kept where it was. */
  function ToLower(s: string): (r: string)
    ensures |r| == |s|
    ensures forall i :: 0 <= i < |r| ==> !('A' <= r[i] <= 'Z')
    ensures forall i :: 0 <= i < |s| && !('A' <= s[i] <= 'Z') ==> r[i] == s[i]
    ensures forall i :: 0 <= i < |s| && 'A' <= s[i] <= 'Z' ==> r[i] as int - s[i] as int == 'a' as int - 'A' as int
  {
    seq(|s|, i requires 0 <= i < |s| => ToLowerChar(s[i]))
  }

  /** Lower-casing twice is lower-casing once; so terms that differ only in
      case bind the same search pattern. */
  lemma ToLowerIdempotent(s: string)
    ensures ToLower(ToLower(s)) == ToLower(s)
    ensures SearchPattern(ToLower(s)) == SearchPattern(s)
  {
    var once := ToLower(s);
    assert forall i :: 0 <= i < |once| ==> ToLower(once)[i] == once[i];
  }

  /** The four filters, in the order the handler tests them. */
  datatype FilterKind = SearchKind | InstitutionKind | YearKind | ExamTypeKind

  /** A filter that is present, with the value it binds. */
  datatype Filter =
    | Search(like: string)
    | Institution(name: string)
    | Year(year: string)
    | ExamType(examType: string)

  function KindOf(f: Filter): FilterKind
  {
    match f
    case Search(_) => SearchKind
    case Institution(_) => InstitutionKind
    case Year(_) => YearKind
    case ExamType(_) => ExamTypeKind
  }

  /** The one parameter a filter contributes. */
  function ParamOf(f: Filter): Param
  {
    match f
    case Search(like) => Str(like)
    case Institution(name) => Str(name)
    case Year(year) => Str(year)
    case ExamType(examType) => Str(examType)
  }

  /** The position of a kind in the fixed test order. */
  function Rank(k: FilterKind): nat
  {
    match k
    case SearchKind => 0
    case InstitutionKind => 1
    case YearKind => 2
    case ExamTypeKind => 3
  }

  /** The pattern `search` binds: `%${searchTerm.toLowerCase()}%`. */
  function SearchPattern(term: string): string
  {
    "%" + ToLower(term) + "%"
  }

  /** The query-string key each filter reads. */
  function KeyOf(k: FilterKind): string
  {
    match k
    case SearchKind => "search"
    case InstitutionKind => "institution"
    case YearKind => "year"
    case ExamTypeKind => "exam_type"
  }

  /** The filter of kind `k` a request carries: empty when its key is absent or
      empty; `search` binds the lower-cased term between `%` wildcards. */
  function FilterIf(params: map<string, string>, k: FilterKind): (fs: seq<Filter>)
    ensures |fs| <= 1
    ensures fs != [] <==> Present(params, KeyOf(k))
  {
    if !Present(params, KeyOf(k)) then []
    else
      var v := params[KeyOf(k)];
      match k
      case SearchKind => [Search(SearchPattern(v))]
      case InstitutionKind => [Institution(v)]
      case YearKind => [Year(v)]
      case ExamTypeKind => [ExamType(v)]
  }

  /** The filters a request carries, in the order of route.ts:22-47. */
  function Filters(params: map<string, string>): seq<Filter>
  {
    FilterIf(params, SearchKind) + FilterIf(params, InstitutionKind)
    + FilterIf(params, YearKind) + FilterIf(params, ExamTypeKind)
  }

  /** At most one filter per key, and none exactly when none of the four keys
      is present. */
  lemma FiltersNoneIff(params: map<string, string>)
    ensures |Filters(params)| <= 4
    ensures Filters(params) == [] <==>
      (!Present(params, "search") && !Present(params, "institution")
       && !Present(params, "year") && !Present(params, "exam_type"))
  {
    assert KeyOf(SearchKind) == "search" && KeyOf(InstitutionKind) == "institution";
    assert KeyOf(YearKind) == "year" && KeyOf(ExamTypeKind) == "exam_type";
  }

  function Kinds(fs: seq<Filter>): (ks: seq<FilterKind>)
    ensures |ks| == |fs|
  {
    if |fs| == 0 then [] else Kinds(fs[..|fs| - 1]) + [KindOf(fs[|fs| - 1])]
  }

  /** The filter part of the parameter list: one value per filter, in order. */
  function FilterParams(fs: seq<Filter>): (ps: seq<Param>)
    ensures |ps| == |fs|
  {
    if |fs| == 0 then [] else FilterParams(fs[..|fs| - 1]) + [ParamOf(fs[|fs| - 1])]
  }

  /** Ranking is partitioned by institution only for `sortBy === 'institution'`
      together with an institution filter (route.ts:54). */
  predicate Partitioned(params: map<string, string>)
  {
    "sortBy" in params && params["sortBy"] == "institution" && Present(params, "institution")
  }

  // ---------------------------------------------------------------------------
  // The statements, as functions of which filters are present
  // ---------------------------------------------------------------------------

  /** The clause a filter kind adds, with its value at placeholder `$n`. */
  function ClauseSql(k: FilterKind, n: nat): Sql
  {
    match k
    case SearchKind =>
      [Text("(LOWER(student_name) LIKE "), Placeholder(n),
       Text(" OR LOWER(roll_number) LIKE "), Placeholder(n),
       Text(" OR LOWER(institution_name) LIKE "), Placeholder(n), Text(")")]
    case InstitutionKind => [Text("LOWER(institution_name) = LOWER("), Placeholder(n), Text(")")]
    case YearKind => [Text("year = "), Placeholder(n)]
    case ExamTypeKind => [Text("exam_type = "), Placeholder(n)]
  }

  /** Where a clause's placeholders sit: three for the search clause, one for the others. */
  function PlaceholderSlots(k: FilterKind): set<int>
  {
    if k == SearchKind then {1, 3, 5} else {1}
  }

  /** A clause refers only to its own parameter: three times for the search
      clause, once for the others. */
  lemma ClausePlaceholders(k: FilterKind, n: nat)
    ensures var c := ClauseSql(k, n);
      forall i :: 0 <= i < |c| ==>
        (c[i].Placeholder? <==> i in PlaceholderSlots(k)) && (c[i].Placeholder? ==> c[i].n == n)
  {
  }

  /** The clauses for a list of kinds, the i-th using placeholder `$(i + 1)`. */
  function Clauses(ks: seq<FilterKind>): (cs: seq<Sql>)
    ensures |cs| == |ks|
  {
    if |ks| == 0 then [] else Clauses(ks[..|ks| - 1]) + [ClauseSql(ks[|ks| - 1], |ks|)]
  }

  /** `whereSql` (route.ts:49). */
  function WhereSql(clauses: seq<Sql>): Sql
  {
    if |clauses| > 0 then [Text("WHERE ")] + JoinWith(clauses, Text(" AND ")) else []
  }

  /** `whereSql` is empty exactly when no filter is present, and otherwise
      starts with `WHERE ` followed by the clauses of the filters. */
  lemma WhereSqlOfRequest(params: map<string, string>)
    ensures var w := WhereSql(Clauses(Kinds(Filters(params))));
      && (w == [] <==>
            (!Present(params, "search") && !Present(params, "institution")
             && !Present(params, "year") && !Present(params, "exam_type")))
      && (w != [] ==> w[0] == Text("WHERE ") && w[1..] == JoinWith(Clauses(Kinds(Filters(params))), Text(" AND ")))
  {
    FiltersNoneIff(params);
  }

  const RankedSelect: string :=
    "WITH ranked_students AS (SELECT id, roll_number, student_name, institution_name, gpa, "
    + "total_marks, registration_id, board, father_name, science_group, mother_name, year, "
    + "exam_type, student_type, date_of_birth, subject_marks, DENSE_RANK() OVER ("
  const RankedFrom: string :=
    " ORDER BY total_marks DESC) as rank FROM students) SELECT * FROM ranked_students "
  const PartitionByInstitution: string := "PARTITION BY institution_name"
  const OrderByMarks: string := "ORDER BY total_marks DESC"
  const OrderByInstitution: string := "ORDER BY institution_name, total_marks DESC"
  const CountFrom: string := "SELECT COUNT(*) FROM students "

  /** The ranked page query for the given filter kinds and partition choice. */
  function StudentsSql(ks: seq<FilterKind>, partitioned: bool): Sql
  {
    [Text(RankedSelect), Text(if partitioned then PartitionByInstitution else ""), Text(RankedFrom)]
    + WhereSql(Clauses(ks))
    + [Text(" "), Text(if partitioned then OrderByInstitution else OrderByMarks),
       Text(" LIMIT "), Placeholder(|ks| + 1), Text(" OFFSET "), Placeholder(|ks| + 2), Text(";")]
  }

  /** The count query for the given filter kinds. */
  function CountSql(ks: seq<FilterKind>): Sql
  {
    [Text(CountFrom)] + WhereSql(Clauses(ks)) + [Text(";")]
  }

  /** In the page query, DENSE_RANK is partitioned and the rows ordered by
      institution first exactly when `partitioned`; LIMIT and OFFSET use the two
      placeholders after the filters' ones. */
  lemma StudentsSqlShape(ks: seq<FilterKind>, partitioned: bool)
    ensures var q := StudentsSql(ks, partitioned);
      && |q| >= 10
      && (q[1] == Text(PartitionByInstitution) <==> partitioned)
      && (q[|q| - 6] == Text(OrderByInstitution) <==> partitioned)
      && q[|q| - 5] == Text(" LIMIT ") && q[|q| - 4] == Placeholder(|ks| + 1)
      && q[|q| - 3] == Text(" OFFSET ") && q[|q| - 2] == Placeholder(|ks| + 2)
  {
  }

  /** The count query applies the very WHERE part of the page query, whatever
      the partition choice, so it counts the rows the pages are cut from. */
  lemma CountSharesWhere(ks: seq<FilterKind>, partitioned: bool)
    ensures var w := WhereSql(Clauses(ks));
      && CountSql(ks)[1..1 + |w|] == w
      && StudentsSql(ks, partitioned)[3..3 + |w|] == w
  {
    var w := WhereSql(Clauses(ks));
    assert CountSql(ks) == [Text(CountFrom)] + w + [Text(";")];
    var head := [Text(RankedSelect), Text(if partitioned then PartitionByInstitution else ""), Text(RankedFrom)];
    var tail := [Text(" "), Text(if partitioned then OrderByInstitution else OrderByMarks),
       Text(" LIMIT "), Placeholder(|ks| + 1), Text(" OFFSET "), Placeholder(|ks| + 2), Text(";")];
    assert StudentsSql(ks, partitioned) == head + w + tail;
  }

  /** The state of the builder after the filters `fs`: one clause and one
      parameter per filter, and `paramIndex` one past the last parameter. */
  ghost predicate Built(whereClauses: seq<Sql>, queryParams: seq<Param>, paramIndex: nat, fs: seq<Filter>)
  {
    whereClauses == Clauses(Kinds(fs)) && queryParams == FilterParams(fs) && paramIndex == |fs| + 1
  }

  /** Pushing one filter's clause at `$paramIndex` and its parameter keeps `Built`. */
  lemma PushFilter(whereClauses: seq<Sql>, queryParams: seq<Param>, paramIndex: nat, fs: seq<Filter>, f: Filter)
    requires Built(whereClauses, queryParams, paramIndex, fs)
    ensures Built(whereClauses + [ClauseSql(KindOf(f), paramIndex)], queryParams + [ParamOf(f)],
                  paramIndex + 1, fs + [f])
  {
    assert (fs + [f])[..|fs|] == fs;
    var ks := Kinds(fs + [f]);
    assert ks == Kinds(fs) + [KindOf(f)];
    assert ks[..|fs|] == Kinds(fs);
  }

  // ---------------------------------------------------------------------------
  // The handler
  // ---------------------------------------------------------------------------

  /** Everything the handler computes before it calls the database. */
  datatype Plan = Plan(
    page: Option<int>, limit: Option<int>, offset: Option<int>,
    studentsSql: Sql, studentsParams: seq<Param>,
    countSql: Sql, countParams: seq<Param>)

  /** `(page - 1) * limit`, NaN when either operand is. */
  function Offset(page: Option<int>, limit: Option<int>): (r: Option<int>)
    ensures r.Some? <==> page.Some? && limit.Some?
    ensures r.Some? && limit.value > 0 && page.value >= 1 ==> r.value >= 0
  {
    if page.Some? && limit.Some? then Some((page.value - 1) * limit.value) else None
  }

  /** One of the four `if (filter) { push clause; push value; paramIndex++ }`
      blocks of route.ts:22-47. */
  method PushIfPresent(params: map<string, string>, k: FilterKind,
                       whereClauses: seq<Sql>, queryParams: seq<Param>, paramIndex: nat, ghost fs: seq<Filter>)
    returns (whereClauses': seq<Sql>, queryParams': seq<Param>, paramIndex': nat)
    requires Built(whereClauses, queryParams, paramIndex, fs)
    ensures Built(whereClauses', queryParams', paramIndex', fs + FilterIf(params, k))
  {
    whereClauses', queryParams', paramIndex' := whereClauses, queryParams, paramIndex;
    if Present(params, KeyOf(k)) {
      var value := params[KeyOf(k)];
      var bound := if k == SearchKind then SearchPattern(value) else value;
      var f := FilterIf(params, k)[0];
      FilterIfOfKind(params, k);
      assert f in FilterIf(params, k) && FilterIf(params, k) == [f];
      assert KindOf(f) == k && ParamOf(f) == Str(bound);
      PushFilter(whereClauses, queryParams, paramIndex, fs, f);
      whereClauses' := whereClauses + [ClauseSql(k, paramIndex)];
      queryParams' := queryParams + [Str(bound)];
      paramIndex' := paramIndex + 1;
    } else {
      assert fs + FilterIf(params, k) == fs;
    }
  }

  /** route.ts:18-47: the WHERE clauses and their parameters, pushed in the
      order search, institution, year, exam_type under a running `paramIndex`. */
  method BuildFilters(params: map<string, string>)
    returns (whereClauses: seq<Sql>, queryParams: seq<Param>, paramIndex: nat)
    ensures whereClauses == Clauses(Kinds(Filters(params)))
    ensures queryParams == FilterParams(Filters(params))
    ensures paramIndex == |queryParams| + 1
  {
    whereClauses, queryParams, paramIndex := [], [], 1;
    ghost var fs: seq<Filter> := [];
    assert Built(whereClauses, queryParams, paramIndex, fs);
    whereClauses, queryParams, paramIndex := PushIfPresent(params, SearchKind, whereClauses, queryParams, paramIndex, fs);
    fs := fs + FilterIf(params, SearchKind);
    whereClauses, queryParams, paramIndex := PushIfPresent(params, InstitutionKind, whereClauses, queryParams, paramIndex, fs);
    fs := fs + FilterIf(params, InstitutionKind);
    whereClauses, queryParams, paramIndex := PushIfPresent(params, YearKind, whereClauses, queryParams, paramIndex, fs);
    fs := fs + FilterIf(params, YearKind);
    whereClauses, queryParams, paramIndex := PushIfPresent(params, ExamTypeKind, whereClauses, queryParams, paramIndex, fs);
    fs := fs + FilterIf(params, ExamTypeKind);
    assert [] + FilterIf(params, SearchKind) == FilterIf(params, SearchKind);
    assert fs == Filters(params);
  }

  /** route.ts:51-57: the partition of DENSE_RANK and the ORDER BY clause. */
  method ChooseRanking(params: map<string, string>) returns (rankPartition: string, orderBySql: string)
    ensures rankPartition == PartitionByInstitution <==> Partitioned(params)
    ensures rankPartition == "" <==> !Partitioned(params)
    ensures orderBySql == (if Partitioned(params) then OrderByInstitution else OrderByMarks)
  {
    rankPartition := "";
    orderBySql := OrderByMarks;
    if "sortBy" in params && params["sortBy"] == "institution" && Present(params, "institution") {
      rankPartition := PartitionByInstitution;
      orderBySql := OrderByInstitution;
    }
  }

  /** route.ts:8-92, 101: parse the paging parameters, build the filters, choose
      the ranking, append LIMIT/OFFSET placeholders and their values, and slice the
      count query's parameters. */
  method BuildPlan(params: map<string, string>) returns (plan: Plan)
    ensures plan.page == NumberText.ParseInt(GetOr(params, "page", "1"))
    ensures plan.limit == NumberText.ParseInt(GetOr(params, "limit", "100"))
    ensures plan.offset == Offset(plan.page, plan.limit)
    ensures plan.studentsSql == StudentsSql(Kinds(Filters(params)), Partitioned(params))
    ensures plan.studentsParams == FilterParams(Filters(params)) + [Num(plan.limit), Num(plan.offset)]
    ensures plan.countSql == CountSql(Kinds(Filters(params)))
    ensures plan.countParams == FilterParams(Filters(params))
  {
    var page := NumberText.ParseInt(GetOr(params, "page", "1"));
    var limit := NumberText.ParseInt(GetOr(params, "limit", "100"));
    var offset := Offset(page, limit);

    var whereClauses, queryParams, paramIndex := BuildFilters(params);
    var whereSql := WhereSql(whereClauses);
    var rankPartition, orderBySql := ChooseRanking(params);

    var studentsSql := [Text(RankedSelect), Text(rankPartition), Text(RankedFrom)]
      + whereSql
      + [Text(" "), Text(orderBySql),
         Text(" LIMIT "), Placeholder(paramIndex), Text(" OFFSET "), Placeholder(paramIndex + 1), Text(";")];
    ghost var filterParams := queryParams;
    queryParams := queryParams + [Num(limit), Num(offset)];

    var countSql := [Text(CountFrom)] + whereSql + [Text(";")];
    var countParams := queryParams[..|queryParams| - 2];
    assert countParams == filterParams;

    plan := Plan(page, limit, offset, studentsSql, queryParams, countSql, countParams);
  }

  // ---------------------------------------------------------------------------
  // Which filters a request carries
  // ---------------------------------------------------------------------------

  /** The value a present filter of kind `k` binds. */
  function FilterValue(params: map<string, string>, k: FilterKind): string
    requires Present(params, KeyOf(k))
  {
    if k == SearchKind then SearchPattern(params[KeyOf(k)]) else params[KeyOf(k)]
  }

  /** Filter kinds strictly increase in the order search, institution, year, exam_type. */
  ghost predicate InTestOrder(fs: seq<Filter>)
  {
    forall i, j :: 0 <= i < j < |fs| ==> Rank(KindOf(fs[i])) < Rank(KindOf(fs[j]))
  }

  lemma InTestOrderAppend(a: seq<Filter>, b: seq<Filter>)
    requires InTestOrder(a) && InTestOrder(b)
    requires forall f, g :: f in a && g in b ==> Rank(KindOf(f)) < Rank(KindOf(g))
    ensures InTestOrder(a + b)
  {
    forall i, j | 0 <= i < j < |a + b|
      ensures Rank(KindOf((a + b)[i])) < Rank(KindOf((a + b)[j]))
    {
      if j < |a| {
      } else if i >= |a| {
        assert (a + b)[i] == b[i - |a|] && (a + b)[j] == b[j - |a|];
      } else {
        assert (a + b)[i] in a && (a + b)[j] in b;
      }
    }
  }

  /** The filter `FilterIf` yields has the kind asked for and binds that key's value. */
  lemma FilterIfOfKind(params: map<string, string>, k: FilterKind)
    ensures forall f :: f in FilterIf(params, k) ==>
      KindOf(f) == k && Present(params, KeyOf(k)) && ParamOf(f) == Str(FilterValue(params, k))
  {
  }

  /** The filters depend on the four filter keys only: requests that agree on
      which of them are present, and on their values, carry the same filters;
      other keys such as `group` or `page` play no part. */
  lemma FiltersReadOnlyTheirKeys(a: map<string, string>, b: map<string, string>)
    requires forall k :: k in {"search", "institution", "year", "exam_type"} ==>
      (Present(a, k) <==> Present(b, k)) && (Present(a, k) ==> a[k] == b[k])
    ensures Filters(a) == Filters(b)
  {
    forall k: FilterKind ensures FilterIf(a, k) == FilterIf(b, k) {
      assert KeyOf(k) in {"search", "institution", "year", "exam_type"};
    }
  }

  /** A request carries exactly one filter per key that is present (non-empty), no
      other, in the fixed test order, each binding the value read from its key. */
  lemma FiltersOfRequest(params: map<string, string>)
    ensures InTestOrder(Filters(params))
    ensures forall k :: (exists f :: f in Filters(params) && KindOf(f) == k) <==> Present(params, KeyOf(k))
    ensures forall f :: f in Filters(params) ==>
      Present(params, KeyOf(KindOf(f))) && ParamOf(f) == Str(FilterValue(params, KindOf(f)))
  {
    FiltersInTestOrder(params);
    FiltersOfPresentKeys(params);
  }

  lemma FiltersInTestOrder(params: map<string, string>)
    ensures InTestOrder(Filters(params))
  {
    FilterIfOfKind(params, SearchKind);
    FilterIfOfKind(params, InstitutionKind);
    FilterIfOfKind(params, YearKind);
    FilterIfOfKind(params, ExamTypeKind);
    GroupsInTestOrder(FilterIf(params, SearchKind), FilterIf(params, InstitutionKind),
                      FilterIf(params, YearKind), FilterIf(params, ExamTypeKind));
  }

  /** At most one filter of each kind, concatenated in the test order, are in test order. */
  lemma GroupsInTestOrder(a: seq<Filter>, b: seq<Filter>, c: seq<Filter>, d: seq<Filter>)
    requires |a| <= 1 && |b| <= 1 && |c| <= 1 && |d| <= 1
    requires forall f :: f in a ==> Rank(KindOf(f)) == 0
    requires forall f :: f in b ==> Rank(KindOf(f)) == 1
    requires forall f :: f in c ==> Rank(KindOf(f)) == 2
    requires forall f :: f in d ==> Rank(KindOf(f)) == 3
    ensures InTestOrder(a + b + c + d)
  {
    assert forall f :: f in a + b ==> Rank(KindOf(f)) <= 1;
    assert forall f :: f in a + b + c ==> Rank(KindOf(f)) <= 2;
    InTestOrderAppend(a, b);
    InTestOrderAppend(a + b, c);
    InTestOrderAppend(a + b + c, d);
  }

  lemma FiltersOfPresentKeys(params: map<string, string>)
    ensures forall k :: (exists f :: f in Filters(params) && KindOf(f) == k) <==> Present(params, KeyOf(k))
    ensures forall f :: f in Filters(params) ==>
      Present(params, KeyOf(KindOf(f))) && ParamOf(f) == Str(FilterValue(params, KindOf(f)))
  {
    forall f | f in Filters(params)
      ensures Present(params, KeyOf(KindOf(f))) && ParamOf(f) == Str(FilterValue(params, KindOf(f)))
    {
      var k := FilterKindIn(params, f);
      FilterIfOfKind(params, k);
    }
    forall k ensures (exists f :: f in Filters(params) && KindOf(f) == k) <==> Present(params, KeyOf(k)) {
      FilterIfOfKind(params, k);
      FilterIfInFilters(params, k);
      if Present(params, KeyOf(k)) {
        var s := FilterIf(params, k);
        assert s[0] in s && KindOf(s[0]) == k;
      }
      if f :| f in Filters(params) && KindOf(f) == k {
        var k' := FilterKindIn(params, f);
        FilterIfOfKind(params, k');
      }
    }
  }

  /** Each filter of a request comes from the `if` block of some key. */
  lemma FilterKindIn(params: map<string, string>, f: Filter) returns (k: FilterKind)
    requires f in Filters(params)
    ensures f in FilterIf(params, k)
  {
    var a, b, c := FilterIf(params, SearchKind), FilterIf(params, InstitutionKind), FilterIf(params, YearKind);
    if f in a { k := SearchKind; }
    else if f in b { k := InstitutionKind; }
    else if f in c { k := YearKind; }
    else { k := ExamTypeKind; }
  }

  /** What a key's `if` block yields is part of the request's filters. */
  lemma FilterIfInFilters(params: map<string, string>, k: FilterKind)
    ensures forall f :: f in FilterIf(params, k) ==> f in Filters(params)
  {
  }

  // ---------------------------------------------------------------------------
  // What the database reads
  // ---------------------------------------------------------------------------

  lemma {:induction false} KindsAt(fs: seq<Filter>)
    ensures forall i :: 0 <= i < |fs| ==> Kinds(fs)[i] == KindOf(fs[i])
  {
    if |fs| > 0 {
      KindsAt(fs[..|fs| - 1]);
    }
  }

  lemma {:induction false} FilterParamsAt(fs: seq<Filter>)
    ensures forall i :: 0 <= i < |fs| ==> FilterParams(fs)[i] == ParamOf(fs[i])
  {
    if |fs| > 0 {
      FilterParamsAt(fs[..|fs| - 1]);
    }
  }

  lemma {:induction false} ClausesAt(ks: seq<FilterKind>)
    ensures forall i :: 0 <= i < |ks| ==> Clauses(ks)[i] == ClauseSql(ks[i], i + 1)
  {
    if |ks| > 0 {
      ClausesAt(ks[..|ks| - 1]);
    }
  }

  lemma BindAppend(a: Sql, b: Sql, ps: seq<Param>)
    ensures Bind(a + b, ps) == Bind(a, ps) + Bind(b, ps)
  {
    assert forall i :: 0 <= i < |a + b| ==> Bind(a + b, ps)[i] == (Bind(a, ps) + Bind(b, ps))[i];
  }

  function BindEach(parts: seq<Sql>, ps: seq<Param>): (r: seq<seq<Bound>>)
    ensures |r| == |parts|
    ensures forall i :: 0 <= i < |parts| ==> r[i] == Bind(parts[i], ps)
  {
    seq(|parts|, i requires 0 <= i < |parts| => Bind(parts[i], ps))
  }

  /** Binding a joined statement binds each part and the separator. */
  lemma {:induction false} BindJoin(parts: seq<Sql>, sep: Token, ps: seq<Param>)
    ensures Bind(JoinWith(parts, sep), ps) == JoinWith(BindEach(parts, ps), BindToken(sep, ps))
  {
    var n := |parts|;
    if n > 1 {
      BindJoin(parts[..n - 1], sep, ps);
      assert BindEach(parts, ps)[..n - 1] == BindEach(parts[..n - 1], ps);
      BindAppend(JoinWith(parts[..n - 1], sep) + [sep], parts[n - 1], ps);
      BindAppend(JoinWith(parts[..n - 1], sep), [sep], ps);
    }
  }

  /** The elements of a joined sequence are the separator and those of the parts. */
  lemma {:induction false} JoinWithMembers<T>(parts: seq<seq<T>>, sep: T, x: T)
    ensures x in JoinWith(parts, sep) ==> x == sep || exists i :: 0 <= i < |parts| && x in parts[i]
    ensures forall i :: 0 <= i < |parts| && x in parts[i] ==> x in JoinWith(parts, sep)
  {
    var n := |parts|;
    if n > 1 {
      JoinWithMembers(parts[..n - 1], sep, x);
      assert forall i :: 0 <= i < n - 1 ==> parts[..n - 1][i] == parts[i];
    }
  }

  /** A filter's clause with its placeholders reading that filter's own value. */
  function BoundClause(f: Filter): seq<Bound>
  {
    Bind(ClauseSql(KindOf(f), 1), [ParamOf(f)])
  }

  /** A bound clause has no dangling placeholder, and its second token is the
      filter's value. */
  lemma BoundClauseReadsValue(f: Filter)
    ensures forall x :: x in BoundClause(f) ==> !x.Dangling?
    ensures |BoundClause(f)| >= 2 && BoundClause(f)[1] == Value(ParamOf(f))
  {
  }

  /** The bound clause of each filter, in order. */
  function BoundClauses(fs: seq<Filter>): (bs: seq<seq<Bound>>)
    ensures |bs| == |fs|
    ensures forall i :: 0 <= i < |fs| ==> bs[i] == BoundClause(fs[i])
  {
    seq(|fs|, i requires 0 <= i < |fs| => BoundClause(fs[i]))
  }

  /** The clause at `$n` reads the n-th parameter, wherever it sits in the list. */
  lemma ClauseBinds(k: FilterKind, n: nat, ps: seq<Param>)
    requires 1 <= n <= |ps|
    ensures Bind(ClauseSql(k, n), ps) == Bind(ClauseSql(k, 1), [ps[n - 1]])
  {
    var c, c1 := ClauseSql(k, n), ClauseSql(k, 1);
    ClauseTokenAt(k, n, 1, 0);
    forall i | 0 <= i < |c| ensures BindToken(c[i], ps) == BindToken(c1[i], [ps[n - 1]]) {
      ClauseTokenAt(k, n, 1, i);
    }
  }

  /** Clauses of one kind differ only in the number of their placeholders. */
  lemma ClauseTokenAt(k: FilterKind, n: nat, m: nat, i: nat)
    requires i < |ClauseSql(k, n)|
    ensures |ClauseSql(k, m)| == |ClauseSql(k, n)|
    ensures ClauseSql(k, n)[i].Text? ==> ClauseSql(k, m)[i] == ClauseSql(k, n)[i]
    ensures ClauseSql(k, n)[i].Placeholder? ==> ClauseSql(k, n)[i] == Placeholder(n) && ClauseSql(k, m)[i] == Placeholder(m)
  {
  }

  /** The WHERE part as the database should read it: each filter's clause with its
      own value, joined by AND; nothing when there is no filter. */
  function BoundWhere(fs: seq<Filter>): seq<Bound>
  {
    if |fs| == 0 then []
    else [Lit("WHERE ")] + JoinWith(BoundClauses(fs), Lit(" AND "))
  }

  lemma BindClauseAt(fs: seq<Filter>, ps: seq<Param>, i: nat)
    requires FilterParams(fs) <= ps && i < |fs|
    ensures Bind(Clauses(Kinds(fs))[i], ps) == BoundClause(fs[i])
  {
    ClausesAt(Kinds(fs));
    KindsAt(fs);
    FilterParamsAt(fs);
    var k := KindOf(fs[i]);
    assert Clauses(Kinds(fs))[i] == ClauseSql(k, i + 1);
    assert ps[i] == FilterParams(fs)[i] == ParamOf(fs[i]);
    ClauseBinds(k, i + 1, ps);
  }

  /** Each bound clause reads its own filter's value. */
  lemma BindClauses(fs: seq<Filter>, ps: seq<Param>)
    requires FilterParams(fs) <= ps
    ensures BindEach(Clauses(Kinds(fs)), ps) == BoundClauses(fs)
  {
    var lhs, rhs := BindEach(Clauses(Kinds(fs)), ps), BoundClauses(fs);
    forall i | 0 <= i < |fs| ensures lhs[i] == rhs[i] {
      BindClauseAt(fs, ps, i);
    }
  }

  /** With the filter parameters at the front of the list, the WHERE part reads
      as intended: `$k` is the value of the k-th filter. */
  lemma BindWhere(fs: seq<Filter>, ps: seq<Param>)
    requires FilterParams(fs) <= ps
    ensures Bind(WhereSql(Clauses(Kinds(fs))), ps) == BoundWhere(fs)
  {
    if |fs| > 0 {
      var cs := Clauses(Kinds(fs));
      var joined := JoinWith(cs, Text(" AND "));
      assert WhereSql(cs) == [Text("WHERE ")] + joined;
      BindAppend([Text("WHERE ")], joined, ps);
      assert Bind([Text("WHERE ")], ps) == [Lit("WHERE ")];
      BindJoin(cs, Text(" AND "), ps);
      assert BindToken(Text(" AND "), ps) == Lit(" AND ");
      BindClauses(fs, ps);
    }
  }

  /** The page query as the database should read it. */
  function IntendedStudents(fs: seq<Filter>, partitioned: bool, limit: Option<int>, offset: Option<int>): seq<Bound>
  {
    [Lit(RankedSelect), Lit(if partitioned then PartitionByInstitution else ""), Lit(RankedFrom)]
    + BoundWhere(fs)
    + [Lit(" "), Lit(if partitioned then OrderByInstitution else OrderByMarks),
       Lit(" LIMIT "), Value(Num(limit)), Lit(" OFFSET "), Value(Num(offset)), Lit(";")]
  }

  /** The text after the WHERE part, with LIMIT and OFFSET bound. */
  lemma BindTail(n: nat, partitioned: bool, ps: seq<Param>, limit: Option<int>, offset: Option<int>)
    requires |ps| == n + 2 && ps[n] == Num(limit) && ps[n + 1] == Num(offset)
    ensures Bind([Text(" "), Text(if partitioned then OrderByInstitution else OrderByMarks),
                  Text(" LIMIT "), Placeholder(n + 1), Text(" OFFSET "), Placeholder(n + 2), Text(";")], ps)
         == [Lit(" "), Lit(if partitioned then OrderByInstitution else OrderByMarks),
             Lit(" LIMIT "), Value(Num(limit)), Lit(" OFFSET "), Value(Num(offset)), Lit(";")]
  {
  }

  /** Every placeholder of the page query reads the right parameter: filter `$k` the
      k-th filter's value, LIMIT the limit and OFFSET the offset pushed last. */
  lemma StudentsQueryBinds(fs: seq<Filter>, partitioned: bool, limit: Option<int>, offset: Option<int>)
    ensures Bind(StudentsSql(Kinds(fs), partitioned), FilterParams(fs) + [Num(limit), Num(offset)])
            == IntendedStudents(fs, partitioned, limit, offset)
  {
    var ps := FilterParams(fs) + [Num(limit), Num(offset)];
    var head := [Text(RankedSelect), Text(if partitioned then PartitionByInstitution else ""), Text(RankedFrom)];
    var ks := Kinds(fs);
    var tail := [Text(" "), Text(if partitioned then OrderByInstitution else OrderByMarks),
       Text(" LIMIT "), Placeholder(|ks| + 1), Text(" OFFSET "), Placeholder(|ks| + 2), Text(";")];
    assert StudentsSql(ks, partitioned) == head + WhereSql(Clauses(ks)) + tail;
    BindAppend(head + WhereSql(Clauses(ks)), tail, ps);
    BindAppend(head, WhereSql(Clauses(ks)), ps);
    BindWhere(fs, ps);
    BindTail(|ks|, partitioned, ps, limit, offset);
    assert Bind(head, ps) == [Lit(RankedSelect), Lit(if partitioned then PartitionByInstitution else ""), Lit(RankedFrom)];
  }

  /** The count query reads exactly the filter values, `$k` the k-th one. */
  lemma CountQueryBinds(fs: seq<Filter>)
    ensures Bind(CountSql(Kinds(fs)), FilterParams(fs)) == [Lit(CountFrom)] + BoundWhere(fs) + [Lit(";")]
  {
    var ps := FilterParams(fs);
    BindAppend([Text(CountFrom)] + WhereSql(Clauses(Kinds(fs))), [Text(";")], ps);
    BindAppend([Text(CountFrom)], WhereSql(Clauses(Kinds(fs))), ps);
    BindWhere(fs, ps);
  }

  /** No placeholder of either query falls outside its parameter list, and every
      filter value is read by the WHERE part. */
  lemma NoDanglingPlaceholder(fs: seq<Filter>, partitioned: bool, limit: Option<int>, offset: Option<int>)
    ensures forall b :: b in Bind(StudentsSql(Kinds(fs), partitioned), FilterParams(fs) + [Num(limit), Num(offset)])
              ==> !b.Dangling?
    ensures forall b :: b in Bind(CountSql(Kinds(fs)), FilterParams(fs)) ==> !b.Dangling?
    ensures forall f :: f in fs ==> Value(ParamOf(f)) in BoundWhere(fs)
  {
    StudentsQueryBinds(fs, partitioned, limit, offset);
    CountQueryBinds(fs);
    if |fs| > 0 {
      var parts := BoundClauses(fs);
      forall b | b in BoundWhere(fs) ensures !b.Dangling? {
        JoinWithMembers(parts, Lit(" AND "), b);
        if b != Lit(" AND ") && b != Lit("WHERE ") {
          var i :| 0 <= i < |parts| && b in parts[i];
          BoundClauseReadsValue(fs[i]);
        }
      }
      forall f | f in fs ensures Value(ParamOf(f)) in BoundWhere(fs) {
        var i :| 0 <= i < |fs| && fs[i] == f;
        BoundClauseReadsValue(f);
        JoinWithMembers(parts, Lit(" AND "), Value(ParamOf(f)));
        assert parts[i][1] == Value(ParamOf(f));
      }
    }
  }

  /** Every piece of literal text the handler writes into a statement. */
  ghost const SourceText: set<string> := {
    RankedSelect, PartitionByInstitution, "", RankedFrom, " ", OrderByMarks, OrderByInstitution,
    " LIMIT ", " OFFSET ", ";", "WHERE ", " AND ", CountFrom,
    "(LOWER(student_name) LIKE ", " OR LOWER(roll_number) LIKE ", " OR LOWER(institution_name) LIKE ", ")",
    "LOWER(institution_name) = LOWER(", "year = ", "exam_type = "}

  lemma WhereTextIsFixed(ks: seq<FilterKind>)
    ensures forall t :: t in WhereSql(Clauses(ks)) && t.Text? ==> t.s in SourceText
  {
    forall t | t in WhereSql(Clauses(ks)) && t.Text? ensures t.s in SourceText {
      WhereTokenIsFixed(ks, t);
    }
  }

  lemma WhereTokenIsFixed(ks: seq<FilterKind>, t: Token)
    requires t in WhereSql(Clauses(ks)) && t.Text?
    ensures t.s in SourceText
  {
    var cs := Clauses(ks);
    WhereMember(cs, t);
    SeparatorsAreFixed();
    if t != Text("WHERE ") && t != Text(" AND ") {
      var i :| 0 <= i < |cs| && t in cs[i];
      ClausesAt(ks);
      ClauseTextIsFixed(ks[i], i + 1);
    }
  }

  /** A token of `whereSql` is `WHERE `, the ` AND ` separator or a token of one
      of the clauses. */
  lemma WhereMember(cs: seq<Sql>, t: Token)
    requires t in WhereSql(cs)
    ensures t == Text("WHERE ") || t == Text(" AND ") || exists i :: 0 <= i < |cs| && t in cs[i]
  {
    JoinWithMembers(cs, Text(" AND "), t);
  }

  lemma SeparatorsAreFixed()
    ensures "WHERE " in SourceText && " AND " in SourceText
  {
  }

  lemma ClauseTextIsFixed(k: FilterKind, n: nat)
    ensures forall t :: t in ClauseSql(k, n) && t.Text? ==> t.s in SourceText
  {
  }

  /** Caller values never reach the SQL text: whichever filters are present and
      whether or not the ranking is partitioned, every literal token of both
      queries is text written in the handler. */
  lemma SqlTextIsFixed(ks: seq<FilterKind>, partitioned: bool)
    ensures forall t :: t in StudentsSql(ks, partitioned) && t.Text? ==> t.s in SourceText
    ensures forall t :: t in CountSql(ks) && t.Text? ==> t.s in SourceText
  {
    WhereTextIsFixed(ks);
    var w := WhereSql(Clauses(ks));
    var head := [Text(RankedSelect), Text(if partitioned then PartitionByInstitution else ""), Text(RankedFrom)];
    var tail := [Text(" "), Text(if partitioned then OrderByInstitution else OrderByMarks),
       Text(" LIMIT "), Placeholder(|ks| + 1), Text(" OFFSET "), Placeholder(|ks| + 2), Text(";")];
    assert StudentsSql(ks, partitioned) == head + w + tail;
    assert forall t :: t in head && t.Text? ==> t.s in SourceText;
    assert forall t :: t in tail && t.Text? ==> t.s in SourceText;
  }

  // ---------------------------------------------------------------------------
  // The response
  // ---------------------------------------------------------------------------

  /** `Math.ceil(a / b)` for a non-zero divisor. */
  function CeilDiv(a: int, b: int): (r: int)
    requires b != 0
    ensures b > 0 ==> b * (r - 1) < a <= b * r
    ensures b < 0 ==> b * r <= a < b * (r - 1)
  {
    if b > 0 then -((-a) / b) else -(a / (-b))
  }

  /** `Math.ceil(total / limit)` as it appears in the JSON: `None` when the quotient
      is NaN or infinite (limit NaN or zero), which `JSON.stringify` writes as null. */
  function TotalPages(total: nat, limit: Option<int>): (r: Option<int>)
    ensures r.Some? <==> limit.Some? && limit.value != 0
    ensures r.Some? && limit.value > 0 ==>
      r.value >= 0 && limit.value * (r.value - 1) < total <= limit.value * r.value
  {
    if limit.None? || limit.value == 0 then None else Some(CeilDiv(total, limit.value))
  }

  datatype PageInfo = PageInfo(total: nat, page: Option<int>, limit: Option<int>, totalPages: Option<int>)

  /** The JSON the handler answers with: the page and its metadata, or the
      500 response when either query failed. */
  datatype Response<R> = Success(data: seq<R>, pagination: PageInfo) | ServerError

  /** route.ts:94-118, with the rows of the page query and the count as inputs. */
  function Respond<R>(plan: Plan, rows: Option<seq<R>>, count: Option<nat>): (r: Response<R>)
    ensures r.ServerError? <==> rows.None? || count.None?
    ensures r.Success? ==> r.data == rows.value && r.pagination.total == count.value
    ensures r.Success? ==> r.pagination.page == plan.page && r.pagination.limit == plan.limit
    ensures r.Success? ==> (r.pagination.totalPages.None? <==> plan.limit == None || plan.limit == Some(0))
    ensures r.Success? && plan.limit.Some? && plan.limit.value > 0 ==>
      r.pagination.totalPages.Some? &&
      var tp := r.pagination.totalPages.value;
      plan.limit.value * (tp - 1) < count.value <= plan.limit.value * tp
  {
    if rows.None? || count.None? then ServerError
    else Success(rows.value, PageInfo(count.value, plan.page, plan.limit, TotalPages(count.value, plan.limit)))
  }

  /** Every row of the filtered result lies on one of the pages 1..totalPages:
      row `r` (counting from 0) is on page `r / limit + 1`. */
  lemma RowOnSomePage(total: nat, limit: int, r: nat)
    requires limit > 0 && r < total
    ensures var p := r / limit + 1;
      && 1 <= p <= TotalPages(total, Some(limit)).value
      && Offset(Some(p), Some(limit)).value <= r < Offset(Some(p), Some(limit)).value + limit
  {
    var tp := TotalPages(total, Some(limit)).value;
    var q := r / limit;
    assert q * limit <= r < q * limit + limit;
    assert q * limit < limit * tp;
    MulCancel(q, tp, limit);
    assert Offset(Some(q + 1), Some(limit)).value == q * limit;
  }

  /** A positive factor can be cancelled from a strict inequality. */
  lemma MulCancel(a: int, b: int, c: int)
    requires c > 0 && a * c < c * b
    ensures a < b
  {
  }

  /** A page from 1 to totalPages starts inside the result; a page past totalPages
      starts at or after its end, so the page query returns no rows for it. */
  lemma PageStartAgainstTotal(total: nat, page: int, limit: int)
    requires limit > 0 && page >= 1
    ensures var tp := TotalPages(total, Some(limit)).value;
      var offset := Offset(Some(page), Some(limit)).value;
      && (page <= tp ==> offset < total)
      && (page > tp ==> offset >= total)
  {
    var tp := TotalPages(total, Some(limit)).value;
    var offset := (page - 1) * limit;
    if page <= tp {
      assert offset <= limit * (tp - 1);
    } else {
      assert offset >= limit * tp;
    }
  }

  /** Fifteen matching rows at ten per page make two pages, the second starting at row 10. */
  lemma FifteenRowsTwoPages()
    ensures TotalPages(15, Some(10)) == Some(2)
    ensures Offset(Some(2), Some(10)) == Some(10)
    ensures TotalPages(15, Some(0)) == None
  {
  }
}
