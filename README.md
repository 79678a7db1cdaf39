# Student rank: a Dafny model of the result pipeline

The system gathers secondary-school exam results and publishes them as a ranked,
searchable table. It has three parts, and this project models the core of each:

- **The scraper** (`result_scraper.py`). It resumes from a saved progress file and
  takes a batch of up to 20000 roll numbers. For each roll it tries the result page
  up to three times and flattens the two result tables into one CSV row. It appends
  that row and records the roll as the last one scraped. The batch stops after ten
  failed rolls in a row.
- **The importer** (`import_data.py`). It reads those CSV rows and strips and
  cleans the personal fields. It reads the subject triples (code, name,
  `score(grade)`) from cell 12 on with two regular expressions, and adds the scores
  up to a total.
- **The web application** (`student-rank-app`). The results endpoint turns the
  query string into two parameterised SQL statements: a `DENSE_RANK` page query and
  a count. The results page derives its view from the URL, and its handlers rewrite
  the URL. The navigator shows a five-page window. Numbers are masked for display.

The modules are:

- `Optional`: the `Option` type.
- `NumberText`: JavaScript `parseInt` and integer-to-text.
- `PyText`: Python `strip` and `replace`.
- `QueryString`: `URLSearchParams` as a class over a map.
- `Mask`: `maskNumber`.
- `Pagination`: the button window.
- `StudentsQuery`: the endpoint.
- `DenseRank`: the meaning of the ranking the SQL asks for.
- `BrowseView`: the page's URL state and request.
- `SubjectParse`: the importer.
- `Scraper`: the scraper.

Code that changes state step by step is written as methods with loops over local
state. These include the endpoint's clause builder, the page handlers on a
`UrlParams` object, the importer's triple loop and row loop, and the scraper's
extraction loops, retry loop and roll loop. Each method is proved equal to a
specification function, and the properties are proved as lemmas about those
functions.

Some specification functions only compute and have no row of their own in the
table below. The lemmas in the rows that cite the same source lines state what
each of them means:

- `StudentsQuery.Filters`: `StudentsQuery.FiltersOfRequest` and `StudentsQuery.FiltersNoneIff`.
- `StudentsQuery.WhereSql`: `StudentsQuery.WhereSqlOfRequest`.
- `StudentsQuery.StudentsSql`: `StudentsQuery.StudentsSqlShape` and `StudentsQuery.StudentsQueryBinds`.
- `StudentsQuery.CountSql`: `StudentsQuery.CountSharesWhere` and `StudentsQuery.CountQueryBinds`.
- `Scraper.LoadProgress`: `Scraper.FirstBatch` and `Scraper.ScrapeBatch`.
- `Scraper.GeneralInfoOf`: `Scraper.GeneralInfoKeys` and `Scraper.GeneralInfoLastWins`.
- `Scraper.SubjectRows`: `Scraper.SubjectRowsExact`.
- `Scraper.IsBlank`: `Scraper.AttemptRow`.
- `Scraper.Scraped`: `Scraper.ScrapedMeansNonBlankAttempt` and `Scraper.ScrapeRoll`.
- `Scraper.Step` and `Scraper.RunFrom`: `Scraper.StepConsistent`, `Scraper.RunConsistent` and `Scraper.BatchOutcome`.
- `SubjectParse.ScoreOf` and `SubjectParse.GradeOf`: `SubjectParse.ScoreOfMatches` and `SubjectParse.GradeOfMatches`.
- `SubjectParse.BuildRecord`: `SubjectParse.RecordOf` and `SubjectParse.CleanedCells`.

The database, the browser, the HTML parser and the file system are not part of
the model:

- The rows and the count the database returns are inputs to `StudentsQuery.Respond`.
- Each scrape attempt is an input `Scraper.Attempt`. It is either an exception, or
  the cell texts of the two tables together with whether appending to the CSV file
  fails.
- The saved progress is an input `Option<int>`.

Where the code and its comments disagree, the model follows the code:

- `handleYearSelect` sets the view to `results` (page.tsx:226). For "All Years",
  the URL it pushes has no `year`, so the effect of page.tsx:65-76 switches the view
  back to the year picker. The model states the view derived from the pushed URL.
- Before the loop, the scraper creates the CSV file if it is missing
  (result_scraper.py:58-60). So `os.path.isfile` is always true at line 197, and the
  header row the comment at line 56 promises is never written. The model writes
  rows without a header, which is also what the importer expects: it reads the file
  with `header=None`.
- The comment at result_scraper.py:236 says a failed roll "will be retried in the
  next batch if within range". But every success saves its roll as the progress
  (lines 228-231), and the next batch starts after the saved roll (lines 47-48). So
  a failed roll followed by a success in the same batch is never scraped again;
  only the failures after the batch's last success are retried.
  `Scraper.FailedRollSkippedAfterSuccess` shows this.

The endpoint computes the ranking over the whole `students` table, before the
`WHERE` clause of the outer query. So a filtered page shows each row's rank in
the whole table, or with the institution partition its rank among all rows
carrying exactly that institution name, never its rank within the filter.
`DenseRank.FilterKeepsTableRank` and
`DenseRank.UnpartitionedRankIsNotRankWithinFilter` state this without a
partition. With the partition the rank still spans every year and exam type of
the institution, while the results view always filters by year and exam type
(`DenseRank.PartitionSpansYears`). The institution filter compares names
case-insensitively but the partition groups exact names, so one page can hold
several partitions, each with its own rank 1 (`DenseRank.CaseVariantsRankApart`).

## Model

| member | source | states |
|---|---|---|
| NumberText.DigitRun | student-rank-app/src/app/page.tsx:78-79 | the longest prefix of digits of the radix: every character before it is a digit and the one after it is not |
| NumberText.SkipSpace | student-rank-app/src/app/page.tsx:78 | `parseInt` skips exactly the leading JavaScript white space: the WhiteSpace characters (the Zs space separators among them) and the LineTerminator characters |
| NumberText.ParseInt | student-rank-app/src/app/page.tsx:78-79 | `parseInt` is NaN exactly when no decimal digit follows the white space and the sign, or when a `0x` prefix has no hexadecimal digit after it; a negative result comes only after a minus sign |
| NumberText.NatToString | student-rank-app/src/app/page.tsx:109 | the decimal form of a natural is a non-empty run of digits without a leading zero |
| NumberText.IntToString | student-rank-app/src/app/page.tsx:157 | `String(n)` starts with `-` exactly for a negative n; the rest is a run of digits with no leading zero after the sign |
| NumberText.NatToStringValue | student-rank-app/src/app/page.tsx:109 | reading the decimal digits of n back gives n |
| NumberText.ParseUnsignedOfNatToString | student-rank-app/src/app/page.tsx:78 | `parseInt` without a sign reads a decimal form back as its number |
| NumberText.ParseIntOfDigits | student-rank-app/src/app/api/students/route.ts:8 | a string that starts with a digit parses to the value of its digits |
| NumberText.ParseIntOfNegatedDigits | student-rank-app/src/app/api/students/route.ts:8 | a minus sign followed by digits parses to the negated value |
| NumberText.ParseIntOfIntToString | student-rank-app/src/app/page.tsx:155-159 | `parseInt(String(n)) === n` for every integer n |
| NumberText.ParseIntOfNumberToString | student-rank-app/src/app/page.tsx:109-110 | `parseInt(x.toString())` gives x back, NaN included |
| NumberText.NatToStringInjective | student-rank-app/src/app/page.tsx:157 | different numbers have different decimal forms |
| Mask.MaskNumber | student-rank-app/src/lib/utils.ts:1-5 | for a non-negative count: same length, the first `visibleDigits` characters kept, asterisks after them, and a short string unchanged; for a negative count the visible part follows `slice`'s count-from-the-end rule and `len - visibleDigits` asterisks follow it; for every count, everything after the visible part is an asterisk |
| Mask.MaskNumberDefault | student-rank-app/src/lib/utils.ts:1-5 | with the default 3: the first three characters kept and every later one an asterisk |
| Mask.MaskedSuffixIsStars | student-rank-app/src/lib/utils.ts:4 | exactly `len - visibleDigits` asterisks follow the visible prefix |
| Mask.MaskIdempotent | student-rank-app/src/lib/utils.ts:1-5 | masking a masked number again changes nothing |
| Mask.NegativeCountDoublesLength | student-rank-app/src/lib/utils.ts:3-4 | a negative count up to the length gives a result twice as long as the input |
| Pagination.PageButtons | student-rank-app/src/components/Pagination.tsx:19-28 | `min(5, totalPages)` buttons, none for zero pages, and the RangeError of `Array(n)` exactly for a negative total |
| Pagination.ButtonPage | student-rank-app/src/components/Pagination.tsx:21-28 | whatever the current page, every button that is rendered shows a page between 1 and totalPages |
| Pagination.WindowCases | student-rank-app/src/components/Pagination.tsx:21-28 | the four placements of the window: 1..total, 1..5, the last five pages, or centred on the current page |
| Pagination.WindowIsRunOfValidPages | student-rank-app/src/components/Pagination.tsx:19-40 | the buttons are consecutive pages within 1..totalPages and include a valid current page |
| Pagination.CurrentPageCentred | student-rank-app/src/components/Pagination.tsx:26-27 | in the middle case the current page is the third button |
| Pagination.Nav | student-rank-app/src/components/Pagination.tsx:9-53 | for every current page: Previous asks for `currentPage - 1` and is disabled exactly when `currentPage <= 1`; Next asks for `currentPage + 1` and is disabled exactly when `currentPage >= totalPages`; so each is enabled exactly when its target is at least 1 (Previous) or at most totalPages (Next) |
| Pagination.EnabledTargetsAreValid | student-rank-app/src/components/Pagination.tsx:9-53 | for every current page: an enabled Previous asks for a page of at least 1 and an enabled Next for one of at most totalPages; the other bound holds exactly when the current page is at most totalPages + 1 (Previous) or at least 0 (Next) |
| Pagination.EmptyResultDisablesAll | student-rank-app/src/components/Pagination.tsx:9-53 | page 1 of an empty result shows no numbered button and disables Previous and Next |
| Pagination.StalePageLeadsPastEnd | student-rank-app/src/components/Pagination.tsx:9-13 | on page 9 of 2 pages, Previous stays enabled and asks for page 8, which does not exist |
| Pagination.NullTotalRendersAsZero | student-rank-app/src/components/Pagination.tsx:19-51 | a NaN or zero `limit` makes the endpoint send a `null` total; the component reads it as 0, draws no numbered button and disables Next for every current page from 0 on |
| QueryString.UrlParams.Empty | student-rank-app/src/app/page.tsx:227 | a fresh `URLSearchParams` has no entries |
| QueryString.UrlParams.Copy | student-rank-app/src/app/page.tsx:156 | a copy of the current query has its entries |
| QueryString.UrlParams.Set | student-rank-app/src/app/page.tsx:157 | `set` maps the key to the value and leaves every other key alone |
| QueryString.UrlParams.Delete | student-rank-app/src/app/page.tsx:166 | `delete` removes the key and leaves every other key alone |
| BrowseView.ViewOf | student-rank-app/src/app/page.tsx:49-76 | results exactly when `exam_type` and `year` are both non-empty; the year picker exactly when only `exam_type` is; otherwise the exam-type picker |
| BrowseView.CurrentPage | student-rank-app/src/app/page.tsx:78 | the page is 1 when the URL has no (or an empty) `page` |
| BrowseView.CurrentLimit | student-rank-app/src/app/page.tsx:79 | the limit is 100 when the URL has no (or an empty) `limit` |
| BrowseView.HandlePageChange | student-rank-app/src/app/page.tsx:155-159 | only `page` changes, and the page then parses it back as the page asked for |
| BrowseView.HandleSearch | student-rank-app/src/app/page.tsx:161-170 | `search` is the typed term, or is removed when the term is empty; the page becomes 1; no other key changes |
| BrowseView.HandleInstitutionClick | student-rank-app/src/app/page.tsx:172-178 | sets `institution`, `sortBy=institution` and page 1 and nothing else; the endpoint then partitions its ranking exactly when the name is non-empty |
| BrowseView.ClearSort | student-rank-app/src/app/page.tsx:180-188 | removes `sortBy`, `institution` and `group` and keeps the rest; the ranking is then unpartitioned and the group falls back to Science |
| BrowseView.HandleFilterChange | student-rank-app/src/app/page.tsx:190-213 | an institution or group choice sets that key and `sortBy`, an empty choice removes both, any other type leaves all but `page` alone, and the page becomes 1 |
| BrowseView.HandleYearSelect | student-rank-app/src/app/page.tsx:224-234 | a fresh query with the exam type, the group and the year unless "All Years" was picked; "All Years" leads to the year picker and a real year to the results |
| BrowseView.FetchRequest | student-rank-app/src/app/page.tsx:103-117 | no request outside the results view; otherwise `page` and `limit` re-serialised from their parsed values, `group` defaulting to Science, the other keys only when non-empty, and no other key |
| BrowseView.BuildRequest | student-rank-app/src/app/page.tsx:108-116 | the request parameters built key by key have exactly that shape |
| BrowseView.AllYearsShowsYearPicker | student-rank-app/src/app/page.tsx:229-233 | a pushed query without `year` never shows the results, and shows the year picker when the exam type is set |
| BrowseView.YearShowsResults | student-rank-app/src/app/page.tsx:69-70 | an exam type and a year in the URL show the results |
| BrowseView.RequestKeepsFilters | student-rank-app/src/app/page.tsx:111-116 | the endpoint reads from the request the same filters and the same ranking choice as the URL holds |
| BrowseView.RequestKeepsPaging | student-rank-app/src/app/page.tsx:109-110 | the endpoint parses the same page and limit that the page parsed from the URL, NaN included |
| BrowseView.GroupChoiceIgnoredByEndpoint | student-rank-app/src/app/page.tsx:201-209 | choosing a group leaves the endpoint's filters unchanged and turns off any institution partition |
| StudentsQuery.Bind | student-rank-app/src/app/api/students/route.ts:94-95 | binding keeps one token per token of the statement |
| StudentsQuery.ToLower | student-rank-app/src/app/api/students/route.ts:24 | the result has the same length and no capital letter; every other character stays in place and each capital becomes its small letter |
| StudentsQuery.ToLowerIdempotent | student-rank-app/src/app/api/students/route.ts:24 | lower-casing twice is lower-casing once, so search terms that differ only in case bind the same pattern |
| StudentsQuery.FilterIf | student-rank-app/src/app/api/students/route.ts:22-47 | a filter block adds one filter exactly when its key is non-empty, and none otherwise |
| StudentsQuery.FiltersNoneIff | student-rank-app/src/app/api/students/route.ts:22-47 | at most four filters, and none exactly when none of `search`, `institution`, `year` and `exam_type` is non-empty |
| StudentsQuery.ClausePlaceholders | student-rank-app/src/app/api/students/route.ts:24-44 | a clause refers only to its own `$n`: three times for the search clause, once for the others |
| StudentsQuery.PushFilter | student-rank-app/src/app/api/students/route.ts:22-47 | pushing a clause at `$paramIndex` and its value keeps clauses, parameters and index in step with the filters so far |
| StudentsQuery.WhereSqlOfRequest | student-rank-app/src/app/api/students/route.ts:49 | `whereSql` is empty exactly when none of the four filter keys is non-empty, and otherwise is `WHERE ` followed by the clauses joined with ` AND ` |
| StudentsQuery.StudentsSqlShape | student-rank-app/src/app/api/students/route.ts:64-90 | DENSE_RANK is partitioned by institution and the rows ordered by institution first exactly for the partitioned choice; LIMIT and OFFSET use `$n+1` and `$n+2` after the n filter placeholders |
| StudentsQuery.CountSharesWhere | student-rank-app/src/app/api/students/route.ts:98-100 | the count query holds the very WHERE part of the page query, whatever the partition choice |
| StudentsQuery.Offset | student-rank-app/src/app/api/students/route.ts:10 | `(page - 1) * limit` is NaN exactly when either operand is, and is non-negative for a page of at least 1 and a positive limit |
| StudentsQuery.PushIfPresent | student-rank-app/src/app/api/students/route.ts:22-29 | one `if` block keeps the builder in step with the filters, adding that key's filter when present |
| StudentsQuery.BuildFilters | student-rank-app/src/app/api/students/route.ts:18-47 | the clauses and parameters are those of the request's filters in test order, and `paramIndex` is one past the last parameter |
| StudentsQuery.ChooseRanking | student-rank-app/src/app/api/students/route.ts:51-57 | partition by institution and order by institution exactly for `sortBy=institution` with a non-empty institution filter |
| StudentsQuery.BuildPlan | student-rank-app/src/app/api/students/route.ts:8-101 | page, limit and offset as parsed; the page query and the count query over the same filters; LIMIT and OFFSET values after the filter values; the count's parameters are the filter values only |
| StudentsQuery.FilterIfOfKind | student-rank-app/src/app/api/students/route.ts:22-47 | the filter a key's block adds has that kind and binds that key's value, the search term as a lower-cased `%term%` pattern |
| StudentsQuery.FiltersReadOnlyTheirKeys | student-rank-app/src/app/api/students/route.ts:12-16 | the filters depend only on the four filter keys; `group`, `page` and others play no part |
| StudentsQuery.FiltersOfRequest | student-rank-app/src/app/api/students/route.ts:22-47 | exactly one filter per non-empty key, in the order search, institution, year, exam type, each binding its key's value |
| StudentsQuery.FiltersInTestOrder | student-rank-app/src/app/api/students/route.ts:22-47 | the filters come in the order the blocks test them |
| StudentsQuery.FiltersOfPresentKeys | student-rank-app/src/app/api/students/route.ts:22-47 | a kind of filter is present exactly when its key is non-empty |
| StudentsQuery.FilterKindIn | student-rank-app/src/app/api/students/route.ts:22-47 | each filter comes from one key's block |
| StudentsQuery.FilterIfInFilters | student-rank-app/src/app/api/students/route.ts:22-47 | each block's filter is one of the request's filters |
| StudentsQuery.BindJoin | student-rank-app/src/app/api/students/route.ts:49 | binding the joined clauses binds each clause and the `AND` between them |
| StudentsQuery.ClauseBinds | student-rank-app/src/app/api/students/route.ts:24-44 | the clause at `$n` reads the n-th parameter, wherever it sits in the list |
| StudentsQuery.BoundClauseReadsValue | student-rank-app/src/app/api/students/route.ts:24-44 | a bound clause has no dangling placeholder and reads its filter's value |
| StudentsQuery.BindWhere | student-rank-app/src/app/api/students/route.ts:49 | with the filter values first in the list, `$k` in the WHERE part is the k-th filter's value |
| StudentsQuery.StudentsQueryBinds | student-rank-app/src/app/api/students/route.ts:64-95 | every placeholder of the page query reads the right value: the filters in order, then LIMIT, then OFFSET |
| StudentsQuery.CountQueryBinds | student-rank-app/src/app/api/students/route.ts:98-103 | the count query, run with the sliced parameters, reads exactly the filter values in the same WHERE part |
| StudentsQuery.NoDanglingPlaceholder | student-rank-app/src/app/api/students/route.ts:92-101 | no placeholder of either query falls outside its parameter list, and every filter value is read |
| StudentsQuery.WhereTextIsFixed | student-rank-app/src/app/api/students/route.ts:24-49 | the WHERE part holds only text written in the handler |
| StudentsQuery.ClauseTextIsFixed | student-rank-app/src/app/api/students/route.ts:24-44 | each clause holds only text written in the handler |
| StudentsQuery.SqlTextIsFixed | student-rank-app/src/app/api/students/route.ts:64-98 | no request value reaches the SQL text of either query; values travel only as parameters |
| StudentsQuery.CeilDiv | student-rank-app/src/app/api/students/route.ts:104 | `Math.ceil(a / b)`: the least r with `a <= b * r` for a positive divisor |
| StudentsQuery.TotalPages | student-rank-app/src/app/api/students/route.ts:104 | null exactly for a NaN or zero limit; for a positive limit, the fewest pages that hold all rows |
| StudentsQuery.Respond | student-rank-app/src/app/api/students/route.ts:94-118 | a 500 exactly when a query fails; otherwise the rows, the count as total, the parsed page and limit, and enough pages for the total |
| StudentsQuery.RowOnSomePage | student-rank-app/src/app/api/students/route.ts:8-104 | every matching row lies on one of pages 1..totalPages, between that page's offset and offset + limit |
| StudentsQuery.PageStartAgainstTotal | student-rank-app/src/app/api/students/route.ts:8-104 | a page up to totalPages starts inside the result; a later page starts at or past its end |
| StudentsQuery.FifteenRowsTwoPages | student-rank-app/src/app/api/students/route.ts:8-104 | 15 rows at 10 per page make 2 pages, page 2 starts at 10, and a zero limit gives null |
| DenseRank.Rank | student-rank-app/src/app/api/students/route.ts:83 | a dense rank is at least 1 |
| DenseRank.TiesShareRank | student-rank-app/src/app/api/students/route.ts:83 | equal marks in one partition share a rank |
| DenseRank.HigherMarksBetterRank | student-rank-app/src/app/api/students/route.ts:83 | more marks in one partition give a strictly smaller rank |
| DenseRank.RankOneIsTop | student-rank-app/src/app/api/students/route.ts:83 | rank 1 exactly for rows no row of their partition outscores |
| DenseRank.NoGaps | student-rank-app/src/app/api/students/route.ts:83 | every rank above 1 has a row of the partition ranked one better |
| DenseRank.Ranked | student-rank-app/src/app/api/students/route.ts:64-86 | `ranked_students` keeps every row, in order, with its rank |
| DenseRank.Where | student-rank-app/src/app/api/students/route.ts:87 | the outer WHERE keeps exactly the ranked rows whose row passes the filter |
| DenseRank.FilterKeepsTableRank | student-rank-app/src/app/api/students/route.ts:64-91 | each shown row keeps the rank it has in the whole table, whatever the filter |
| DenseRank.PartitionedRankIsRankWithinInstitution | student-rank-app/src/app/api/students/route.ts:51-57 | with the institution partition, a row's rank is its rank among all rows with exactly that institution name, of every year and exam type |
| DenseRank.PartitionSpansYears | student-rank-app/src/app/api/students/route.ts:54-88 | a witness: with the partition, a 2024 row below its institution's 2023 row has rank 2 although it heads the page filtered to 2024 |
| DenseRank.CaseVariantsRankApart | student-rank-app/src/app/api/students/route.ts:31-55 | a witness: "X College" and "X COLLEGE" both pass the case-insensitive institution filter, and the exact-name partition gives each rank 1 where one ranking gives the second rank 2 |
| DenseRank.UnpartitionedRankIsNotRankWithinFilter | student-rank-app/src/app/api/students/route.ts:64-91 | without a partition, a filtered page can show rank 2 for its own top row |
| DenseRank.TiedMarksScenario | student-rank-app/src/app/api/students/route.ts:83 | marks 500, 500, 480, 300 are ranked 1, 1, 2, 3 |
| PyText.LeadingSpaceIsSpace | import_data.py:24 | `strip` removes exactly the white space before the first other character |
| PyText.TrailingSpaceIsSpace | import_data.py:24 | `strip` removes exactly the white space after the last other character |
| PyText.StripRemovesOuterSpace | import_data.py:24-26 | the stripped text is a slice of the input, with neither end white space |
| PyText.StripIdempotent | import_data.py:62-86 | stripping twice is stripping once |
| PyText.RemoveAll | import_data.py:64-65 | `replace(pat, '')` never lengthens the text |
| PyText.RemoveCharKeepsOthers | import_data.py:64 | removing `"` gives the text with every `"` left out and all other characters kept, in order |
| PyText.RemoveLeading | import_data.py:65 | a leading `GPA=` is removed and the rest kept when `GPA=` does not occur again |
| PyText.RemoveCharLeavesNone | import_data.py:64 | removing `"` leaves none and adds no character |
| PyText.RemoveAbsent | import_data.py:65 | a text without the pattern is unchanged |
| PyText.RemovalCanFormThePattern | import_data.py:65 | one pass can leave `GPA=` behind, since the removal itself can form it |
| SubjectParse.ClosesOnLineMeaning | import_data.py:29 | `\(.*\)` can close from a position exactly when a `)` follows with no line break before it |
| SubjectParse.FindScore | import_data.py:29 | a found score match starts at or after the search position and lies inside the text |
| SubjectParse.FindScoreLeftmost | import_data.py:29 | the score match found is the leftmost, with three digits preferred to two at the same start |
| SubjectParse.ScoreOfMatches | import_data.py:29-31 | a score is found exactly when `(\d{2,3})\(.*\)` matches, and it is the value of the leftmost match's digits |
| SubjectParse.ScoreBound | import_data.py:29-31 | every score is at most 999 |
| SubjectParse.FirstCloseIsFirst | import_data.py:33 | the lazy `.*?` stops at the first `)` |
| SubjectParse.FindGrade | import_data.py:33 | a found grade match starts at or after the search position |
| SubjectParse.FindGradeLeftmost | import_data.py:33 | the grade match found is the leftmost |
| SubjectParse.GradeOfMatches | import_data.py:33-34 | the grade is the text of the leftmost `\((.*?)\)` match, or empty when there is none, and holds no `)` or line break |
| SubjectParse.ScoreImpliesGrade | import_data.py:29-34 | a cell that yields a score always yields a grade match |
| SubjectParse.TripleCount | import_data.py:21-22 | the counted triples fit in the row |
| SubjectParse.TriplesInComplete | import_data.py:21-22 | triple k is read exactly when `12 + 3k + 2 < len(row)` |
| SubjectParse.TripleComplete | import_data.py:21-22 | triple k of a row is read exactly when its third cell exists |
| SubjectParse.TripleCountOfLength | import_data.py:21-22 | a row of 12 + 3n cells has n triples |
| SubjectParse.MatchedStep | import_data.py:29-41 | a triple is added exactly when its third cell matches the score pattern |
| SubjectParse.Snoc | import_data.py:36-41 | storing a subject adds its score to the total and sets its code in the map |
| SubjectParse.ReadTriple | import_data.py:24-41 | one triple: strip the three cells, then add the score and set the code only when the score pattern matches |
| SubjectParse.TripleAdvances | import_data.py:21-45 | one pass of the loop keeps the map and the total equal to those of the triples read so far |
| SubjectParse.ParseSubjectData | import_data.py:5-49 | the map and the total are those of the matched triples from cell 12 on |
| SubjectParse.TotalBound | import_data.py:36 | the total is at most 999 per triple read |
| SubjectParse.TripleScoreBound | import_data.py:31 | a matched triple scores at most 999 |
| SubjectParse.KeptTotalBound | import_data.py:36 | subjects scoring at most 999 each total at most 999 per triple |
| SubjectParse.OnlySubjectCellsRead | import_data.py:21-26 | the subjects depend only on the cells from 12 on |
| SubjectParse.SameTriple | import_data.py:24-26 | rows that agree from cell 12 on agree on each triple |
| SubjectParse.MarksOfKeys | import_data.py:37 | the map holds exactly the codes of the matched triples |
| SubjectParse.MarksOfLastWins | import_data.py:37-41 | for each code the map keeps the mark of the last triple with it |
| SubjectParse.RepeatedCodeCountsTwice | import_data.py:36-41 | a repeated code keeps one entry but adds both scores to the total |
| SubjectParse.TypicalCell | import_data.py:29-34 | `137(A-)` scores 137 with grade `A-` |
| SubjectParse.LeftmostThreeDigits | import_data.py:29-31 | `1234(A)` scores 234: the leftmost start with three digits wins |
| SubjectParse.CellRoundTrip | import_data.py:29-34 | a cell written as a two- or three-digit score followed by `(grade)`, the grade holding no `)` or line break, reads back as that score and that grade |
| SubjectParse.RecordOf | import_data.py:59-88 | a record exactly for a row with cell 11; it carries the given year and exam type, the triples' total and map, and an institution name without quotes |
| SubjectParse.CollectedMeaning | import_data.py:58-89 | gathering per-row results succeeds exactly when no row fails, and keeps them in order |
| SubjectParse.CollectedPrefixNone | import_data.py:58-89 | one failing row fails the whole file |
| SubjectParse.AllRecordsMeaning | import_data.py:51-89 | records exactly when every row has cell 11, and then record k is that of row k |
| SubjectParse.ProcessRows | import_data.py:51-89 | the loop over the rows returns all the records, or fails at the first short row |
| SubjectParse.RecordOfBuilt | import_data.py:62-88 | a row with cell 11 has the record built field by field |
| SubjectParse.CleanedCells | import_data.py:64-65 | `institution_name` is the stripped cell with every `"` left out and the rest kept in order; a gpa cell `GPA=` + x, x without `GPA=`, gives x stripped |
| SubjectParse.ProcessRow | import_data.py:62-88 | the loop body builds that record from the stripped cells and the parsed subjects |
| SubjectParse.QuotesRemovedAfterStrip | import_data.py:64 | the quotes are removed after stripping, so the space inside them stays |
| SubjectParse.GpaPrefixRemoved | import_data.py:65 | `GPA=5.00` becomes `5.00` |
| Scraper.BatchEnd | result_scraper.py:48-51 | the batch ends at the overall end or BatchSize rolls on, whichever is first, and never holds more than BatchSize rolls |
| Scraper.FirstBatch | result_scraper.py:34-51 | with no progress file the first batch is rolls 300000 to 319999 |
| Scraper.ExtractGeneralInfo | result_scraper.py:133-148 | the loop fills `general_info` as the specification does; an absent table gives an empty one |
| Scraper.GeneralInfoKeys | result_scraper.py:138-146 | the keys are exactly those named by rows of four cells |
| Scraper.GeneralInfoLastWins | result_scraper.py:145-146 | a key takes the value of the last four-cell row that names it |
| Scraper.ExtractSubjects | result_scraper.py:151-166 | the loop fills `subject_grades` with the three-cell rows after the header, in order |
| Scraper.SubjectRowsExact | result_scraper.py:157-164 | every subject comes from a three-cell row, and every three-cell row gives one |
| Scraper.HeaderIgnored | result_scraper.py:156-157 | the first row of the subject table never becomes a subject |
| Scraper.DictSet | result_scraper.py:186-188 | `d[key] = value` grows the dict by at most one entry, and afterwards the key has the value |
| Scraper.DictSetNewKey | result_scraper.py:186-188 | setting a new key appends it at the end of the dict |
| Scraper.DictSetKeepsOthers | result_scraper.py:186-188 | every entry with another key keeps its key, value and place; an existing key is overwritten in place, so the dict keeps its size |
| Scraper.FixedCsv | result_scraper.py:169-182 | the twelve fixed columns in order: the roll number's text, then each field looked up or empty |
| Scraper.CsvUpToKeys | result_scraper.py:169-188 | `csv_data` has 12 + 3n columns, each fixed or a column of subject 1..n |
| Scraper.SubjectKeyInjective | result_scraper.py:186-188 | different subject numbers or fields give different column names |
| Scraper.SubjectKeyNotFixed | result_scraper.py:186-188 | a subject column is never a fixed column |
| Scraper.FreshSubjectKey | result_scraper.py:186-188 | a subject's columns are not among those added before it |
| Scraper.AddSubject | result_scraper.py:185-188 | adding subject n appends its code, name and grade columns |
| Scraper.BuildCsvData | result_scraper.py:169-188 | building `csv_data` gives the fixed columns followed by all subjects' columns |
| Scraper.CsvPrefix | result_scraper.py:185-188 | adding subjects leaves the columns already there in place |
| Scraper.CsvSubjectColumns | result_scraper.py:185-188 | subject j sits in columns 12 + 3j to 14 + 3j |
| Scraper.CsvLayout | result_scraper.py:169-188 | the full column layout: fixed columns, then code, name and grade of each subject |
| Scraper.CsvKeysDistinct | result_scraper.py:169-200 | no two columns share a name, so the header fields and the row have 12 + 3n entries |
| Scraper.ScrapedRowFeedsImporter | result_scraper.py:169-188 | the written cells are what the importer reads: roll in cell 0, institute in cell 9, result in cell 10, and subject j's code, name and grade in cells 12 + 3j to 14 + 3j |
| Scraper.FixedCells | result_scraper.py:169-182 | a written row has 12 + 3n cells, the roll's text first, and the institute and the result at cells 9 and 10 |
| Scraper.SubjectCells | result_scraper.py:185-188 | subject j's code, name and grade are cells 12 + 3j, 13 + 3j and 14 + 3j of the written row |
| Scraper.AttemptRow | result_scraper.py:100-226 | an attempt yields a row only when it loaded, the row is not blank, and the write succeeded |
| Scraper.TryAttempt | result_scraper.py:100-209 | the body of one attempt yields that row |
| Scraper.FirstSuccess | result_scraper.py:98-226 | the first successful attempt, if any, is below MaxRetries and succeeds |
| Scraper.FirstSuccessIsFirst | result_scraper.py:98-209 | no earlier attempt succeeded |
| Scraper.ScrapeRoll | result_scraper.py:97-226 | the retry loop writes the first successful attempt's row, after one attempt more than the failures before it, or gives up after three attempts |
| Scraper.ScrapedMeansNonBlankAttempt | result_scraper.py:190-209 | a roll is written exactly when one of its first three attempts succeeds, and what is written is never blank |
| Scraper.Rolls | result_scraper.py:86 | the rolls lo..hi-1 in order |
| Scraper.RunFromStep | result_scraper.py:86-95 | a roll the loop reaches is processed, and the loop goes on from the next |
| Scraper.ScrapeBatch | result_scraper.py:47-51 | a batch starts after the saved progress, ends at BatchEnd, and ends in the state the loop specification gives from there |
| Scraper.ScrapeRolls | result_scraper.py:83-235 | the roll loop, with both early exits in source order, ends in the state RunFrom gives |
| Scraper.ProcessRoll | result_scraper.py:97-235 | one roll: it is recorded as processed, and then as the latest success with the counter reset, or as one more failure |
| Scraper.StepConsistent | result_scraper.py:228-235 | one roll keeps the counter equal to the trailing failures, the progress equal to the last success, and the written rows equal to the successes |
| Scraper.RunConsistent | result_scraper.py:86-235 | the loop keeps that meaning of the script's variables |
| Scraper.RunRolls | result_scraper.py:86-95 | the loop processes consecutive rolls, none past the end, and stops early only past the overall end or after ten failures in a row |
| Scraper.LastSuccessMonotone | result_scraper.py:228-231 | the saved progress never moves backwards and is at least every successful roll |
| Scraper.BatchOutcome | result_scraper.py:83-238 | after a batch the counter is at most ten; the progress is the latest success, or the saved one when none; the rows written are those of the successful rolls in order |
| Scraper.BatchRolls | result_scraper.py:47-95 | a batch processes at most BatchSize consecutive rolls after the saved one, none past the batch end |
| Scraper.TenFailuresStop | result_scraper.py:86-235 | when every roll fails, the batch stops after exactly ten rolls |
| Scraper.AllFailTrailing | result_scraper.py:233-235 | when every roll fails, every processed roll counts as a continuous failure |
| Scraper.RunFromKeepsProgress | result_scraper.py:228-231 | once the loop is past the saved progress, the progress it saves never moves back |
| Scraper.FailedRollSkippedAfterSuccess | result_scraper.py:228-236 | when the first roll of a batch fails and the second succeeds, the saved progress ends at or past the second, so the next batch starts after the failed roll |

## Left out

- Database access (`pg`, `psycopg2`) is not modelled. The database's answers are
  inputs, and the meaning of `DENSE_RANK` is given over a sequence of rows.
- The semantics of `LIKE`, including its wildcards, is not modelled: the search
  pattern is only bound as a value.
- The browser automation (Selenium), the HTML parser (BeautifulSoup), timeouts,
  `time.sleep` and console output are not modelled. Each attempt's outcome is an
  input.
- File I/O is not modelled: the progress file, the CSV file and `pandas.read_csv`.
  - A failed append counts as a failed attempt. Any partial line it may leave in
    the file is not modelled.
  - Progress that cannot be parsed, or lacks `last_scraped_roll`, is not modelled:
    it raises before the loop.
  - The script's outer exception handler (result_scraper.py:240-246) is not
    modelled.
- The missing CSV header is not modelled. The header the scraper's comment
  promises is never written (result_scraper.py:58-60, 197-204), and the model
  describes the rows alone.
- Pandas cell conversions are not modelled. `read_csv(header=None)` takes the
  number of columns from the first line: a shorter later line is padded with
  cells that read as `nan`, and a longer later line makes `read_csv` raise. Since
  the scraper writes 12 + 3n cells with n varying per student, a file whose first
  row has fewer subjects than a later one fails to load. Rows are modelled as
  lists of cell strings of any length.
- SubjectParse.ParseSubjectData returns `subject_marks` as a map, not as its
  `json.dumps` text.
- Python's `\d` matches non-ASCII digits; the model matches ASCII digits only.
  `strip` uses the full `str.isspace` set.
- StudentsQuery.ToLower lower-cases ASCII letters only. JavaScript's
  `toLowerCase` covers all of Unicode.
- NumberText.ParseInt does not model JavaScript number precision: integers are
  unbounded, so `parseInt` of a very long number is exact, and a limit of `-0` is
  not distinguished.
- React state, effects and rendering are not modelled. That covers the loading
  spinner, the filter options, the student detail page and `handleExamTypeSelect`,
  which changes only React state.
- A repeated key in a query string is not modelled: each key holds one value.
- The other endpoints and the maintenance scripts are not part of this model:
  `api/filters`, `api/student/[roll_number]`, `create_indexes.js` and
  `drop_duplicates.py`.
- Pagination.Nav models the `disabled` flags and targets only, not the rendered
  buttons.
- Pagination.PageButtons and Pagination.Nav take `totalPages` as a number. The
  `null` the endpoint sends for a NaN or zero `limit` is modelled only by reading
  it as 0, which is what `Math.min` and `>=` do with it
  (`Pagination.NullTotalRendersAsZero`).
- The SQL texts of route.ts:25-32, 49-57, 64-91 and 98-100 are modelled as
  sequences of literal pieces and placeholders. Each run of line breaks and
  indentation inside them becomes one space, and the white space before and
  after each whole text is dropped; SQL reads these the same way.
