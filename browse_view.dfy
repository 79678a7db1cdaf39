/**
 * The results browser's URL state (student-rank-app/src/app/page.tsx).
 *
 * The page derives which view it shows from the query string, and every user
 * action copies the current `URLSearchParams` (or starts a fresh one), changes it
 * with `set`/`delete` and pushes the result as the new URL. Each handler is a
 * method that builds the pushed query on a `UrlParams` object and returns it;
 * `router.push` and React state are not modelled. `fetchData` assembles the
 * request to the results endpoint from the URL in the same way.
 */
module BrowseView {

  import opened Optional
  import opened QueryString
  import NumberText
  import StudentsQuery

  /** The three screens of the page. */
  datatype View = ExamTypeSelection | YearSelection | Results

  /** The value the year picker sends for "All Years" (page.tsx:331). */
  const AllYears: string := "ALL_YEARS"

  /** The group shown when the URL names none (page.tsx:45, 86). */
  const DefaultGroup: string := "Science"

  /** The view for a query string (page.tsx:49-56, 65-76). */
  function ViewOf(params: map<string, string>): (v: View)
    ensures v == Results <==> Present(params, "exam_type") && Present(params, "year")
    ensures v == YearSelection <==> Present(params, "exam_type") && !Present(params, "year")
    ensures v == ExamTypeSelection <==> !Present(params, "exam_type")
  {
    if Present(params, "exam_type") && Present(params, "year") then Results
    else if Present(params, "exam_type") then YearSelection
    else ExamTypeSelection
  }

  /** `currentPage` (page.tsx:78): `parseInt(searchParams.get('page') || '1')`,
      which is page 1 when the URL has no page. */
  function CurrentPage(params: map<string, string>): (p: Option<int>)
    ensures !Present(params, "page") ==> p == Some(1)
  {
    assert NumberText.IntToString(1) == "1";
    NumberText.ParseIntOfIntToString(1);
    NumberText.ParseInt(GetOr(params, "page", "1"))
  }

  /** `currentLimit` (page.tsx:79): 100 rows when the URL names no limit. */
  function CurrentLimit(params: map<string, string>): (l: Option<int>)
    ensures !Present(params, "limit") ==> l == Some(100)
  {
    assert NumberText.IntToString(100) == "100" by {
      assert NumberText.NatToString(10) == "10";
    }
    NumberText.ParseIntOfIntToString(100);
    NumberText.ParseInt(GetOr(params, "limit", "100"))
  }

  /** `after` holds exactly the entries of `before` outside `keys`. */
  ghost predicate AgreeOutside(before: map<string, string>, after: map<string, string>, keys: set<string>)
  {
    forall k :: k !in keys ==> (k in after <==> k in before) && (k in after ==> after[k] == before[k])
  }

  /** page.tsx:155-159: only `page` changes, to the page asked for, which the page
      then reads back as its current page. */
  method HandlePageChange(current: map<string, string>, newPage: int) returns (pushed: map<string, string>)
    ensures AgreeOutside(current, pushed, {"page"})
    ensures "page" in pushed && pushed["page"] == NumberText.IntToString(newPage)
    ensures CurrentPage(pushed) == Some(newPage)
  {
    var newParams := new UrlParams.Copy(current);
    newParams.Set("page", NumberText.IntToString(newPage));
    pushed := newParams.entries;
    NumberText.ParseIntOfIntToString(newPage);
  }

  /** page.tsx:161-170: `search` is the typed term when there is one and is removed
      otherwise; the page goes back to 1; nothing else changes. */
  method HandleSearch(current: map<string, string>, localSearchTerm: string) returns (pushed: map<string, string>)
    ensures AgreeOutside(current, pushed, {"search", "page"})
    ensures localSearchTerm != "" ==> "search" in pushed && pushed["search"] == localSearchTerm
    ensures localSearchTerm == "" ==> "search" !in pushed
    ensures "page" in pushed && pushed["page"] == "1" && CurrentPage(pushed) == Some(1)
  {
    var newParams := new UrlParams.Copy(current);
    if localSearchTerm != "" {
      newParams.Set("search", localSearchTerm);
    } else {
      newParams.Delete("search");
    }
    newParams.Set("page", "1");
    assert NumberText.IntToString(1) == "1";
    NumberText.ParseIntOfIntToString(1);
    pushed := newParams.entries;
  }

  /** page.tsx:172-178: clicking an institution filters by it, sorts by it and goes
      back to page 1; for a non-empty name the endpoint then ranks within that
      institution. */
  method HandleInstitutionClick(current: map<string, string>, institutionName: string)
    returns (pushed: map<string, string>)
    ensures AgreeOutside(current, pushed, {"institution", "sortBy", "page"})
    ensures "institution" in pushed && pushed["institution"] == institutionName
    ensures "sortBy" in pushed && pushed["sortBy"] == "institution"
    ensures "page" in pushed && pushed["page"] == "1"
    ensures StudentsQuery.Partitioned(pushed) <==> institutionName != ""
  {
    var newParams := new UrlParams.Copy(current);
    newParams.Set("institution", institutionName);
    newParams.Set("sortBy", "institution");
    newParams.Set("page", "1");
    pushed := newParams.entries;
  }

  /** page.tsx:180-188: `sortBy`, `institution` and `group` are removed, everything
      else (the page included) is kept; ranking is then over the whole table and
      the group falls back to the default. */
  method ClearSort(current: map<string, string>) returns (pushed: map<string, string>)
    ensures AgreeOutside(current, pushed, {"sortBy", "institution", "group"})
    ensures "sortBy" !in pushed && "institution" !in pushed && "group" !in pushed
    ensures !StudentsQuery.Partitioned(pushed)
    ensures GetOr(pushed, "group", DefaultGroup) == DefaultGroup
  {
    var newParams := new UrlParams.Copy(current);
    newParams.Delete("sortBy");
    newParams.Delete("institution");
    newParams.Delete("group");
    pushed := newParams.entries;
  }

  /** page.tsx:190-213: an institution or group choice sets that key and `sortBy`
      (to the filter's name), an empty choice removes both; any other type changes
      nothing but the page, which always goes back to 1. */
  method HandleFilterChange(current: map<string, string>, filterType: string, value: string)
    returns (pushed: map<string, string>)
    ensures filterType == "institution" || filterType == "group" ==>
      AgreeOutside(current, pushed, {filterType, "sortBy", "page"})
    ensures (filterType == "institution" || filterType == "group") && value != "" ==>
      filterType in pushed && pushed[filterType] == value && "sortBy" in pushed && pushed["sortBy"] == filterType
    ensures (filterType == "institution" || filterType == "group") && value == "" ==>
      filterType !in pushed && "sortBy" !in pushed
    ensures filterType != "institution" && filterType != "group" ==> AgreeOutside(current, pushed, {"page"})
    ensures "page" in pushed && pushed["page"] == "1"
  {
    var newParams := new UrlParams.Copy(current);
    if filterType == "institution" {
      if value != "" {
        newParams.Set("institution", value);
        newParams.Set("sortBy", "institution");
      } else {
        newParams.Delete("institution");
        newParams.Delete("sortBy");
      }
    } else if filterType == "group" {
      if value != "" {
        newParams.Set("group", value);
        newParams.Set("sortBy", "group");
      } else {
        newParams.Delete("group");
        newParams.Delete("sortBy");
      }
    }
    newParams.Set("page", "1");
    pushed := newParams.entries;
  }

  /** page.tsx:224-234: a fresh query with the chosen exam type, the year unless
      "All Years" was picked, and the selected group. */
  method HandleYearSelect(selectedExamType: string, selectedGroup: string, year: string)
    returns (pushed: map<string, string>)
    ensures pushed.Keys == if year == AllYears then {"exam_type", "group"} else {"exam_type", "year", "group"}
    ensures pushed["exam_type"] == selectedExamType && pushed["group"] == selectedGroup
    ensures year != AllYears ==> pushed["year"] == year
    // "All Years" leads back to the year picker (page.tsx:65-76), never to the results
    ensures year == AllYears ==> ViewOf(pushed) != Results
    ensures year == AllYears && selectedExamType != "" ==> ViewOf(pushed) == YearSelection
    ensures year != AllYears && year != "" && selectedExamType != "" ==> ViewOf(pushed) == Results
  {
    var newParams := new UrlParams.Empty();
    newParams.Set("exam_type", selectedExamType);
    if year != AllYears {
      newParams.Set("year", year);
    }
    newParams.Set("group", selectedGroup);
    pushed := newParams.entries;
  }

  /** `q` holds `key` exactly when the URL has it non-empty, with the URL's value. */
  ghost predicate CopiedIfPresent(url: map<string, string>, q: map<string, string>, key: string)
  {
    (key in q <==> Present(url, key)) && (key in q ==> q[key] == url[key])
  }

  /** The request `fetchData` sends for a URL: `page` and `limit` re-serialised from
      their parsed values, `group` with its default, the other keys copied when
      non-empty, and no other key. */
  ghost predicate RequestFor(url: map<string, string>, q: map<string, string>)
  {
    RequestShape(url, q, NumberText.NumberToString(CurrentPage(url)), NumberText.NumberToString(CurrentLimit(url)))
  }

  /** `q` carries `page` and `limit` as given, `group` with its default, the other
      keys copied when non-empty, and no other key. */
  ghost predicate RequestShape(url: map<string, string>, q: map<string, string>, pageText: string, limitText: string)
  {
    && "page" in q && q["page"] == pageText
    && "limit" in q && q["limit"] == limitText
    && "group" in q && q["group"] == GetOr(url, "group", DefaultGroup)
    && CopiedIfPresent(url, q, "search") && CopiedIfPresent(url, q, "institution")
    && CopiedIfPresent(url, q, "year") && CopiedIfPresent(url, q, "exam_type")
    && CopiedIfPresent(url, q, "sortBy")
    && q.Keys <= {"page", "limit", "group", "search", "institution", "year", "exam_type", "sortBy"}
  }

  /** The query keys the page uses are different strings. */
  lemma KeysDistinct()
    ensures "page" != "limit" && "page" != "search" && "page" != "institution" && "page" != "year"
    ensures "page" != "exam_type" && "page" != "group" && "page" != "sortBy"
    ensures "limit" != "search" && "limit" != "institution" && "limit" != "year" && "limit" != "exam_type"
    ensures "limit" != "group" && "limit" != "sortBy"
    ensures "search" != "institution" && "search" != "year" && "search" != "exam_type" && "search" != "group"
    ensures "search" != "sortBy"
    ensures "institution" != "year" && "institution" != "exam_type" && "institution" != "group"
    ensures "institution" != "sortBy"
    ensures "year" != "exam_type" && "year" != "group" && "year" != "sortBy"
    ensures "exam_type" != "group" && "exam_type" != "sortBy" && "group" != "sortBy"
  {
  }

  /** page.tsx:103-117: no request outside the results view; otherwise `page` and
      `limit` re-serialised from their parsed values, `group` with its default,
      and each of the other keys only when the URL has it non-empty. */
  method FetchRequest(url: map<string, string>, currentView: View) returns (request: Option<map<string, string>>)
    ensures request.None? <==> currentView != Results
    ensures request.Some? ==> RequestFor(url, request.value)
  {
    if currentView != Results {
      return None;
    }
    var params := BuildRequest(url, NumberText.NumberToString(CurrentPage(url)),
                               NumberText.NumberToString(CurrentLimit(url)));
    request := Some(params);
  }

  /** The `params` of page.tsx:108-116, built key by key from the URL and the
      texts of `currentPage` and `currentLimit`. */
  method BuildRequest(url: map<string, string>, pageText: string, limitText: string)
    returns (params: map<string, string>)
    ensures RequestShape(url, params, pageText, limitText)
  {
    KeysDistinct();
    // `params.set(key, value)` on the fresh `URLSearchParams`, as map updates
    params := map[];
    params := params["page" := pageText];
    params := params["limit" := limitText];
    if Present(url, "search") {
      params := params["search" := url["search"]];
    }
    var institutionFilter := GetOr(url, "institution", "");
    var yearFilter := GetOr(url, "year", "");
    var examTypeFilter := GetOr(url, "exam_type", "");
    var groupFilter := GetOr(url, "group", DefaultGroup);
    var sortBy := GetOr(url, "sortBy", "");
    if institutionFilter != "" {
      params := params["institution" := institutionFilter];
    }
    if yearFilter != "" {
      params := params["year" := yearFilter];
    }
    if examTypeFilter != "" {
      params := params["exam_type" := examTypeFilter];
    }
    if groupFilter != "" {
      params := params["group" := groupFilter];
    }
    if sortBy != "" {
      params := params["sortBy" := sortBy];
    }
  }

  // ---------------------------------------------------------------------------
  // How the page and the endpoint fit together
  // ---------------------------------------------------------------------------

  /** Picking "All Years" pushes a URL without `year`, so the view derived from it
      is the year picker again, not the results. */
  lemma AllYearsShowsYearPicker(selectedExamType: string, selectedGroup: string, pushed: map<string, string>)
    requires pushed.Keys == {"exam_type", "group"}
    requires pushed["exam_type"] == selectedExamType && pushed["group"] == selectedGroup
    ensures ViewOf(pushed) != Results
    ensures selectedExamType != "" ==> ViewOf(pushed) == YearSelection
  {
  }

  /** Picking a real year for a chosen exam type leads to the results view. */
  lemma YearShowsResults(pushed: map<string, string>, selectedExamType: string, year: string)
    requires "exam_type" in pushed && "year" in pushed
    requires pushed["exam_type"] == selectedExamType && pushed["year"] == year
    requires selectedExamType != "" && year != ""
    ensures ViewOf(pushed) == Results
  {
  }

  /** The endpoint reads from the request the same filters and the same ranking
      choice as the URL shows. */
  lemma RequestKeepsFilters(url: map<string, string>, q: map<string, string>, pageText: string, limitText: string)
    requires RequestShape(url, q, pageText, limitText)
    ensures StudentsQuery.Filters(q) == StudentsQuery.Filters(url)
    ensures StudentsQuery.Partitioned(q) <==> StudentsQuery.Partitioned(url)
  {
    StudentsQuery.FiltersReadOnlyTheirKeys(q, url);
  }

  /** The endpoint parses from the request the page and limit the page itself
      parsed from the URL, NaN included. */
  lemma RequestKeepsPaging(url: map<string, string>, q: map<string, string>)
    requires RequestFor(url, q)
    ensures NumberText.ParseInt(GetOr(q, "page", "1")) == CurrentPage(url)
    ensures NumberText.ParseInt(GetOr(q, "limit", "100")) == CurrentLimit(url)
  {
    var pageText, limitText := NumberText.NumberToString(CurrentPage(url)), NumberText.NumberToString(CurrentLimit(url));
    assert GetOr(q, "page", "1") == pageText;
    NumberText.ParseIntOfNumberToString(CurrentPage(url));
    NumberText.ParseIntOfNumberToString(CurrentLimit(url));
    assert GetOr(q, "limit", "100") == limitText;
  }

  /** A group choice reaches the endpoint but changes none of its filters, and it
      replaces any institution ranking with the unpartitioned one. */
  lemma GroupChoiceIgnoredByEndpoint(current: map<string, string>, pushed: map<string, string>, value: string)
    requires AgreeOutside(current, pushed, {"group", "sortBy", "page"})
    requires value != "" ==> "sortBy" in pushed && pushed["sortBy"] == "group"
    requires value == "" ==> "sortBy" !in pushed
    ensures StudentsQuery.Filters(pushed) == StudentsQuery.Filters(current)
    ensures !StudentsQuery.Partitioned(pushed)
  {
    StudentsQuery.FiltersReadOnlyTheirKeys(pushed, current);
  }
}
