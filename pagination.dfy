/**
 * The page navigator under the results table
 * (student-rank-app/src/components/Pagination.tsx).
 *
 * The component renders `Math.min(5, totalPages)` numbered buttons, choosing
 * each button's page number by an if/else chain on its index, plus a Previous
 * and a Next button. `Array(n)` with a negative `n` throws a RangeError, so
 * the list of buttons is an `Option`: `None` stands for that exception.
 */
module Pagination {

  import opened Optional
  import StudentsQuery

  /** At most this many numbered buttons are shown. */
  const MaxButtons: int := 5

  /** The page number shown on button `idx` (Pagination.tsx:21-28): for every
      current page, each button that is rendered shows a page between 1 and
      totalPages. */
  function ButtonPage(idx: int, currentPage: int, totalPages: int): (p: int)
    ensures 0 <= idx < totalPages && idx < MaxButtons ==> 1 <= p <= totalPages
  {
    if totalPages <= 5 then idx + 1
    else if currentPage <= 3 then idx + 1
    else if currentPage >= totalPages - 2 then totalPages - (4 - idx)
    else currentPage + idx - 2
  }

  /** `b` is the run first, first + 1, ..., first + count - 1. */
  ghost predicate IsRun(b: seq<int>, first: int, count: int)
  {
    |b| == count && forall i :: 0 <= i < |b| ==> b[i] == first + i
  }

  /** The numbered buttons, or `None` when `Array(min(5, totalPages))` throws. */
  function PageButtons(currentPage: int, totalPages: int): (r: Option<seq<int>>)
    ensures r.None? <==> totalPages < 0
    ensures r.Some? ==> |r.value| == (if totalPages < MaxButtons then totalPages else MaxButtons)
    ensures totalPages == 0 ==> r == Some([])
  {
    var n := if totalPages < MaxButtons then totalPages else MaxButtons;
    if n < 0 then None
    else Some(seq(n, idx => ButtonPage(idx, currentPage, totalPages)))
  }

  /** The four ways the window is placed (Pagination.tsx:21-28). */
  lemma WindowCases(currentPage: int, totalPages: int)
    requires totalPages >= 0
    ensures totalPages <= 5 ==> IsRun(PageButtons(currentPage, totalPages).value, 1, totalPages)
    ensures totalPages > 5 && currentPage <= 3 ==>
      IsRun(PageButtons(currentPage, totalPages).value, 1, 5)
    ensures totalPages > 5 && 3 < currentPage && currentPage >= totalPages - 2 ==>
      IsRun(PageButtons(currentPage, totalPages).value, totalPages - 4, 5)
    ensures totalPages > 5 && 3 < currentPage < totalPages - 2 ==>
      IsRun(PageButtons(currentPage, totalPages).value, currentPage - 2, 5)
  {
  }

  /** For any current page, the buttons are consecutive pages inside [1, totalPages];
      when the current page is itself a page, it is one of the buttons. */
  lemma WindowIsRunOfValidPages(currentPage: int, totalPages: int)
    requires totalPages >= 0
    ensures var b := PageButtons(currentPage, totalPages).value;
      && (forall i :: 0 < i < |b| ==> b[i] == b[i - 1] + 1)
      && (forall i :: 0 <= i < |b| ==> 1 <= b[i] <= totalPages)
      && (1 <= currentPage <= totalPages ==> currentPage in b)
  {
    var b := PageButtons(currentPage, totalPages).value;
    var first := if totalPages <= 5 || currentPage <= 3 then 1
                 else if currentPage >= totalPages - 2 then totalPages - 4
                 else currentPage - 2;
    WindowCases(currentPage, totalPages);
    assert IsRun(b, first, |b|);
    if 1 <= currentPage <= totalPages {
      assert b[currentPage - first] == currentPage;
    }
  }

  /** In the middle case the current page sits on the third of the five buttons. */
  lemma CurrentPageCentred(currentPage: int, totalPages: int)
    requires totalPages > 5 && 3 < currentPage < totalPages - 2
    ensures PageButtons(currentPage, totalPages).value[2] == currentPage
  {
  }

  /** The Previous and Next buttons: whether each is disabled and the page it requests. */
  datatype Navigation = Navigation(
    prevDisabled: bool, prevTarget: int,
    nextDisabled: bool, nextTarget: int)

  /** Previous and Next (Pagination.tsx:11-12, 50-51): Previous asks for the
      page before and is disabled exactly on page 1 or below, Next asks for the
      page after and is disabled exactly from the last page on; so each is
      enabled exactly when the page it asks for is at least 1 (Previous) or at
      most totalPages (Next). */
  function Nav(currentPage: int, totalPages: int): (n: Navigation)
    ensures n.prevDisabled <==> currentPage <= 1
    ensures n.nextDisabled <==> currentPage >= totalPages
    ensures n.prevTarget == currentPage - 1 && n.nextTarget == currentPage + 1
    ensures !n.prevDisabled <==> n.prevTarget >= 1
    ensures !n.nextDisabled <==> n.nextTarget <= totalPages
    ensures n.prevTarget < currentPage < n.nextTarget
  {
    Navigation(currentPage <= 1, currentPage - 1, currentPage >= totalPages, currentPage + 1)
  }

  /** For every current page: an enabled Previous never asks for a page below 1,
      an enabled Next never for one past the end; the other bound holds exactly
      when the current page is at most one past the end (Previous) or not below
      0 (Next). */
  lemma EnabledTargetsAreValid(currentPage: int, totalPages: int)
    ensures var n := Nav(currentPage, totalPages);
      && (!n.prevDisabled ==> 1 <= n.prevTarget)
      && (!n.prevDisabled ==> (n.prevTarget <= totalPages <==> currentPage <= totalPages + 1))
      && (!n.nextDisabled ==> n.nextTarget <= totalPages)
      && (!n.nextDisabled ==> (1 <= n.nextTarget <==> 0 <= currentPage))
  {
  }

  /** An empty result (page 1 of 0 pages) shows no numbered button and disables
      both Previous and Next. */
  lemma EmptyResultDisablesAll()
    ensures PageButtons(1, 0) == Some([])
    ensures Nav(1, 0).prevDisabled && Nav(1, 0).nextDisabled
  {
  }

  /** A page past the end (for instance `?page=9` with two pages) leaves
      Previous enabled, and it asks for page 8, which does not exist. */
  lemma StalePageLeadsPastEnd()
    ensures var n := Nav(9, 2);
      !n.prevDisabled && n.prevTarget == 8 && n.prevTarget > 2 && n.nextDisabled
  {
  }

  /** The number a JSON `totalPages` stands for in the component's arithmetic:
      `null` acts as 0 in `Math.min(5, totalPages)` and in `currentPage >= totalPages`. */
  function NullAsZero(t: Option<int>): int
  {
    if t.None? then 0 else t.value
  }

  /** A NaN or zero `limit` makes the endpoint answer `totalPages: null`
      (`Math.ceil` of NaN or Infinity); the component then draws no numbered
      button and disables Next, whatever the current page. */
  lemma NullTotalRendersAsZero(currentPage: int, total: nat, limit: Option<int>)
    requires limit.None? || limit.value == 0
    ensures StudentsQuery.TotalPages(total, limit).None?
    ensures PageButtons(currentPage, NullAsZero(StudentsQuery.TotalPages(total, limit))) == Some([])
    ensures Nav(currentPage, NullAsZero(StudentsQuery.TotalPages(total, limit))).nextDisabled
      <==> currentPage >= 0
  {
  }
}
