/**
  The stateless Prev/Next control of the directory
  (components/Users/Pagination.tsx): each button asks its owner for page-1 or
  page+1, and is disabled on the first and on the last page respectively.
  There is no clamping here: the requested page is only as sensible as the
  props the control is given.
 */
module Pagination {
  import opened Users

  datatype Button = Prev | Next

  /** `disabled={page === 1}` on Prev, `disabled={page === totalPages}` on Next. */
  predicate Disabled(page: int, totalPages: int, b: Button)
  {
    match b
    case Prev => page == 1
    case Next => page == totalPages
  }

  predicate InRange(page: int, totalPages: int)
  {
    1 <= page <= totalPages
  }

  /**
    The page a click asks `setPage` for, or None when the button is disabled
    and the click does nothing.
   */
  function Click(page: int, totalPages: int, b: Button): (r: Option<int>)
    ensures r.None? <==> Disabled(page, totalPages, b)
    ensures r.Some? ==> r.value == (if b == Prev then page - 1 else page + 1)
    ensures InRange(page, totalPages) && r.Some? ==> InRange(r.value, totalPages)
  {
    if Disabled(page, totalPages, b) then None
    else if b == Prev then Some(page - 1) else Some(page + 1)
  }

  /** The page after a sequence of clicks, each one honoured only while its button is enabled. */
  function AfterClicks(page: int, totalPages: int, clicks: seq<Button>): int
    decreases |clicks|
  {
    if clicks == [] then page
    else
      var next := match Click(page, totalPages, clicks[0]) case Some(p) => p case None => page;
      AfterClicks(next, totalPages, clicks[1..])
  }

  /** Starting in range, no sequence of enabled clicks leaves [1, totalPages]. */
  lemma {:induction false} ClicksStayInRange(page: int, totalPages: int, clicks: seq<Button>)
    requires InRange(page, totalPages)
    ensures InRange(AfterClicks(page, totalPages, clicks), totalPages)
    decreases |clicks|
  {
    if clicks != [] {
      var next := match Click(page, totalPages, clicks[0]) case Some(p) => p case None => page;
      ClicksStayInRange(next, totalPages, clicks[1..]);
    }
  }

  /** Page 1 of 3: Prev is disabled and Next asks for page 2. */
  lemma FirstOfThreeExample()
    ensures Click(1, 3, Prev) == None && Click(1, 3, Next) == Some(2)
  {
  }

  /** Past the last page, Next stays enabled and asks for a page further out. */
  lemma NoClampPastLastPage(page: int, totalPages: int)
    requires page > totalPages
    ensures Click(page, totalPages, Next) == Some(page + 1)
    ensures !InRange(page + 1, totalPages)
  {
  }
}
