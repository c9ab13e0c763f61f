/**
  The routed directory page (pages/UserList.tsx): one page of users fetched
  from the server, a two-phase delete behind a confirmation dialog, and
  Prev/Next buttons whose page updaters clamp with Math.max and Math.min.
  Each asynchronous handler is one atomic step; the remote response is a
  parameter. The buttons exist only once loading is over.
 */
module UserListPage {
  import opened Users
  import opened Api
  import Pagination

  /** Prev's updater, `Math.max(prev - 1, 1)`. */
  function PrevPage(page: int): (r: int)
    ensures r >= 1
    ensures r == page - 1 || r == 1
    ensures page > 1 ==> r == page - 1
  {
    if page - 1 > 1 then page - 1 else 1
  }

  /** Next's updater, `Math.min(prev + 1, totalPages)`. */
  function NextPage(page: int, totalPages: int): (r: int)
    ensures r <= totalPages
    ensures r == page + 1 || r == totalPages
    ensures page < totalPages ==> r == page + 1
  {
    if page + 1 < totalPages then page + 1 else totalPages
  }

  /**
    The page after one press of a button: nothing while the list is loading
    (the buttons are not rendered) or while the button is disabled
    (`page === 1` for Prev, `page === totalPages` for Next).
   */
  function Press(loading: bool, page: int, totalPages: int, b: Pagination.Button): int
  {
    if loading || Pagination.Disabled(page, totalPages, b) then page
    else match b
      case Prev => PrevPage(page)
      case Next => NextPage(page, totalPages)
  }

  /** The page after a sequence of presses with the page count unchanged. */
  function AfterPresses(page: int, totalPages: int, presses: seq<Pagination.Button>): int
    decreases |presses|
  {
    if presses == [] then page
    else AfterPresses(Press(false, page, totalPages, presses[0]), totalPages, presses[1..])
  }

  /** With at least one page, no sequence of presses leaves [1, totalPages]. */
  lemma {:induction false} PressesStayInRange(page: int, totalPages: int, presses: seq<Pagination.Button>)
    requires 1 <= page <= totalPages
    ensures 1 <= AfterPresses(page, totalPages, presses) <= totalPages
    decreases |presses|
  {
    if presses != [] {
      PressesStayInRange(Press(false, page, totalPages, presses[0]), totalPages, presses[1..]);
    }
  }

  /**
    Inside the bounds the clamps never bite: an enabled press moves to the
    page the stateless Pagination control would ask for.
   */
  lemma ClampAgreesWithPagination(page: int, totalPages: int, b: Pagination.Button)
    requires Pagination.InRange(page, totalPages) && !Pagination.Disabled(page, totalPages, b)
    ensures Pagination.Click(page, totalPages, b) == Some(Press(false, page, totalPages, b))
  {
  }

  /** Outside the bounds they do: past the last page, Next goes back to the last page. */
  lemma NextPastLastPageGoesBack(page: int, totalPages: int)
    requires page > totalPages
    ensures Press(false, page, totalPages, Pagination.Next) == totalPages
  {
  }

  /**
    A server reporting 0 pages leaves Next enabled on page 1, and pressing it
    moves to page 0: "Page 0 of 0".
   */
  lemma NoPagesExample()
    ensures !Pagination.Disabled(1, 0, Pagination.Next)
    ensures Press(false, 1, 0, Pagination.Next) == 0
  {
  }

  /** Page 1 of 3: Prev does nothing, Next moves to page 2. */
  lemma FirstOfThreeExample()
    ensures Press(false, 1, 3, Pagination.Prev) == 1
    ensures Press(false, 1, 3, Pagination.Next) == 2
  {
  }

  class UserList {
    var users: seq<User>
    var loading: bool
    var page: int
    var totalPages: int
    var deleteUserId: Option<int>

    /** Initial state, before the first fetch completes. */
    constructor ()
      ensures users == [] && loading && page == 1 && totalPages == 1 && deleteUserId == None
      ensures !DialogShown()
    {
      users := [];
      loading := true;
      page := 1;
      totalPages := 1;
      deleteUserId := None;
    }

    /** `{deleteUserId && ( … )}`: the confirmation dialog is on screen. */
    predicate DialogShown()
      reads this
    {
      Truthy(deleteUserId)
    }

    /**
      `fetchUsers` for the current page. On success the page data and
      `total_pages` replace the list and the page count; on failure both are
      kept. Loading is over either way.
     */
    method FetchUsers(response: PageResponse) returns (requested: int, toast: Toast)
      modifies this`users, this`totalPages, this`loading
      ensures requested == page && !loading
      ensures response.PageLoaded? ==>
        users == response.data && totalPages == response.totalPages && toast == NoToast
      ensures response.PageFailed? ==>
        users == old(users) && totalPages == old(totalPages) && toast == ErrorToast("Failed to load users.")
    {
      loading := true;
      requested := page;
      match response {
        case PageLoaded(data, total) =>
          users := data;
          totalPages := total;
          toast := NoToast;
        case PageFailed =>
          toast := ErrorToast("Failed to load users.");
      }
      loading := false;
    }

    /**
      A row's Delete button (`setDeleteUserId(user.id)`), rendered once the
      list has loaded: replaces any earlier selection. A user whose id is 0
      is selected without the dialog appearing.
     */
    method SelectDelete(u: User)
      modifies this`deleteUserId
      ensures !old(loading) && u in users ==> deleteUserId == Some(u.id)
      ensures old(loading) || u !in users ==> deleteUserId == old(deleteUserId)
      ensures !old(loading) && u in users ==> (DialogShown() <==> u.id != 0)
    {
      if !loading && u in users {
        deleteUserId := Some(u.id);
      }
    }

    /** The dialog's Cancel: the selection is dropped, the list untouched. */
    method CancelDelete()
      modifies this`deleteUserId
      ensures old(DialogShown()) ==> deleteUserId == None && !DialogShown()
      ensures !old(DialogShown()) ==> deleteUserId == old(deleteUserId)
    {
      if DialogShown() {
        deleteUserId := None;
      }
    }

    /**
      `confirmDelete`. With no truthy pending id nothing happens and no call
      is made. Otherwise exactly one delete is requested; on status 204 every
      user with that id leaves the page, on any other status or a thrown
      error the page is kept, and in all these cases the dialog closes.
     */
    method ConfirmDelete(response: DeleteResponse) returns (request: Option<int>, toast: Toast)
      modifies this`users, this`deleteUserId
      ensures !old(DialogShown()) ==>
        request == None && toast == NoToast && deleteUserId == old(deleteUserId) && users == old(users)
      ensures old(DialogShown()) ==> request == old(deleteUserId) && deleteUserId == None && !DialogShown()
      ensures old(DialogShown()) && response == Responded(NoContent) ==>
        users == WithoutId(old(users), old(deleteUserId).value) && toast == SuccessToast("User deleted successfully!")
      ensures response != Responded(NoContent) ==> users == old(users)
      ensures old(DialogShown()) && response.Responded? && response.status != NoContent ==>
        toast == ErrorToast("Unexpected response from the server.")
      ensures old(DialogShown()) && response.DeleteFailed? ==> toast == ErrorToast("Failed to delete user.")
    {
      if !Truthy(deleteUserId) {
        request := None;
        toast := NoToast;
        return;
      }
      var id := deleteUserId.value;
      request := Some(id);
      match response {
        case Responded(status) =>
          if status == NoContent {
            users := WithoutId(users, id);
            toast := SuccessToast("User deleted successfully!");
          } else {
            toast := ErrorToast("Unexpected response from the server.");
          }
        case DeleteFailed =>
          toast := ErrorToast("Failed to delete user.");
      }
      deleteUserId := None;
    }

    /** The Prev button. */
    method PressPrev()
      modifies this`page
      ensures page == Press(loading, old(page), totalPages, Pagination.Prev)
      ensures page >= 1 || page == old(page)
    {
      page := Press(loading, page, totalPages, Pagination.Prev);
    }

    /** The Next button. */
    method PressNext()
      modifies this`page
      ensures page == Press(loading, old(page), totalPages, Pagination.Next)
      ensures page <= totalPages || page == old(page)
    {
      page := Press(loading, page, totalPages, Pagination.Next);
    }
  }

  /** Fetching three pages and paging forward past the end, then back. */
  method PagingExample()
  {
    var list := new UserList();
    var requested, toast := list.FetchUsers(PageLoaded([], 3));
    assert requested == 1 && list.totalPages == 3;
    list.PressNext();
    list.PressNext();
    assert list.page == 3;
    list.PressNext();
    assert list.page == 3;
    list.PressPrev();
    assert list.page == 2;
  }

  /** Selecting a user, then cancelling, leaves the page as fetched. */
  method CancelExample()
  {
    var list := new UserList();
    var a := User(7, "Ann", "", "", "");
    var requested, toast := list.FetchUsers(PageLoaded([a], 1));
    list.SelectDelete(a);
    assert list.DialogShown();
    list.CancelDelete();
    assert !list.DialogShown() && list.users == [a];
  }
}
