/**
  The full directory controller (components/Users/UserList.tsx): the current
  page of users, the filtered and sorted list the filter panel publishes, the
  pending delete, the list/grid switch and the column toggles, with the
  Pagination control for moving between pages. Each asynchronous handler is
  one atomic step; the remote response is a parameter.
 */
module UserListComponent {
  import opened Users
  import opened Api
  import opened UserFilters
  import Pagination

  datatype ViewMode = ListView | GridView

  /** The view-mode button: list becomes grid and back. */
  function FlipViewMode(m: ViewMode): (r: ViewMode)
    ensures r != m
  {
    if m == ListView then GridView else ListView
  }

  lemma FlipViewModeTwice(m: ViewMode)
    ensures FlipViewMode(FlipViewMode(m)) == m
  {
  }

  datatype Heading = ColumnHeading(column: Column) | ActionsHeading

  function HeadingIf(cols: Columns, c: Column): seq<Heading>
  {
    if Shown(cols, c) then [ColumnHeading(c)] else []
  }

  /** The header row of the list view: the visible columns, then Actions unconditionally. */
  function TableHeadings(cols: Columns): (r: seq<Heading>)
    ensures r != [] && r[|r| - 1] == ActionsHeading
    ensures forall c :: ColumnHeading(c) in r <==> Shown(cols, c)
  {
    var r := HeadingIf(cols, AvatarColumn) + HeadingIf(cols, FirstNameColumn)
           + HeadingIf(cols, LastNameColumn) + HeadingIf(cols, EmailColumn) + [ActionsHeading];
    assert forall c :: ColumnHeading(c) in r <==> ColumnHeading(c) in HeadingIf(cols, c);
    r
  }

  class UserList {
    var users: seq<User>
    var filteredUsers: seq<User>
    var loading: bool
    var page: int
    var totalPages: int
    var deleteUserId: Option<int>
    var viewMode: ViewMode
    var visibleColumns: Columns
    /** The embedded UserFilters panel, which owns the search and sort state. */
    const filters: FilterPanel

    /**
      The published list is always the panel's projection of the current page
      (the panel's effect re-runs on every change of its inputs), and the page
      number never drops below 1.
     */
    ghost predicate Valid()
      reads this, filters
    {
      1 <= page && filteredUsers == filters.Projection(users)
    }

    /** Initial state, before the first fetch completes. */
    constructor ()
      ensures Valid() && fresh(filters)
      ensures users == [] && filteredUsers == [] && loading
      ensures page == 1 && totalPages == 1 && deleteUserId == None
      ensures viewMode == ListView && visibleColumns == AllColumns
      ensures filters.searchQuery == "" && filters.sortField == FirstName && filters.sortOrder == Asc
    {
      users := [];
      filteredUsers := [];
      loading := true;
      page := 1;
      totalPages := 1;
      deleteUserId := None;
      viewMode := ListView;
      visibleColumns := AllColumns;
      filters := new FilterPanel();
    }

    /** The panel's effect: `applyFilters()` publishing into `filteredUsers`. */
    method RefreshFiltered()
      modifies this`filteredUsers
      ensures filteredUsers == filters.Projection(users)
    {
      filteredUsers := filters.ApplyFilters(users);
    }

    /**
      `fetchUsers` for the current page. On success the page data replaces
      both lists (the panel then re-projects it) and `total_pages` replaces
      the page count; on failure both are kept. Loading is over either way.
     */
    method FetchUsers(response: PageResponse) returns (requested: int, toast: Toast)
      requires Valid()
      modifies this
      ensures Valid()
      ensures requested == page == old(page) && !loading
      ensures response.PageLoaded? ==>
        users == response.data && totalPages == response.totalPages && toast == NoToast
      ensures response.PageFailed? ==>
        users == old(users) && filteredUsers == old(filteredUsers) && totalPages == old(totalPages)
        && toast == ErrorToast("Failed to load users.")
      ensures deleteUserId == old(deleteUserId) && viewMode == old(viewMode) && visibleColumns == old(visibleColumns)
    {
      loading := true;
      requested := page;
      match response {
        case PageLoaded(data, total) =>
          users := data;
          filteredUsers := data;
          totalPages := total;
          RefreshFiltered();
          toast := NoToast;
        case PageFailed =>
          toast := ErrorToast("Failed to load users.");
      }
      loading := false;
    }

    /** `DeleteConfirmation` renders only for a truthy pending id. */
    predicate DialogShown()
      reads this
    {
      Truthy(deleteUserId)
    }

    /**
      The Delete button of a published row or card (`setDeleteUserId(user.id)`),
      rendered once loading is over: replaces any earlier selection.
     */
    method SelectDelete(u: User)
      requires Valid()
      modifies this`deleteUserId
      ensures Valid()
      ensures !old(loading) && u in filteredUsers ==> deleteUserId == Some(u.id)
      ensures old(loading) || u !in filteredUsers ==> deleteUserId == old(deleteUserId)
    {
      if !loading && u in filteredUsers {
        deleteUserId := Some(u.id);
      }
    }

    /** The dialog's Cancel: the selection is dropped, the list untouched. */
    method CancelDelete()
      requires Valid()
      modifies this`deleteUserId
      ensures Valid()
      ensures old(DialogShown()) ==> deleteUserId == None
      ensures !old(DialogShown()) ==> deleteUserId == old(deleteUserId)
    {
      if DialogShown() {
        deleteUserId := None;
      }
    }

    /**
      `confirmDelete`. With no truthy pending id nothing happens and no call
      is made. Otherwise exactly one delete is requested; on status 204 every
      user with that id leaves the page, on any other status or a thrown
      error the page is kept, and in all these cases the selection is cleared.
     */
    method ConfirmDelete(response: DeleteResponse) returns (request: Option<int>, toast: Toast)
      requires Valid()
      modifies this
      ensures Valid()
      ensures !Truthy(old(deleteUserId)) ==>
        request == None && toast == NoToast && deleteUserId == old(deleteUserId)
        && users == old(users) && filteredUsers == old(filteredUsers)
      ensures Truthy(old(deleteUserId)) ==> request == old(deleteUserId) && deleteUserId == None
      ensures Truthy(old(deleteUserId)) && response == Responded(NoContent) ==>
        users == WithoutId(old(users), old(deleteUserId).value) && toast == SuccessToast("User deleted successfully!")
      ensures Truthy(old(deleteUserId)) && response != Responded(NoContent) ==>
        users == old(users) && filteredUsers == old(filteredUsers)
      ensures Truthy(old(deleteUserId)) && response.Responded? && response.status != NoContent ==>
        toast == ErrorToast("Unexpected response from the server.")
      ensures Truthy(old(deleteUserId)) && response.DeleteFailed? ==> toast == ErrorToast("Failed to delete user.")
      ensures loading == old(loading) && page == old(page) && totalPages == old(totalPages)
      ensures viewMode == old(viewMode) && visibleColumns == old(visibleColumns)
    {
      if !Truthy(deleteUserId) {
        request := None;
        toast := NoToast;
        return;
      }
      var id := deleteUserId.value;
      request := Some(id);
      match response {
        case Responded(status) =>
          if status == NoContent {
            RemoveLocally(id);
            toast := SuccessToast("User deleted successfully!");
          } else {
            toast := ErrorToast("Unexpected response from the server.");
          }
        case DeleteFailed =>
          toast := ErrorToast("Failed to delete user.");
      }
      deleteUserId := None;
    }

    /** The 204 branch: `setUsers(prev => prev.filter(...))`, then the panel re-publishes. */
    method RemoveLocally(id: int)
      requires Valid()
      modifies this`users, this`filteredUsers
      ensures Valid() && users == WithoutId(old(users), id)
    {
      users := WithoutId(users, id);
      RefreshFiltered();
    }

    /** The Grid View / List View button. */
    method ToggleViewMode()
      requires Valid()
      modifies this`viewMode
      ensures Valid()
      ensures viewMode == FlipViewMode(old(viewMode))
    {
      viewMode := FlipViewMode(viewMode);
    }

    /** A column checkbox of the panel, through `toggleColumn`. */
    method ToggleColumn(c: Column)
      requires Valid()
      modifies this`visibleColumns
      ensures Valid()
      ensures visibleColumns == UserFilters.ToggleColumn(old(visibleColumns), c)
    {
      visibleColumns := UserFilters.ToggleColumn(visibleColumns, c);
    }

    /** Typing in the search box; the panel's effect then re-publishes. */
    method Search(q: string)
      requires Valid()
      modifies this`filteredUsers, filters
      ensures Valid()
      ensures filters.searchQuery == q && filters.sortField == old(filters.sortField)
      ensures filters.sortOrder == old(filters.sortOrder)
    {
      filters.SetSearchQuery(q);
      RefreshFiltered();
    }

    /** Choosing a sort field; the panel's effect then re-publishes. */
    method ChooseSortField(f: SortField)
      requires Valid()
      modifies this`filteredUsers, filters
      ensures Valid()
      ensures filters.sortField == f && filters.searchQuery == old(filters.searchQuery)
      ensures filters.sortOrder == old(filters.sortOrder)
    {
      filters.SetSortField(f);
      RefreshFiltered();
    }

    /** The sort-order button; the panel's effect then re-publishes. */
    method FlipSortOrder()
      requires Valid()
      modifies this`filteredUsers, filters
      ensures Valid()
      ensures filters.sortOrder == FlipOrder(old(filters.sortOrder))
      ensures filters.searchQuery == old(filters.searchQuery) && filters.sortField == old(filters.sortField)
    {
      filters.ToggleSortOrder();
      RefreshFiltered();
    }

    /**
      A click on the Pagination control: the page it asks for becomes the
      current page (the page effect then fetches it); a disabled button does
      nothing. The page never drops below 1.
     */
    method Paginate(b: Pagination.Button)
      requires Valid()
      modifies this`page
      ensures Valid()
      ensures Pagination.Click(old(page), totalPages, b).Some? ==> page == Pagination.Click(old(page), totalPages, b).value
      ensures Pagination.Click(old(page), totalPages, b).None? ==> page == old(page)
    {
      match Pagination.Click(page, totalPages, b) {
        case Some(p) => page := p;
        case None =>
      }
    }
  }

  /** Removing id 2 from users with ids 1, 2, 3 leaves the first and the last. */
  lemma RemoveMiddleExample(a: User, b: User, c: User)
    requires a.id == 1 && b.id == 2 && c.id == 3
    ensures WithoutId([a, b, c], 2) == [a, c]
  {
    assert WithoutId([a, b, c], 2) == Seqs.Keep([a, b, c], u => HasOtherId(2, u));
    Seqs.KeepCons(c, [], u => HasOtherId(2, u));
    Seqs.KeepCons(b, [c], u => HasOtherId(2, u));
    Seqs.KeepCons(a, [b, c], u => HasOtherId(2, u));
  }

  /** The worked delete scenario: deleting id 2 from ids 1, 2, 3 with a 204. */
  method DeleteExample()
  {
    var list := new UserList();
    var a, b, c := User(1, "Ann", "", "", ""), User(2, "Bob", "", "", ""), User(3, "Cid", "", "", "");
    var requested, toast := list.FetchUsers(PageLoaded([a, b, c], 1));
    assert list.users == [a, b, c];
    ProjectMembership([a, b, c], "", FirstName, Asc, b);
    list.SelectDelete(b);
    assert list.DialogShown();
    var request;
    request, toast := list.ConfirmDelete(Responded(204));
    assert request == Some(2);
    RemoveMiddleExample(a, b, c);
    assert list.users == [a, c];
    assert list.deleteUserId == None;
  }

  /** Page 1 of 3: Prev is disabled, Next moves to page 2 and the next fetch asks for page 2. */
  method PaginateExample()
  {
    var list := new UserList();
    var requested, toast := list.FetchUsers(PageLoaded([], 3));
    list.Paginate(Pagination.Prev);
    assert list.page == 1;
    list.Paginate(Pagination.Next);
    requested, toast := list.FetchUsers(PageFailed);
    assert requested == 2;
  }
}
