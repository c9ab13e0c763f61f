# User directory controller, modelled in Dafny

This project models the client-side controller of a small React user
directory. The directory fetches one page of users at a time from a remote
demo service. It filters and sorts that page locally, deletes users after a
confirmation dialog, and edits a single user on a profile page.

Every handler is one atomic state transition. The remote service's answer is
a parameter of the method that models the handler. The outcomes are:

- the data that was loaded;
- an HTTP status;
- a thrown error.

Notifications are returned as a tag together with their text.

Modules, one per source file plus shared support:

- `Seqs`: `Keep`, the order-preserving selection that stands for `Array.prototype.filter`, and the subsequence relation.
- `Strings`: `toLowerCase`, `trim`, `includes` and `localeCompare`, as far as the filter needs them.
- `Users`: the user record, JavaScript truthiness of the pending-delete id, and the local removal after a delete.
- `Api`: the outcomes of the four remote calls.
- `UserFilters` (`src/components/Users/UserFilters.tsx`): the filter/sort projection, the column toggle, and the panel's state as class `FilterPanel`.
- `Pagination` (`src/components/Users/Pagination.tsx`): the stateless Prev/Next control.
- `UserListComponent` (`src/components/Users/UserList.tsx`): the full list controller as class `UserList`. It embeds a `FilterPanel`. Its invariant is that the published list always equals the panel's projection of the current page.
- `UserListPage` (`src/pages/UserList.tsx`): the routed list with clamped Prev/Next, as class `UserList`.
- `UserDetailsPage` (`src/pages/UserDetails.tsx`): the profile load/edit/save state machine, as class `UserDetails`.

`Array.prototype.sort` is modelled by a stable insertion sort. The lemma
`UserFilters.SortUnique` shows why that choice is safe: any arrangement that
is sorted and keeps ties in input order is this one. So every stable sort,
which the language requires, gives the modelled result.

A click on a button that is not rendered or is disabled does nothing in the
model. This covers Delete while loading, Cancel with no dialog, Edit outside
the profile, and Prev on page 1.

Behaviour of the code worth knowing:

- **Blank queries.** A query made only of whitespace keeps every user, because the code tests `trim()`. A query that is not blank is matched untrimmed.
- **The page can leave `[1, totalPages]`.** There is no such invariant in general:
  - a fetch can lower `totalPages` below the current page;
  - the routed page's Next goes to page 0 when the server reports 0 pages;
  - past the last page, Next moves back to the last page;
  - `Pagination` does not clamp at all.

  The range is kept only from a state already in range, and that is what is proved.
- **Pending delete id 0.** The pending id is tested by truthiness. Selecting a user with id 0 records the id, but no dialog appears and confirming does nothing.
- **Late fetch results.** A fetch result that arrives late is not discarded. Each fetch is applied when it completes.

## Model

| member | source | states |
|---|---|---|
| Seqs.KeepMembership | src/components/Users/UserFilters.tsx:25-30 | a user survives `filter` iff it was in the input and satisfies the predicate |
| Seqs.KeepIsSubsequence | src/components/Users/UserFilters.tsx:25-30 | `filter` keeps the survivors in their input order |
| Strings.Lower | src/components/Users/UserFilters.tsx:27-29 | `toLowerCase` keeps the length, leaves no ASCII capital, and keeps every character that is not one |
| Strings.LowerIdempotent | src/components/Users/UserFilters.tsx:27-29 | lower-casing an already lower-cased query or field changes nothing |
| Strings.TrimEmptyIffBlank | src/components/Users/UserFilters.tsx:24 | `trim()` yields "" exactly for an all-whitespace string |
| Strings.Contains | src/components/Users/UserFilters.tsx:27-29 | `includes` is true iff the needle occurs at some offset |
| Strings.Compare | src/components/Users/UserFilters.tsx:36 | the comparison is -1, 0 or 1, and 0 exactly for equal strings |
| Strings.CompareAntisymmetric | src/components/Users/UserFilters.tsx:36 | swapping the operands negates the result |
| Strings.CompareTransitive | src/components/Users/UserFilters.tsx:36 | "no later than" is transitive |
| UserFilters.InOrderTotal | src/components/Users/UserFilters.tsx:33-37 | any two users are ordered one way or the other |
| UserFilters.InOrderTransitive | src/components/Users/UserFilters.tsx:33-37 | the comparator's order is transitive for both directions |
| UserFilters.InOrderTies | src/components/Users/UserFilters.tsx:34-36 | the comparator ties exactly on equal lower-cased keys |
| UserFilters.FlipOrder | src/components/Users/UserFilters.tsx:74 | the order button always changes the direction |
| UserFilters.FlipOrderTwice | src/components/Users/UserFilters.tsx:74 | pressing the order button twice restores it |
| UserFilters.FlipOrderSwapsComparator | src/components/Users/UserFilters.tsx:36 | "desc" is "asc" with the operands swapped |
| UserFilters.CandidatesMembership | src/components/Users/UserFilters.tsx:24-31 | after the filter step a user remains iff the query is blank or matches it |
| UserFilters.CandidatesSubsequence | src/components/Users/UserFilters.tsx:22-31 | the filter step yields a subsequence of the page |
| UserFilters.InsertMembers | src/components/Users/UserFilters.tsx:33-37 | inserting adds exactly the inserted user |
| UserFilters.InsertMultiset | src/components/Users/UserFilters.tsx:33-37 | inserting adds one occurrence and drops none |
| UserFilters.SortMultiset | src/components/Users/UserFilters.tsx:33-37 | the sorted list is a permutation of its input |
| UserFilters.InsertSorted | src/components/Users/UserFilters.tsx:33-37 | inserting into a sorted list keeps it sorted |
| UserFilters.SortSorted | src/components/Users/UserFilters.tsx:33-37 | the sorted list is ordered by the comparator |
| UserFilters.InsertWithKey | src/components/Users/UserFilters.tsx:33-37 | an inserted user goes ahead of its own ties only |
| UserFilters.SortStable | src/components/Users/UserFilters.tsx:33-37 | users with equal keys come out in input order |
| UserFilters.SortedStableUnique | src/components/Users/UserFilters.tsx:33-37 | two sorted lists with the same tie groups are equal |
| UserFilters.SortUnique | src/components/Users/UserFilters.tsx:33-37 | any sorted, stable arrangement of the input is the modelled sort |
| UserFilters.ProjectMembership | src/components/Users/UserFilters.tsx:21-40 | a user is published iff it is on the page and the query is blank or matches it |
| UserFilters.BlankQueryKeepsAll | src/components/Users/UserFilters.tsx:24 | a blank query publishes every user of the page, sorted |
| UserFilters.ProjectKeepsTieOrder | src/components/Users/UserFilters.tsx:33-37 | published users with equal keys keep their page order |
| UserFilters.DescendingExample | src/components/Users/UserFilters.tsx:33-37 | Ann, Bob, Cid by first name descending is Cid, Bob, Ann |
| UserFilters.SearchExample | src/components/Users/UserFilters.tsx:24-37 | searching "an" among Ann, Bob and Cid publishes only Ann |
| UserFilters.UntrimmedQueryExample | src/components/Users/UserFilters.tsx:24-29 | " ann" is active but matched with its space, so it misses Ann |
| UserFilters.ToggleColumn | src/components/Users/UserFilters.tsx:42-44 | exactly the named column flips, the other three are kept |
| UserFilters.ToggleColumnTwice | src/components/Users/UserFilters.tsx:42-44 | toggling a column twice changes nothing |
| UserFilters.FilterPanel.constructor | src/components/Users/UserFilters.tsx:13-15 | the panel starts with an empty query, first name, ascending |
| UserFilters.FilterPanel.SetSearchQuery | src/components/Users/UserFilters.tsx:55 | typing replaces only the query |
| UserFilters.FilterPanel.SetSortField | src/components/Users/UserFilters.tsx:66 | choosing a field replaces only the field |
| UserFilters.FilterPanel.ToggleSortOrder | src/components/Users/UserFilters.tsx:74 | the button flips only the direction |
| UserFilters.FilterPanel.ApplyFilters | src/components/Users/UserFilters.tsx:21-40 | the published list has the matching users exactly, as a sorted, stable permutation of the filtered subsequence |
| Users.WithoutId | src/components/Users/UserList.tsx:52 | exactly the users with the given id are removed; every other user keeps its number of occurrences and its order; the length is kept iff none had the id |
| Pagination.Click | src/components/Users/Pagination.tsx:10-26 | a click does nothing exactly when its button is disabled; otherwise Prev asks for page-1 and Next for page+1; from a page in range the request stays in range |
| Pagination.ClicksStayInRange | src/components/Users/Pagination.tsx:10-26 | from a page in range, no sequence of clicks leaves the range |
| Pagination.FirstOfThreeExample | src/components/Users/Pagination.tsx:11-22 | on page 1 of 3, Prev is disabled and Next asks for page 2 |
| Pagination.NoClampPastLastPage | src/components/Users/Pagination.tsx:21-22 | past the last page Next stays enabled and asks for a page further out |
| UserListComponent.FlipViewMode | src/components/Users/UserList.tsx:82 | the view button always switches list and grid |
| UserListComponent.FlipViewModeTwice | src/components/Users/UserList.tsx:82 | two switches restore the view mode |
| UserListComponent.TableHeadings | src/components/Users/UserList.tsx:105-111 | a column heading appears iff its column is shown; Actions always comes last |
| UserListComponent.UserList.constructor | src/components/Users/UserList.tsx:14-26 | page 1 of 1, loading, no pending delete, list view, all columns shown |
| UserListComponent.UserList.RefreshFiltered | src/components/Users/UserFilters.tsx:17-19 | the panel's effect publishes the projection of the current page |
| UserListComponent.UserList.FetchUsers | src/components/Users/UserList.tsx:32-45 | success replaces the page and page count and re-publishes; failure keeps them; loading ends |
| UserListComponent.UserList.SelectDelete | src/components/Users/UserList.tsx:127 | a published row's Delete records its id, replacing any earlier one |
| UserListComponent.UserList.CancelDelete | src/components/Users/UserList.tsx:144 | Cancel clears the pending id and leaves the list |
| UserListComponent.UserList.ConfirmDelete | src/components/Users/UserList.tsx:47-63 | no call without a truthy id; on 204 that id's users go; otherwise the list stays; the pending id is cleared |
| UserListComponent.UserList.RemoveLocally | src/components/Users/UserList.tsx:51-52 | the 204 branch removes that id's users from the page and the panel re-publishes |
| UserListComponent.RemoveMiddleExample | src/components/Users/UserList.tsx:52 | removing id 2 from ids 1, 2, 3 leaves ids 1 and 3 |
| UserListComponent.UserList.ToggleViewMode | src/components/Users/UserList.tsx:82 | switches the view mode |
| UserListComponent.UserList.ToggleColumn | src/components/Users/UserList.tsx:72-77 | the panel's checkbox toggles exactly that column |
| UserListComponent.UserList.Search | src/components/Users/UserFilters.tsx:17-19 | a new query is re-published through the projection |
| UserListComponent.UserList.ChooseSortField | src/components/Users/UserFilters.tsx:17-19 | a new field is re-published through the projection |
| UserListComponent.UserList.FlipSortOrder | src/components/Users/UserFilters.tsx:17-19 | a flipped direction is re-published through the projection |
| UserListComponent.UserList.Paginate | src/components/Users/UserList.tsx:140 | an enabled click moves to the page Pagination asks for; the page stays at least 1 |
| UserListPage.PrevPage | src/pages/UserList.tsx:100 | Prev's updater never goes below 1 and is page-1 above page 1 |
| UserListPage.NextPage | src/pages/UserList.tsx:110 | Next's updater never exceeds the page count and is page+1 below it |
| UserListPage.PressesStayInRange | src/pages/UserList.tsx:99-115 | from a page in range, no sequence of presses leaves the range |
| UserListPage.ClampAgreesWithPagination | src/pages/UserList.tsx:100-111 | in range, an enabled clamped press goes where Pagination would |
| UserListPage.NextPastLastPageGoesBack | src/pages/UserList.tsx:110-111 | past the last page, Next moves back to the last page |
| UserListPage.NoPagesExample | src/pages/UserList.tsx:110-111 | with 0 pages, Next on page 1 is enabled and moves to page 0 |
| UserListPage.FirstOfThreeExample | src/pages/UserList.tsx:99-115 | on page 1 of 3, Prev stays on 1 and Next moves to 2 |
| UserListPage.UserList.constructor | src/pages/UserList.tsx:11-15 | empty, loading, page 1 of 1, no dialog |
| UserListPage.UserList.FetchUsers | src/pages/UserList.tsx:21-33 | success replaces the users and page count, failure keeps them, loading ends |
| UserListPage.UserList.SelectDelete | src/pages/UserList.tsx:87 | a row's Delete records its id; the dialog shows iff that id is not 0 |
| UserListPage.UserList.CancelDelete | src/pages/UserList.tsx:135 | Cancel closes the dialog and keeps the list |
| UserListPage.UserList.ConfirmDelete | src/pages/UserList.tsx:35-51 | no call without a shown dialog; on 204 that id's users go; otherwise the list stays; the dialog closes |
| UserListPage.UserList.PressPrev | src/pages/UserList.tsx:99-101 | an enabled Prev applies the clamped updater |
| UserListPage.UserList.PressNext | src/pages/UserList.tsx:109-111 | an enabled Next applies the clamped updater |
| UserDetailsPage.SetField | src/pages/UserDetails.tsx:40 | only the named form key takes the new value |
| UserDetailsPage.SetFieldUnchanged | src/pages/UserDetails.tsx:40 | writing back a key's own value changes nothing |
| UserDetailsPage.SetFieldTwice | src/pages/UserDetails.tsx:40 | the later of two edits to a key wins |
| UserDetailsPage.SetFieldCommutes | src/pages/UserDetails.tsx:40 | edits to different keys commute |
| UserDetailsPage.FormOf | src/pages/UserDetails.tsx:24-29 | the loaded form holds exactly the user's four fields |
| UserDetailsPage.Merge | src/pages/UserDetails.tsx:54 | saving keeps the id and takes all four fields from the form |
| UserDetailsPage.MergeOwnForm | src/pages/UserDetails.tsx:24-29 | saving an unedited form gives the user back |
| UserDetailsPage.MergeTwice | src/pages/UserDetails.tsx:54 | a second save replaces everything the first wrote |
| UserDetailsPage.UserDetails.constructor | src/pages/UserDetails.tsx:12-15 | loading, no user, not editing, every form key "" |
| UserDetailsPage.UserDetails.View | src/pages/UserDetails.tsx:62-63 | the profile shows iff loading is over and a user is loaded; otherwise loading or "User not found" |
| UserDetailsPage.UserDetails.FetchUser | src/pages/UserDetails.tsx:17-37 | without an id nothing happens; success sets the user and its form; failure keeps both; loading ends |
| UserDetailsPage.UserDetails.PressEdit | src/pages/UserDetails.tsx:127-134 | Edit turns edit mode on, and only over a shown profile |
| UserDetailsPage.UserDetails.HandleChange | src/pages/UserDetails.tsx:39-41 | while editing, typing changes only the named key; otherwise nothing |
| UserDetailsPage.UserDetails.HandleImageChange | src/pages/UserDetails.tsx:43-49 | while editing and with a file picked, only the avatar changes |
| UserDetailsPage.UserDetails.HandleSubmit | src/pages/UserDetails.tsx:51-60 | success merges the form into the user and ends editing; failure keeps user, form and edit mode |

## Left out

- Unicode case mapping. `toLowerCase` is modelled on ASCII letters only. Other characters are kept as they are.
- Locale-aware collation. `localeCompare` is modelled as lexicographic comparison by code point. The proofs use only that it is a total order that is 0 exactly on equal strings.
- Sort fields other than the three offered. `sortField` is typed `keyof User`, but the select offers only first name, last name and email, so `id` and `avatar` are not sort fields here.
- `src/services/api/user.ts` (the HTTP client). Each call is replaced by its outcome, passed in as a parameter.
- `src/pages/Login.tsx`. Email checking is delegated to a schema library that is not visible, and the token goes to browser storage before navigation. Its one constant is a password minimum of 6 characters, declared at line 11.
- React effect scheduling. A fetch is modelled as happening whenever the handler is called. Races between overlapping fetches are not modelled either.
- The loading state while a request is in flight. Loading is set and cleared within the same step.
- Toasts. Only their kind and text are modelled. Console logging is not modelled.
- `URL.createObjectURL`. It is a browser function, so `HandleImageChange` takes the URL it produced as a parameter.
- `Number(id)`. The route id is passed on as the string it is.
- Markup and styling. This covers `App.tsx`, `UserCard.tsx`, `Breadcrumb.tsx`, `GradientRectangle.tsx`, `SearchBar.tsx` and the layout of every page. Of `DeleteConfirmation.tsx` only its truthiness guard is modelled, by the `CancelDelete` gate.
- UserDetailsPage.UserDetails.HandleSubmit: does not model the source's `{...null, ...formData}` result for a missing user. That case cannot happen, because Save is only rendered over a loaded profile.
- UserDetailsPage.UserDetails.FetchUser: can be called more than once, while the source's effect runs once per route id. The model is thereby more permissive than the source.
- UserListComponent.UserList.FetchUsers: the render in which `filteredUsers` briefly holds the raw page, before the filter panel's effect re-publishes it, is folded into the fetch step. The same holds for the re-publication after a delete.
- Strings.Lower: the contract says that no ASCII capital is left and every other character is kept. Which lower-case letter a capital becomes is fixed by the body only.
- UserFilters.Sort: the engine's sort algorithm is replaced by insertion sort. `UserFilters.SortUnique` shows that the two give the same result.
