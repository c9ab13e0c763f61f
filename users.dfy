/**
  The user record the directory shows and the pieces both list controllers
  share: the optional pending-delete id, JavaScript's truthiness test on it,
  and the local removal that follows a successful delete.
 */
module Users {
  import opened Seqs

  datatype Option<T> = None | Some(value: T)

  /** The wire record `{id, first_name, last_name, email, avatar}`. */
  datatype User = User(id: int, firstName: string, lastName: string, email: string, avatar: string)

  /** `!!deleteUserId` for a `number | null`: false for null and for the id 0. */
  predicate Truthy(id: Option<int>)
  {
    id.Some? && id.value != 0
  }

  predicate HasOtherId(id: int, u: User)
  {
    u.id != id
  }

  /** r holds every user of `users` whose id is not `id` exactly as often as `users` does, and no other. */
  ghost predicate CountsWithout(r: seq<User>, users: seq<User>, id: int)
  {
    forall u :: multiset(r)[u] == if u.id != id then multiset(users)[u] else 0
  }

  /** `users.filter(user => user.id !== id)`. */
  function WithoutId(users: seq<User>, id: int): (r: seq<User>)
    ensures forall u :: u in r <==> u in users && u.id != id
    ensures IsSubsequence(r, users)
    ensures |r| == |users| <==> forall u :: u in users ==> u.id != id
    ensures CountsWithout(r, users, id)
  {
    var r := Keep(users, u => HasOtherId(id, u));
    forall u ensures u in r <==> u in users && u.id != id {
      KeepMembership(users, u => HasOtherId(id, u), u);
    }
    KeepIsSubsequence(users, u => HasOtherId(id, u));
    KeepLength(users, id);
    KeepCount(users, id);
    r
  }

  lemma {:induction false} KeepLength(users: seq<User>, id: int)
    ensures |Keep(users, u => HasOtherId(id, u))| == |users| <==> forall u :: u in users ==> u.id != id
  {
    if users != [] {
      KeepLength(users[1..], id);
      assert forall u :: u in users <==> u == users[0] || u in users[1..];
    }
  }

  lemma {:induction false} KeepCount(users: seq<User>, id: int)
    ensures CountsWithout(Keep(users, u => HasOtherId(id, u)), users, id)
  {
    if users != [] {
      KeepCount(users[1..], id);
      assert users == [users[0]] + users[1..];
    }
  }

  /** Notifications raised through react-toastify, kept as a tag and its text. */
  datatype Toast = NoToast | SuccessToast(message: string) | ErrorToast(message: string)
}

/**
  The remote calls of the directory's HTTP client, reduced to their outcomes:
  each call is one atomic step whose result the caller of the model supplies.
 */
module Api {
  import opened Users

  /** `getUsers(page)`: the `data` array and `total_pages`, or a thrown error. */
  datatype PageResponse = PageLoaded(data: seq<User>, totalPages: int) | PageFailed

  /** `getUser(id)`: the `data` record, or a thrown error. */
  datatype UserResponse = UserLoaded(data: User) | UserFailed

  /** `updateUser(id, form)`: resolved, or a thrown error. */
  datatype UpdateResponse = Updated | UpdateFailed

  /** `deleteUser(id)`: a response with an HTTP status, or a thrown error. */
  datatype DeleteResponse = Responded(status: int) | DeleteFailed

  /** HTTP 204 No Content, the only status the directory accepts as a deletion. */
  const NoContent: int := 204
}
