/**
  The filter panel of the directory (components/Users/UserFilters.tsx): a
  search box, a sort field and a sort direction, and the projection the panel
  publishes to the list: the users matching the search, stably sorted on the
  lower-cased sort field. Also the column-visibility toggle it offers.
 */
module UserFilters {
  import opened Seqs
  import opened Strings
  import opened Users

  /** The options of the "Sort By" select. */
  datatype SortField = FirstName | LastName | Email

  datatype SortOrder = Asc | Desc

  function FieldValue(u: User, f: SortField): string
  {
    match f
    case FirstName => u.firstName
    case LastName => u.lastName
    case Email => u.email
  }

  /** `a[sortField].toString().toLowerCase()`. */
  function SortKey(u: User, f: SortField): string
  {
    Lower(FieldValue(u, f))
  }

  /** The comparator handed to `filtered.sort`: keys compared, operands swapped for "desc". */
  function Comparator(f: SortField, o: SortOrder, a: User, b: User): int
  {
    if o == Asc then Compare(SortKey(a, f), SortKey(b, f)) else Compare(SortKey(b, f), SortKey(a, f))
  }

  /** a may precede b in the sorted output. */
  predicate InOrder(f: SortField, o: SortOrder, a: User, b: User)
  {
    Comparator(f, o, a, b) <= 0
  }

  lemma InOrderTotal(f: SortField, o: SortOrder, a: User, b: User)
    ensures InOrder(f, o, a, b) || InOrder(f, o, b, a)
  {
    CompareAntisymmetric(SortKey(a, f), SortKey(b, f));
  }

  lemma InOrderTransitive(f: SortField, o: SortOrder, a: User, b: User, c: User)
    requires InOrder(f, o, a, b) && InOrder(f, o, b, c)
    ensures InOrder(f, o, a, c)
  {
    if o == Asc {
      CompareTransitive(SortKey(a, f), SortKey(b, f), SortKey(c, f));
    } else {
      CompareTransitive(SortKey(c, f), SortKey(b, f), SortKey(a, f));
    }
  }

  /** The comparator ties exactly on equal lower-cased keys. */
  lemma InOrderTies(f: SortField, o: SortOrder, a: User, b: User)
    ensures InOrder(f, o, a, b) && InOrder(f, o, b, a) <==> SortKey(a, f) == SortKey(b, f)
  {
    CompareAntisymmetric(SortKey(a, f), SortKey(b, f));
  }

  /** The order button: "asc" becomes "desc" and back. */
  function FlipOrder(o: SortOrder): (r: SortOrder)
    ensures r != o
  {
    if o == Asc then Desc else Asc
  }

  /** Pressing the order button twice restores the direction. */
  lemma FlipOrderTwice(o: SortOrder)
    ensures FlipOrder(FlipOrder(o)) == o
  {
  }

  /** Flipping the direction is the same as swapping the comparator's operands. */
  lemma FlipOrderSwapsComparator(f: SortField, o: SortOrder, a: User, b: User)
    ensures Comparator(f, FlipOrder(o), a, b) == Comparator(f, o, b, a)
  {
  }

  // ---------------------------------------------------------------- filter

  /** The search predicate: the lower-cased query occurs in a lower-cased name or email. */
  predicate Matches(q: string, u: User)
  {
    var needle := Lower(q);
    Contains(Lower(u.firstName), needle) || Contains(Lower(u.lastName), needle) || Contains(Lower(u.email), needle)
  }

  function MatchesQuery(q: string): User -> bool
  {
    u => Matches(q, u)
  }

  /** `if (searchQuery.trim())`: the filter runs only for a query that is not blank. */
  predicate QueryActive(q: string)
  {
    Trim(q) != []
  }

  /** What is left of `users` after the filter step. */
  function Candidates(users: seq<User>, q: string): seq<User>
  {
    if QueryActive(q) then Keep(users, MatchesQuery(q)) else users
  }

  lemma CandidatesMembership(users: seq<User>, q: string, u: User)
    ensures u in Candidates(users, q) <==> u in users && (!QueryActive(q) || Matches(q, u))
  {
    KeepMembership(users, MatchesQuery(q), u);
  }

  lemma CandidatesSubsequence(users: seq<User>, q: string)
    ensures IsSubsequence(Candidates(users, q), users)
  {
    KeepIsSubsequence(users, MatchesQuery(q));
    if !QueryActive(q) { SubsequenceReflexive(users); }
  }

  lemma {:induction false} SubsequenceReflexive(s: seq<User>)
    ensures IsSubsequence(s, s)
  {
    if s != [] { SubsequenceReflexive(s[1..]); }
  }

  // ------------------------------------------------------------------ sort

  /** Inserts x before the first element it may precede; x goes ahead of its ties. */
  function Insert(f: SortField, o: SortOrder, x: User, s: seq<User>): seq<User>
  {
    if s == [] then [x]
    else if InOrder(f, o, x, s[0]) then [x] + s
    else [s[0]] + Insert(f, o, x, s[1..])
  }

  /**
    `Array.prototype.sort` with the comparator above, which the language
    requires to be stable; insertion sort is one stable sort, and SortUnique
    shows every stable sort gives this same result.
   */
  function Sort(f: SortField, o: SortOrder, s: seq<User>): seq<User>
  {
    if s == [] then [] else Insert(f, o, s[0], Sort(f, o, s[1..]))
  }

  lemma {:induction false} InsertMultiset(f: SortField, o: SortOrder, x: User, s: seq<User>)
    ensures multiset(Insert(f, o, x, s)) == multiset(s) + multiset{x}
  {
    if s != [] && !InOrder(f, o, x, s[0]) {
      InsertMultiset(f, o, x, s[1..]);
      assert s == [s[0]] + s[1..];
    }
  }

  /** The sort neither loses nor invents users: its output is a permutation of its input. */
  lemma {:induction false} SortMultiset(f: SortField, o: SortOrder, s: seq<User>)
    ensures multiset(Sort(f, o, s)) == multiset(s)
  {
    if s != [] {
      SortMultiset(f, o, s[1..]);
      InsertMultiset(f, o, s[0], Sort(f, o, s[1..]));
      assert s == [s[0]] + s[1..];
    }
  }

  ghost predicate Sorted(f: SortField, o: SortOrder, s: seq<User>)
  {
    forall i, j :: 0 <= i < j < |s| ==> InOrder(f, o, s[i], s[j])
  }

  predicate SameKey(f: SortField, k: string, u: User)
  {
    SortKey(u, f) == k
  }

  function KeyIs(f: SortField, k: string): User -> bool
  {
    u => SameKey(f, k, u)
  }

  /** The users of s whose lower-cased sort key is k, in the order s has them. */
  function WithKey(s: seq<User>, f: SortField, k: string): seq<User>
  {
    Keep(s, KeyIs(f, k))
  }

  /** r keeps the relative order that s gives to every group of equal keys. */
  ghost predicate StableFor(f: SortField, r: seq<User>, s: seq<User>)
  {
    forall k :: WithKey(r, f, k) == WithKey(s, f, k)
  }

  lemma {:induction false} InsertMembers(f: SortField, o: SortOrder, x: User, s: seq<User>, y: User)
    ensures y in Insert(f, o, x, s) <==> y == x || y in s
  {
    if s != [] && !InOrder(f, o, x, s[0]) {
      InsertMembers(f, o, x, s[1..], y);
      assert y in s <==> y == s[0] || y in s[1..];
    }
  }

  lemma {:induction false} InsertSorted(f: SortField, o: SortOrder, x: User, s: seq<User>)
    requires Sorted(f, o, s)
    ensures Sorted(f, o, Insert(f, o, x, s))
  {
    if s == [] {
    } else if InOrder(f, o, x, s[0]) {
      var r := [x] + s;
      forall i, j | 0 <= i < j < |r| ensures InOrder(f, o, r[i], r[j]) {
        if i == 0 && j > 1 {
          InOrderTransitive(f, o, x, s[0], s[j - 1]);
        }
      }
    } else {
      SortedTail(f, o, s);
      InsertSorted(f, o, x, s[1..]);
      InsertPastSmaller(f, o, x, s);
    }
  }

  /** Putting the head back in front of the insertion into the tail keeps the order. */
  lemma InsertPastSmaller(f: SortField, o: SortOrder, x: User, s: seq<User>)
    requires Sorted(f, o, s) && s != [] && !InOrder(f, o, x, s[0])
    requires Sorted(f, o, Insert(f, o, x, s[1..]))
    ensures Sorted(f, o, Insert(f, o, x, s))
  {
    var t := s[1..];
    var it := Insert(f, o, x, t);
    assert Insert(f, o, x, s) == [s[0]] + it;
    forall k | 0 <= k < |it| ensures InOrder(f, o, s[0], it[k]) {
      var y := it[k];
      InsertMembers(f, o, x, t, y);
      if y == x {
        InOrderTotal(f, o, x, s[0]);
      } else {
        var m :| 0 <= m < |t| && t[m] == y;
        assert s[m + 1] == y;
      }
    }
    SortedCons(f, o, s[0], it);
  }

  /** A head that may precede every element of a sorted sequence extends it sortedly. */
  lemma SortedCons(f: SortField, o: SortOrder, y: User, s: seq<User>)
    requires Sorted(f, o, s)
    requires forall k :: 0 <= k < |s| ==> InOrder(f, o, y, s[k])
    ensures Sorted(f, o, [y] + s)
  {
    var r := [y] + s;
    forall i, j | 0 <= i < j < |r| ensures InOrder(f, o, r[i], r[j]) {
      assert r[j] == s[j - 1];
      if i > 0 {
        assert r[i] == s[i - 1];
      }
    }
  }

  /** The sort's output is ordered by the comparator. */
  lemma {:induction false} SortSorted(f: SortField, o: SortOrder, s: seq<User>)
    ensures Sorted(f, o, Sort(f, o, s))
  {
    if s != [] {
      SortSorted(f, o, s[1..]);
      InsertSorted(f, o, s[0], Sort(f, o, s[1..]));
    }
  }

  lemma {:induction false} InsertWithKey(f: SortField, o: SortOrder, x: User, s: seq<User>, k: string)
    ensures WithKey(Insert(f, o, x, s), f, k) == (if SortKey(x, f) == k then [x] else []) + WithKey(s, f, k)
  {
    if s == [] {
      KeepCons(x, [], KeyIs(f, k));
    } else if InOrder(f, o, x, s[0]) {
      KeepCons(x, s, KeyIs(f, k));
    } else {
      InOrderTies(f, o, x, s[0]);
      InsertWithKey(f, o, x, s[1..], k);
      InsertPastHead(f, o, x, s, k);
    }
  }

  /** The step of InsertWithKey where x moves past a head with a different key. */
  lemma InsertPastHead(f: SortField, o: SortOrder, x: User, s: seq<User>, k: string)
    requires s != [] && !InOrder(f, o, x, s[0]) && SortKey(x, f) != SortKey(s[0], f)
    requires WithKey(Insert(f, o, x, s[1..]), f, k) == (if SortKey(x, f) == k then [x] else []) + WithKey(s[1..], f, k)
    ensures WithKey(Insert(f, o, x, s), f, k) == (if SortKey(x, f) == k then [x] else []) + WithKey(s, f, k)
  {
    var y, t := s[0], s[1..];
    var xs: seq<User> := if SortKey(x, f) == k then [x] else [];
    assert Insert(f, o, x, s) == [y] + Insert(f, o, x, t);
    assert s == [y] + t;
    KeepPastHead(y, Insert(f, o, x, t), t, xs, KeyIs(f, k));
  }

  /** Stability: users with equal keys come out in the order they went in. */
  lemma {:induction false} SortStable(f: SortField, o: SortOrder, s: seq<User>)
    ensures StableFor(f, Sort(f, o, s), s)
  {
    if s != [] {
      SortStable(f, o, s[1..]);
      forall k ensures WithKey(Sort(f, o, s), f, k) == WithKey(s, f, k) {
        InsertWithKey(f, o, s[0], Sort(f, o, s[1..]), k);
        KeepCons(s[0], s[1..], KeyIs(f, k));
        assert s == [s[0]] + s[1..];
      }
    }
  }

  lemma WithKeyMembership(s: seq<User>, f: SortField, k: string, u: User)
    ensures u in WithKey(s, f, k) <==> u in s && SortKey(u, f) == k
  {
    KeepMembership(s, KeyIs(f, k), u);
  }

  /** The first element of a sorted sequence may precede every element of it. */
  lemma SortedHead(f: SortField, o: SortOrder, s: seq<User>, u: User)
    requires Sorted(f, o, s) && s != [] && u in s
    ensures InOrder(f, o, s[0], u)
  {
    var j :| 0 <= j < |s| && s[j] == u;
    if j == 0 {
      InOrderTies(f, o, u, u);
    }
  }

  /** Two sorted sequences that agree on every group of equal keys are equal. */
  lemma {:induction false} SortedStableUnique(f: SortField, o: SortOrder, r1: seq<User>, r2: seq<User>)
    requires Sorted(f, o, r1) && Sorted(f, o, r2)
    requires forall k :: WithKey(r1, f, k) == WithKey(r2, f, k)
    ensures r1 == r2
    decreases |r1|
  {
    if r1 == [] || r2 == [] {
      if r1 != [] || r2 != [] {
        var u := if r1 != [] then r1[0] else r2[0];
        var k := SortKey(u, f);
        WithKeyMembership(r1, f, k, u);
        WithKeyMembership(r2, f, k, u);
        assert false;
      }
    } else {
      var a, b := r1[0], r2[0];
      WithKeyMembership(r1, f, SortKey(b, f), b);
      WithKeyMembership(r2, f, SortKey(b, f), b);
      WithKeyMembership(r1, f, SortKey(a, f), a);
      WithKeyMembership(r2, f, SortKey(a, f), a);
      SortedHead(f, o, r1, b);
      SortedHead(f, o, r2, a);
      InOrderTies(f, o, a, b);
      var k0 := SortKey(a, f);
      var t1, t2 := r1[1..], r2[1..];
      assert r1 == [a] + t1 && r2 == [b] + t2;
      forall k ensures WithKey(r1, f, k) == (if k == k0 then [a] else []) + WithKey(t1, f, k)
                   && WithKey(r2, f, k) == (if k == k0 then [b] else []) + WithKey(t2, f, k) {
        KeepCons(a, t1, KeyIs(f, k));
        KeepCons(b, t2, KeyIs(f, k));
      }
      assert WithKey(r1, f, k0) == WithKey(r2, f, k0);
      assert a == b by {
        assert WithKey(r1, f, k0)[0] == a;
        assert WithKey(r2, f, k0)[0] == b;
      }
      forall k ensures WithKey(t1, f, k) == WithKey(t2, f, k) {
        assert WithKey(r1, f, k) == WithKey(r2, f, k);
        KeepCons(a, t1, KeyIs(f, k));
        KeepCons(b, t2, KeyIs(f, k));
        if k != k0 {
          assert WithKey(r1, f, k) == WithKey(t1, f, k);
          assert WithKey(r2, f, k) == WithKey(t2, f, k);
        } else {
          assert WithKey(t1, f, k) == WithKey(r1, f, k)[1..];
          assert WithKey(t2, f, k) == WithKey(r2, f, k)[1..];
        }
      }
      SortedTail(f, o, r1);
      SortedTail(f, o, r2);
      SortedStableUnique(f, o, t1, t2);
    }
  }

  lemma SortedTail(f: SortField, o: SortOrder, s: seq<User>)
    requires Sorted(f, o, s) && s != []
    ensures Sorted(f, o, s[1..])
  {
    var t := s[1..];
    forall i, j | 0 <= i < j < |t| ensures InOrder(f, o, t[i], t[j]) {
      assert t[i] == s[i + 1] && t[j] == s[j + 1];
    }
  }

  /**
    Whatever stable sorting algorithm the JavaScript engine uses, its result
    is the one modelled here: a sorted arrangement of s that keeps every group
    of ties in input order can only be Sort(f, o, s).
   */
  lemma SortUnique(f: SortField, o: SortOrder, s: seq<User>, r: seq<User>)
    requires Sorted(f, o, r) && StableFor(f, r, s)
    ensures r == Sort(f, o, s)
  {
    SortSorted(f, o, s);
    SortStable(f, o, s);
    SortedStableUnique(f, o, r, Sort(f, o, s));
  }

  // ------------------------------------------------------------ projection

  /** `applyFilters`: the published list for the panel's current inputs. */
  function Project(users: seq<User>, q: string, f: SortField, o: SortOrder): seq<User>
  {
    Sort(f, o, Candidates(users, q))
  }

  /** A user is published iff it is in the page and the query is blank or matches it. */
  lemma ProjectMembership(users: seq<User>, q: string, f: SortField, o: SortOrder, u: User)
    ensures u in Project(users, q, f, o) <==> u in users && (!QueryActive(q) || Matches(q, u))
  {
    var c := Candidates(users, q);
    SortMultiset(f, o, c);
    assert u in Sort(f, o, c) <==> u in multiset(Sort(f, o, c));
    CandidatesMembership(users, q, u);
  }

  /** A query that trims to "" publishes every user of the page, sorted. */
  lemma BlankQueryKeepsAll(users: seq<User>, q: string, f: SortField, o: SortOrder)
    requires AllWhitespace(q)
    ensures Project(users, q, f, o) == Sort(f, o, users)
    ensures multiset(Project(users, q, f, o)) == multiset(users)
  {
    TrimEmptyIffBlank(q);
    SortMultiset(f, o, users);
  }

  /** Among users with the same sort key, the published order is their order in the page. */
  lemma ProjectKeepsTieOrder(users: seq<User>, q: string, f: SortField, o: SortOrder, k: string)
    ensures IsSubsequence(WithKey(Project(users, q, f, o), f, k), WithKey(users, f, k))
  {
    SortStable(f, o, Candidates(users, q));
    if QueryActive(q) {
      KeepCommutes(users, MatchesQuery(q), KeyIs(f, k));
      KeepIsSubsequence(WithKey(users, f, k), MatchesQuery(q));
    } else {
      SubsequenceReflexive(WithKey(users, f, k));
    }
  }

  // -------------------------------------------------------------- examples

  function Ann(): User { User(1, "Ann", "Lee", "ann@x.io", "") }
  function Bob(): User { User(2, "Bob", "Roe", "bob@x.io", "") }
  function Cid(): User { User(3, "Cid", "Kim", "cid@x.io", "") }

  /** Sorting Ann, Bob and Cid by first name, descending, gives Cid, Bob, Ann. */
  lemma DescendingExample()
    ensures Project([Ann(), Bob(), Cid()], "", FirstName, Desc) == [Cid(), Bob(), Ann()]
  {
    assert Lower("Ann") == "ann" && Lower("Bob") == "bob" && Lower("Cid") == "cid";
  }

  lemma AnnMatchesAn()
    ensures Matches("an", Ann())
  {
    assert Lower("an") == "an" && Lower("Ann") == "ann";
    assert OccursAt("ann", "an", 0);
  }

  lemma BobMissesAn()
    ensures !Matches("an", Bob())
  {
    assert Lower("an") == "an";
    assert Lower("Bob") == "bob" && Lower("Roe") == "roe" && Lower("bob@x.io") == "bob@x.io";
    FirstCharAbsent("bob", "an");
    FirstCharAbsent("roe", "an");
    FirstCharAbsent("bob@x.io", "an");
  }

  lemma CidMissesAn()
    ensures !Matches("an", Cid())
  {
    assert Lower("an") == "an";
    assert Lower("Cid") == "cid" && Lower("Kim") == "kim" && Lower("cid@x.io") == "cid@x.io";
    FirstCharAbsent("cid", "an");
    FirstCharAbsent("kim", "an");
    FirstCharAbsent("cid@x.io", "an");
  }

  lemma SearchAnKeepsAnn()
    ensures Keep([Ann(), Bob(), Cid()], MatchesQuery("an")) == [Ann()]
  {
    AnnMatchesAn();
    BobMissesAn();
    CidMissesAn();
    var m := MatchesQuery("an");
    KeepCons(Cid(), [], m);
    KeepCons(Bob(), [Cid()], m);
    KeepCons(Ann(), [Bob(), Cid()], m);
  }

  lemma AnIsActive()
    ensures QueryActive("an")
  {
    TrimEmptyIffBlank("an");
    assert !IsWhitespace("an"[0]);
  }

  /** Searching "an" over Ann, Bob and Cid keeps only Ann. */
  lemma SearchExample()
    ensures Project([Ann(), Bob(), Cid()], "an", FirstName, Asc) == [Ann()]
  {
    SearchAnKeepsAnn();
    AnIsActive();
    assert Candidates([Ann(), Bob(), Cid()], "an") == [Ann()];
  }

  /** " ann" is not blank, so it is matched with its leading space and finds nobody. */
  lemma UntrimmedQueryExample()
    ensures QueryActive(" ann") && !Matches(" ann", Ann()) && Matches("ann", Ann())
  {
    SpacedIsActive();
    SpacedMissesAnn();
    TrimmedMatchesAnn();
  }

  lemma TrimmedMatchesAnn()
    ensures Matches("ann", Ann())
  {
    assert Lower("ann") == "ann" && Lower("Ann") == "ann";
    assert OccursAt("ann", "ann", 0);
  }

  lemma SpacedIsActive()
    ensures QueryActive(" ann")
  {
    TrimEmptyIffBlank(" ann");
    assert !IsWhitespace(" ann"[1]);
  }

  lemma SpacedMissesAnn()
    ensures !Matches(" ann", Ann())
  {
    assert Lower(" ann") == " ann";
    assert Lower("Ann") == "ann" && Lower("Lee") == "lee" && Lower("ann@x.io") == "ann@x.io";
    FirstCharAbsent("ann", " ann");
    FirstCharAbsent("lee", " ann");
    FirstCharAbsent("ann@x.io", " ann");
  }

  // --------------------------------------------------------------- columns

  datatype Column = AvatarColumn | FirstNameColumn | LastNameColumn | EmailColumn

  /** The `visibleColumns` record. */
  datatype Columns = Columns(avatar: bool, firstName: bool, lastName: bool, email: bool)

  /** Every column shown: the initial state of `visibleColumns`. */
  const AllColumns: Columns := Columns(true, true, true, true)

  function Shown(cols: Columns, c: Column): bool
  {
    match c
    case AvatarColumn => cols.avatar
    case FirstNameColumn => cols.firstName
    case LastNameColumn => cols.lastName
    case EmailColumn => cols.email
  }

  /** `toggleColumn`: `{ ...prev, [column]: !prev[column] }`. */
  function ToggleColumn(cols: Columns, c: Column): (r: Columns)
    ensures Shown(r, c) == !Shown(cols, c)
    ensures forall d :: d != c ==> Shown(r, d) == Shown(cols, d)
  {
    match c
    case AvatarColumn => cols.(avatar := !cols.avatar)
    case FirstNameColumn => cols.(firstName := !cols.firstName)
    case LastNameColumn => cols.(lastName := !cols.lastName)
    case EmailColumn => cols.(email := !cols.email)
  }

  /** Toggling the same column twice changes nothing. */
  lemma ToggleColumnTwice(cols: Columns, c: Column)
    ensures ToggleColumn(ToggleColumn(cols, c), c) == cols
  {
  }

  // ----------------------------------------------------------------- panel

  /** The panel's own state: `searchQuery`, `sortField`, `sortOrder`. */
  class FilterPanel {
    var searchQuery: string
    var sortField: SortField
    var sortOrder: SortOrder

    /** Initial state: empty search, sorted by first name, ascending. */
    constructor ()
      ensures searchQuery == "" && sortField == FirstName && sortOrder == Asc
    {
      searchQuery := "";
      sortField := FirstName;
      sortOrder := Asc;
    }

    /** The search box's onChange. */
    method SetSearchQuery(q: string)
      modifies this
      ensures searchQuery == q && sortField == old(sortField) && sortOrder == old(sortOrder)
    {
      searchQuery := q;
    }

    /** The sort select's onChange. */
    method SetSortField(f: SortField)
      modifies this
      ensures sortField == f && searchQuery == old(searchQuery) && sortOrder == old(sortOrder)
    {
      sortField := f;
    }

    /** The order button. */
    method ToggleSortOrder()
      modifies this
      ensures sortOrder == FlipOrder(old(sortOrder))
      ensures searchQuery == old(searchQuery) && sortField == old(sortField)
    {
      sortOrder := FlipOrder(sortOrder);
    }

    /** The projection of users for the panel's current state. */
    function Projection(users: seq<User>): seq<User>
      reads this
    {
      Project(users, searchQuery, sortField, sortOrder)
    }

    /**
      `applyFilters`: copy the page, filter it when the query is not blank,
      sort the copy, publish it. The page itself is a value and is untouched.
     */
    method ApplyFilters(users: seq<User>) returns (filtered: seq<User>)
      ensures filtered == Projection(users)
      ensures forall u :: u in filtered <==> u in users && (!QueryActive(searchQuery) || Matches(searchQuery, u))
      ensures multiset(filtered) == multiset(Candidates(users, searchQuery))
      ensures IsSubsequence(Candidates(users, searchQuery), users)
      ensures Sorted(sortField, sortOrder, filtered)
      ensures StableFor(sortField, filtered, Candidates(users, searchQuery))
    {
      filtered := users;
      if QueryActive(searchQuery) {
        filtered := Keep(filtered, MatchesQuery(searchQuery));
      }
      filtered := Sort(sortField, sortOrder, filtered);
      forall u ensures u in filtered <==> u in users && (!QueryActive(searchQuery) || Matches(searchQuery, u)) {
        ProjectMembership(users, searchQuery, sortField, sortOrder, u);
      }
      CandidatesSubsequence(users, searchQuery);
      SortMultiset(sortField, sortOrder, Candidates(users, searchQuery));
      SortSorted(sortField, sortOrder, Candidates(users, searchQuery));
      SortStable(sortField, sortOrder, Candidates(users, searchQuery));
    }
  }
}
