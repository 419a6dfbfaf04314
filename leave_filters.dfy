/** The request lists of the HR and manager pages: the HR page filters by
    department, status and a free-text query on employee number and name;
    the manager page filters by status only and lists the newest request
    date first. */
module LeaveFilters {
  import opened Text
  import opened HrShared

  /** The status drop-down: "전체" (all) or one status. */
  datatype StatusFilter = All | Only(status: Status)

  /** The department drop-down value that selects every department. */
  const AllDepts: string := "전체"

  /** `Array.prototype.filter`. */
  function Filter<T>(p: T -> bool, s: seq<T>): (r: seq<T>)
    ensures |r| <= |s|
    ensures forall x :: x in r ==> x in s && p(x)
    decreases |s|
  {
    if s == [] then []
    else if p(s[0]) then [s[0]] + Filter(p, s[1..])
    else Filter(p, s[1..])
  }

  /** Exactly the elements of `s` that satisfy `p` are kept. */
  lemma {:induction false} FilterMember<T>(p: T -> bool, s: seq<T>, x: T)
    ensures x in Filter(p, s) <==> x in s && p(x)
    decreases |s|
  {
    if s != [] {
      FilterMember(p, s[1..], x);
      assert x in s <==> x == s[0] || x in s[1..];
    }
  }

  /** `a` is `b` with some elements left out, the rest in their order. */
  predicate IsSubsequence<T(==)>(a: seq<T>, b: seq<T>)
    decreases |b|
  {
    if a == [] then true
    else if b == [] then false
    else if a[0] == b[0] then IsSubsequence(a[1..], b[1..])
    else IsSubsequence(a, b[1..])
  }

  /** Filtering keeps the order of the rows it keeps. */
  lemma {:induction false} FilterSubsequence<T>(p: T -> bool, s: seq<T>)
    ensures IsSubsequence(Filter(p, s), s)
    decreases |s|
  {
    if s != [] {
      FilterSubsequence(p, s[1..]);
      if !p(s[0]) {
        SubsequenceSkip(Filter(p, s[1..]), s[0], s[1..]);
      } else {
        assert ([s[0]] + Filter(p, s[1..]))[1..] == Filter(p, s[1..]);
      }
    }
  }

  lemma {:induction false} SubsequenceSkip<T>(a: seq<T>, x: T, b: seq<T>)
    requires IsSubsequence(a, b)
    ensures IsSubsequence(a, [x] + b)
    decreases |b|, 1
  {
    if a != [] && a[0] == x {
      SubsequenceTail(a, b);
      assert ([x] + b)[1..] == b;
    } else if a != [] {
      assert ([x] + b)[1..] == b;
    }
  }

  /** Dropping the head of a subsequence keeps it a subsequence. */
  lemma {:induction false} SubsequenceTail<T>(a: seq<T>, b: seq<T>)
    requires a != [] && IsSubsequence(a, b)
    ensures IsSubsequence(a[1..], b)
    decreases |b|, 0
  {
    if a[0] == b[0] {
      if a[1..] != [] {
        SubsequenceTail(a[1..], b[1..]);
        SubsequenceSkip(a[1..], b[0], b[1..]);
        assert [b[0]] + b[1..] == b;
      }
    } else {
      SubsequenceTail(a, b[1..]);
      if a[1..] != [] {
        SubsequenceSkip(a[1..], b[0], b[1..]);
        assert [b[0]] + b[1..] == b;
      }
    }
  }

  /** A predicate every element satisfies filters nothing. */
  lemma {:induction false} FilterKeepsAll<T>(p: T -> bool, s: seq<T>)
    requires forall x :: x in s ==> p(x)
    ensures Filter(p, s) == s
    decreases |s|
  {
    if s != [] {
      assert forall x :: x in s[1..] ==> x in s;
      FilterKeepsAll(p, s[1..]);
    }
  }

  /** The query test: a blank query (after trimming) matches everything;
      otherwise the lower-cased, trimmed query must occur in the lower-cased
      "empId name". */
  predicate MatchesQuery(r: LeaveRequest, q: string)
  {
    Trim(q) == "" || Includes(ToLower(r.empId + " " + r.name), ToLower(Trim(q)))
  }

  /** The row test of `filteredLeaves`. */
  predicate KeepLeave(r: LeaveRequest, dept: string, status: StatusFilter, q: string)
  {
    && (dept == AllDepts || r.dept == dept)
    && (status.All? || r.status == status.status)
    && MatchesQuery(r, q)
  }

  /** `filteredLeaves` of the HR page. */
  function FilteredLeaves(rows: seq<LeaveRequest>, dept: string, status: StatusFilter, q: string): seq<LeaveRequest>
  {
    Filter(r => KeepLeave(r, dept, status, q), rows)
  }

  /** A row is listed exactly when it passes the department, the status and
      the query test; for a query that is not blank, the query test means the
      lower-cased query occurs at some position of the lower-cased
      "empId name". */
  lemma FilteredLeavesMember(rows: seq<LeaveRequest>, dept: string, status: StatusFilter, q: string, r: LeaveRequest)
    ensures r in FilteredLeaves(rows, dept, status, q) <==>
      && r in rows
      && (dept == AllDepts || r.dept == dept)
      && (status.All? || r.status == status.status)
      && (Trim(q) == "" || exists j :: OccursAt(ToLower(r.empId + " " + r.name), ToLower(Trim(q)), j))
  {
    FilterMember(r => KeepLeave(r, dept, status, q), rows, r);
    IncludesIff(ToLower(r.empId + " " + r.name), ToLower(Trim(q)));
  }

  /** The listed rows appear in the order of `rows`. */
  lemma FilteredLeavesOrder(rows: seq<LeaveRequest>, dept: string, status: StatusFilter, q: string)
    ensures IsSubsequence(FilteredLeaves(rows, dept, status, q), rows)
  {
    FilterSubsequence(r => KeepLeave(r, dept, status, q), rows);
  }

  /** With "전체" in both drop-downs, an empty or all-whitespace query lists
      every row. */
  lemma BlankQueryListsAll(rows: seq<LeaveRequest>, q: string)
    requires forall i :: 0 <= i < |q| ==> IsJsSpace(q[i])
    ensures FilteredLeaves(rows, AllDepts, All, q) == rows
  {
    TrimEmptyIff(q);
    FilterKeepsAll(r => KeepLeave(r, AllDepts, All, q), rows);
  }

  /** JavaScript's `a < b` on strings: the first differing code unit decides,
      and a proper prefix comes first. */
  predicate Lt(a: string, b: string)
    decreases |a|
  {
    if |a| == 0 then |b| > 0
    else if |b| == 0 then false
    else if a[0] != b[0] then a[0] < b[0]
    else Lt(a[1..], b[1..])
  }

  lemma {:induction false} LtIrreflexive(a: string)
    ensures !Lt(a, a)
    decreases |a|
  {
    if |a| > 0 {
      LtIrreflexive(a[1..]);
    }
  }

  lemma {:induction false} LtTransitive(a: string, b: string, c: string)
    requires Lt(a, b) && Lt(b, c)
    ensures Lt(a, c)
    decreases |a|
  {
    if |a| > 0 && a[0] == b[0] && b[0] == c[0] {
      LtTransitive(a[1..], b[1..], c[1..]);
    }
  }

  lemma {:induction false} LtTotal(a: string, b: string)
    ensures a == b || Lt(a, b) || Lt(b, a)
    decreases |a|
  {
    if |a| > 0 && |b| > 0 && a[0] == b[0] {
      LtTotal(a[1..], b[1..]);
      if a[1..] == b[1..] {
        assert a == [a[0]] + a[1..] && b == [b[0]] + b[1..];
      }
    }
  }

  /** "Not less than" is transitive. */
  lemma NotLtTransitive(a: string, b: string, c: string)
    requires !Lt(a, b) && !Lt(b, c)
    ensures !Lt(a, c)
  {
    LtTotal(a, b);
    LtTotal(b, c);
    if Lt(a, c) {
      if a == b {
      } else if b == c {
      } else {
        LtTransitive(c, b, a);
        LtTransitive(a, c, a);
        LtIrreflexive(a);
      }
    }
  }

  /** Newest request date first: no row is followed by a later one. */
  predicate SortedDesc(s: seq<LeaveRequest>)
  {
    forall i, j :: 0 <= i < j < |s| ==> !Lt(s[i].dateRequested, s[j].dateRequested)
  }

  /** Inserts `x` before the first row whose date is not later than its own. */
  function Insert(x: LeaveRequest, s: seq<LeaveRequest>): seq<LeaveRequest>
  {
    if s == [] then [x]
    else if !Lt(x.dateRequested, s[0].dateRequested) then [x] + s
    else [s[0]] + Insert(x, s[1..])
  }

  lemma {:induction false} InsertSorted(x: LeaveRequest, s: seq<LeaveRequest>)
    requires SortedDesc(s)
    ensures SortedDesc(Insert(x, s))
    ensures multiset(Insert(x, s)) == multiset(s) + multiset{x}
    decreases |s|
  {
    if s == [] {
    } else if !Lt(x.dateRequested, s[0].dateRequested) {
      InsertInFront(x, s);
    } else {
      InsertSorted(x, s[1..]);
      InsertBehind(x, s);
    }
  }

  /** A row not older than any row of a newest-first list can head it. */
  lemma SortedCons(h: LeaveRequest, rest: seq<LeaveRequest>)
    requires SortedDesc(rest)
    requires forall k :: 0 <= k < |rest| ==> !Lt(h.dateRequested, rest[k].dateRequested)
    ensures SortedDesc([h] + rest)
  {
    var t := [h] + rest;
    forall i, j | 0 <= i < j < |t|
      ensures !Lt(t[i].dateRequested, t[j].dateRequested)
    {
      assert t[j] == rest[j - 1];
      if i > 0 {
        assert t[i] == rest[i - 1];
      }
    }
  }

  /** A row not older than the first goes in front. */
  lemma InsertInFront(x: LeaveRequest, s: seq<LeaveRequest>)
    requires SortedDesc(s) && s != [] && !Lt(x.dateRequested, s[0].dateRequested)
    ensures SortedDesc([x] + s)
  {
    forall k | 0 <= k < |s|
      ensures !Lt(x.dateRequested, s[k].dateRequested)
    {
      if k > 0 {
        NotLtTransitive(x.dateRequested, s[0].dateRequested, s[k].dateRequested);
      }
    }
    SortedCons(x, s);
  }

  /** The first row is not older than `x` nor than any other row. */
  lemma HeadNotOlder(x: LeaveRequest, s: seq<LeaveRequest>, y: LeaveRequest)
    requires SortedDesc(s) && s != [] && Lt(x.dateRequested, s[0].dateRequested)
    requires y == x || y in s[1..]
    ensures !Lt(s[0].dateRequested, y.dateRequested)
  {
    if y == x {
      if Lt(s[0].dateRequested, x.dateRequested) {
        LtTransitive(x.dateRequested, s[0].dateRequested, x.dateRequested);
        LtIrreflexive(x.dateRequested);
      }
    } else {
      var m :| 0 <= m < |s[1..]| && s[1..][m] == y;
      assert s[m + 1] == y;
    }
  }

  /** A row older than the first goes behind it, into the rest. */
  lemma InsertBehind(x: LeaveRequest, s: seq<LeaveRequest>)
    requires SortedDesc(s) && s != [] && Lt(x.dateRequested, s[0].dateRequested)
    requires SortedDesc(Insert(x, s[1..]))
    requires multiset(Insert(x, s[1..])) == multiset(s[1..]) + multiset{x}
    ensures SortedDesc(Insert(x, s))
    ensures multiset(Insert(x, s)) == multiset(s) + multiset{x}
  {
    var rest := Insert(x, s[1..]);
    forall k | 0 <= k < |rest|
      ensures !Lt(s[0].dateRequested, rest[k].dateRequested)
    {
      assert rest[k] in multiset(s[1..]) + multiset{x};
      HeadNotOlder(x, s, rest[k]);
    }
    SortedCons(s[0], rest);
    assert s == [s[0]] + s[1..];
  }

  /** `list.sort((a, b) => a.dateRequested < b.dateRequested ? 1 : -1)`,
      as an insertion sort that keeps the original order of equal dates. */
  function SortByDateDesc(s: seq<LeaveRequest>): seq<LeaveRequest>
    decreases |s|
  {
    if s == [] then [] else Insert(s[0], SortByDateDesc(s[1..]))
  }

  /** The sort orders the rows newest first and only rearranges them. */
  lemma {:induction false} SortByDateDescCorrect(s: seq<LeaveRequest>)
    ensures SortedDesc(SortByDateDesc(s))
    ensures multiset(SortByDateDesc(s)) == multiset(s)
    decreases |s|
  {
    if s != [] {
      SortByDateDescCorrect(s[1..]);
      InsertSorted(s[0], SortByDateDesc(s[1..]));
      assert s == [s[0]] + s[1..];
    }
  }

  /** The manager page starts on "Pending". */
  const InitialManagerFilter: StatusFilter := Only(Pending)

  /** `filtered` of the manager page: a copy of the rows, filtered by status
      unless "전체", then sorted newest first. */
  function ManagerFiltered(rows: seq<LeaveRequest>, f: StatusFilter): seq<LeaveRequest>
  {
    var list := if f.All? then rows else Filter((r: LeaveRequest) => r.status == f.status, rows);
    SortByDateDesc(list)
  }

  /** The manager list is sorted newest first and holds exactly the rows of
      the chosen status, each as often as in `rows`. */
  lemma ManagerFilteredCorrect(rows: seq<LeaveRequest>, f: StatusFilter)
    ensures SortedDesc(ManagerFiltered(rows, f))
    ensures f.All? ==> multiset(ManagerFiltered(rows, f)) == multiset(rows)
    ensures f.Only? ==> multiset(ManagerFiltered(rows, f)) == multiset(Filter((r: LeaveRequest) => r.status == f.status, rows))
    ensures forall x :: x in ManagerFiltered(rows, f) <==> x in rows && (f.All? || x.status == f.status)
  {
    var list := if f.All? then rows else Filter((r: LeaveRequest) => r.status == f.status, rows);
    SortByDateDescCorrect(list);
    forall x
      ensures x in ManagerFiltered(rows, f) <==> x in rows && (f.All? || x.status == f.status)
    {
      assert x in ManagerFiltered(rows, f) <==> x in multiset(list);
      if f.Only? {
        FilterMember((r: LeaveRequest) => r.status == f.status, rows, x);
      }
    }
  }

  /** On first display the manager list holds exactly the pending rows. */
  lemma InitialListIsPending(rows: seq<LeaveRequest>, x: LeaveRequest)
    ensures x in ManagerFiltered(rows, InitialManagerFilter) <==> x in rows && x.status == Pending
  {
    ManagerFilteredCorrect(rows, InitialManagerFilter);
  }

  /** The controls of a manager row. */
  datatype RowAction = Approve | Reject

  /** Approve and reject are offered for pending requests only. */
  function RowActions(r: LeaveRequest): (acts: seq<RowAction>)
    ensures acts != [] <==> r.status == Pending
    ensures acts != [] ==> acts == [Approve, Reject]
  {
    if r.status == Pending then [Approve, Reject] else []
  }

  /** A row of the manager list offers approve and reject exactly when the
      list shows pending requests or all of them and the row is pending; on
      first display every row offers both. */
  lemma ListedRowActions(rows: seq<LeaveRequest>, f: StatusFilter, x: LeaveRequest)
    requires x in ManagerFiltered(rows, f)
    ensures RowActions(x) != [] <==> x.status == Pending
    ensures f.Only? ==> (RowActions(x) != [] <==> f.status == Pending)
    ensures f == InitialManagerFilter ==> RowActions(x) == [Approve, Reject]
  {
    ManagerFilteredCorrect(rows, f);
  }
}
