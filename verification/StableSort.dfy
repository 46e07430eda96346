/** Python's `sorted` with a key: the one stable ordering of a list. */
module StableSort {

  ghost predicate TotalPreorder<T(!new)>(le: (T, T) -> bool) {
    && (forall x, y :: le(x, y) || le(y, x))
    && (forall x, y, z :: le(x, y) && le(y, z) ==> le(x, z))
  }

  ghost predicate Sorted<T>(s: seq<T>, le: (T, T) -> bool) {
    forall i, j | 0 <= i < j < |s| :: le(s[i], s[j])
  }

  /** `first` decides; `second` breaks its ties. */
  ghost predicate SortedLex<T>(s: seq<T>, first: (T, T) -> bool, second: (T, T) -> bool) {
    forall i, j | 0 <= i < j < |s| :: first(s[i], s[j]) && (first(s[j], s[i]) ==> second(s[i], s[j]))
  }

  function Insert<T>(x: T, s: seq<T>, le: (T, T) -> bool): seq<T> {
    if s == [] then [x]
    else if le(x, s[0]) then [x] + s
    else [s[0]] + Insert(x, s[1..], le)
  }

  function Sort<T>(s: seq<T>, le: (T, T) -> bool): seq<T> {
    if s == [] then [] else Insert(s[0], Sort(s[1..], le), le)
  }

  lemma {:induction false} InsertPermutes<T>(x: T, s: seq<T>, le: (T, T) -> bool)
    ensures multiset(Insert(x, s, le)) == multiset(s) + multiset{x}
    ensures |Insert(x, s, le)| == |s| + 1
  {
    if s == [] || le(x, s[0]) {
    } else {
      InsertPermutes(x, s[1..], le);
      assert s == [s[0]] + s[1..];
    }
  }

  lemma {:induction false} SortPermutes<T>(s: seq<T>, le: (T, T) -> bool)
    ensures multiset(Sort(s, le)) == multiset(s)
    ensures |Sort(s, le)| == |s|
  {
    if s == [] {
    } else {
      SortPermutes(s[1..], le);
      InsertPermutes(s[0], Sort(s[1..], le), le);
      assert s == [s[0]] + s[1..];
    }
  }

  /** Members of a sorted list are the members of the list. */
  lemma SortMembers<T>(s: seq<T>, le: (T, T) -> bool)
    ensures forall x :: x in Sort(s, le) <==> x in s
  {
    SortPermutes(s, le);
    forall x ensures x in Sort(s, le) <==> x in s {
      assert x in Sort(s, le) <==> x in multiset(Sort(s, le));
      assert x in s <==> x in multiset(s);
    }
  }

  lemma {:induction false} InsertKeepsLex<T(!new)>(x: T, s: seq<T>, first: (T, T) -> bool, second: (T, T) -> bool)
    requires TotalPreorder(first)
    requires SortedLex(s, first, second)
    requires forall y | y in s :: second(x, y)
    ensures SortedLex(Insert(x, s, first), first, second)
  {
    if s == [] {
    } else if first(x, s[0]) {
      assert forall y | y in s :: first(x, y);
    } else {
      var rest := Insert(x, s[1..], first);
      InsertKeepsLex(x, s[1..], first, second);
      InsertPermutes(x, s[1..], first);
      forall k | 0 <= k < |rest|
        ensures first(s[0], rest[k]) && (first(rest[k], s[0]) ==> second(s[0], rest[k]))
      {
        assert rest[k] in multiset(rest);
        assert rest[k] == x || rest[k] in s[1..];
      }
    }
  }

  /** Sorting a list that is already in `second` order by `first`, stably, leaves it in
      lexicographic order: the reason `_fair_order` needs no second key. */
  lemma {:induction false} SortIsStable<T(!new)>(s: seq<T>, first: (T, T) -> bool, second: (T, T) -> bool)
    requires TotalPreorder(first)
    requires Sorted(s, second)
    ensures SortedLex(Sort(s, first), first, second)
  {
    if s == [] {
    } else {
      SortIsStable(s[1..], first, second);
      SortMembers(s[1..], first);
      InsertKeepsLex(s[0], Sort(s[1..], first), first, second);
    }
  }

  lemma SortSorts<T(!new)>(s: seq<T>, le: (T, T) -> bool)
    requires TotalPreorder(le)
    ensures Sorted(Sort(s, le), le)
  {
    SortIsStable(s, le, (x: T, y: T) => true);
  }

  predicate Distinct<T(==)>(s: seq<T>) {
    forall i, j | 0 <= i < j < |s| :: s[i] != s[j]
  }

  lemma DistinctCons<T>(x: T, s: seq<T>)
    requires Distinct(s) && x !in s
    ensures Distinct([x] + s)
  {
  }

  lemma {:induction false} InsertDistinct<T>(x: T, s: seq<T>, le: (T, T) -> bool)
    requires Distinct(s) && x !in s
    ensures Distinct(Insert(x, s, le))
    ensures forall y :: y in Insert(x, s, le) <==> y == x || y in s
  {
    DistinctCons(x, s);
    if s != [] && !le(x, s[0]) {
      InsertDistinct(x, s[1..], le);
      DistinctCons(s[0], Insert(x, s[1..], le));
    }
  }

  lemma {:induction false} SortDistinct<T>(s: seq<T>, le: (T, T) -> bool)
    requires Distinct(s)
    ensures Distinct(Sort(s, le))
  {
    if s == [] {
    } else {
      SortDistinct(s[1..], le);
      SortMembers(s[1..], le);
      InsertDistinct(s[0], Sort(s[1..], le), le);
    }
  }
}
