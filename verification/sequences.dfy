/** Filtering, stable sorting by ordinal, and "the last matching element". */
module Sequences {
  import opened Words

  function Filter<T>(s: seq<T>, p: T -> bool): seq<T> {
    if s == [] then []
    else if p(s[|s| - 1]) then Filter(s[..|s| - 1], p) + [s[|s| - 1]]
    else Filter(s[..|s| - 1], p)
  }

  lemma {:induction false} FilterConcat<T>(a: seq<T>, b: seq<T>, p: T -> bool)
    ensures Filter(a + b, p) == Filter(a, p) + Filter(b, p)
  {
    if b == [] {
      assert a + b == a;
    } else {
      assert (a + b)[..|a + b| - 1] == a + b[..|b| - 1];
      FilterConcat(a, b[..|b| - 1], p);
    }
  }

  lemma FilterAppend<T>(s: seq<T>, x: T, p: T -> bool)
    ensures Filter(s + [x], p) == if p(x) then Filter(s, p) + [x] else Filter(s, p)
  {
    assert (s + [x])[..|s|] == s;
  }

  lemma {:induction false} FilterMember<T>(s: seq<T>, p: T -> bool, x: T)
    ensures x in Filter(s, p) <==> x in s && p(x)
  {
    if s != [] {
      FilterMember(s[..|s| - 1], p, x);
      assert s == s[..|s| - 1] + [s[|s| - 1]];
    }
  }

  lemma {:induction false} FilterTwice<T>(s: seq<T>, p: T -> bool, q: T -> bool, both: T -> bool)
    requires forall x :: x in s ==> both(x) == (p(x) && q(x))
    ensures Filter(Filter(s, p), q) == Filter(s, both)
  {
    if s != [] {
      var last := s[|s| - 1];
      FilterTwice(s[..|s| - 1], p, q, both);
      if p(last) { FilterAppend(Filter(s[..|s| - 1], p), last, q); }
    }
  }

  predicate SortedBy<T>(s: seq<T>, ord: T -> nat) {
    forall i, j :: 0 <= i < j < |s| ==> ord(s[i]) <= ord(s[j])
  }

  /** Inserts behind every element whose ordinal is not greater: equal keys keep their order. */
  function Insert<T>(s: seq<T>, x: T, ord: T -> nat): (r: seq<T>)
    ensures |r| == |s| + 1
  {
    if s == [] || ord(s[|s| - 1]) <= ord(x) then s + [x]
    else Insert(s[..|s| - 1], x, ord) + [s[|s| - 1]]
  }

  /** The stable sort by ordinal. */
  function SortBy<T>(s: seq<T>, ord: T -> nat): seq<T> {
    if s == [] then [] else Insert(SortBy(s[..|s| - 1], ord), s[|s| - 1], ord)
  }

  lemma {:induction false} InsertMembers<T>(s: seq<T>, x: T, ord: T -> nat)
    ensures multiset(Insert(s, x, ord)) == multiset(s) + multiset{x}
    ensures forall y :: y in Insert(s, x, ord) <==> y in s || y == x
  {
    if s != [] && ord(s[|s| - 1]) > ord(x) {
      InsertMembers(s[..|s| - 1], x, ord);
      assert s == s[..|s| - 1] + [s[|s| - 1]];
    }
  }

  lemma {:induction false} InsertSorted<T>(s: seq<T>, x: T, ord: T -> nat)
    requires SortedBy(s, ord)
    ensures SortedBy(Insert(s, x, ord), ord)
    ensures forall i :: 0 <= i <= |s| ==>
      ord(Insert(s, x, ord)[i]) <= ord(x) || (s != [] && ord(Insert(s, x, ord)[i]) <= ord(s[|s| - 1]))
  {
    if s != [] && ord(s[|s| - 1]) > ord(x) { InsertSorted(s[..|s| - 1], x, ord); }
  }

  lemma {:induction false} SortBySorts<T>(s: seq<T>, ord: T -> nat)
    ensures SortedBy(SortBy(s, ord), ord)
    ensures multiset(SortBy(s, ord)) == multiset(s)
    ensures forall y :: y in SortBy(s, ord) <==> y in s
  {
    if s != [] {
      SortBySorts(s[..|s| - 1], ord);
      InsertSorted(SortBy(s[..|s| - 1], ord), s[|s| - 1], ord);
      InsertMembers(SortBy(s[..|s| - 1], ord), s[|s| - 1], ord);
      assert s == s[..|s| - 1] + [s[|s| - 1]];
    }
  }

  lemma {:induction false} FilterInsert<T>(s: seq<T>, x: T, ord: T -> nat, p: T -> bool)
    requires SortedBy(s, ord)
    ensures Filter(Insert(s, x, ord), p) == if p(x) then Insert(Filter(s, p), x, ord) else Filter(s, p)
  {
    if s == [] || ord(s[|s| - 1]) <= ord(x) {
      FilterAppend(s, x, p);
      if Filter(s, p) != [] {
        var y := Filter(s, p)[|Filter(s, p)| - 1];
        FilterMember(s, p, y);
      }
    } else {
      var front, last := s[..|s| - 1], s[|s| - 1];
      FilterInsert(front, x, ord, p);
      FilterAppend(Insert(front, x, ord), last, p);
      if p(last) { assert Filter(s, p)[..|Filter(s, p)| - 1] == Filter(front, p); }
    }
  }

  /** Stable sorting commutes with filtering. */
  lemma {:induction false} FilterSort<T>(s: seq<T>, ord: T -> nat, p: T -> bool)
    ensures Filter(SortBy(s, ord), p) == SortBy(Filter(s, p), ord)
  {
    if s != [] {
      var front, last := s[..|s| - 1], s[|s| - 1];
      FilterSort(front, ord, p);
      SortBySorts(front, ord);
      FilterInsert(SortBy(front, ord), last, ord, p);
      SortAppend(Filter(front, p), last, ord);
    }
  }

  lemma SortAppend<T>(s: seq<T>, x: T, ord: T -> nat)
    ensures SortBy(s + [x], ord) == Insert(SortBy(s, ord), x, ord)
  {
    assert (s + [x])[..|s|] == s;
  }

  /** The last element of s that satisfies p. */
  function LastMatch<T>(s: seq<T>, p: T -> bool): Option<T> {
    if s == [] then None
    else if p(s[|s| - 1]) then Some(s[|s| - 1])
    else LastMatch(s[..|s| - 1], p)
  }

  /** The matching element of greatest ordinal, the latest one among equals. */
  function Latest<T>(s: seq<T>, ord: T -> nat, p: T -> bool): (r: Option<T>)
    ensures r.Some? ==> r.value in s && p(r.value)
    ensures r.Some? ==> forall x :: x in s && p(x) ==> ord(x) <= ord(r.value)
    ensures r.None? ==> forall x :: x in s ==> !p(x)
  {
    if s == [] then None
    else
      var front, last := s[..|s| - 1], s[|s| - 1];
      var best := Latest(front, ord, p);
      assert s == front + [last];
      if p(last) && (best.None? || ord(best.value) <= ord(last)) then Some(last) else best
  }

  lemma {:induction false} LastMatchInsert<T>(s: seq<T>, x: T, ord: T -> nat, p: T -> bool)
    requires SortedBy(s, ord)
    ensures LastMatch(Insert(s, x, ord), p) ==
            var best := LastMatch(s, p);
            if p(x) && (best.None? || ord(best.value) <= ord(x)) then Some(x) else best
  {
    if s == [] || ord(s[|s| - 1]) <= ord(x) {
      assert (s + [x])[..|s|] == s;
      LastMatchMember(s, p);
    } else {
      var front, last := s[..|s| - 1], s[|s| - 1];
      LastMatchInsert(front, x, ord, p);
      assert (Insert(front, x, ord) + [last])[..|Insert(front, x, ord)|] == Insert(front, x, ord);
    }
  }

  lemma {:induction false} LastMatchMember<T>(s: seq<T>, p: T -> bool)
    ensures LastMatch(s, p).Some? ==> LastMatch(s, p).value in s && p(LastMatch(s, p).value)
  {
    if s != [] && !p(s[|s| - 1]) { LastMatchMember(s[..|s| - 1], p); }
  }

  /** What survives a sort-then-collapse is the latest match of the unsorted records. */
  lemma {:induction false} LastOfSorted<T>(s: seq<T>, ord: T -> nat, p: T -> bool)
    ensures LastMatch(SortBy(s, ord), p) == Latest(s, ord, p)
  {
    if s != [] {
      LastOfSorted(s[..|s| - 1], ord, p);
      SortBySorts(s[..|s| - 1], ord);
      LastMatchInsert(SortBy(s[..|s| - 1], ord), s[|s| - 1], ord, p);
    }
  }

  /** Records that cannot match do not influence the latest match. */
  lemma {:induction false} LatestFilter<T>(s: seq<T>, ord: T -> nat, p: T -> bool, q: T -> bool)
    requires forall x :: x in s && p(x) ==> q(x)
    ensures Latest(Filter(s, q), ord, p) == Latest(s, ord, p)
  {
    if s != [] {
      var front, last := s[..|s| - 1], s[|s| - 1];
      LatestFilter(front, ord, p, q);
      LatestAppend(Filter(front, q), last, ord, p);
    }
  }

  lemma LatestAppend<T>(s: seq<T>, x: T, ord: T -> nat, p: T -> bool)
    ensures Latest(s + [x], ord, p) ==
            var best := Latest(s, ord, p);
            if p(x) && (best.None? || ord(best.value) <= ord(x)) then Some(x) else best
  {
    assert (s + [x])[..|s|] == s;
  }
}
