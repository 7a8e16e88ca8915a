/** sort.SliceStable over a comparison, as an insertion sort. */
module Sorting {
  /** What a comparison must satisfy for sorting by it to mean something. */
  ghost predicate StrictWeak<T(!new)>(less: (T, T) -> bool) {
    && (forall a, b :: less(a, b) ==> !less(b, a))
    && (forall a, b, c :: less(a, c) ==> less(a, b) || less(b, c))
  }

  /** No later element belongs before an earlier one. */
  predicate Sorted<T>(less: (T, T) -> bool, s: seq<T>) {
    forall i, j | 0 <= i < j < |s| :: !less(s[j], s[i])
  }

  function Insert<T>(less: (T, T) -> bool, x: T, s: seq<T>): seq<T> {
    if s == [] || !less(s[0], x) then [x] + s else [s[0]] + Insert(less, x, s[1..])
  }

  function SortBy<T>(less: (T, T) -> bool, s: seq<T>): seq<T> {
    if s == [] then [] else Insert(less, s[0], SortBy(less, s[1..]))
  }

  lemma {:induction false} InsertPermutes<T>(less: (T, T) -> bool, x: T, s: seq<T>)
    ensures multiset(Insert(less, x, s)) == multiset(s) + multiset{x}
    ensures forall y :: y in Insert(less, x, s) <==> y in s || y == x
  {
    if s != [] && less(s[0], x) {
      InsertPermutes(less, x, s[1..]);
      assert s == [s[0]] + s[1..];
    }
  }

  lemma {:induction false} InsertSorts<T(!new)>(less: (T, T) -> bool, x: T, s: seq<T>)
    requires StrictWeak(less) && Sorted(less, s)
    ensures Sorted(less, Insert(less, x, s))
  {
    if s != [] && less(s[0], x) {
      InsertSorts(less, x, s[1..]);
      InsertPermutes(less, x, s[1..]);
      forall y | y in Insert(less, x, s[1..]) ensures !less(y, s[0]) {
        if y != x { assert y in s[1..]; }
      }
    } else {
      forall k | 0 <= k < |s| ensures !less(s[k], x) {
        if k > 0 { assert !less(s[k], s[0]); }
      }
    }
  }

  /** Sorting permutes, and puts in order. */
  lemma {:induction false} SortSorts<T(!new)>(less: (T, T) -> bool, s: seq<T>)
    requires StrictWeak(less)
    ensures Sorted(less, SortBy(less, s))
    ensures multiset(SortBy(less, s)) == multiset(s)
  {
    if s != [] {
      SortSorts(less, s[1..]);
      InsertSorts(less, s[0], SortBy(less, s[1..]));
      InsertPermutes(less, s[0], SortBy(less, s[1..]));
      assert s == [s[0]] + s[1..];
    }
  }

  lemma SameElements<T>(s: seq<T>, t: seq<T>)
    requires multiset(s) == multiset(t)
    ensures |s| == |t| && forall x :: x in s <==> x in t
  {
    assert |multiset(s)| == |multiset(t)|;
    forall x ensures x in s <==> x in t {
      assert x in s <==> x in multiset(s);
      assert x in t <==> x in multiset(t);
    }
  }

  lemma SameFirst<T>(less: (T, T) -> bool, s: seq<T>, t: seq<T>)
    requires s != [] && t != [] && s[0] in t && t[0] in s && Sorted(less, s) && Sorted(less, t)
    requires s[0] != t[0] ==> less(s[0], t[0]) || less(t[0], s[0])
    ensures s[0] == t[0]
  {
  }

  lemma SameRest<T>(a: T, s: seq<T>, t: seq<T>)
    requires multiset([a] + s) == multiset([a] + t)
    ensures multiset(s) == multiset(t)
  {
    assert multiset([a] + s) == multiset{a} + multiset(s);
    assert multiset([a] + t) == multiset{a} + multiset(t);
    assert multiset(s) == multiset([a] + s) - multiset{a};
  }

  /** Where nothing is tied, there is one sorted arrangement. */
  lemma {:induction false} SortedIsUnique<T(!new)>(less: (T, T) -> bool, s: seq<T>, t: seq<T>)
    requires multiset(s) == multiset(t) && Sorted(less, s) && Sorted(less, t)
    requires forall a, b | a in s && b in s && a != b :: less(a, b) || less(b, a)
    ensures s == t
  {
    SameElements(s, t);
    if s != [] {
      var a := s[0];
      SameFirst(less, s, t);
      assert s == [a] + s[1..] && t == [a] + t[1..];
      SameRest(a, s[1..], t[1..]);
      SortedIsUnique(less, s[1..], t[1..]);
    }
  }

  /** In a list without repeats each element counts once. */
  lemma {:induction false} Once<T>(s: seq<T>, x: T)
    requires forall i, j | 0 <= i < j < |s| :: s[i] != s[j]
    ensures multiset(s)[x] == if x in s then 1 else 0
  {
    if s != [] {
      assert s == [s[0]] + s[1..];
      assert multiset(s) == multiset{s[0]} + multiset(s[1..]);
      Once(s[1..], x);
      assert s[0] !in s[1..];
    }
  }

  lemma Twice<T>(s: seq<T>, i: nat, j: nat)
    requires i < j < |s| && s[i] == s[j]
    ensures multiset(s)[s[i]] >= 2
  {
    assert s == s[..j] + [s[j]] + s[j + 1..];
    assert multiset(s) == multiset(s[..j]) + multiset{s[j]} + multiset(s[j + 1..]);
    assert s[..j][i] == s[i] && s[i] in multiset(s[..j]);
  }
}
