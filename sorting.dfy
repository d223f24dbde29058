/**
 * The sorts the core hands to java.util (Collections.sort, List.sort,
 * MutableList.sortThis): a stable insertion sort by a strict "less than"
 * derived from a compareTo, with its permutation and order guarantees.
 */
module Sorting {

  /** `lt` is irreflexive-asymmetric and its incomparability is transitive. */
  ghost predicate StrictWeakOrder<T(!new)>(lt: (T, T) -> bool) {
    && (forall a, b :: lt(a, b) ==> !lt(b, a))
    && (forall a, b, c :: lt(a, c) ==> lt(a, b) || lt(b, c))
  }

  /** Any two different values are ordered one way or the other. */
  ghost predicate Total<T(!new)>(lt: (T, T) -> bool) {
    forall a, b :: a != b ==> lt(a, b) || lt(b, a)
  }

  /** No later element is smaller than an earlier one. */
  ghost predicate Sorted<T>(lt: (T, T) -> bool, s: seq<T>) {
    forall i, j :: 0 <= i < j < |s| ==> !lt(s[j], s[i])
  }

  /** Inserts `x` after every element it is not smaller than. */
  function Insert<T>(lt: (T, T) -> bool, x: T, s: seq<T>): (r: seq<T>)
    ensures multiset(r) == multiset(s) + multiset{x}
    ensures |r| == |s| + 1
  {
    if s == [] then [x]
    else if lt(x, s[0]) then [x] + s
    else
      assert s == [s[0]] + s[1..];
      [s[0]] + Insert(lt, x, s[1..])
  }

  lemma {:induction false} InsertSorted<T(!new)>(lt: (T, T) -> bool, x: T, s: seq<T>)
    requires StrictWeakOrder(lt) && Sorted(lt, s)
    ensures Sorted(lt, Insert(lt, x, s))
  {
    if s == [] {
    } else if lt(x, s[0]) {
      forall j | 0 <= j < |s| ensures !lt(s[j], x) {
        if j > 0 {
          assert !lt(s[j], s[0]);
        }
      }
    } else {
      InsertSorted(lt, x, s[1..]);
      var t := Insert(lt, x, s[1..]);
      forall k | 0 <= k < |t| ensures !lt(t[k], s[0]) {
        assert t[k] in multiset(t);
        if t[k] != x {
          assert t[k] in multiset(s[1..]);
          var j :| 0 <= j < |s[1..]| && s[1..][j] == t[k];
          assert s[j + 1] == t[k];
        }
      }
    }
  }

  /** A stable sort: equal-ranked elements keep their input order. */
  function SortBy<T>(lt: (T, T) -> bool, s: seq<T>): (r: seq<T>)
    ensures multiset(r) == multiset(s)
    ensures |r| == |s|
  {
    if s == [] then []
    else
      assert s == s[..|s| - 1] + [s[|s| - 1]];
      Insert(lt, s[|s| - 1], SortBy(lt, s[..|s| - 1]))
  }

  lemma {:induction false} SortBySorted<T(!new)>(lt: (T, T) -> bool, s: seq<T>)
    requires StrictWeakOrder(lt)
    ensures Sorted(lt, SortBy(lt, s))
  {
    if s != [] {
      SortBySorted(lt, s[..|s| - 1]);
      InsertSorted(lt, s[|s| - 1], SortBy(lt, s[..|s| - 1]));
    }
  }

  /**
   * Under a total order there is only one sorted arrangement of a multiset,
   * so the sort's output does not depend on the input order.
   */
  lemma {:induction false} SortedUnique<T(!new)>(lt: (T, T) -> bool, a: seq<T>, b: seq<T>)
    requires Total(lt)
    requires Sorted(lt, a) && Sorted(lt, b) && multiset(a) == multiset(b)
    ensures a == b
  {
    if a != [] {
      SortedHeads(lt, a, b);
      assert a == [a[0]] + a[1..];
      assert b == [b[0]] + b[1..];
      assert multiset(a) == multiset{a[0]} + multiset(a[1..]);
      assert multiset(b) == multiset{b[0]} + multiset(b[1..]);
      assert multiset(a[1..]) == multiset(a) - multiset{a[0]};
      assert multiset(b[1..]) == multiset(b) - multiset{b[0]};
      SortedTail(lt, a);
      SortedTail(lt, b);
      SortedUnique(lt, a[1..], b[1..]);
    } else {
      assert |b| == 0;
    }
  }

  /** The tail of a sorted sequence is sorted. */
  lemma SortedTail<T(!new)>(lt: (T, T) -> bool, a: seq<T>)
    requires Sorted(lt, a) && a != []
    ensures Sorted(lt, a[1..])
  {
    forall i, j | 0 <= i < j < |a[1..]| ensures !lt(a[1..][j], a[1..][i]) {
      assert a[1..][j] == a[j + 1] && a[1..][i] == a[i + 1];
    }
  }

  lemma SortedHeads<T(!new)>(lt: (T, T) -> bool, a: seq<T>, b: seq<T>)
    requires Total(lt)
    requires Sorted(lt, a) && Sorted(lt, b) && multiset(a) == multiset(b)
    requires a != []
    ensures b != [] && a[0] == b[0]
  {
    assert a[0] in multiset(b);
    var j :| 0 <= j < |b| && b[j] == a[0];
    assert b[0] in multiset(a);
    var i :| 0 <= i < |a| && a[i] == b[0];
    if j > 0 {
      assert !lt(b[j], b[0]);
    }
    if i > 0 {
      assert !lt(a[i], a[0]);
    }
  }

  /** Sorting two arrangements of the same elements gives the same list. */
  lemma SortByOrderIndependent<T(!new)>(lt: (T, T) -> bool, a: seq<T>, b: seq<T>)
    requires StrictWeakOrder(lt) && Total(lt)
    requires multiset(a) == multiset(b)
    ensures SortBy(lt, a) == SortBy(lt, b)
  {
    SortBySorted(lt, a);
    SortBySorted(lt, b);
    SortedUnique(lt, SortBy(lt, a), SortBy(lt, b));
  }

  /** The reverse of a sequence. */
  function Reverse<T>(s: seq<T>): (r: seq<T>)
    ensures |r| == |s|
    ensures forall i :: 0 <= i < |s| ==> r[i] == s[|s| - 1 - i]
    ensures multiset(r) == multiset(s)
  {
    if s == [] then []
    else
      assert s == [s[0]] + s[1..];
      Reverse(s[1..]) + [s[0]]
  }
}
