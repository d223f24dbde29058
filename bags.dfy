/**
 * The Eclipse Collections bag operations the core uses, on Dafny multisets:
 * `addOccurrences`, `sizeDistinct`, and `topOccurrences` (a ranking of the
 * distinct items by occurrence count).
 */
module Bags {
  import opened Wrappers

  /** `bag.addOccurrences(x, n)`: a negative count is rejected, zero changes nothing. */
  function AddOccurrences<T(!new)>(b: multiset<T>, x: T, n: int): (r: Result<multiset<T>>)
    ensures n < 0 <==> r.Failure?
    ensures r.Failure? ==> r.error == IllegalArgumentError
    ensures r.Success? ==> r.value[x] == b[x] + n
    ensures r.Success? ==> forall y :: y != x ==> r.value[y] == b[y]
    ensures r.Success? ==> |r.value| == |b| + n
    ensures r.Success? ==> r.value == b + Repeat(x, n)
  {
    if n < 0 then Failure(IllegalArgumentError)
    else
      assert b[x := b[x] + n] == b + Repeat(x, n);
      Success(b[x := b[x] + n])
  }

  /** `n` copies of `x`. */
  function Repeat<T(!new)>(x: T, n: nat): (r: multiset<T>)
    ensures |r| == n
    ensures r[x] == n && forall y :: y != x ==> r[y] == 0
  {
    if n == 0 then multiset{} else Repeat(x, n - 1) + multiset{x}
  }

  /** `bag.sizeDistinct()`. */
  function SizeDistinct<T(!new)>(b: multiset<T>): nat {
    |set x | x in b|
  }

  /** Sum of the counts of the pairs in a list. */
  function TotalCount<T(!new)>(r: seq<(T, int)>): int {
    if r == [] then 0 else r[0].1 + TotalCount(r[1..])
  }

  /** The items listed in a ranking. */
  function Items<T(!new)>(r: seq<(T, int)>): (s: set<T>)
    ensures forall i :: 0 <= i < |r| ==> r[i].0 in s
    ensures forall x :: x in s ==> exists i :: 0 <= i < |r| && r[i].0 == x
  {
    if r == [] then {} else {r[0].0} + Items(r[1..])
  }

  /**
   * `r` lists every distinct item of `b` exactly once with its occurrence
   * count, as `forEachWithOccurrences` visits them.
   */
  ghost predicate IsTally<T(!new)>(b: multiset<T>, r: seq<(T, int)>) {
    && (forall i, j :: 0 <= i < j < |r| ==> r[i].0 != r[j].0)
    && (forall i :: 0 <= i < |r| ==> r[i].0 in b && r[i].1 == b[r[i].0])
    && (forall x :: x in b ==> exists i :: 0 <= i < |r| && r[i].0 == x)
  }

  /**
   * What `bag.topOccurrences(bag.sizeDistinct())` returns: a tally by
   * non-increasing count.
   */
  ghost predicate IsRanking<T(!new)>(b: multiset<T>, r: seq<(T, int)>) {
    && IsTally(b, r)
    && (forall i, j :: 0 <= i < j < |r| ==> r[i].1 >= r[j].1)
  }

  /** Removing every copy of an item that occurs makes the bag smaller. */
  lemma RemoveAll<T(!new)>(b: multiset<T>, x: T)
    ensures b == b[x := 0] + Repeat(x, b[x])
    ensures x in b ==> |b[x := 0]| < |b|
  {
  }

  /** A non-empty bag has an item of maximal count. */
  lemma {:induction false} MostFrequentExists<T(!new)>(b: multiset<T>)
    requires b != multiset{}
    ensures exists x :: x in b && forall y :: y in b ==> b[y] <= b[x]
    decreases |b|
  {
    var z :| z in b;
    var rest := b[z := 0];
    RemoveAll(b, z);
    if rest == multiset{} {
      forall y | y in b ensures b[y] <= b[z] {
        assert rest[y] == (if y == z then 0 else b[y]);
      }
    } else {
      MostFrequentExists(rest);
      var m :| m in rest && forall y :: y in rest ==> rest[y] <= rest[m];
      assert m != z && rest[m] == b[m];
      var best := if b[z] <= b[m] then m else z;
      assert b[z] <= b[best] && b[m] <= b[best];
      forall y | y in b ensures b[y] <= b[best] {
        if y != z {
          assert rest[y] == b[y];
          assert y in rest;
        }
      }
    }
  }

  /** The loop state of Tally: `r` tallies the items already taken out of `rest`. */
  ghost predicate TalliedPrefix<T(!new)>(b: multiset<T>, rest: multiset<T>, r: seq<(T, int)>) {
    && (forall x :: rest[x] == 0 || rest[x] == b[x])
    && (forall i, j :: 0 <= i < j < |r| ==> r[i].0 != r[j].0)
    && (forall i :: 0 <= i < |r| ==> r[i].0 in b && r[i].1 == b[r[i].0] && rest[r[i].0] == 0)
    && (forall x :: x in b && x !in rest ==> exists i :: 0 <= i < |r| && r[i].0 == x)
  }

  lemma TalliedPrefixStep<T(!new)>(b: multiset<T>, rest: multiset<T>, r: seq<(T, int)>, x: T)
    requires TalliedPrefix(b, rest, r) && x in rest
    ensures TalliedPrefix(b, rest[x := 0], r + [(x, rest[x])])
  {
    var r' := r + [(x, rest[x])];
    var rest' := rest[x := 0];
    forall y | y in b && y !in rest' ensures exists i :: 0 <= i < |r'| && r'[i].0 == y {
      if y == x {
        assert r'[|r|].0 == y;
      } else {
        assert y !in rest;
        var i :| 0 <= i < |r| && r[i].0 == y;
        assert r'[i].0 == y;
      }
    }
  }

  /**
   * The loop state of TopOccurrences: a tallied prefix by non-increasing count,
   * none of whose counts is below that of an item still in `rest`.
   */
  ghost predicate RankedPrefix<T(!new)>(b: multiset<T>, rest: multiset<T>, r: seq<(T, int)>) {
    && TalliedPrefix(b, rest, r)
    && (forall i, j :: 0 <= i < j < |r| ==> r[i].1 >= r[j].1)
    && (forall i, x :: 0 <= i < |r| && x in rest ==> r[i].1 >= rest[x])
  }

  lemma RankedPrefixStep<T(!new)>(b: multiset<T>, rest: multiset<T>, r: seq<(T, int)>, x: T)
    requires RankedPrefix(b, rest, r)
    requires x in rest && forall y :: y in rest ==> rest[y] <= rest[x]
    ensures RankedPrefix(b, rest[x := 0], r + [(x, rest[x])])
  {
    TalliedPrefixStep(b, rest, r, x);
  }

  lemma RankedPrefixDone<T(!new)>(b: multiset<T>, r: seq<(T, int)>)
    requires RankedPrefix(b, multiset{}, r)
    ensures IsRanking(b, r)
  {
  }

  /** `bag.forEachWithOccurrences(...)` collecting (item, count) pairs, in an unspecified order. */
  method Tally<T(!new)>(b: multiset<T>) returns (r: seq<(T, int)>)
    ensures IsTally(b, r)
  {
    var rest := b;
    r := [];
    while rest != multiset{}
      invariant TalliedPrefix(b, rest, r)
      decreases |rest|
    {
      var x :| x in rest;
      TalliedPrefixStep(b, rest, r, x);
      RemoveAll(rest, x);
      r := r + [(x, rest[x])];
      rest := rest[x := 0];
    }
  }

  /** Two tallies of one bag hold the same pairs, whatever the visiting order. */
  lemma TallyMultiset<T(!new)>(b: multiset<T>, r: seq<(T, int)>, s: seq<(T, int)>)
    requires IsTally(b, r) && IsTally(b, s)
    ensures multiset(r) == multiset(s)
  {
    forall p ensures multiset(r)[p] == multiset(s)[p] {
      DistinctOnce(b, r, p);
      DistinctOnce(b, s, p);
      if p in r {
        InOtherTally(b, r, s, p);
      }
      if p in s {
        InOtherTally(b, s, r, p);
      }
    }
  }

  /** A pair of one tally of a bag is a pair of every other. */
  lemma InOtherTally<T(!new)>(b: multiset<T>, r: seq<(T, int)>, s: seq<(T, int)>, p: (T, int))
    requires IsTally(b, r) && IsTally(b, s) && p in r
    ensures p in s
  {
    var i :| 0 <= i < |r| && r[i] == p;
    var j :| 0 <= j < |s| && s[j].0 == p.0;
    assert s[j] == p;
  }

  /** `bag.topOccurrences(bag.sizeDistinct())`; ties come out in an unspecified order. */
  method TopOccurrences<T(!new)>(b: multiset<T>) returns (r: seq<(T, int)>)
    ensures IsRanking(b, r)
  {
    var rest := b;
    r := [];
    while rest != multiset{}
      invariant RankedPrefix(b, rest, r)
      decreases |rest|
    {
      MostFrequentExists(rest);
      var x :| x in rest && forall y :: y in rest ==> rest[y] <= rest[x];
      RankedPrefixStep(b, rest, r, x);
      RemoveAll(rest, x);
      r := r + [(x, rest[x])];
      rest := rest[x := 0];
    }
    RankedPrefixDone(b, r);
  }

  /** Dropping the first entry of a tally tallies the bag without that item. */
  lemma TallyTail<T(!new)>(b: multiset<T>, r: seq<(T, int)>)
    requires IsTally(b, r) && r != []
    ensures IsTally(b[r[0].0 := 0], r[1..])
  {
    var rest := b[r[0].0 := 0];
    forall y | y in rest ensures exists i :: 0 <= i < |r[1..]| && r[1..][i].0 == y {
      var i :| 0 <= i < |r| && r[i].0 == y;
      assert r[1..][i - 1].0 == y;
    }
  }

  /** The counts of a tally add up to the size of the bag. */
  lemma {:induction false} TallyTotal<T(!new)>(b: multiset<T>, r: seq<(T, int)>)
    requires IsTally(b, r)
    ensures TotalCount(r) == |b|
    decreases |r|
  {
    if r == [] {
      assert forall x :: b[x] == 0;
    } else {
      TallyTail(b, r);
      RemoveAll(b, r[0].0);
      TallyTotal(b[r[0].0 := 0], r[1..]);
    }
  }

  /** A tally has one entry per distinct item. */
  lemma {:induction false} TallySize<T(!new)>(b: multiset<T>, r: seq<(T, int)>)
    requires IsTally(b, r)
    ensures |r| == SizeDistinct(b)
    decreases |r|
  {
    if r == [] {
      assert forall x :: x !in b;
    } else {
      var rest := b[r[0].0 := 0];
      TallyTail(b, r);
      TallySize(rest, r[1..]);
      assert (set x | x in b) == (set x | x in rest) + {r[0].0};
    }
  }

  /** Every count in the list is at least zero. */
  predicate NonNegative<T>(r: seq<(T, int)>) {
    forall i :: 0 <= i < |r| ==> r[i].1 >= 0
  }

  /** The bag holding `r[i].1` copies of each `r[i].0`. */
  function BagOf<T(!new)>(r: seq<(T, int)>): multiset<T>
    requires NonNegative(r)
  {
    if r == [] then multiset{} else Repeat(r[0].0, r[0].1) + BagOf(r[1..])
  }

  /** A tally describes its bag completely. */
  lemma {:induction false} TallyBagOf<T(!new)>(b: multiset<T>, r: seq<(T, int)>)
    requires IsTally(b, r)
    ensures NonNegative(r)
    ensures BagOf(r) == b
    decreases |r|
  {
    if r == [] {
      assert forall x :: b[x] == 0;
    } else {
      TallyTail(b, r);
      RemoveAll(b, r[0].0);
      TallyBagOf(b[r[0].0 := 0], r[1..]);
    }
  }

  lemma NonNegativePermutation<T(!new)>(r: seq<(T, int)>, s: seq<(T, int)>)
    requires NonNegative(r) && multiset(r) == multiset(s)
    ensures NonNegative(s)
  {
    forall i | 0 <= i < |s| ensures s[i].1 >= 0 {
      assert s[i] in multiset(r);
    }
  }

  /** BagOf does not depend on the order of the entries. */
  lemma {:induction false} BagOfPermutation<T(!new)>(r: seq<(T, int)>, s: seq<(T, int)>)
    requires NonNegative(r) && NonNegative(s)
    requires multiset(r) == multiset(s)
    ensures BagOf(r) == BagOf(s)
    decreases |r|
  {
    if r == [] {
      assert |s| == |multiset(s)|;
    } else {
      assert r == [r[0]] + r[1..];
      assert multiset(r) == multiset(r[1..]) + multiset{r[0]};
      var k := FindIndex(s, r[0]);
      var s' := BagOfRemoveAt(s, k);
      assert NonNegative(r[1..]);
      MultisetCancel(multiset(r[1..]), multiset(s'), r[0]);
      BagOfPermutation(r[1..], s');
    }
  }

  lemma FindIndex<E>(s: seq<E>, x: E) returns (k: int)
    requires x in multiset(s)
    ensures 0 <= k < |s| && s[k] == x
  {
    assert x in s;
    k :| 0 <= k < |s| && s[k] == x;
  }

  lemma MultisetCancel<E>(a: multiset<E>, b: multiset<E>, x: E)
    requires a + multiset{x} == b + multiset{x}
    ensures a == b
  {
    assert forall y :: a[y] == (a + multiset{x})[y] - (if y == x then 1 else 0);
  }

  /** Taking entry `k` out of a list. */
  lemma BagOfRemoveAt<T(!new)>(s: seq<(T, int)>, k: int) returns (s': seq<(T, int)>)
    requires NonNegative(s)
    requires 0 <= k < |s|
    ensures s' == s[..k] + s[k + 1..]
    ensures NonNegative(s')
    ensures multiset(s) == multiset(s') + multiset{s[k]}
    ensures BagOf(s) == Repeat(s[k].0, s[k].1) + BagOf(s')
  {
    s' := s[..k] + s[k + 1..];
    assert s == s[..k] + ([s[k]] + s[k + 1..]);
    BagOfConcat(s[..k], [s[k]] + s[k + 1..]);
    BagOfConcat(s[..k], s[k + 1..]);
    assert ([s[k]] + s[k + 1..])[1..] == s[k + 1..];
  }

  lemma {:induction false} BagOfConcat<T(!new)>(r: seq<(T, int)>, s: seq<(T, int)>)
    requires NonNegative(r)
    requires NonNegative(s)
    ensures BagOf(r + s) == BagOf(r) + BagOf(s)
  {
    if r != [] {
      assert (r + s)[1..] == r[1..] + s;
      BagOfConcat(r[1..], s);
    } else {
      assert r + s == s;
    }
  }

  /** Extending a prefix by one entry adds that entry's copies. */
  lemma BagOfSnoc<T(!new)>(s: seq<(T, int)>, i: int)
    requires 0 <= i < |s| && NonNegative(s[..i]) && s[i].1 >= 0
    ensures NonNegative(s[..i + 1])
    ensures BagOf(s[..i + 1]) == BagOf(s[..i]) + Repeat(s[i].0, s[i].1)
  {
    assert s[..i + 1] == s[..i] + [s[i]];
    BagOfConcat(s[..i], [s[i]]);
  }

  /** A negative entry in a reordering is a negative entry of the original. */
  lemma NegativeSurvivesPermutation<T(!new)>(r: seq<(T, int)>, s: seq<(T, int)>, i: int)
    requires multiset(r) == multiset(s) && 0 <= i < |r| && r[i].1 < 0
    ensures !NonNegative(s)
  {
    assert r[i] in multiset(s);
  }

  /** Reordering a tally leaves it a tally. */
  lemma TallyPermutation<T(!new)>(b: multiset<T>, r: seq<(T, int)>, s: seq<(T, int)>)
    requires IsTally(b, r) && multiset(r) == multiset(s)
    ensures IsTally(b, s)
  {
    forall i | 0 <= i < |s| ensures s[i].0 in b && s[i].1 == b[s[i].0] {
      assert s[i] in multiset(r);
    }
    forall x | x in b ensures exists i :: 0 <= i < |s| && s[i].0 == x {
      var k :| 0 <= k < |r| && r[k].0 == x;
      assert r[k] in multiset(s);
    }
    forall i, j | 0 <= i < j < |s| ensures s[i].0 != s[j].0 {
      if s[i].0 == s[j].0 {
        assert s[i] == s[j];
        TwiceInSeq(s, i, j);
        DistinctOnce(b, r, s[i]);
        assert false;
      }
    }
  }

  lemma TwiceInSeq<E>(s: seq<E>, i: int, j: int)
    requires 0 <= i < j < |s| && s[i] == s[j]
    ensures multiset(s)[s[i]] >= 2
  {
    assert s == s[..j] + s[j..];
    assert s[i] in multiset(s[..j]);
    assert s[j] in multiset(s[j..]);
  }

  lemma {:induction false} DistinctOnce<T(!new)>(b: multiset<T>, r: seq<(T, int)>, p: (T, int))
    requires forall i, j :: 0 <= i < j < |r| ==> r[i].0 != r[j].0
    ensures multiset(r)[p] <= 1
  {
    if r != [] {
      assert r == [r[0]] + r[1..];
      DistinctOnce(b, r[1..], p);
      if r[0] == p {
        assert p !in r[1..];
      }
    }
  }

  /** The total count the entries of `r` give to `x`, duplicates summed. */
  function CountFor<T(==)>(r: seq<(T, int)>, x: T): int {
    if r == [] then 0 else (if r[0].0 == x then r[0].1 else 0) + CountFor(r[1..], x)
  }

  /** Adding the entries one by one gives each item the sum of its counts. */
  lemma {:induction false} BagOfCount<T(!new)>(r: seq<(T, int)>, x: T)
    requires NonNegative(r)
    ensures BagOf(r)[x] == CountFor(r, x)
  {
    if r != [] {
      BagOfCount(r[1..], x);
    }
  }

  /** Putting an item in front of a tally of the rest of the bag. */
  lemma TallyCons<T(!new)>(b: multiset<T>, x: T, t: seq<(T, int)>)
    requires x in b && IsTally(b[x := 0], t)
    ensures IsTally(b, [(x, b[x])] + t)
  {
    var r := [(x, b[x])] + t;
    forall i | 0 <= i < |r| ensures r[i].0 in b && r[i].1 == b[r[i].0] {
      if i > 0 {
        assert r[i] == t[i - 1];
      }
    }
    forall y | y in b ensures exists i :: 0 <= i < |r| && r[i].0 == y {
      if y == x {
        assert r[0].0 == y;
      } else {
        assert y in b[x := 0];
        var i :| 0 <= i < |t| && t[i].0 == y;
        assert r[i + 1].0 == y;
      }
    }
  }

  /** One tally of `b`, fixed once and for all; any other tally is a reordering of it. */
  ghost function SomeTally<T(!new)>(b: multiset<T>): (r: seq<(T, int)>)
    ensures IsTally(b, r)
    decreases |b|
  {
    if b == multiset{} then
      assert forall x :: x !in b;
      []
    else
      var x :| x in b;
      RemoveAll(b, x);
      TallyCons(b, x, SomeTally(b[x := 0]));
      [(x, b[x])] + SomeTally(b[x := 0])
  }

  /** `f` applied to every element, in order. */
  function Map<A, B>(f: A -> B, s: seq<A>): (r: seq<B>)
    ensures |r| == |s| && forall i :: 0 <= i < |s| ==> r[i] == f(s[i])
  {
    if s == [] then [] else [f(s[0])] + Map(f, s[1..])
  }

  /** Adding four bags one after the other adds their sum. */
  lemma UnionAssociative4<T>(p: multiset<T>, a: multiset<T>, b: multiset<T>, c: multiset<T>, d: multiset<T>)
    ensures p + a + b + c + d == p + (a + b + c + d)
  {
  }

  /** A loop adding `f(x)` for each `x` of `s`, in order. */
  method MapEach<A, B>(f: A -> B, s: seq<A>) returns (r: seq<B>)
    ensures r == Map(f, s)
  {
    r := [];
    for i := 0 to |s|
      invariant |r| == i && forall k :: 0 <= k < i ==> r[k] == f(s[k])
    {
      r := r + [f(s[i])];
    }
  }

  /** Mapping distributes over concatenation. */
  lemma MapConcat<A, B>(f: A -> B, a: seq<A>, b: seq<A>)
    ensures Map(f, a + b) == Map(f, a) + Map(f, b)
  {
  }

  /** Mapping two reorderings of a list gives two reorderings of the image. */
  lemma {:induction false} MapPreservesMultiset<A, B>(f: A -> B, s: seq<A>, t: seq<A>)
    requires multiset(s) == multiset(t)
    ensures multiset(Map(f, s)) == multiset(Map(f, t))
    decreases |s|
  {
    if s == [] {
      assert |t| == |multiset(t)|;
    } else {
      var k := FindIndex(t, s[0]);
      var t1, t2 := t[..k], t[k + 1..];
      assert t == t1 + [t[k]] + t2;
      assert s == [s[0]] + s[1..];
      assert multiset(t) == multiset(t1 + t2) + multiset{s[0]};
      MultisetCancel(multiset(s[1..]), multiset(t1 + t2), s[0]);
      MapPreservesMultiset(f, s[1..], t1 + t2);
      MapConcat(f, [s[0]], s[1..]);
      MapConcat(f, t1 + [t[k]], t2);
      MapConcat(f, t1, [t[k]]);
      MapConcat(f, t1, t2);
    }
  }

  /** The sum of the bags `f` gives for the elements of a sequence. */
  function SumBags<T, U>(f: T -> multiset<U>, s: seq<T>): multiset<U> {
    if s == [] then multiset{} else f(s[0]) + SumBags(f, s[1..])
  }

  lemma {:induction false} SumBagsConcat<T, U>(f: T -> multiset<U>, s: seq<T>, t: seq<T>)
    ensures SumBags(f, s + t) == SumBags(f, s) + SumBags(f, t)
    decreases |s|
  {
    if s == [] {
      assert s + t == t;
    } else {
      assert (s + t)[1..] == s[1..] + t;
      SumBagsConcat(f, s[1..], t);
    }
  }

  /** A sum of bags does not depend on the order of its terms. */
  lemma {:induction false} SumBagsPermutation<T, U>(f: T -> multiset<U>, s: seq<T>, t: seq<T>)
    requires multiset(s) == multiset(t)
    ensures SumBags(f, s) == SumBags(f, t)
    decreases |s|
  {
    if s == [] {
      assert t == [] by {
        assert |t| == |multiset(t)|;
      }
    } else {
      var k := FindIndex(t, s[0]);
      var t' := t[..k] + t[k + 1..];
      assert t == t[..k] + [t[k]] + t[k + 1..];
      assert multiset(t) == multiset(t') + multiset{s[0]};
      assert s == [s[0]] + s[1..];
      assert multiset(s) == multiset(s[1..]) + multiset{s[0]};
      MultisetCancel(multiset(s[1..]), multiset(t'), s[0]);
      SumBagsPermutation(f, s[1..], t');
      SumBagsConcat(f, t[..k] + [t[k]], t[k + 1..]);
      SumBagsConcat(f, t[..k], [t[k]]);
      SumBagsConcat(f, t[..k], t[k + 1..]);
      assert SumBags(f, [t[k]]) == f(t[k]);
    }
  }

  /**
   * A loop that adds the bag `f` gives for each element to one accumulator
   * and stops at the first element for which `f` raises.
   */
  function SumResults<T, U>(f: T -> Result<multiset<U>>, s: seq<T>): Result<multiset<U>> {
    if s == [] then Success(multiset{})
    else
      var c :- f(s[0]);
      var rest :- SumResults(f, s[1..]);
      Success(c + rest)
  }

  /** An accumulator `acc` continued by `r`. */
  function AddTo<U>(acc: multiset<U>, r: Result<multiset<U>>): Result<multiset<U>> {
    if r.Failure? then r else Success(acc + r.value)
  }

  /** `a` and then `b`: the first failure, or the sum. */
  function Then<U>(a: Result<multiset<U>>, b: Result<multiset<U>>): Result<multiset<U>> {
    var x :- a;
    var y :- b;
    Success(x + y)
  }

  /** One step of such a loop: a failure ends it, a bag moves into the accumulator. */
  lemma AddToThen<U>(acc: multiset<U>, a: Result<multiset<U>>, b: Result<multiset<U>>)
    ensures a.Failure? ==> AddTo(acc, Then(a, b)) == Failure(a.error)
    ensures a.Success? ==> AddTo(acc, Then(a, b)) == AddTo(acc + a.value, b)
  {
    if a.Success? && b.Success? {
      assert acc + (a.value + b.value) == acc + a.value + b.value;
    }
  }

  /** What `f` gives for an element, with a failure counted as nothing. */
  function Values<T, U>(f: T -> Result<multiset<U>>): T -> multiset<U> {
    x => if f(x).Success? then f(x).value else multiset{}
  }

  /** The loop succeeds exactly when every element succeeds, and then gives the sum of their bags. */
  lemma {:induction false} SumResultsIsSum<T, U>(f: T -> Result<multiset<U>>, s: seq<T>)
    ensures SumResults(f, s).Success? <==> forall i :: 0 <= i < |s| ==> f(s[i]).Success?
    ensures SumResults(f, s).Success? ==> SumResults(f, s).value == SumBags(Values(f), s)
    decreases |s|
  {
    if s != [] {
      SumResultsIsSum(f, s[1..]);
      if f(s[0]).Success? && SumResults(f, s[1..]).Success? {
        forall i | 0 <= i < |s| ensures f(s[i]).Success? {
          if i > 0 {
            assert s[i] == s[1..][i - 1];
          }
        }
      }
      if SumResults(f, s[1..]).Failure? {
        var i :| 0 <= i < |s[1..]| && f(s[1..][i]).Failure?;
        assert s[1..][i] == s[i + 1];
      }
    }
  }

  /**
   * Whether such a loop succeeds, and what it gives when it does, do not
   * depend on the order of the elements.
   */
  lemma SumResultsPermutation<T, U>(f: T -> Result<multiset<U>>, s: seq<T>, t: seq<T>)
    requires multiset(s) == multiset(t)
    ensures SumResults(f, s).Success? <==> SumResults(f, t).Success?
    ensures SumResults(f, s).Success? ==> SumResults(f, s) == SumResults(f, t)
  {
    SumResultsIsSum(f, s);
    SumResultsIsSum(f, t);
    forall i | 0 <= i < |s| && f(s[i]).Failure? ensures SumResults(f, t).Failure? {
      assert s[i] in multiset(t);
      var k := FindIndex(t, s[i]);
    }
    forall i | 0 <= i < |t| && f(t[i]).Failure? ensures SumResults(f, s).Failure? {
      assert t[i] in multiset(s);
      var k := FindIndex(s, t[i]);
    }
    if SumResults(f, s).Success? {
      SumBagsPermutation(Values(f), s, t);
    }
  }

  lemma ThenAssociative<U>(a: Result<multiset<U>>, b: Result<multiset<U>>, c: Result<multiset<U>>)
    ensures Then(Then(a, b), c) == Then(a, Then(b, c))
  {
    if a.Success? && b.Success? && c.Success? {
      assert a.value + b.value + c.value == a.value + (b.value + c.value);
    }
  }

  /** Every term of a sum of bags is contained in it. */
  lemma {:induction false} SumBagsHas<T, U>(f: T -> multiset<U>, s: seq<T>, i: int)
    requires 0 <= i < |s|
    ensures f(s[i]) <= SumBags(f, s)
    decreases |s|
  {
    if i > 0 {
      SumBagsHas(f, s[1..], i - 1);
      assert s[1..][i - 1] == s[i];
    }
  }
}
