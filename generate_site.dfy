/**
 * The data shaping of GenerateSiteCommand: the chart series (`KeyValue`
 * lists) with their order, the top-n with an "Others" bucket, survivor
 * rates, archetypes of entries without a list, the match tally, the deck
 * and win-rate orders, and the Twitch link routing.
 */
module SiteGeneration {
  import opened Wrappers
  import opened CardModel
  import opened DeckModel
  import opened ArchetypeModel
  import opened EventModel
  import JavaString
  import Sorting
  import Bags

  // ---------------------------------------------------------------------
  // KeyValue and its order.
  // ---------------------------------------------------------------------

  /** `KeyValue(key, value)`: one bar of a chart. */
  datatype KeyValue = KeyValue(key: string, value: int)

  const OTHERS: string := "Others"

  /** `KeyValue.compareTo` as written: "Others" first, then by value, then by key. */
  function CompareKeyValues(a: KeyValue, b: KeyValue): (r: int)
    ensures a.key == OTHERS ==> r == -1
    ensures a.key != OTHERS && b.key == OTHERS ==> r == 1
  {
    if a.key == OTHERS then -1
    else if b.key == OTHERS then 1
    else if a.value != b.value then (if a.value < b.value then -1 else 1)
    else JavaString.CompareTo(a.key, b.key)
  }

  /**
   * The comparison as written is not a consistent order: an "Others" entry
   * is smaller than itself, and of two "Others" entries each is smaller
   * than the other.
   */
  lemma OthersComparedWithItself()
    ensures CompareKeyValues(KeyValue(OTHERS, 1), KeyValue(OTHERS, 1)) == -1
    ensures CompareKeyValues(KeyValue(OTHERS, 1), KeyValue(OTHERS, 2)) == -1
    ensures CompareKeyValues(KeyValue(OTHERS, 2), KeyValue(OTHERS, 1)) == -1
  {
  }

  /** The intended order: "Others" before every other key; otherwise by value, then key. */
  function CompareKeyValuesFixed(a: KeyValue, b: KeyValue): (r: int)
    ensures r == 0 <==> a == b
    ensures r == -CompareKeyValues(b, a) || (a.key == OTHERS && b.key == OTHERS) || r == CompareKeyValues(a, b)
  {
    if a.key == OTHERS && b.key != OTHERS then -1
    else if b.key == OTHERS && a.key != OTHERS then 1
    else if a.value != b.value then (if a.value < b.value then -1 else 1)
    else JavaString.CompareTo(a.key, b.key)
  }

  /** Both agree except when both keys are "Others", which a map of entries never holds twice. */
  lemma FixedAgreesWithWritten(a: KeyValue, b: KeyValue)
    requires !(a.key == OTHERS && b.key == OTHERS)
    ensures CompareKeyValuesFixed(a, b) == CompareKeyValues(a, b)
  {
  }

  predicate KeyValueLess(a: KeyValue, b: KeyValue) {
    CompareKeyValuesFixed(a, b) < 0
  }

  /** The intended order is antisymmetric, and (with its total order) lets a sort be unique. */
  lemma CompareKeyValuesFixedAntisymmetric(a: KeyValue, b: KeyValue)
    ensures CompareKeyValuesFixed(a, b) == -CompareKeyValuesFixed(b, a)
  {
    JavaString.CompareToAntisymmetric(a.key, b.key);
  }

  lemma KeyValueLessIsStrictTotalOrder()
    ensures Sorting.StrictWeakOrder(KeyValueLess) && Sorting.Total(KeyValueLess)
  {
    forall a, b | KeyValueLess(a, b) ensures !KeyValueLess(b, a) {
      CompareKeyValuesFixedAntisymmetric(a, b);
    }
    forall a, b, c | KeyValueLess(a, c) ensures KeyValueLess(a, b) || KeyValueLess(b, c) {
      KeyValueLessTransitive(a, b, c);
      KeyValueLessTransitive(b, a, c);
      CompareKeyValuesFixedAntisymmetric(a, b);
      CompareKeyValuesFixedAntisymmetric(b, c);
    }
    forall a, b | a != b ensures KeyValueLess(a, b) || KeyValueLess(b, a) {
      CompareKeyValuesFixedAntisymmetric(a, b);
    }
  }

  lemma KeyValueLessTransitive(a: KeyValue, b: KeyValue, c: KeyValue)
    ensures KeyValueLess(a, b) && KeyValueLess(b, c) ==> KeyValueLess(a, c)
  {
    if KeyValueLess(a, b) && KeyValueLess(b, c) && a.value == b.value && b.value == c.value
      && a.key != OTHERS && b.key != OTHERS && c.key != OTHERS {
      JavaString.CompareToTransitive(a.key, b.key, c.key);
    }
  }

  /** Sorted by the intended order: "Others" first, then by non-decreasing value. */
  lemma {:induction false} SortedKeyValues(s: seq<KeyValue>, i: int, j: int)
    requires Sorting.Sorted(KeyValueLess, s)
    requires 0 <= i < j < |s| && s[i].key != OTHERS
    ensures s[j].key != OTHERS && s[i].value <= s[j].value
  {
    assert !KeyValueLess(s[j], s[i]);
  }

  // ---------------------------------------------------------------------
  // nMostCards: the top n with an "Others" bucket.
  // ---------------------------------------------------------------------

  /** The map `nMostCards` fills from the ranking: the first n items, then the rest summed as "Others". */
  function NMostMap(ranked: seq<(string, int)>, n: nat): map<string, int> {
    var topCount := if n < |ranked| then n else |ranked|;
    var top := TopMap(ranked[..topCount]);
    var othersTotal := Bags.TotalCount(ranked[topCount..]);
    if othersTotal > 0 then top[OTHERS := othersTotal] else top
  }

  /** `result.put(pair.getOne(), pair.getTwo())` for each pair, in order. */
  function TopMap(pairs: seq<(string, int)>): (m: map<string, int>)
    ensures forall i :: 0 <= i < |pairs| ==> pairs[i].0 in m
    ensures forall k :: k in m ==> exists i :: 0 <= i < |pairs| && pairs[i].0 == k
  {
    if pairs == [] then map[]
    else
      var last := pairs[|pairs| - 1];
      var m := TopMap(pairs[..|pairs| - 1]);
      assert forall i :: 0 <= i < |pairs| - 1 ==> pairs[..|pairs| - 1][i] == pairs[i];
      m[last.0 := last.1]
  }

  /** Over distinct keys the map holds every pair's count. */
  lemma {:induction false} TopMapValues(pairs: seq<(string, int)>, i: int)
    requires forall a, b :: 0 <= a < b < |pairs| ==> pairs[a].0 != pairs[b].0
    requires 0 <= i < |pairs|
    ensures TopMap(pairs)[pairs[i].0] == pairs[i].1
    decreases |pairs|
  {
    if i < |pairs| - 1 {
      TopMapValues(pairs[..|pairs| - 1], i);
    }
  }

  /** The entries of a map, in some order, each once. */
  method MapEntries(m: map<string, int>) returns (s: seq<KeyValue>)
    ensures forall kv :: kv in s <==> kv.key in m && m[kv.key] == kv.value
    ensures DistinctKeys(s)
  {
    s := [];
    var keys := m.Keys;
    while keys != {}
      invariant keys <= m.Keys
      invariant forall kv :: kv in s <==> kv.key in m.Keys - keys && m[kv.key] == kv.value
      invariant DistinctKeys(s)
      decreases |keys|
    {
      var k :| k in keys;
      s := s + [KeyValue(k, m[k])];
      keys := keys - {k};
    }
  }

  ghost predicate DistinctKeys(s: seq<KeyValue>) {
    forall i, j :: 0 <= i < j < |s| ==> s[i].key != s[j].key
  }

  /** What `nMostCards(bag, n)` returns, for the ranking `ranked` that `topOccurrences` gave. */
  ghost predicate IsNMost(bag: multiset<string>, n: nat, ranked: seq<(string, int)>, r: seq<KeyValue>) {
    && Bags.IsRanking(bag, ranked)
    && Sorting.Sorted(KeyValueLess, r)
    && DistinctKeys(r)
    && forall kv :: kv in r <==> kv.key in NMostMap(ranked, n) && NMostMap(ranked, n)[kv.key] == kv.value
  }

  /** The first loop of `nMostCards`: the top `topCount` pairs put into the map. */
  method PutTop(ranked: seq<(string, int)>, topCount: nat) returns (result: map<string, int>)
    requires topCount <= |ranked|
    ensures result == TopMap(ranked[..topCount])
  {
    result := map[];
    for i := 0 to topCount
      invariant result == TopMap(ranked[..i])
    {
      assert ranked[..i + 1][..i] == ranked[..i];
      result := result[ranked[i].0 := ranked[i].1];
    }
  }

  /** The second loop of `nMostCards`: the total count of the pairs after the top ones. */
  method SumRest(ranked: seq<(string, int)>, topCount: nat) returns (othersTotal: int)
    requires topCount <= |ranked|
    ensures othersTotal == Bags.TotalCount(ranked[topCount..])
  {
    othersTotal := 0;
    var i := topCount;
    while i < |ranked|
      invariant topCount <= i <= |ranked|
      invariant othersTotal + Bags.TotalCount(ranked[i..]) == Bags.TotalCount(ranked[topCount..])
    {
      assert ranked[i..][1..] == ranked[i + 1..];
      othersTotal := othersTotal + ranked[i].1;
      i := i + 1;
    }
    assert ranked[i..] == [];
  }

  /** `nMostCards(bag, n)`, with the ranking `bag.topOccurrences(bag.sizeDistinct())` used. */
  method NMostCards(bag: multiset<string>, n: nat) returns (r: seq<KeyValue>, ghost ranked: seq<(string, int)>)
    ensures IsNMost(bag, n, ranked, r)
  {
    var allItemsRanked := Bags.TopOccurrences(bag);
    ranked := allItemsRanked;
    var topCount := if n < |allItemsRanked| then n else |allItemsRanked|;
    var result := PutTop(allItemsRanked, topCount);
    var othersTotal := SumRest(allItemsRanked, topCount);
    if othersTotal > 0 {
      result := result[OTHERS := othersTotal];
    }
    var entries := MapEntries(result);
    r := Sorting.SortBy(KeyValueLess, entries);
    KeyValueLessIsStrictTotalOrder();
    Sorting.SortBySorted(KeyValueLess, entries);
    forall kv ensures kv in r <==> kv in entries {
      assert kv in r <==> kv in multiset(r);
      assert kv in entries <==> kv in multiset(entries);
    }
    DistinctKeysPermutation(entries, r);
  }

  lemma {:induction false} DistinctKeysPermutation(s: seq<KeyValue>, t: seq<KeyValue>)
    requires DistinctKeys(s) && multiset(s) == multiset(t)
    ensures DistinctKeys(t)
  {
    forall i, j | 0 <= i < j < |t| ensures t[i].key != t[j].key {
      if t[i].key == t[j].key {
        assert t[i] in multiset(s) && t[j] in multiset(s);
        var a := Bags.FindIndex(s, t[i]);
        var b := Bags.FindIndex(s, t[j]);
        if t[i] == t[j] {
          Bags.TwiceInSeq(t, i, j);
          DistinctOnce(s, t[i]);
        }
      }
    }
  }

  /** The values of a series add up to the whole bag when no item is itself named "Others". */
  lemma {:induction false} NMostCardsTotal(bag: multiset<string>, n: nat, ranked: seq<(string, int)>, r: seq<KeyValue>)
    requires IsNMost(bag, n, ranked, r)
    requires OTHERS !in bag
    ensures SumValues(r) == |bag|
  {
    var topCount := if n < |ranked| then n else |ranked|;
    var expected := NMostList(ranked, topCount);
    NMostListEntries(ranked, topCount);
    NMostListDistinct(ranked, topCount);
    assert Bags.NonNegative(ranked);
    NMostListSum(ranked, topCount);
    assert NMostMap(ranked, topCount) == NMostMap(ranked, n);
    assert forall kv :: kv in expected <==> kv in r;
    DistinctSameElements(expected, r);
    SumValuesPermutation(expected, r);
    Bags.TallyTotal(bag, ranked);
  }

  /** The entries of `NMostMap(ranked, topCount)` in ranking order, "Others" last. */
  function NMostList(ranked: seq<(string, int)>, topCount: nat): seq<KeyValue>
    requires topCount <= |ranked|
  {
    var othersTotal := Bags.TotalCount(ranked[topCount..]);
    Pairs(ranked[..topCount]) + (if othersTotal > 0 then [KeyValue(OTHERS, othersTotal)] else [])
  }

  lemma {:induction false} NMostListEntries(ranked: seq<(string, int)>, topCount: nat)
    requires topCount <= |ranked|
    requires forall a, b :: 0 <= a < b < |ranked| ==> ranked[a].0 != ranked[b].0
    requires forall i :: 0 <= i < |ranked| ==> ranked[i].0 != OTHERS
    ensures var m := NMostMap(ranked, topCount);
      forall kv :: kv in NMostList(ranked, topCount) <==> kv.key in m && m[kv.key] == kv.value
  {
    forall kv | kv in NMostList(ranked, topCount) ensures kv.key in NMostMap(ranked, topCount) && NMostMap(ranked, topCount)[kv.key] == kv.value {
      ListedIsMapped(ranked, topCount, kv);
    }
    forall kv: KeyValue | kv.key in NMostMap(ranked, topCount) && NMostMap(ranked, topCount)[kv.key] == kv.value
      ensures kv in NMostList(ranked, topCount) {
      MappedIsListed(ranked, topCount, kv);
    }
  }

  lemma {:induction false} NMostListDistinct(ranked: seq<(string, int)>, topCount: nat)
    requires topCount <= |ranked|
    requires forall a, b :: 0 <= a < b < |ranked| ==> ranked[a].0 != ranked[b].0
    requires forall i :: 0 <= i < |ranked| ==> ranked[i].0 != OTHERS
    ensures DistinctKeys(NMostList(ranked, topCount))
  {
    var expected := NMostList(ranked, topCount);
    forall i, j | 0 <= i < j < |expected| ensures expected[i].key != expected[j].key {
      if j < topCount {
        assert expected[i].key == ranked[i].0 && expected[j].key == ranked[j].0;
      } else {
        assert expected[i].key == ranked[i].0;
      }
    }
  }

  lemma {:induction false} NMostListSum(ranked: seq<(string, int)>, topCount: nat)
    requires topCount <= |ranked| && Bags.NonNegative(ranked)
    ensures SumValues(NMostList(ranked, topCount)) == Bags.TotalCount(ranked)
  {
    var top := ranked[..topCount];
    var othersTotal := Bags.TotalCount(ranked[topCount..]);
    SumValuesPairs(top);
    assert ranked == top + ranked[topCount..];
    TotalCountConcat(top, ranked[topCount..]);
    SumValuesConcat(Pairs(top), if othersTotal > 0 then [KeyValue(OTHERS, othersTotal)] else []);
    assert SumValues([KeyValue(OTHERS, othersTotal)]) == othersTotal;
    TotalCountNonNegative(ranked[topCount..]);
  }

  lemma {:induction false} TotalCountNonNegative(r: seq<(string, int)>)
    requires Bags.NonNegative(r)
    ensures Bags.TotalCount(r) >= 0
    decreases |r|
  {
    if r != [] {
      TotalCountNonNegative(r[1..]);
    }
  }

  lemma {:induction false} ListedIsMapped(ranked: seq<(string, int)>, topCount: nat, kv: KeyValue)
    requires topCount <= |ranked|
    requires forall a, b :: 0 <= a < b < |ranked| ==> ranked[a].0 != ranked[b].0
    requires forall i :: 0 <= i < |ranked| ==> ranked[i].0 != OTHERS
    requires kv in NMostList(ranked, topCount)
    ensures kv.key in NMostMap(ranked, topCount) && NMostMap(ranked, topCount)[kv.key] == kv.value
  {
    var expected := NMostList(ranked, topCount);
    var top := ranked[..topCount];
    var othersTotal := Bags.TotalCount(ranked[topCount..]);
    NMostMapParts(ranked, topCount);
    var i :| 0 <= i < |expected| && expected[i] == kv;
    if i < topCount {
      assert kv == KeyValue(top[i].0, top[i].1) && top[i] == ranked[i];
      TopDistinct(ranked, topCount);
      TopMapValues(top, i);
    } else {
      assert kv == KeyValue(OTHERS, othersTotal) && othersTotal > 0;
    }
  }

  /** The map `nMostCards` builds, for a `topCount` within the ranking. */
  lemma NMostMapParts(ranked: seq<(string, int)>, topCount: nat)
    requires topCount <= |ranked|
    ensures var othersTotal := Bags.TotalCount(ranked[topCount..]);
      NMostMap(ranked, topCount) ==
        if othersTotal > 0 then TopMap(ranked[..topCount])[OTHERS := othersTotal] else TopMap(ranked[..topCount])
  {
  }

  /** The top pairs of a ranking with distinct items have distinct items. */
  lemma TopDistinct(ranked: seq<(string, int)>, topCount: nat)
    requires topCount <= |ranked|
    requires forall a, b :: 0 <= a < b < |ranked| ==> ranked[a].0 != ranked[b].0
    ensures forall a, b :: 0 <= a < b < |ranked[..topCount]| ==> ranked[..topCount][a].0 != ranked[..topCount][b].0
  {
  }

  lemma {:induction false} MappedIsListed(ranked: seq<(string, int)>, topCount: nat, kv: KeyValue)
    requires topCount <= |ranked|
    requires forall a, b :: 0 <= a < b < |ranked| ==> ranked[a].0 != ranked[b].0
    requires forall i :: 0 <= i < |ranked| ==> ranked[i].0 != OTHERS
    requires kv.key in NMostMap(ranked, topCount) && NMostMap(ranked, topCount)[kv.key] == kv.value
    ensures kv in NMostList(ranked, topCount)
  {
    var expected := NMostList(ranked, topCount);
    var top := ranked[..topCount];
    var othersTotal := Bags.TotalCount(ranked[topCount..]);
    NMostMapParts(ranked, topCount);
    if kv.key != OTHERS {
      assert kv.key in TopMap(top);
      var i :| 0 <= i < topCount && top[i].0 == kv.key;
      TopDistinct(ranked, topCount);
      TopMapValues(top, i);
      assert expected[i] == kv;
    } else {
      assert OTHERS !in TopMap(top) by {
        forall i | 0 <= i < topCount ensures top[i].0 != OTHERS {
          assert top[i] == ranked[i];
        }
      }
      assert othersTotal > 0 && kv.value == othersTotal;
      assert expected[|expected| - 1] == kv;
    }
  }

  /** The pairs of a ranking as `KeyValue`s. */
  function Pairs(pairs: seq<(string, int)>): (r: seq<KeyValue>)
    ensures |r| == |pairs| && forall i :: 0 <= i < |pairs| ==> r[i] == KeyValue(pairs[i].0, pairs[i].1)
  {
    if pairs == [] then [] else [KeyValue(pairs[0].0, pairs[0].1)] + Pairs(pairs[1..])
  }

  function SumValues(s: seq<KeyValue>): int {
    if s == [] then 0 else s[0].value + SumValues(s[1..])
  }

  lemma {:induction false} SumValuesPairs(pairs: seq<(string, int)>)
    ensures SumValues(Pairs(pairs)) == Bags.TotalCount(pairs)
    decreases |pairs|
  {
    if pairs != [] {
      SumValuesPairs(pairs[1..]);
      assert Pairs(pairs)[1..] == Pairs(pairs[1..]);
    }
  }

  lemma {:induction false} TotalCountConcat(a: seq<(string, int)>, b: seq<(string, int)>)
    ensures Bags.TotalCount(a + b) == Bags.TotalCount(a) + Bags.TotalCount(b)
    decreases |a|
  {
    if a == [] {
      assert a + b == b;
    } else {
      assert (a + b)[1..] == a[1..] + b;
      TotalCountConcat(a[1..], b);
    }
  }

  lemma {:induction false} SumValuesConcat(a: seq<KeyValue>, b: seq<KeyValue>)
    ensures SumValues(a + b) == SumValues(a) + SumValues(b)
    decreases |a|
  {
    if a == [] {
      assert a + b == b;
    } else {
      assert (a + b)[1..] == a[1..] + b;
      SumValuesConcat(a[1..], b);
    }
  }

  lemma {:induction false} SumValuesPermutation(s: seq<KeyValue>, t: seq<KeyValue>)
    requires multiset(s) == multiset(t)
    ensures SumValues(s) == SumValues(t)
    decreases |s|
  {
    if s == [] {
      assert |t| == |multiset(t)|;
    } else {
      var k := Bags.FindIndex(t, s[0]);
      var t' := t[..k] + t[k + 1..];
      assert t == t[..k] + [t[k]] + t[k + 1..];
      assert multiset(t) == multiset(t') + multiset{s[0]};
      assert s == [s[0]] + s[1..];
      assert multiset(s) == multiset(s[1..]) + multiset{s[0]};
      Bags.MultisetCancel(multiset(s[1..]), multiset(t'), s[0]);
      SumValuesPermutation(s[1..], t');
      SumValuesConcat(t[..k] + [t[k]], t[k + 1..]);
      SumValuesConcat(t[..k], [t[k]]);
      SumValuesConcat(t[..k], t[k + 1..]);
    }
  }

  /** Two lists without repeated keys and with the same elements are rearrangements of each other. */
  lemma {:induction false} DistinctSameElements(s: seq<KeyValue>, t: seq<KeyValue>)
    requires DistinctKeys(s) && DistinctKeys(t)
    requires forall kv :: kv in s <==> kv in t
    ensures multiset(s) == multiset(t)
  {
    forall kv ensures multiset(s)[kv] == multiset(t)[kv] {
      DistinctOnce(s, kv);
      DistinctOnce(t, kv);
      assert kv in s <==> kv in multiset(s);
      assert kv in t <==> kv in multiset(t);
    }
  }

  lemma {:induction false} DistinctOnce(s: seq<KeyValue>, kv: KeyValue)
    requires DistinctKeys(s)
    ensures multiset(s)[kv] <= 1
    decreases |s|
  {
    if s != [] {
      assert s == [s[0]] + s[1..];
      DistinctOnce(s[1..], kv);
      if s[0] == kv {
        forall i | 0 <= i < |s[1..]| ensures s[1..][i] != kv {
          assert s[1..][i] == s[i + 1];
        }
        assert kv !in s[1..];
      }
    }
  }

  // ---------------------------------------------------------------------
  // toSeries: one bar per distinct item, by non-decreasing count.
  // ---------------------------------------------------------------------

  /** The comparator `toSeries` sorts with: the greater value first. */
  predicate ByValueDesc(a: KeyValue, b: KeyValue) {
    a.value > b.value
  }

  /**
   * `toSeries(bag)`: the pairs of `bag.toMapOfItemToCount()`, in the order
   * `counts` the map yields them, stably sorted by decreasing value and then
   * reversed.
   */
  function ToSeries(counts: seq<(string, int)>): (r: seq<KeyValue>)
    ensures |r| == |counts|
  {
    Sorting.Reverse(Sorting.SortBy(ByValueDesc, Pairs(counts)))
  }

  /** The series rises: a later bar is never lower than an earlier one. */
  lemma {:induction false} ToSeriesAscending(counts: seq<(string, int)>, i: int, j: int)
    requires 0 <= i < j < |counts|
    ensures ToSeries(counts)[i].value <= ToSeries(counts)[j].value
  {
    var sorted := Sorting.SortBy(ByValueDesc, Pairs(counts));
    assert Sorting.StrictWeakOrder(ByValueDesc);
    Sorting.SortBySorted(ByValueDesc, Pairs(counts));
    assert !ByValueDesc(sorted[|sorted| - 1 - i], sorted[|sorted| - 1 - j]);
  }

  /** For a tally of the bag, the series has one bar per distinct item, carrying its count. */
  lemma ToSeriesEntries(bag: multiset<string>, counts: seq<(string, int)>)
    requires Bags.IsTally(bag, counts)
    ensures |ToSeries(counts)| == Bags.SizeDistinct(bag)
    ensures DistinctKeys(ToSeries(counts))
    ensures forall kv :: kv in ToSeries(counts) <==> kv.key in bag && kv.value == bag[kv.key]
  {
    var pairs := Pairs(counts);
    var r := ToSeries(counts);
    Bags.TallySize(bag, counts);
    PairsOfTally(bag, counts);
    ToSeriesPermutes(counts);
    DistinctKeysPermutation(pairs, r);
    forall kv ensures kv in r <==> kv in pairs {
      assert kv in r <==> kv in multiset(r);
      assert kv in pairs <==> kv in multiset(pairs);
    }
  }

  /** Sorting and reversing only reorder the pairs. */
  lemma ToSeriesPermutes(counts: seq<(string, int)>)
    ensures multiset(ToSeries(counts)) == multiset(Pairs(counts))
  {
  }

  /** The pairs of a tally: one per distinct item, carrying its count. */
  lemma PairsOfTally(bag: multiset<string>, counts: seq<(string, int)>)
    requires Bags.IsTally(bag, counts)
    ensures DistinctKeys(Pairs(counts))
    ensures forall kv :: kv in Pairs(counts) <==> kv.key in bag && kv.value == bag[kv.key]
  {
    var pairs := Pairs(counts);
    forall kv | kv in pairs ensures kv.key in bag && kv.value == bag[kv.key] {
      var i :| 0 <= i < |pairs| && pairs[i] == kv;
    }
    forall kv: KeyValue | kv.key in bag && kv.value == bag[kv.key] ensures kv in pairs {
      var i :| 0 <= i < |counts| && counts[i].0 == kv.key;
      assert pairs[i] == kv;
    }
  }

  // ---------------------------------------------------------------------
  // computeSurvivorRates: the share of each leader that reached a bracket.
  // ---------------------------------------------------------------------

  /**
   * `(int) Math.round(100d * part / whole)`: the quotient rounded half up,
   * its `long` cut to an `int`. A zero `whole` follows the double rules:
   * +Infinity rounds to Long.MAX_VALUE (whose low 32 bits are -1),
   * -Infinity to Long.MIN_VALUE (low bits 0) and NaN to 0.
   */
  function RoundRate(part: int, whole: int): (r: int)
    ensures JavaString.IsInt32(r)
  {
    if whole > 0 then Wrap32((200 * part + whole) / (2 * whole))
    else if whole < 0 then Wrap32((-200 * part - whole) / (-2 * whole))
    else if part > 0 then -1
    else 0
  }

  lemma PositiveFactor(a: int, d: int)
    requires d > 0 && a * d > 0
    ensures a > 0
  {
  }

  /** A bracket count within the overall count gives a percentage, the nearest one (halves up). */
  lemma RoundRateNearest(part: int, whole: int)
    requires 0 <= part <= whole && whole > 0
    ensures 0 <= RoundRate(part, whole) <= 100
    ensures whole * (2 * RoundRate(part, whole) - 1) <= 200 * part < whole * (2 * RoundRate(part, whole) + 1)
  {
    var n := 200 * part + whole;
    var d := 2 * whole;
    var q := n / d;
    var rem := n % d;
    assert n == q * d + rem && 0 <= rem < d;
    assert whole * (2 * q - 1) == q * d - whole;
    assert whole * (2 * q + 1) == q * d + whole;
    assert (q + 1) * d == q * d + d;
    assert (101 - q) * d == 101 * d - q * d;
    PositiveFactor(q + 1, d);
    PositiveFactor(101 - q, d);
    assert Wrap32(q) == q;
  }

  /** `survivorBracket.stream().filter(kv2 -> kv2.key.equals(key)).findFirst()`. */
  function FindKey(s: seq<KeyValue>, key: string): (r: Option<KeyValue>)
    ensures r.None? <==> forall i :: 0 <= i < |s| ==> s[i].key != key
    ensures r.Some? ==> r.value.key == key && exists i :: 0 <= i < |s| && s[i] == r.value && (forall j :: 0 <= j < i ==> s[j].key != key)
  {
    if s == [] then None
    else if s[0].key == key then Some(s[0])
    else
      var r := FindKey(s[1..], key);
      assert forall i :: 0 <= i < |s[1..]| ==> s[1..][i] == s[i + 1];
      r
  }

  /** The entry `computeSurvivorRates` emits for one overall leader, if it reached the bracket. */
  function Survivor(kv: KeyValue, bracket: seq<KeyValue>): seq<KeyValue> {
    match FindKey(bracket, kv.key)
    case None => []
    case Some(kv2) => [KeyValue(kv.key, RoundRate(kv2.value, kv.value))]
  }

  /** The entries emitted for the overall leaders, in their order, before the final sort. */
  function SurvivorEntries(leaders: seq<KeyValue>, bracket: seq<KeyValue>): (r: seq<KeyValue>)
    ensures |r| <= |leaders|
  {
    if leaders == [] then []
    else SurvivorEntries(leaders[..|leaders| - 1], bracket) + Survivor(leaders[|leaders| - 1], bracket)
  }

  /** `computeSurvivorRates(leaders, survivorBracket)`: the entries, sorted in the intended KeyValue order. */
  method ComputeSurvivorRates(leaders: seq<KeyValue>, bracket: seq<KeyValue>) returns (r: seq<KeyValue>)
    ensures r == Sorting.SortBy(KeyValueLess, SurvivorEntries(leaders, bracket))
  {
    var survivorSeries: seq<KeyValue> := [];
    for i := 0 to |leaders|
      invariant survivorSeries == SurvivorEntries(leaders[..i], bracket)
    {
      assert leaders[..i + 1][..i] == leaders[..i];
      var kv := leaders[i];
      var kv2Opt := FindKey(bracket, kv.key);
      if kv2Opt.None? {
        assert survivorSeries + [] == survivorSeries;
        continue;
      }
      var kv2 := kv2Opt.value;
      var rate := RoundRate(kv2.value, kv.value);
      survivorSeries := survivorSeries + [KeyValue(kv.key, rate)];
    }
    assert leaders[..|leaders|] == leaders;
    r := Sorting.SortBy(KeyValueLess, survivorSeries);
  }

  /** An entry is emitted exactly for an overall leader whose key is in the bracket, with its rate. */
  lemma {:induction false} SurvivorEntriesMembers(leaders: seq<KeyValue>, bracket: seq<KeyValue>, kv: KeyValue)
    ensures kv in SurvivorEntries(leaders, bracket) <==>
      exists i :: 0 <= i < |leaders| && leaders[i].key == kv.key && FindKey(bracket, kv.key).Some?
        && kv.value == RoundRate(FindKey(bracket, kv.key).value.value, leaders[i].value)
    decreases |leaders|
  {
    if leaders != [] {
      var init := leaders[..|leaders| - 1];
      SurvivorEntriesMembers(init, bracket, kv);
      assert forall i :: 0 <= i < |init| ==> init[i] == leaders[i];
    }
  }

  /** The survivor rates, as sorted: every entry of the list is one of the emitted ones and the list is in KeyValue order. */
  lemma SurvivorRatesSorted(leaders: seq<KeyValue>, bracket: seq<KeyValue>)
    ensures var r := Sorting.SortBy(KeyValueLess, SurvivorEntries(leaders, bracket));
      && Sorting.Sorted(KeyValueLess, r)
      && multiset(r) == multiset(SurvivorEntries(leaders, bracket))
  {
    KeyValueLessIsStrictTotalOrder();
    Sorting.SortBySorted(KeyValueLess, SurvivorEntries(leaders, bracket));
  }
}
