/**
Counting by key into a map, and ranking what was counted: heaviest first, then by name. Go
visits a map in an order of its own each time, so nothing here may depend on one.
*/
module Tally {
  import opened Common
  import opened Ordering
  import opened Sums

  /** The weight of the elements filed under k. */
  function Sum<T, K(==)>(s: seq<T>, key: T -> Option<K>, weight: T -> int, k: K): int {
    if s == [] then 0
    else
      var last := s[|s| - 1];
      Sum(s[..|s| - 1], key, weight, k) + if key(last) == Some(k) then weight(last) else 0
  }

  /** The weight of the elements filed anywhere. */
  function SumAll<T, K>(s: seq<T>, key: T -> Option<K>, weight: T -> int): int {
    if s == [] then 0
    else
      var last := s[|s| - 1];
      SumAll(s[..|s| - 1], key, weight) + if key(last).Some? then weight(last) else 0
  }

  ghost predicate HasKey<T, K>(s: seq<T>, key: T -> Option<K>, k: K) {
    exists i :: 0 <= i < |s| && key(s[i]) == Some(k)
  }

  ghost predicate Tallies<T, K(!new)>(s: seq<T>, key: T -> Option<K>, weight: T -> int, m: map<K, int>) {
    && (forall k :: k in m <==> HasKey(s, key, k))
    && (forall k :: k in m ==> m[k] == Sum(s, key, weight, k))
  }

  function Filed<K>(m: map<K, int>, k: Option<K>, weight: int): map<K, int> {
    if k.None? then m else m[k.value := (if k.value in m then m[k.value] else 0) + weight]
  }

  lemma {:induction false} NoKeyNoSum<T, K>(s: seq<T>, key: T -> Option<K>, weight: T -> int, k: K)
    requires !HasKey(s, key, k)
    ensures Sum(s, key, weight, k) == 0
  {
    if s != [] {
      var init := s[..|s| - 1];
      assert forall i :: 0 <= i < |init| ==> init[i] == s[i];
      NoKeyNoSum(init, key, weight, k);
    }
  }

  lemma HasKeyMore<T, K>(s: seq<T>, key: T -> Option<K>, x: T, k: K)
    ensures HasKey(s + [x], key, k) <==> HasKey(s, key, k) || key(x) == Some(k)
  {
    var t := s + [x];
    if i :| 0 <= i < |s| && key(s[i]) == Some(k) {
      assert key(t[i]) == Some(k);
    }
    if key(x) == Some(k) {
      assert key(t[|s|]) == Some(k);
    }
  }

  lemma SumMore<T, K(!new)>(s: seq<T>, key: T -> Option<K>, weight: T -> int, x: T, k: K)
    ensures Sum(s + [x], key, weight, k) == Sum(s, key, weight, k) + if key(x) == Some(k) then weight(x) else 0
  {
    assert (s + [x])[..|s|] == s;
  }

  /** counts[key] += weight, for one more element. */
  lemma TallyMore<T, K(!new)>(s: seq<T>, key: T -> Option<K>, weight: T -> int, m: map<K, int>, x: T)
    requires Tallies(s, key, weight, m)
    ensures Tallies(s + [x], key, weight, Filed(m, key(x), weight(x)))
  {
    var t := s + [x];
    assert t[..|t| - 1] == s;
    forall k
      ensures HasKey(t, key, k) <==> HasKey(s, key, k) || key(x) == Some(k)
      ensures k !in m ==> Sum(s, key, weight, k) == 0
    {
      if i :| 0 <= i < |s| && key(s[i]) == Some(k) {
        assert key(t[i]) == Some(k);
      }
      if key(x) == Some(k) {
        assert key(t[|s|]) == Some(k);
      }
      if k !in m {
        NoKeyNoSum(s, key, weight, k);
      }
    }
  }

  lemma FiledTotal<K(!new)>(m: map<K, int>, k: Option<K>, weight: int)
    ensures Total(Filed(m, k, weight)) == Total(m) + if k.Some? then weight else 0
  {
    hide Total;
    if k.Some? {
      TotalUpdate(m, k.value, (if k.value in m then m[k.value] else 0) + weight);
    }
  }

  lemma {:induction false} TallyOfTotal<T, K(!new)>(s: seq<T>, key: T -> Option<K>, weight: T -> int)
    ensures Total(TallyOf(s, key, weight)) == SumAll(s, key, weight)
  {
    hide Tallies;
    hide Filed;
    if s != [] {
      var init, last := s[..|s| - 1], s[|s| - 1];
      TallyOfTotal(init, key, weight);
      FiledTotal(TallyOf(init, key, weight), key(last), weight(last));
    }
  }

  /** However a tally is stored, its total is the weight of everything filed. */
  lemma TallyTotal<T, K(!new)>(s: seq<T>, key: T -> Option<K>, weight: T -> int, m: map<K, int>)
    requires Tallies(s, key, weight, m)
    ensures Total(m) == SumAll(s, key, weight)
  {
    TallyOfTotal(s, key, weight);
    SameTally(s, key, weight, m, TallyOf(s, key, weight));
  }

  lemma SameTally<T, K(!new)>(s: seq<T>, key: T -> Option<K>, weight: T -> int, m: map<K, int>, n: map<K, int>)
    requires Tallies(s, key, weight, m) && Tallies(s, key, weight, n)
    ensures m == n
  {
    hide Sum;
    hide HasKey;
    assert forall k :: k in m <==> k in n;
  }

  function TallyOf<T, K(==,!new)>(s: seq<T>, key: T -> Option<K>, weight: T -> int): (m: map<K, int>)
    ensures Tallies(s, key, weight, m)
  {
    if s == [] then map[]
    else
      var init, last := s[..|s| - 1], s[|s| - 1];
      var m := TallyOf(init, key, weight);
      TallyMore(init, key, weight, m, last);
      assert s == init + [last];
      Filed(m, key(last), weight(last))
  }

  ghost predicate StrictTotal<K(!new)>(less: (K, K) -> bool) {
    && (forall a, b :: less(a, b) || a == b || less(b, a))
    && (forall a, b :: less(a, b) ==> !less(b, a))
    && (forall a, b, c :: less(a, b) && less(b, c) ==> less(a, c))
  }

  lemma LessIsStrictTotal()
    ensures StrictTotal(Less)
  {
    forall a, b
      ensures Less(a, b) || a == b || Less(b, a)
      ensures Less(a, b) ==> !Less(b, a)
    {
      LessTotal(a, b);
    }
    forall a, b, c | Less(a, b) && Less(b, c)
      ensures Less(a, c)
    {
      LessTransitive(a, b, c);
    }
  }

  /** Heaviest first, equal weights by name: what the sorts of this package compare by. */
  function ByRank<E, K>(name: E -> K, weight: E -> int, less: (K, K) -> bool): (E, E) -> bool {
    (a: E, b: E) => weight(a) > weight(b) || (weight(a) == weight(b) && !less(name(b), name(a)))
  }

  lemma ByRankIsTotal<E(!new), K(!new)>(name: E -> K, weight: E -> int, less: (K, K) -> bool)
    requires StrictTotal(less)
    ensures TotalPreorder(ByRank(name, weight, less))
  {
    var le := ByRank(name, weight, less);
    forall x, y, z | le(x, y) && le(y, z)
      ensures le(x, z)
    {
      assert less(name(z), name(x)) ==> less(name(z), name(y)) || less(name(y), name(x)) by {
        assert less(name(z), name(y)) || name(z) == name(y) || less(name(y), name(z));
      }
    }
  }

  /** A list in which every entry strictly precedes the next: no ties are left to chance. */
  ghost predicate Ranked<E, K>(d: seq<E>, name: E -> K, weight: E -> int, less: (K, K) -> bool) {
    forall i, j :: 0 <= i < j < |d| ==>
      weight(d[i]) > weight(d[j]) || (weight(d[i]) == weight(d[j]) && less(name(d[i]), name(d[j])))
  }

  ghost predicate DistinctNames<E, K>(d: seq<E>, name: E -> K) {
    forall i, j :: 0 <= i < j < |d| ==> name(d[i]) != name(d[j])
  }

  ghost predicate Named<E, K>(d: seq<E>, name: E -> K, k: K) {
    exists i :: 0 <= i < |d| && name(d[i]) == k
  }

  lemma NamedMore<E, K>(d: seq<E>, name: E -> K, e: E, k: K)
    ensures Named(d + [e], name, k) <==> Named(d, name, k) || name(e) == k
  {
    var t := d + [e];
    if i :| 0 <= i < |d| && name(d[i]) == k {
      assert name(t[i]) == k;
    }
    if name(e) == k {
      assert name(t[|d|]) == k;
    }
  }

  /** Lists with the same elements name the same things. */
  lemma SameNamed<E, K>(a: seq<E>, b: seq<E>, name: E -> K, k: K)
    requires forall e :: e in a <==> e in b
    ensures Named(a, name, k) <==> Named(b, name, k)
  {
    assert forall i :: 0 <= i < |a| ==> a[i] in b;
    assert forall i :: 0 <= i < |b| ==> b[i] in a;
  }

  /** One more entry, under a name no entry has. */
  lemma DistinctMore<E, K>(d: seq<E>, name: E -> K, e: E)
    requires DistinctNames(d, name) && !Named(d, name, name(e))
    ensures DistinctNames(d + [e], name)
  {
  }

  /** Sorting entries with distinct names ranks them. */
  lemma SortRanks<E(!new), K(!new)>(d: seq<E>, sorted: seq<E>, name: E -> K, weight: E -> int, less: (K, K) -> bool)
    requires StrictTotal(less) && DistinctNames(d, name)
    requires SortOf(ByRank(name, weight, less), d, sorted)
    ensures Ranked(sorted, name, weight, less)
    ensures forall e :: e in sorted <==> e in d
    ensures forall k :: Named(sorted, name, k) <==> Named(d, name, k)
  {
    DistinctSurvives(d, sorted, name);
    forall k
      ensures Named(sorted, name, k) <==> Named(d, name, k)
    {
      SameNamed(sorted, d, name, k);
    }
    assert |multiset(sorted)| == |sorted| && |multiset(d)| == |d|;
    forall i, j | 0 <= i < j < |sorted|
      ensures weight(sorted[i]) > weight(sorted[j]) ||
              (weight(sorted[i]) == weight(sorted[j]) && less(name(sorted[i]), name(sorted[j])))
    {
      assert ByRank(name, weight, less)(sorted[i], sorted[j]);
      assert name(sorted[i]) != name(sorted[j]);
    }
  }

  lemma DistinctSurvives<E(!new), K>(d: seq<E>, sorted: seq<E>, name: E -> K)
    requires multiset(sorted) == multiset(d) && DistinctNames(d, name)
    ensures DistinctNames(sorted, name)
    ensures forall e :: e in sorted <==> e in d
  {
    assert forall e :: e in sorted <==> e in multiset(sorted);
    assert forall e :: e in d <==> e in multiset(d);
    forall i, j | 0 <= i < j < |sorted|
      ensures name(sorted[i]) != name(sorted[j])
    {
      assert sorted[i] in d && sorted[j] in d;
      var a :| 0 <= a < |d| && d[a] == sorted[i];
      var b :| 0 <= b < |d| && d[b] == sorted[j];
      if a == b {
        Twice(sorted, i, j);
        Once(d, a, name);
      }
    }
  }

  lemma Twice<E>(s: seq<E>, i: nat, j: nat)
    requires i < j < |s| && s[i] == s[j]
    ensures multiset(s)[s[i]] >= 2
  {
    assert s == s[..j] + [s[j]] + s[j + 1..];
    assert s[..j][i] == s[i] && s[i] in s[..j];
    assert multiset(s[..j])[s[i]] >= 1;
  }

  lemma Once<E, K>(d: seq<E>, a: nat, name: E -> K)
    requires a < |d| && DistinctNames(d, name)
    ensures multiset(d)[d[a]] == 1
  {
    assert d == d[..a] + [d[a]] + d[a + 1..];
    assert d[a] !in d[..a] && d[a] !in d[a + 1..];
    assert multiset(d[..a])[d[a]] == 0 && multiset(d[a + 1..])[d[a]] == 0;
  }

  /** A ranked list is determined by its entries. */
  lemma RankedUnique<E(!new), K(!new)>(a: seq<E>, b: seq<E>, name: E -> K, weight: E -> int, less: (K, K) -> bool)
    requires StrictTotal(less)
    requires Ranked(a, name, weight, less) && Ranked(b, name, weight, less)
    requires forall e :: e in a <==> e in b
    ensures a == b
  {
    StrictlySortedUnique(
      (x: E, y: E) => weight(x) > weight(y) || (weight(x) == weight(y) && less(name(x), name(y))), a, b);
  }

  /** The entries of a list, summed. */
  function SumOver<E>(d: seq<E>, weight: E -> int): int {
    if d == [] then 0 else SumOver(d[..|d| - 1], weight) + weight(d[|d| - 1])
  }

  function SumReals<E>(d: seq<E>, share: E -> real): real {
    if d == [] then 0.0 else SumReals(d[..|d| - 1], share) + share(d[|d| - 1])
  }

  ghost function Entries<E, K(!new)>(d: seq<E>, name: E -> K, weight: E -> int): map<K, int> {
    if d == [] then map[] else Entries(d[..|d| - 1], name, weight)[name(d[|d| - 1]) := weight(d[|d| - 1])]
  }

  lemma {:induction false} EntriesKeys<E, K(!new)>(d: seq<E>, name: E -> K, weight: E -> int)
    requires DistinctNames(d, name)
    ensures forall k :: k in Entries(d, name, weight) <==> Named(d, name, k)
    ensures forall i :: 0 <= i < |d| ==>
      name(d[i]) in Entries(d, name, weight) && Entries(d, name, weight)[name(d[i])] == weight(d[i])
  {
    if d != [] {
      var init, last := d[..|d| - 1], d[|d| - 1];
      assert forall i :: 0 <= i < |init| ==> init[i] == d[i];
      EntriesKeys(init, name, weight);
      assert d == init + [last];
      forall k
        ensures Named(d, name, k) <==> Named(init, name, k) || name(last) == k
      {
        NamedMore(init, name, last, k);
      }
    }
  }

  lemma {:induction false} EntriesTotal<E, K(!new)>(d: seq<E>, name: E -> K, weight: E -> int)
    requires DistinctNames(d, name)
    ensures Total(Entries(d, name, weight)) == SumOver(d, weight)
  {
    if d != [] {
      var init, last := d[..|d| - 1], d[|d| - 1];
      assert forall i :: 0 <= i < |init| ==> init[i] == d[i];
      EntriesTotal(init, name, weight);
      EntriesKeys(init, name, weight);
      assert !Named(init, name, name(last));
      hide DistinctNames;
      TotalUpdate(Entries(init, name, weight), name(last), weight(last));
    }
  }

  /** A list with one entry for each key, weighing what is filed under it, weighs everything filed. */
  lemma ListTotal<T, E, K(!new)>(
    s: seq<T>, key: T -> Option<K>, weight: T -> int, d: seq<E>, name: E -> K, entry: E -> int)
    requires DistinctNames(d, name)
    requires forall k :: HasKey(s, key, k) <==> Named(d, name, k)
    requires forall i :: 0 <= i < |d| ==> entry(d[i]) == Sum(s, key, weight, name(d[i]))
    ensures SumOver(d, entry) == SumAll(s, key, weight)
  {
    EntriesKeys(d, name, entry);
    EntriesTotal(d, name, entry);
    TallyTotal(s, key, weight, Entries(d, name, entry));
  }

  /** Shares of a non-zero total add up to the total's share, which is one. */
  lemma {:induction false} SharesAddUp<E>(d: seq<E>, weight: E -> int, share: E -> real, total: int)
    requires total != 0
    requires forall i :: 0 <= i < |d| ==> share(d[i]) == Rate(weight(d[i]), total)
    ensures SumReals(d, share) == Rate(SumOver(d, weight), total)
  {
    if d != [] {
      var init := d[..|d| - 1];
      assert forall i :: 0 <= i < |init| ==> init[i] == d[i];
      SharesAddUp(init, weight, share, total);
      Fractions(SumOver(init, weight), weight(d[|d| - 1]), total);
    }
  }

  lemma Fractions(a: int, b: int, total: int)
    requires total != 0
    ensures Rate(a, total) + Rate(b, total) == Rate(a + b, total)
  {
    var t := total as real;
    assert a as real / t + b as real / t == (a as real + b as real) / t;
  }

  datatype Pair<K> = Pair(name: K, weight: int)

  /** Two ranked lists of different things that name the same keys with the same weights agree entry by entry. */
  lemma RankedAgree<E(!new), F(!new), K(!new)>(
    a: seq<E>, nameA: E -> K, weightA: E -> int, b: seq<F>, nameB: F -> K, weightB: F -> int, less: (K, K) -> bool)
    requires StrictTotal(less)
    requires Ranked(a, nameA, weightA, less) && Ranked(b, nameB, weightB, less)
    requires forall k :: Named(a, nameA, k) <==> Named(b, nameB, k)
    requires forall i, j :: 0 <= i < |a| && 0 <= j < |b| && nameA(a[i]) == nameB(b[j]) ==>
        weightA(a[i]) == weightB(b[j])
    ensures |a| == |b|
    ensures forall i :: 0 <= i < |a| ==> nameA(a[i]) == nameB(b[i]) && weightA(a[i]) == weightB(b[i])
  {
    var p := seq(|a|, i requires 0 <= i < |a| => Pair(nameA(a[i]), weightA(a[i])));
    var q := seq(|b|, i requires 0 <= i < |b| => Pair(nameB(b[i]), weightB(b[i])));
    forall e
      ensures e in p <==> e in q
    {
      if e in p {
        var i :| 0 <= i < |p| && p[i] == e;
        assert Named(a, nameA, nameA(a[i]));
        var j :| 0 <= j < |b| && nameB(b[j]) == nameA(a[i]);
        assert q[j] == e;
      }
      if e in q {
        var j :| 0 <= j < |q| && q[j] == e;
        assert Named(b, nameB, nameB(b[j]));
        var i :| 0 <= i < |a| && nameA(a[i]) == nameB(b[j]);
        assert p[i] == e;
      }
    }
    RankedUnique(p, q, (e: Pair<K>) => e.name, (e: Pair<K>) => e.weight, less);
    forall i | 0 <= i < |a|
      ensures nameA(a[i]) == nameB(b[i]) && weightA(a[i]) == weightB(b[i])
    {
      assert p[i] == q[i];
    }
  }

  /** Counting ones: a key has a count exactly when something is filed under it. */
  lemma {:induction false} UnitSum<T, K>(s: seq<T>, key: T -> Option<K>, weight: T -> int, k: K)
    requires forall x :: x in s ==> weight(x) == 1
    ensures Sum(s, key, weight, k) >= 0
    ensures Sum(s, key, weight, k) > 0 <==> HasKey(s, key, k)
  {
    if s != [] {
      var init, last := s[..|s| - 1], s[|s| - 1];
      UnitSum(init, key, weight, k);
      assert forall i :: 0 <= i < |init| ==> init[i] == s[i];
      if i :| 0 <= i < |s| && key(s[i]) == Some(k) {
        assert i < |init| ==> key(init[i]) == Some(k);
      }
      if i :| 0 <= i < |init| && key(init[i]) == Some(k) {
        assert key(s[i]) == Some(k);
      }
    }
  }

  /** When everything is filed, the filed weight is the list's own. */
  lemma {:induction false} AllFiled<T, K>(s: seq<T>, key: T -> Option<K>, weight: T -> int)
    requires forall x :: x in s ==> key(x).Some?
    ensures SumAll(s, key, weight) == SumOver(s, weight)
  {
    if s != [] {
      assert s[|s| - 1] in s;
      AllFiled(s[..|s| - 1], key, weight);
    }
  }

  /** Counting ones is counting the elements filed under a key. */
  lemma {:induction false} SumIsCount<T, K>(s: seq<T>, key: T -> Option<K>, weight: T -> int, k: K, p: T -> bool)
    requires forall x :: x in s ==> weight(x) == 1 && (p(x) <==> key(x) == Some(k))
    ensures Sum(s, key, weight, k) == Count(s, p)
  {
    if s == [] {
      CountNone(p);
    } else {
      var init, last := s[..|s| - 1], s[|s| - 1];
      SumIsCount(init, key, weight, k, p);
      CountMore(init, last, p);
      assert s == init + [last];
      hide Count;
    }
  }

  lemma {:induction false} SumAllIsCount<T, K>(s: seq<T>, key: T -> Option<K>, weight: T -> int, p: T -> bool)
    requires forall x :: x in s ==> weight(x) == 1 && (p(x) <==> key(x).Some?)
    ensures SumAll(s, key, weight) == Count(s, p)
  {
    if s == [] {
      CountNone(p);
    } else {
      var init, last := s[..|s| - 1], s[|s| - 1];
      SumAllIsCount(init, key, weight, p);
      CountMore(init, last, p);
      assert s == init + [last];
      hide Count;
    }
  }

  /** The weight filed under a key is the sum over the positions of what is filed there. */
  lemma {:induction false} SumIsTotal<T, K>(
    s: seq<T>, key: T -> Option<K>, weight: T -> int, k: K, filed: map<int, int>)
    requires forall i :: i in filed <==> 0 <= i < |s| && key(s[i]) == Some(k)
    requires forall i :: i in filed ==> filed[i] == weight(s[i])
    ensures Sum(s, key, weight, k) == Total(filed)
  {
    if s == [] {
      assert forall i :: i !in filed;
    } else {
      var init, last := s[..|s| - 1], s[|s| - 1];
      SumIsTotal(init, key, weight, k, filed - {|init|});
      if key(last) == Some(k) {
        TotalWithout(filed, |init|);
      } else {
        assert filed - {|init|} == filed;
      }
    }
  }

  /** Counting in what a filter keeps is counting what passes both. */
  lemma {:induction false} CountKept<T>(s: seq<T>, keep: T -> bool, p: T -> bool, both: T -> bool)
    requires forall x :: x in s ==> (both(x) <==> keep(x) && p(x))
    ensures Count(Filter(s, keep), p) == Count(s, both)
    ensures |Filter(s, keep)| == Count(s, keep)
  {
    if s == [] {
      CountNone(p);
    } else {
      var init, last := s[..|s| - 1], s[|s| - 1];
      CountKept(init, keep, p, both);
      assert s == init + [last];
      CountMore(init, last, keep);
      CountMore(init, last, both);
      CountMore(Filter(init, keep), last, p);
      hide Count;
      assert Filter(init, keep) + [] == Filter(init, keep);
    }
  }
}
