/** Counting with maps: the totals behind every rate and share. */
module Sums {

  /** The sum of a map's values, in whatever order they are visited. */
  ghost function Total<K(!new)>(m: map<K, int>): int
    decreases |m|
  {
    if m == map[] then 0
    else
      var k :| k in m;
      m[k] + Total(m - {k})
  }

  lemma {:induction false} TotalWithout<K(!new)>(m: map<K, int>, k: K)
    requires k in m
    ensures Total(m) == m[k] + Total(m - {k})
    decreases |m|
  {
    var first :| first in m && Total(m) == m[first] + Total(m - {first});
    if first != k {
      TotalWithout(m - {first}, k);
      TotalWithout(m - {k}, first);
      assert m - {first} - {k} == m - {k} - {first};
    }
  }

  lemma TotalUpdate<K(!new)>(m: map<K, int>, k: K, v: int)
    ensures Total(m[k := v]) == Total(m) - (if k in m then m[k] else 0) + v
  {
    TotalWithout(m[k := v], k);
    if k in m {
      TotalWithout(m, k);
      assert m[k := v] - {k} == m - {k};
    } else {
      assert m[k := v] - {k} == m;
    }
  }

  lemma {:induction false} TotalNonnegative<K(!new)>(m: map<K, int>)
    requires forall k :: k in m ==> m[k] >= 0
    ensures Total(m) >= 0
    ensures forall k :: k in m ==> m[k] <= Total(m)
    decreases |m|
  {
    if m != map[] {
      forall k | k in m
        ensures 0 <= m[k] <= Total(m)
      {
        TotalWithout(m, k);
        TotalNonnegative(m - {k});
      }
      var k :| k in m;
    }
  }

  /** How many elements of a list have a property. */
  ghost function Count<T>(s: seq<T>, p: T -> bool): nat {
    |set i | 0 <= i < |s| && p(s[i])|
  }

  lemma CountNone<T>(p: T -> bool)
    ensures Count([], p) == 0
  {
    var s: seq<T> := [];
    assert (set i | 0 <= i < |s| && p(s[i])) == {};
  }

  lemma CountMore<T>(s: seq<T>, x: T, p: T -> bool)
    ensures Count(s + [x], p) == Count(s, p) + if p(x) then 1 else 0
  {
    var t := s + [x];
    var before := set i | 0 <= i < |s| && p(s[i]);
    var after := set i | 0 <= i < |t| && p(t[i]);
    assert t[|s|] == x;
    assert after == before + if p(x) then {|s|} else {};
  }

  lemma {:induction false} CountSome<T>(s: seq<T>, p: T -> bool, q: T -> bool)
    requires forall x :: x in s && p(x) ==> q(x)
    ensures Count(s, p) <= Count(s, q)
  {
    if s == [] {
      CountNone(p);
    } else {
      var init, last := s[..|s| - 1], s[|s| - 1];
      CountSome(init, p, q);
      assert s == init + [last];
      CountMore(init, last, p);
      CountMore(init, last, q);
      hide Count;
    }
  }

  /** Something is counted exactly if there is something to count. */
  lemma CountPositive<T>(s: seq<T>, p: T -> bool)
    ensures Count(s, p) > 0 <==> exists x :: x in s && p(x)
  {
    var found := set i | 0 <= i < |s| && p(s[i]);
    if x :| x in s && p(x) {
      var i :| 0 <= i < |s| && s[i] == x;
      assert i in found;
    }
    if |found| > 0 {
      var i :| i in found;
      assert s[i] in s && p(s[i]);
    }
  }

  /** rate() of the metrics package: 0 over an empty denominator. */
  function Rate(numerator: int, denominator: int): real {
    if denominator == 0 then 0.0 else numerator as real / denominator as real
  }
}
