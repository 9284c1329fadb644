/** Nearest-rank percentiles. Floating point is idealised to exact reals. */
module Percentiles {
  import opened Ordering
  import opened Sums

  predicate AtMost(a: real, b: real) {
    a <= b
  }

  lemma AtMostTotal()
    ensures TotalPreorder(AtMost)
  {
  }

  function Ceil(x: real): int {
    -((-x).Floor)
  }

  lemma CeilMeans(x: real)
    ensures Ceil(x) as real - 1.0 < x <= Ceil(x) as real
  {
  }

  function Clamp(i: int, lo: int, hi: int): int {
    var i := if i < lo then lo else i;
    if i > hi then hi else i
  }

  function Percentile(sorted: seq<real>, p: real): real {
    if sorted == [] then 0.0
    else sorted[Clamp(Ceil(p * |sorted| as real) - 1, 0, |sorted| - 1)]
  }

  /** How many elements are at or below v. */
  function CountAtMost(s: seq<real>, v: real): nat {
    if s == [] then 0 else CountAtMost(s[..|s| - 1], v) + if s[|s| - 1] <= v then 1 else 0
  }

  lemma {:induction false} CountSorted(s: seq<real>, v: real)
    requires Sorted(AtMost, s)
    ensures CountAtMost(s, v) <= |s|
    ensures forall i :: 0 <= i < |s| ==> (s[i] <= v <==> i < CountAtMost(s, v))
  {
    if s != [] {
      var init := s[..|s| - 1];
      assert forall i, j :: 0 <= i < j < |init| ==> AtMost(s[i], s[j]);
      CountSorted(init, v);
      assert forall i :: 0 <= i < |init| ==> AtMost(s[i], s[|s| - 1]) && init[i] == s[i];
    }
  }

  lemma RankInRange(n: nat, p: real)
    requires n > 0 && 0.0 < p <= 1.0
    ensures 1 <= Ceil(p * n as real) <= n
  {
    var x := p * n as real;
    CeilMeans(x);
    assert x > 0.0;
    assert x <= 1.0 * n as real;
  }

  /** The percentile is the least element that at least ceil(p n) elements do not exceed. */
  lemma PercentileIsLeast(s: seq<real>, p: real)
    requires s != [] && Sorted(AtMost, s) && 0.0 < p <= 1.0
    ensures Percentile(s, p) in s
    ensures CountAtMost(s, Percentile(s, p)) >= Ceil(p * |s| as real)
    ensures forall v :: v in s && CountAtMost(s, v) >= Ceil(p * |s| as real) ==> Percentile(s, p) <= v
  {
    RankInRange(|s|, p);
    var k := Ceil(p * |s| as real);
    CountSorted(s, s[k - 1]);
    forall v | v in s && CountAtMost(s, v) >= k
      ensures s[k - 1] <= v
    {
      CountSorted(s, v);
    }
  }

  /** A higher percentile is never a smaller value. */
  lemma PercentileMonotone(s: seq<real>, p: real, q: real)
    requires Sorted(AtMost, s) && p <= q
    ensures Percentile(s, p) <= Percentile(s, q)
  {
    if s != [] {
      Scaled(p, q, |s|);
      CeilMonotone(p * |s| as real, q * |s| as real);
      InPlace(s, Ceil(p * |s| as real) - 1, Ceil(q * |s| as real) - 1);
      hide Ceil;
      hide Clamp;
    }
  }

  lemma Scaled(p: real, q: real, n: nat)
    requires p <= q
    ensures p * n as real <= q * n as real
  {
  }

  lemma InPlace(s: seq<real>, i: int, j: int)
    requires Sorted(AtMost, s) && s != [] && i <= j
    ensures s[Clamp(i, 0, |s| - 1)] <= s[Clamp(j, 0, |s| - 1)]
  {
    var a, b := Clamp(i, 0, |s| - 1), Clamp(j, 0, |s| - 1);
    assert a < b ==> AtMost(s[a], s[b]);
  }

  lemma CeilMonotone(x: real, y: real)
    requires x <= y
    ensures Ceil(x) <= Ceil(y)
  {
    CeilMeans(x);
    CeilMeans(y);
  }

  /** The percentile of a list of durations does not depend on the order they were recorded in. */
  lemma PercentileOfAnyOrder(a: seq<real>, b: seq<real>, sa: seq<real>, sb: seq<real>, p: real)
    requires multiset(a) == multiset(b) && SortOf(AtMost, a, sa) && SortOf(AtMost, b, sb)
    ensures Percentile(sa, p) == Percentile(sb, p)
  {
    SortIsUnique(AtMost, sa, sb);
  }

  lemma {:induction false} CountAtMostIs(s: seq<real>, v: real)
    ensures CountAtMost(s, v) == Count(s, (x: real) => x <= v)
  {
    var below := (x: real) => x <= v;
    if s == [] {
      CountNone(below);
    } else {
      CountAtMostIs(s[..|s| - 1], v);
      CountMore(s[..|s| - 1], s[|s| - 1], below);
      assert s == s[..|s| - 1] + [s[|s| - 1]];
      hide Count;
    }
  }

  lemma {:induction false} InsertCounts(s: seq<real>, x: real, v: real)
    ensures CountAtMost(Insert(AtMost, s, x), v) == CountAtMost(s, v) + if x <= v then 1 else 0
  {
    if s != [] && x < s[|s| - 1] {
      var init, last := s[..|s| - 1], s[|s| - 1];
      InsertCounts(init, x, v);
      assert (Insert(AtMost, init, x) + [last])[..|Insert(AtMost, init, x)|] == Insert(AtMost, init, x);
    } else {
      assert (s + [x])[..|s|] == s;
    }
  }

  /** Sorting changes no count. */
  lemma {:induction false} SortCounts(s: seq<real>, v: real)
    ensures CountAtMost(StableSort(AtMost, s), v) == CountAtMost(s, v)
  {
    if s != [] {
      SortCounts(s[..|s| - 1], v);
      InsertCounts(StableSort(AtMost, s[..|s| - 1]), s[|s| - 1], v);
    }
  }

  /** k is at least the part p of n. */
  predicate Reaches(k: nat, p: real, n: nat) {
    k as real >= p * n as real
  }

  /** At least p of the elements are at or below the percentile, and it is the least element of which that holds. */
  lemma PercentileReaches(s: seq<real>, p: real)
    requires s != [] && Sorted(AtMost, s) && 0.0 < p <= 1.0
    ensures Percentile(s, p) in s && Reaches(CountAtMost(s, Percentile(s, p)), p, |s|)
    ensures forall v :: v in s && Reaches(CountAtMost(s, v), p, |s|) ==> Percentile(s, p) <= v
  {
    PercentileIsLeast(s, p);
    CeilMeans(p * |s| as real);
    hide CountAtMost;
    hide Percentile;
    hide Ceil;
  }
}
