/** Comparison and sorting as Go's cmp, slices.SortFunc and slices.SortStableFunc promise them. */
module Ordering {

  /** Strict lexicographic order on strings; a character stands for a byte. */
  predicate Less(a: string, b: string) {
    if b == "" then false
    else if a == "" then true
    else a[0] < b[0] || (a[0] == b[0] && Less(a[1..], b[1..]))
  }

  lemma {:induction false} LessTotal(a: string, b: string)
    ensures Less(a, b) || a == b || Less(b, a)
    ensures !(Less(a, b) && Less(b, a))
    ensures !Less(a, a)
  {
    if a != "" {
      LessTotal(a[1..], a[1..]);
    }
    if a != "" && b != "" {
      LessTotal(a[1..], b[1..]);
      if a[0] == b[0] && a[1..] == b[1..] {
        assert a == [a[0]] + a[1..] && b == [b[0]] + b[1..];
      }
    }
  }

  lemma {:induction false} LessTransitive(a: string, b: string, c: string)
    requires Less(a, b) && Less(b, c)
    ensures Less(a, c)
  {
    if a != "" && a[0] == b[0] && b[0] == c[0] {
      LessTransitive(a[1..], b[1..], c[1..]);
    }
  }

  /** At the first place where they differ the smaller character, or nothing where the other goes on. */
  lemma {:induction false} LessMeans(a: string, b: string)
    ensures Less(a, b) <==>
            (|a| < |b| && a == b[..|a|])
            || exists i :: 0 <= i < |a| && i < |b| && a[..i] == b[..i] && a[i] < b[i]
  {
    if a == "" || b == "" {
      assert b[..0] == "";
    } else if a[0] != b[0] {
      assert a[..0] == b[..0];
    } else {
      LessMeans(a[1..], b[1..]);
      SharedFirst(a, b);
    }
  }

  lemma SharedFirst(a: string, b: string)
    requires a != "" && b != "" && a[0] == b[0]
    ensures (|a| < |b| && a == b[..|a|]) <==> (|a| < |b| && a[1..] == b[1..][..|a| - 1])
    ensures (exists i :: 0 <= i < |a| && i < |b| && a[..i] == b[..i] && a[i] < b[i]) <==>
            (exists i :: 0 <= i < |a| - 1 && i < |b| - 1 && a[1..][..i] == b[1..][..i] && a[1..][i] < b[1..][i])
  {
    if |a| < |b| && a[1..] == b[1..][..|a| - 1] {
      assert a == [a[0]] + a[1..] && b[..|a|] == [b[0]] + b[1..][..|a| - 1];
    }
    if |a| < |b| && a == b[..|a|] {
      assert b[1..][..|a| - 1] == b[..|a|][1..];
    }
    if i :| 0 <= i < |a| && i < |b| && a[..i] == b[..i] && a[i] < b[i] {
      assert a[1..][..i - 1] == a[..i][1..] && b[1..][..i - 1] == b[..i][1..];
      assert a[1..][i - 1] < b[1..][i - 1];
    }
    if i :| 0 <= i < |a| - 1 && i < |b| - 1 && a[1..][..i] == b[1..][..i] && a[1..][i] < b[1..][i] {
      assert a[..i + 1] == [a[0]] + a[1..][..i] && b[..i + 1] == [b[0]] + b[1..][..i];
      assert a[i + 1] < b[i + 1];
    }
  }

  /** A comparison a sort accepts: any two elements compare, and transitively. */
  ghost predicate TotalPreorder<T(!new)>(le: (T, T) -> bool) {
    && (forall x, y :: le(x, y) || le(y, x))
    && (forall x, y, z :: le(x, y) && le(y, z) ==> le(x, z))
  }

  ghost predicate Sorted<T>(le: (T, T) -> bool, s: seq<T>) {
    forall i, j :: 0 <= i < j < |s| ==> le(s[i], s[j])
  }

  ghost predicate SortOf<T>(le: (T, T) -> bool, input: seq<T>, output: seq<T>) {
    multiset(output) == multiset(input) && Sorted(le, output)
  }

  /** A stable sort's answer: insert each element after the ones it does not precede. */
  function Insert<T>(le: (T, T) -> bool, s: seq<T>, x: T): seq<T> {
    if s == [] || !le(x, s[|s| - 1]) || le(s[|s| - 1], x) then s + [x]
    else Insert(le, s[..|s| - 1], x) + [s[|s| - 1]]
  }

  function StableSort<T>(le: (T, T) -> bool, s: seq<T>): seq<T> {
    if s == [] then [] else Insert(le, StableSort(le, s[..|s| - 1]), s[|s| - 1])
  }

  lemma {:induction false} InsertKeeps<T>(le: (T, T) -> bool, s: seq<T>, x: T)
    ensures multiset(Insert(le, s, x)) == multiset(s) + multiset{x}
  {
    if s == [] || !le(x, s[|s| - 1]) || le(s[|s| - 1], x) {
    } else {
      var init, last := s[..|s| - 1], s[|s| - 1];
      InsertKeeps(le, init, x);
      assert s == init + [last];
    }
  }

  lemma {:induction false} InsertSorted<T(!new)>(le: (T, T) -> bool, s: seq<T>, x: T)
    requires TotalPreorder(le) && Sorted(le, s)
    ensures Sorted(le, Insert(le, s, x))
  {
    if s == [] {
    } else if !le(x, s[|s| - 1]) || le(s[|s| - 1], x) {
      assert forall i :: 0 <= i < |s| - 1 ==> le(s[i], s[|s| - 1]);
    } else {
      var init, last := s[..|s| - 1], s[|s| - 1];
      InsertSorted(le, init, x);
      var r := Insert(le, init, x);
      forall i | 0 <= i < |r|
        ensures le(r[i], last)
      {
        InsertedElement(le, init, x, i);
      }
    }
  }

  lemma {:induction false} InsertedElement<T>(le: (T, T) -> bool, s: seq<T>, x: T, i: nat)
    requires i < |Insert(le, s, x)|
    ensures Insert(le, s, x)[i] == x || Insert(le, s, x)[i] in s
  {
    if s == [] || !le(x, s[|s| - 1]) || le(s[|s| - 1], x) {
    } else if i < |Insert(le, s[..|s| - 1], x)| {
      InsertedElement(le, s[..|s| - 1], x, i);
    }
  }

  lemma {:induction false} StableSortSorts<T(!new)>(le: (T, T) -> bool, s: seq<T>)
    requires TotalPreorder(le)
    ensures SortOf(le, s, StableSort(le, s))
  {
    if s != [] {
      var init := s[..|s| - 1];
      StableSortSorts(le, init);
      InsertSorted(le, StableSort(le, init), s[|s| - 1]);
      InsertKeeps(le, StableSort(le, init), s[|s| - 1]);
      assert s == init + [s[|s| - 1]];
    }
  }

  function Filter<T>(s: seq<T>, keep: T -> bool): seq<T> {
    if s == [] then [] else Filter(s[..|s| - 1], keep) + if keep(s[|s| - 1]) then [s[|s| - 1]] else []
  }

  lemma FilterMore<T>(s: seq<T>, keep: T -> bool, x: T)
    ensures Filter(s + [x], keep) == Filter(s, keep) + if keep(x) then [x] else []
  {
    assert (s + [x])[..|s|] == s;
  }

  /** The part of a list that stands at given positions, in the list's order. */
  ghost predicate StandsAt<T>(part: seq<T>, s: seq<T>, at: seq<nat>) {
    && |at| == |part|
    && (forall k :: 0 <= k < |at| ==> at[k] < |s| && part[k] == s[at[k]])
    && (forall j, k :: 0 <= j < k < |at| ==> at[j] < at[k])
  }

  /** What a filter keeps stands at the positions that pass, all of them, in their order. */
  lemma {:induction false} FilterKeeps<T>(s: seq<T>, keep: T -> bool) returns (at: seq<nat>)
    ensures StandsAt(Filter(s, keep), s, at)
    ensures forall i :: i in at <==> 0 <= i < |s| && keep(s[i])
  {
    if s == [] {
      at := [];
    } else {
      var init, last := s[..|s| - 1], s[|s| - 1];
      at := FilterKeeps(init, keep);
      assert s == init + [last];
      FilterMore(init, keep, last);
      StandsAtMore(Filter(init, keep), init, at, last);
      hide Filter;
      hide StandsAt;
      if keep(last) {
        at := at + [|s| - 1];
      }
    }
  }

  lemma StandsAtMore<T>(part: seq<T>, s: seq<T>, at: seq<nat>, x: T)
    requires StandsAt(part, s, at)
    ensures StandsAt(part, s + [x], at) && part + [] == part
    ensures StandsAt(part + [x], s + [x], at + [|s|])
  {
  }

  lemma {:induction false} FilterBag<T>(s: seq<T>, keep: T -> bool)
    ensures forall x :: multiset(Filter(s, keep))[x] == if keep(x) then multiset(s)[x] else 0
  {
    if s != [] {
      FilterBag(s[..|s| - 1], keep);
      assert s == s[..|s| - 1] + [s[|s| - 1]];
    }
  }

  lemma FilterPast<T>(init: seq<T>, r: seq<T>, x: T, last: T, same: T -> bool)
    requires Filter(r, same) == Filter(init, same) + if same(x) then [x] else []
    requires !(same(x) && same(last))
    ensures Filter(r + [last], same) == Filter(init + [last], same) + if same(x) then [x] else []
  {
    FilterMore(r, same, last);
    FilterMore(init, same, last);
  }

  lemma {:induction false} InsertKeepsOrder<T(!new)>(le: (T, T) -> bool, s: seq<T>, x: T, same: T -> bool)
    requires forall y, z :: same(y) && same(z) ==> le(y, z)
    ensures Filter(Insert(le, s, x), same) == Filter(s, same) + if same(x) then [x] else []
  {
    hide Filter;
    if s == [] || !le(x, s[|s| - 1]) || le(s[|s| - 1], x) {
      FilterMore(s, same, x);
    } else {
      var init, last := s[..|s| - 1], s[|s| - 1];
      InsertKeepsOrder(le, init, x, same);
      FilterPast(init, Insert(le, init, x), x, last, same);
      assert s == init + [last];
    }
  }

  /** A stable sort leaves elements that compare equal in the order they came in. */
  lemma {:induction false} StableSortIsStable<T(!new)>(le: (T, T) -> bool, s: seq<T>, same: T -> bool)
    requires TotalPreorder(le)
    requires forall y, z :: same(y) && same(z) ==> le(y, z)
    ensures Filter(StableSort(le, s), same) == Filter(s, same)
  {
    if s != [] {
      StableSortIsStable(le, s[..|s| - 1], same);
      InsertKeepsOrder(le, StableSort(le, s[..|s| - 1]), s[|s| - 1], same);
    }
  }

  /** slices.SortStableFunc. */
  method SortStable<T(!new)>(le: (T, T) -> bool, s: seq<T>) returns (sorted: seq<T>)
    requires TotalPreorder(le)
    ensures sorted == StableSort(le, s) && SortOf(le, s, sorted)
  {
    sorted := [];
    var i := 0;
    while i < |s|
      invariant 0 <= i <= |s| && sorted == StableSort(le, s[..i])
    {
      assert s[..i + 1][..i] == s[..i];
      sorted := Insert(le, sorted, s[i]);
      i := i + 1;
    }
    assert s[..i] == s;
    StableSortSorts(le, s);
  }

  /** slices.SortFunc: the order of elements that compare equal is nobody's promise. */
  method Sort<T(!new)>(le: (T, T) -> bool, s: seq<T>) returns (sorted: seq<T>)
    requires TotalPreorder(le)
    ensures SortOf(le, s, sorted)
  {
    sorted := SortStable(le, s);
  }

  ghost predicate Antisymmetric<T(!new)>(le: (T, T) -> bool, s: multiset<T>) {
    forall x, y :: x in s && y in s && le(x, y) && le(y, x) ==> x == y
  }

  /** Where no two different elements compare equal, there is only one way to sort. */
  lemma {:induction false} SortIsUnique<T(!new)>(le: (T, T) -> bool, a: seq<T>, b: seq<T>)
    requires multiset(a) == multiset(b) && Sorted(le, a) && Sorted(le, b)
    requires Antisymmetric(le, multiset(a))
    requires forall x :: x in a ==> le(x, x)
    ensures a == b
  {
    if a == [] {
      assert |multiset(b)| == 0;
    } else {
      SameFirst(le, a, b);
      AntisymmetricTail(le, a);
      hide Antisymmetric;
      SameTails(le, a, b);
      assert forall x :: x in a[1..] ==> x in a;
      SortIsUnique(le, a[1..], b[1..]);
      assert a == [a[0]] + a[1..] && b == [b[0]] + b[1..];
    }
  }

  lemma SameTails<T>(le: (T, T) -> bool, a: seq<T>, b: seq<T>)
    requires a != [] && b != [] && a[0] == b[0]
    requires multiset(a) == multiset(b) && Sorted(le, a) && Sorted(le, b)
    ensures multiset(a[1..]) == multiset(b[1..]) && Sorted(le, a[1..]) && Sorted(le, b[1..])
  {
    TailBag(a);
    TailBag(b);
  }

  lemma TailBag<T>(a: seq<T>)
    requires a != []
    ensures multiset(a[1..]) == multiset(a) - multiset{a[0]}
  {
    assert a == [a[0]] + a[1..];
  }

  lemma AntisymmetricTail<T(!new)>(le: (T, T) -> bool, a: seq<T>)
    requires a != [] && Antisymmetric(le, multiset(a))
    ensures Antisymmetric(le, multiset(a[1..]))
  {
    assert forall x :: x in multiset(a[1..]) ==> x in a[1..] && x in a && x in multiset(a);
  }

  lemma SameFirst<T(!new)>(le: (T, T) -> bool, a: seq<T>, b: seq<T>)
    requires multiset(a) == multiset(b) && Sorted(le, a) && Sorted(le, b)
    requires Antisymmetric(le, multiset(a))
    requires forall x :: x in a ==> le(x, x)
    requires a != []
    ensures b != [] && a[0] == b[0]
  {
    assert a[0] in multiset(b);
    assert b[0] in multiset(a) && b[0] in a;
    FirstIsLeast(le, a, b[0]);
    FirstIsLeast(le, b, a[0]);
  }

  lemma FirstIsLeast<T(!new)>(le: (T, T) -> bool, a: seq<T>, x: T)
    requires a != [] && Sorted(le, a) && x in multiset(a) && le(a[0], a[0])
    ensures le(a[0], x)
  {
    var i :| 0 <= i < |a| && a[i] == x;
  }

  /** Two strictly sorted lists with the same elements are the same list. */
  lemma {:induction false} StrictlySortedUnique<T(!new)>(lt: (T, T) -> bool, a: seq<T>, b: seq<T>)
    requires forall i, j :: 0 <= i < j < |a| ==> lt(a[i], a[j])
    requires forall i, j :: 0 <= i < j < |b| ==> lt(b[i], b[j])
    requires forall x, y :: lt(x, y) ==> !lt(y, x)
    requires forall x :: x in a <==> x in b
    ensures a == b
    decreases |a|
  {
    if a == [] {
      assert forall i :: 0 <= i < |b| ==> b[i] in a;
    } else {
      assert a[0] in b && b[0] in a;
      assert a[0] == b[0];
      forall x
        ensures x in a[1..] <==> x in b[1..]
      {
        assert x in a[1..] <==> x in a && x != a[0];
        assert x in b[1..] <==> x in b && x != b[0];
      }
      StrictlySortedUnique(lt, a[1..], b[1..]);
      assert a == [a[0]] + a[1..] && b == [b[0]] + b[1..];
    }
  }
}
