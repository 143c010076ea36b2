/** Sorting by a strict order, and the text order. A sort whose order tells all its
    elements apart has exactly one result, whatever algorithm produced it. */
module Sorting {
  import opened Model

  /** Irreflexive, transitive, and "not comparable" is transitive. */
  ghost predicate WeakOrder<T(!new)>(less: (T, T) -> bool) {
    && (forall x :: !less(x, x))
    && (forall x, y, z :: less(x, y) && less(y, z) ==> less(x, z))
    && (forall x, y, z :: less(x, z) ==> less(x, y) || less(y, z))
  }

  ghost predicate SortedBy<T>(less: (T, T) -> bool, s: seq<T>) {
    forall i, j :: 0 <= i < j < |s| ==> !less(s[j], s[i])
  }

  /** Two different elements of `s` never tie. */
  ghost predicate Told<T>(less: (T, T) -> bool, s: seq<T>) {
    forall x, y :: x in s && y in s && x != y ==> less(x, y) || less(y, x)
  }

  /** After every element that is not greater, so equal elements keep their order. */
  function Insert<T>(less: (T, T) -> bool, s: seq<T>, x: T): seq<T> {
    if s == [] then [x]
    else if less(x, s[|s| - 1]) then Insert(less, s[..|s| - 1], x) + [s[|s| - 1]]
    else s + [x]
  }

  function Sort<T>(less: (T, T) -> bool, s: seq<T>): seq<T> {
    if s == [] then [] else Insert(less, Sort(less, s[..|s| - 1]), s[|s| - 1])
  }

  lemma {:induction false} InsertBag<T>(less: (T, T) -> bool, s: seq<T>, x: T)
    ensures multiset(Insert(less, s, x)) == multiset(s) + multiset{x}
  {
    if s != [] {
      assert s == s[..|s| - 1] + [s[|s| - 1]];
      InsertBag(less, s[..|s| - 1], x);
    }
  }

  lemma InsertHas<T>(less: (T, T) -> bool, s: seq<T>, x: T, i: nat)
    requires i < |Insert(less, s, x)|
    ensures Insert(less, s, x)[i] in s || Insert(less, s, x)[i] == x
  {
    InsertBag(less, s, x);
    assert Insert(less, s, x)[i] in multiset(Insert(less, s, x));
  }

  lemma {:induction false} InsertSorts<T(!new)>(less: (T, T) -> bool, s: seq<T>, x: T)
    requires WeakOrder(less) && SortedBy(less, s)
    ensures SortedBy(less, Insert(less, s, x))
  {
    if s != [] {
      var front, last := s[..|s| - 1], s[|s| - 1];
      if less(x, last) {
        InsertSorts(less, front, x);
        var r := Insert(less, front, x);
        forall i | 0 <= i < |r|
          ensures !less(last, r[i])
        {
          InsertHas(less, front, x, i);
        }
      }
    }
  }

  lemma {:induction false} SortSorts<T(!new)>(less: (T, T) -> bool, s: seq<T>)
    requires WeakOrder(less)
    ensures SortedBy(less, Sort(less, s)) && multiset(Sort(less, s)) == multiset(s)
    ensures |Sort(less, s)| == |s|
  {
    if s != [] {
      SortSorts(less, s[..|s| - 1]);
      InsertSorts(less, Sort(less, s[..|s| - 1]), s[|s| - 1]);
      InsertBag(less, Sort(less, s[..|s| - 1]), s[|s| - 1]);
      assert s == s[..|s| - 1] + [s[|s| - 1]];
    }
    assert |multiset(Sort(less, s))| == |Sort(less, s)|;
  }

  lemma LastSame<T>(less: (T, T) -> bool, a: seq<T>, b: seq<T>)
    requires SortedBy(less, a) && SortedBy(less, b) && Told(less, a)
    requires |a| == |b| > 0 && (forall x :: x in a <==> x in b)
    ensures a[|a| - 1] == b[|b| - 1]
  {
    assert a[|a| - 1] in b && b[|b| - 1] in a;
  }

  lemma FrontBag<T>(s: seq<T>)
    requires s != []
    ensures multiset(s[..|s| - 1]) == multiset(s) - multiset{s[|s| - 1]}
  {
    assert s == s[..|s| - 1] + [s[|s| - 1]];
  }

  lemma SameBag<T>(a: seq<T>, b: seq<T>)
    requires multiset(a) == multiset(b)
    ensures |a| == |b| && (forall x :: x in a <==> x in b)
  {
    assert |multiset(a)| == |a| && |multiset(b)| == |b|;
    assert forall x :: x in a <==> x in multiset(a);
    assert forall x :: x in b <==> x in multiset(b);
  }

  lemma SortedPart<T>(less: (T, T) -> bool, s: seq<T>, n: nat)
    requires SortedBy(less, s) && n <= |s|
    ensures SortedBy(less, s[..n])
  {
  }

  lemma ToldPart<T>(less: (T, T) -> bool, s: seq<T>, n: nat)
    requires Told(less, s) && n <= |s|
    ensures Told(less, s[..n])
  {
  }

  lemma Peel<T>(less: (T, T) -> bool, a: seq<T>, b: seq<T>)
    requires SortedBy(less, a) && SortedBy(less, b) && multiset(a) == multiset(b) && Told(less, a)
    requires a != []
    ensures |a| == |b| && a[|a| - 1] == b[|b| - 1]
    ensures multiset(a[..|a| - 1]) == multiset(b[..|b| - 1])
  {
    SameBag(a, b);
    LastSame(less, a, b);
    FrontBag(a);
    FrontBag(b);
  }

  /** Sorted lists of the same elements are equal if the order tells them apart. */
  lemma {:induction false} SortedUnique<T(!new)>(less: (T, T) -> bool, a: seq<T>, b: seq<T>)
    requires SortedBy(less, a) && SortedBy(less, b) && multiset(a) == multiset(b) && Told(less, a)
    ensures a == b
    decreases |a|
  {
    if a == [] {
      assert |multiset(a)| == |a| && |multiset(b)| == |b|;
    } else {
      var last := |a| - 1;
      Peel(less, a, b);
      SortedPart(less, a, last);
      SortedPart(less, b, last);
      ToldPart(less, a, last);
      SortedUnique(less, a[..last], b[..last]);
      assert a == a[..last] + [a[last]] && b == b[..last] + [b[last]];
    }
  }

  /** The result depends on what is sorted, not on the order it came in. */
  lemma SortPermuted<T(!new)>(less: (T, T) -> bool, a: seq<T>, b: seq<T>)
    requires WeakOrder(less) && multiset(a) == multiset(b) && Told(less, a)
    ensures Sort(less, a) == Sort(less, b)
  {
    SortSorts(less, a);
    SortSorts(less, b);
    forall x | x in Sort(less, a)
      ensures x in a
    {
      assert x in multiset(Sort(less, a));
    }
    SortedUnique(less, Sort(less, a), Sort(less, b));
  }

  lemma DistinctBag<T>(s: seq<T>)
    requires Distinct(s)
    ensures forall x :: multiset(s)[x] == if x in s then 1 else 0
    decreases |s|
  {
    if s != [] {
      var last := |s| - 1;
      DistinctBag(s[..last]);
      assert s == s[..last] + [s[last]];
      assert s[last] !in s[..last];
    }
  }

  lemma TwiceInBag<T>(s: seq<T>, i: nat, j: nat)
    requires i < j < |s| && s[i] == s[j]
    ensures multiset(s)[s[i]] >= 2
  {
    assert s == s[..i] + [s[i]] + s[i + 1..j] + [s[j]] + s[j + 1..];
  }

  lemma DistinctSame<T>(a: seq<T>, b: seq<T>)
    requires Distinct(a) && Distinct(b) && Elems(a) == Elems(b)
    ensures multiset(a) == multiset(b)
  {
    DistinctBag(a);
    DistinctBag(b);
    forall x
      ensures multiset(a)[x] == multiset(b)[x]
    {
      assert x in a <==> x in Elems(a);
      assert x in b <==> x in Elems(b);
    }
  }

  lemma PermutedDistinct<T>(a: seq<T>, b: seq<T>)
    requires Distinct(a) && multiset(a) == multiset(b)
    ensures Distinct(b) && Elems(b) == Elems(a)
  {
    SameBag(a, b);
    DistinctBag(a);
    forall i, j | 0 <= i < j < |b|
      ensures b[i] != b[j]
    {
      if b[i] == b[j] {
        TwiceInBag(b, i, j);
        assert false;
      }
    }
  }

  /** Stands for any sorting routine: callers know only that the result is a sorted
      permutation. */
  method SortSlice<T(!new)>(less: (T, T) -> bool, s: seq<T>) returns (r: seq<T>)
    requires WeakOrder(less)
    ensures SortedBy(less, r) && multiset(r) == multiset(s)
  {
    SortSorts(less, s);
    r := Sort(less, s);
  }

  // ---- text order ----

  predicate TextLess(a: string, b: string) {
    b != [] && (a == [] || a[0] < b[0] || (a[0] == b[0] && TextLess(a[1..], b[1..])))
  }

  lemma {:induction false} TextTotal(a: string, b: string)
    ensures TextLess(a, b) || TextLess(b, a) || a == b
    ensures !(TextLess(a, b) && TextLess(b, a))
  {
    if a != [] && b != [] && a[0] == b[0] {
      TextTotal(a[1..], b[1..]);
      assert a == [a[0]] + a[1..] && b == [b[0]] + b[1..];
    }
  }

  lemma {:induction false} TextTransitive(a: string, b: string, c: string)
    requires TextLess(a, b) && TextLess(b, c)
    ensures TextLess(a, c)
  {
    if a != [] && a[0] == b[0] && b[0] == c[0] {
      TextTransitive(a[1..], b[1..], c[1..]);
    }
  }

  /** The texts agree up to `k` and differ there, `a` having the smaller character. */
  predicate DiffersAt(a: string, b: string, k: nat) {
    k < |a| && k < |b| && a[..k] == b[..k] && a[k] < b[k]
  }

  lemma DiffersLater(a: string, b: string, k: nat)
    requires a != [] && b != [] && a[0] == b[0]
    ensures DiffersAt(a, b, k + 1) <==> DiffersAt(a[1..], b[1..], k)
    ensures !DiffersAt(a, b, 0)
  {
    if k < |a| - 1 && k < |b| - 1 {
      assert a[..k + 1] == [a[0]] + a[1..][..k] && b[..k + 1] == [b[0]] + b[1..][..k];
    }
  }

  lemma DiffersFirst(a: string, b: string, k: nat)
    requires a != [] && b != [] && DiffersAt(a, b, k)
    ensures k == 0 || a[0] == b[0]
  {
    if k > 0 {
      assert a[..k][0] == b[..k][0];
    }
  }

  lemma PrefixLater(a: string, b: string)
    requires a != [] && b != [] && a[0] == b[0]
    ensures (|a| < |b| && a == b[..|a|]) <==> (|a[1..]| < |b[1..]| && a[1..] == b[1..][..|a[1..]|])
  {
    if |a| < |b| {
      assert b[..|a|][1..] == b[1..][..|a| - 1];
      assert a == [a[0]] + a[1..] && b[..|a|] == [b[0]] + b[..|a|][1..];
    }
  }

  /** Text order is the dictionary's: a proper prefix comes first, otherwise the first
      difference decides. */
  lemma {:induction false} TextLessMeans(a: string, b: string)
    ensures TextLess(a, b) <==> (|a| < |b| && a == b[..|a|]) || exists k: nat :: DiffersAt(a, b, k)
  {
    if a != [] && b != [] {
      if a[0] == b[0] {
        TextLessMeans(a[1..], b[1..]);
        PrefixLater(a, b);
        if k: nat :| DiffersAt(a, b, k) {
          DiffersLater(a, b, if k > 0 then k - 1 else 0);
        }
        if k: nat :| DiffersAt(a[1..], b[1..], k) {
          DiffersLater(a, b, k);
        }
      } else {
        assert a[0] < b[0] ==> DiffersAt(a, b, 0);
        if k: nat :| DiffersAt(a, b, k) {
          DiffersFirst(a, b, k);
        }
      }
    }
  }

  lemma TextOrder()
    ensures WeakOrder(TextLess)
    ensures forall a, b :: TextLess(a, b) || TextLess(b, a) || a == b
  {
    forall a, b
      ensures TextLess(a, b) || TextLess(b, a) || a == b
      ensures !(TextLess(a, b) && TextLess(b, a))
    {
      TextTotal(a, b);
    }
    forall a, b, c | TextLess(a, b) && TextLess(b, c)
      ensures TextLess(a, c)
    {
      TextTransitive(a, b, c);
    }
  }
}
