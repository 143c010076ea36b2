/** Rendezvous (highest-random-weight) sharding: each edge is covered by the k
    controllers with the highest score for it. The score is a parameter. */
module Shard {
  import opened Model
  import opened Sorting

  /** The weight of an (edge, controller) pair. */
  type Score = (string, string) -> nat

  datatype Ranked = Ranked(id: string, sc: nat)

  /** `c` is preferred to `d` for this edge: higher score first, then smaller id. */
  predicate Beats(score: Score, edge: string, c: string, d: string) {
    score(edge, c) > score(edge, d) || (score(edge, c) == score(edge, d) && TextLess(c, d))
  }

  function ByWeight(score: Score, edge: string): (string, string) -> bool {
    (c, d) => Beats(score, edge, c, d)
  }

  function RankedLess(): (Ranked, Ranked) -> bool {
    (x: Ranked, y: Ranked) => x.sc > y.sc || (x.sc == y.sc && TextLess(x.id, y.id))
  }

  function TopK(score: Score, edge: string, ids: seq<string>, k: int): seq<string> {
    var all := Sort(ByWeight(score, edge), ids);
    if k <= 0 then [] else if k > |all| then all else all[..k]
  }

  lemma ByWeightOrder(score: Score, edge: string)
    ensures WeakOrder(ByWeight(score, edge))
    ensures forall s :: Told(ByWeight(score, edge), s)
  {
    TextOrder();
  }

  lemma RankedOrder()
    ensures WeakOrder(RankedLess())
  {
    TextOrder();
  }

  // ---- the operations ----

  ghost predicate Scored(score: Score, edge: string, s: seq<Ranked>) {
    forall x | x in s :: x.sc == score(edge, x.id)
  }

  function Ids(s: seq<Ranked>): seq<string> {
    seq(|s|, i requires 0 <= i < |s| => s[i].id)
  }

  lemma {:induction false} IdCount(score: Score, edge: string, s: seq<Ranked>, c: string)
    requires Scored(score, edge, s)
    ensures multiset(Ids(s))[c] == multiset(s)[Ranked(c, score(edge, c))]
  {
    if s != [] {
      var front, last := s[..|s| - 1], s[|s| - 1];
      assert last in s;
      IdCount(score, edge, front, c);
      assert s == front + [last];
      assert Ids(s) == Ids(front) + [last.id];
    }
  }

  lemma RankedBag(score: Score, edge: string, s: seq<Ranked>, t: seq<Ranked>)
    requires Scored(score, edge, s) && multiset(s) == multiset(t)
    ensures Scored(score, edge, t) && multiset(Ids(s)) == multiset(Ids(t))
  {
    SameBag(s, t);
    forall c
      ensures multiset(Ids(s))[c] == multiset(Ids(t))[c]
    {
      IdCount(score, edge, s, c);
      IdCount(score, edge, t, c);
    }
  }

  lemma RankedSorted(score: Score, edge: string, s: seq<Ranked>)
    requires Scored(score, edge, s) && SortedBy(RankedLess(), s)
    ensures SortedBy(ByWeight(score, edge), Ids(s))
  {
    forall i, j | 0 <= i < j < |s|
      ensures !ByWeight(score, edge)(Ids(s)[j], Ids(s)[i])
    {
      assert s[i] in s && s[j] in s && !RankedLess()(s[j], s[i]);
    }
  }

  method Coverers(score: Score, edge: string, controllers: seq<string>, k: int)
    returns (out: seq<string>)
    ensures out == TopK(score, edge, controllers, k)
  {
    if k <= 0 || |controllers| == 0 {
      return [];
    }
    var ranked: seq<Ranked> := [];
    for i := 0 to |controllers|
      invariant |ranked| == i && Ids(ranked) == controllers[..i]
      invariant Scored(score, edge, ranked)
    {
      ranked := ranked + [Ranked(controllers[i], score(edge, controllers[i]))];
    }
    RankedOrder();
    var sorted := SortSlice(RankedLess(), ranked);
    ghost var all := Sort(ByWeight(score, edge), controllers);
    assert Ids(sorted) == all by {
      RankedBag(score, edge, ranked, sorted);
      RankedSorted(score, edge, sorted);
      ByWeightOrder(score, edge);
      assert controllers[..|controllers|] == controllers;
      SortSorts(ByWeight(score, edge), controllers);
      SortedUnique(ByWeight(score, edge), Ids(sorted), all);
    }
    var m := if k > |sorted| then |sorted| else k;
    out := [];
    for i := 0 to m
      invariant out == Ids(sorted)[..i]
    {
      out := out + [sorted[i].id];
    }
  }

  method Covers(score: Score, self: string, edge: string, controllers: seq<string>, k: int)
    returns (yes: bool)
    ensures yes <==> self in TopK(score, edge, controllers, k)
  {
    var cs := Coverers(score, edge, controllers, k);
    for i := 0 to |cs|
      invariant self !in cs[..i]
    {
      if cs[i] == self {
        return true;
      }
    }
    assert cs[..|cs|] == cs;
    return false;
  }

  /** The edges of `edges` that `self` covers, in their order. */
  function Tapped(score: Score, self: string, edges: seq<string>, controllers: seq<string>, k: int): seq<string> {
    if edges == [] then []
    else
      var last := |edges| - 1;
      Tapped(score, self, edges[..last], controllers, k)
      + (if self in TopK(score, edges[last], controllers, k) then [edges[last]] else [])
  }

  method CoveredEdges(score: Score, self: string, edges: seq<string>, controllers: seq<string>, k: int)
    returns (out: seq<string>)
    ensures out == Tapped(score, self, edges, controllers, k)
  {
    out := [];
    for i := 0 to |edges|
      invariant out == Tapped(score, self, edges[..i], controllers, k)
    {
      assert edges[..i + 1][..i] == edges[..i];
      var yes := Covers(score, self, edges[i], controllers, k);
      if yes {
        out := out + [edges[i]];
      }
    }
    assert edges[..|edges|] == edges;
  }

  method Coverage(score: Score, edges: seq<string>, controllers: seq<string>, k: int)
    returns (out: map<string, seq<string>>)
    ensures out.Keys == Elems(edges)
    ensures forall e | e in edges :: out[e] == TopK(score, e, controllers, k)
  {
    out := map[];
    for i := 0 to |edges|
      invariant out.Keys == Elems(edges[..i])
      invariant forall e | e in out :: out[e] == TopK(score, e, controllers, k)
    {
      var cs := Coverers(score, edges[i], controllers, k);
      out := out[edges[i] := cs];
    }
    assert edges[..|edges|] == edges;
  }

  // ---- what the assignment is ----

  function Min(k: int, n: nat): nat {
    if k <= 0 then 0 else if k > n then n else k
  }

  /** Independent of any sorting: `r` lists, in strict preference order, as many distinct
      controllers as allowed, each preferred to every controller left out. */
  ghost predicate IsTop(score: Score, edge: string, ids: seq<string>, k: int, r: seq<string>) {
    && |r| == Min(k, |ids|)
    && (forall c | c in r :: c in ids)
    && (forall i, j | 0 <= i < j < |r| :: Beats(score, edge, r[i], r[j]))
    && (forall c, d | c in r && d in ids && d !in r :: Beats(score, edge, c, d))
  }

  lemma SortedDistinct(score: Score, edge: string, ids: seq<string>)
    requires Distinct(ids)
    ensures Distinct(Sort(ByWeight(score, edge), ids))
    ensures |Sort(ByWeight(score, edge), ids)| == |ids|
    ensures forall c :: c in Sort(ByWeight(score, edge), ids) <==> c in ids
  {
    var all := Sort(ByWeight(score, edge), ids);
    ByWeightOrder(score, edge);
    SortSorts(ByWeight(score, edge), ids);
    SameBag(all, ids);
    PermutedDistinct(ids, all);
  }

  /** The whole ranking is in strict preference order. */
  lemma SortedStrict(score: Score, edge: string, ids: seq<string>, i: nat, j: nat)
    requires Distinct(ids) && i < j < |ids|
    ensures |Sort(ByWeight(score, edge), ids)| == |ids|
    ensures Beats(score, edge, Sort(ByWeight(score, edge), ids)[i], Sort(ByWeight(score, edge), ids)[j])
  {
    var less, all := ByWeight(score, edge), Sort(ByWeight(score, edge), ids);
    SortedDistinct(score, edge, ids);
    ByWeightOrder(score, edge);
    SortSorts(less, ids);
    assert all[i] in all && all[j] in all && all[i] != all[j];
    assert Told(less, all) && !less(all[j], all[i]);
    assert less(all[i], all[j]);
  }

  lemma TopIsTop(score: Score, edge: string, ids: seq<string>, k: int)
    requires Distinct(ids)
    ensures IsTop(score, edge, ids, k, TopK(score, edge, ids, k))
    ensures Distinct(TopK(score, edge, ids, k))
  {
    var all := Sort(ByWeight(score, edge), ids);
    var r := TopK(score, edge, ids, k);
    SortedDistinct(score, edge, ids);
    assert r == all[..|r|];
    forall i, j | 0 <= i < j < |all|
      ensures Beats(score, edge, all[i], all[j])
    {
      SortedStrict(score, edge, ids, i, j);
    }
    forall c, d | c in r && d in ids && d !in r
      ensures Beats(score, edge, c, d)
    {
      var i :| 0 <= i < |r| && r[i] == c;
      assert d in all;
      var j :| 0 <= j < |all| && all[j] == d;
      assert j < |r| ==> r[j] in r;
    }
  }

  lemma NotBoth(score: Score, edge: string, c: string, d: string)
    requires Beats(score, edge, c, d)
    ensures !Beats(score, edge, d, c) && c != d
  {
    TextTotal(c, d);
  }

  lemma StrictDistinct(score: Score, edge: string, r: seq<string>)
    requires forall i, j | 0 <= i < j < |r| :: Beats(score, edge, r[i], r[j])
    ensures Distinct(r)
  {
    forall i, j | 0 <= i < j < |r|
      ensures r[i] != r[j]
    {
      NotBoth(score, edge, r[i], r[j]);
    }
  }

  /** Both top lists hold the same controllers. */
  lemma TopSame(score: Score, edge: string, ids: seq<string>, k: int, r: seq<string>, t: seq<string>)
    requires IsTop(score, edge, ids, k, r) && IsTop(score, edge, ids, k, t)
    ensures Elems(r) <= Elems(t)
  {
    StrictDistinct(score, edge, r);
    StrictDistinct(score, edge, t);
    DistinctCard(r);
    DistinctCard(t);
    if c :| c in Elems(r) && c !in Elems(t) {
      assert c in r && c in ids && c !in t;
      assert exists d :: d in Elems(t) && d !in Elems(r) by {
        if forall d | d in Elems(t) :: d in Elems(r) {
          assert Elems(t) <= Elems(r) - {c};
          SubsetCard(Elems(t), Elems(r) - {c});
          assert false;
        }
      }
      var d :| d in Elems(t) && d !in Elems(r);
      NotBoth(score, edge, c, d);
      assert false;
    }
  }

  /** `Coverers` is the top list, and nothing else is. */
  lemma TopUnique(score: Score, edge: string, ids: seq<string>, k: int, r: seq<string>)
    requires Distinct(ids)
    ensures IsTop(score, edge, ids, k, r) <==> r == TopK(score, edge, ids, k)
  {
    var t := TopK(score, edge, ids, k);
    TopIsTop(score, edge, ids, k);
    if IsTop(score, edge, ids, k, r) {
      TopSame(score, edge, ids, k, r, t);
      TopSame(score, edge, ids, k, t, r);
      StrictDistinct(score, edge, r);
      StrictSorted(score, edge, r);
      StrictSorted(score, edge, t);
      DistinctSame(r, t);
      ByWeightOrder(score, edge);
      SortedUnique(ByWeight(score, edge), r, t);
    }
  }

  lemma StrictSorted(score: Score, edge: string, r: seq<string>)
    requires forall i, j | 0 <= i < j < |r| :: Beats(score, edge, r[i], r[j])
    ensures SortedBy(ByWeight(score, edge), r)
  {
    forall i, j | 0 <= i < j < |r|
      ensures !ByWeight(score, edge)(r[j], r[i])
    {
      NotBoth(score, edge, r[i], r[j]);
    }
  }

  /** The list by scores: highest first, equal scores by smaller id, and nobody left out scores
      higher than a member, or as high with a smaller id. */
  lemma HighestScores(score: Score, edge: string, ids: seq<string>, k: int)
    requires Distinct(ids)
    ensures var r := TopK(score, edge, ids, k);
      && |r| == (if k <= 0 then 0 else if k < |ids| then k else |ids|)
      && (forall i, j | 0 <= i < j < |r| ::
            score(edge, r[i]) > score(edge, r[j]) || (score(edge, r[i]) == score(edge, r[j]) && TextLess(r[i], r[j])))
      && (forall c, d | c in r && d in ids && d !in r ::
            score(edge, c) > score(edge, d) || (score(edge, c) == score(edge, d) && TextLess(c, d)))
  {
    TopIsTop(score, edge, ids, k);
    var r := TopK(score, edge, ids, k);
    forall i, j | 0 <= i < j < |r|
      ensures score(edge, r[i]) > score(edge, r[j]) || (score(edge, r[i]) == score(edge, r[j]) && TextLess(r[i], r[j]))
    {
      assert Beats(score, edge, r[i], r[j]);
    }
  }

  /** Every replica computes the same list, however its view of the set is ordered. */
  lemma OrderDoesNotMatter(score: Score, edge: string, a: seq<string>, b: seq<string>, k: int)
    requires multiset(a) == multiset(b)
    ensures TopK(score, edge, a, k) == TopK(score, edge, b, k)
  {
    ByWeightOrder(score, edge);
    SortPermuted(ByWeight(score, edge), a, b);
  }

  // ---- minimal reshuffle ----

  function Cut<T>(s: seq<T>, p: nat): seq<T>
    requires p < |s|
  {
    s[..p] + s[p + 1..]
  }

  /** Taking one controller away cuts it out of the ranking and moves nobody else. */
  lemma RankingCut(score: Score, edge: string, ids: seq<string>, rest: seq<string>, p: nat)
    requires Distinct(ids) && Distinct(rest) && p < |ids|
    requires |Sort(ByWeight(score, edge), ids)| == |ids|
    requires Elems(rest) == Elems(ids) - {Sort(ByWeight(score, edge), ids)[p]}
    ensures Sort(ByWeight(score, edge), rest) == Cut(Sort(ByWeight(score, edge), ids), p)
  {
    var less := ByWeight(score, edge);
    var all := Sort(less, ids);
    var cut := Cut(all, p);
    ByWeightOrder(score, edge);
    SortedDistinct(score, edge, ids);
    SortSorts(less, ids);
    CutSorted(less, all, p);
    CutDistinct(all, p);
    assert Elems(cut) == Elems(rest) by {
      forall c
        ensures c in Elems(cut) <==> c in Elems(rest)
      {
        assert c in ids <==> c in all;
      }
    }
    DistinctSame(cut, rest);
    SortSorts(less, rest);
    SortedUnique(less, cut, Sort(less, rest));
  }

  lemma CutSorted<T>(less: (T, T) -> bool, s: seq<T>, p: nat)
    requires SortedBy(less, s) && p < |s|
    ensures SortedBy(less, Cut(s, p))
  {
  }

  lemma CutDistinct<T>(s: seq<T>, p: nat)
    requires Distinct(s) && p < |s|
    ensures Distinct(Cut(s, p))
    ensures forall x :: x in Cut(s, p) <==> x in s && x != s[p]
  {
    var cut := Cut(s, p);
    forall x | x in s && x != s[p]
      ensures x in cut
    {
      var i :| 0 <= i < |s| && s[i] == x;
      assert i < p ==> cut[i] == x;
      assert i > p ==> cut[i - 1] == x;
    }
  }

  lemma Position(score: Score, edge: string, ids: seq<string>, x: string) returns (p: nat)
    requires Distinct(ids) && x in ids
    ensures |Sort(ByWeight(score, edge), ids)| == |ids|
    ensures p < |ids| && Sort(ByWeight(score, edge), ids)[p] == x
  {
    SortedDistinct(score, edge, ids);
    assert x in Sort(ByWeight(score, edge), ids);
    p :| p < |ids| && Sort(ByWeight(score, edge), ids)[p] == x;
  }

  /** A controller that does not cover the edge comes or goes: the list stays as it was. */
  lemma NonCovererLeaves(score: Score, edge: string, ids: seq<string>, rest: seq<string>, k: int, x: string)
    requires Distinct(ids) && Distinct(rest) && x in ids && Elems(rest) == Elems(ids) - {x}
    requires x !in TopK(score, edge, ids, k)
    ensures TopK(score, edge, rest, k) == TopK(score, edge, ids, k)
  {
    var p := Position(score, edge, ids, x);
    RankingCut(score, edge, ids, rest, p);
    var all := Sort(ByWeight(score, edge), ids);
    if 0 < k {
      assert p < k ==> x in TopK(score, edge, ids, k);
      assert Cut(all, p)[..k] == all[..k];
    }
  }

  /** A coverer leaves: it is cut out, the others keep their order, and one newcomer is
      appended exactly when somebody was left to take the place. */
  lemma CovererLeaves(score: Score, edge: string, ids: seq<string>, rest: seq<string>, k: int, p: nat)
    requires Distinct(ids) && Distinct(rest) && p < |TopK(score, edge, ids, k)|
    requires Elems(rest) == Elems(ids) - {TopK(score, edge, ids, k)[p]}
    ensures exists extra: seq<string> ::
      && TopK(score, edge, rest, k) == Cut(TopK(score, edge, ids, k), p) + extra
      && |extra| == (if |ids| > k then 1 else 0)
      && (forall c | c in extra :: c in ids && c !in TopK(score, edge, ids, k))
  {
    var all, top := Sort(ByWeight(score, edge), ids), TopK(score, edge, ids, k);
    SortedDistinct(score, edge, ids);
    RankingCut(score, edge, ids, rest, p);
    var cut := Cut(all, p);
    var extra := if |ids| > k then [all[k]] else [];
    if |ids| > k {
      assert cut[..k] == Cut(top, p) + extra;
      assert all[k] in all && all[k] !in top;
    } else {
      assert top == all;
      assert cut == Cut(top, p) + extra;
    }
    assert TopK(score, edge, rest, k) == Cut(top, p) + extra;
  }

  // ---- redundancy ----

  lemma {:induction false} TappedHas(score: Score, self: string, edges: seq<string>, ids: seq<string>, k: int, e: string)
    ensures e in Tapped(score, self, edges, ids, k) <==> e in edges && self in TopK(score, e, ids, k)
    decreases |edges|
  {
    if edges != [] {
      var last := |edges| - 1;
      TappedHas(score, self, edges[..last], ids, k, e);
      assert edges == edges[..last] + [edges[last]];
    }
  }

  ghost function Tappers(score: Score, edges: seq<string>, ids: seq<string>, k: int, e: string): set<string> {
    set c | c in ids && e in Tapped(score, c, edges, ids, k)
  }

  lemma TappersAreTop(score: Score, edges: seq<string>, ids: seq<string>, k: int, e: string)
    requires Distinct(ids) && e in edges
    ensures Tappers(score, edges, ids, k, e) == Elems(TopK(score, e, ids, k))
  {
    var top := TopK(score, e, ids, k);
    assert forall c | c in top :: c in ids by {
      TopIsTop(score, e, ids, k);
    }
    forall c
      ensures c in Tappers(score, edges, ids, k, e) <==> c in Elems(top)
    {
      TappedHas(score, c, edges, ids, k, e);
    }
  }

  /** Every edge is tapped by exactly min(k, n) controllers. */
  lemma EveryEdgeCovered(score: Score, edges: seq<string>, ids: seq<string>, k: int, e: string)
    requires Distinct(ids) && e in edges
    ensures |Tappers(score, edges, ids, k, e)| == if k <= 0 then 0 else if k < |ids| then k else |ids|
  {
    TappersAreTop(score, edges, ids, k, e);
    TopIsTop(score, e, ids, k);
    DistinctCard(TopK(score, e, ids, k));
  }
}
