/** Placement: pick the home edges of a pool among the registered candidates, most
    remaining bandwidth first. Remaining capacity is a parameter. */
module Scheduler {
  import opened Model
  import opened Sorting

  /** Remaining capacity of an edge; `None` is a failed lookup. */
  type Remaining = EdgeId -> Option<int>

  datatype Cand = Cand(edge: EdgeId, free: int)

  datatype Selection = Homes(homes: seq<EdgeId>) | LookupError | InsufficientCapacity | InsufficientSessions

  /** The question put to the scheduler. The session limit applies when a lookup is given
      and a positive amount is needed. */
  datatype Demand = Demand(rem: Remaining, need: int, remSess: Option<Remaining>, needSess: int) {
    predicate SessOn() { remSess.Some? && needSess > 0 }

    predicate Fits(e: EdgeId) { rem(e).Some? && rem(e).value >= need }

    predicate Qualifies(e: EdgeId) {
      Fits(e) && (SessOn() ==> remSess.value(e).Some? && remSess.value(e).value >= needSess)
    }

    /** A lookup the selection makes for this candidate fails. */
    predicate Fails(e: EdgeId) {
      rem(e).None? || (SessOn() && Fits(e) && remSess.value(e).None?)
    }

    function Free(e: EdgeId): int { if rem(e).Some? then rem(e).value else 0 }

    ghost function Fitting(s: set<EdgeId>): set<EdgeId> { set e | e in s && Fits(e) }

    ghost function Qualifying(s: set<EdgeId>): set<EdgeId> { set e | e in s && Qualifies(e) }
  }

  /** The limits spelled out: enough bandwidth, and enough sessions if a session lookup is given
      and any are needed; and which candidates make the selection fail. */
  lemma DemandMeans(d: Demand, e: EdgeId)
    ensures var sess := d.remSess.Some? && d.needSess > 0;
      var room := d.rem(e).Some? && d.rem(e).value >= d.need;
      && (d.SessOn() <==> sess)
      && (forall s | e in s :: e in d.Fitting(s) <==> room)
      && (forall s | e in s :: e in d.Qualifying(s) <==>
            room && (sess ==> d.remSess.value(e).Some? && d.remSess.value(e).value >= d.needSess))
      && (d.Fails(e) <==> d.rem(e).None? || (sess && room && d.remSess.value(e).None?))
  {
  }

  /** `n` distinct qualifiers, most free first, none left out with more free. */
  ghost predicate WorstFit(d: Demand, candidates: set<EdgeId>, n: nat, homes: seq<EdgeId>) {
    && |homes| == n && Distinct(homes)
    && (forall h | h in homes :: h in d.Qualifying(candidates))
    && (forall i, j | 0 <= i < j < n :: d.Free(homes[i]) >= d.Free(homes[j]))
    && (forall h, e | h in homes && e in d.Qualifying(candidates) && e !in homes :: d.Free(h) >= d.Free(e))
  }

  /** A selection in terms of the lookups alone: what is left out and had room has no more
      tokens than anything taken. */
  lemma WorstFitMeans(d: Demand, candidates: set<EdgeId>, n: nat, homes: seq<EdgeId>)
    requires WorstFit(d, candidates, n, homes)
    ensures |homes| == n && forall i, j | 0 <= i < j < n :: homes[i] != homes[j]
    ensures forall h | h in homes :: h in candidates && d.rem(h).Some? && d.rem(h).value >= d.need
    ensures forall i, j | 0 <= i < j < n ::
      homes[i] in homes && homes[j] in homes && d.rem(homes[i]).value >= d.rem(homes[j]).value
    ensures forall h, e | h in homes && e in candidates && e !in homes && d.rem(e).Some? && d.rem(e).value >= d.need
        && (d.remSess.Some? && d.needSess > 0 ==> d.remSess.value(e).Some? && d.remSess.value(e).value >= d.needSess) ::
      d.rem(h).value >= d.rem(e).value
  {
    forall h | h in homes
      ensures h in candidates && d.rem(h).Some? && d.Free(h) == d.rem(h).value >= d.need
    {
      assert h in d.Qualifying(candidates);
    }
    forall h, e | h in homes && e in candidates && e !in homes && d.Qualifies(e)
      ensures d.rem(h).value >= d.rem(e).value
    {
      assert e in d.Qualifying(candidates);
      assert d.Free(h) >= d.Free(e);
    }
  }

  /** Without shuffling, equally free edges are taken in id order. */
  ghost predicate TiesById(d: Demand, candidates: set<EdgeId>, homes: seq<EdgeId>) {
    && (forall i, j | 0 <= i < j < |homes| && d.Free(homes[i]) == d.Free(homes[j]) :: TextLess(homes[i], homes[j]))
    && (forall h, e | h in homes && e in d.Qualifying(candidates) && e !in homes && d.Free(h) == d.Free(e) ::
          TextLess(h, e))
  }

  function ByFree(): (Cand, Cand) -> bool {
    (x: Cand, y: Cand) => x.free > y.free
  }

  function ByFreeThenId(): (Cand, Cand) -> bool {
    (x: Cand, y: Cand) => x.free > y.free || (x.free == y.free && TextLess(x.edge, y.edge))
  }

  lemma Orders()
    ensures WeakOrder(ByFree()) && WeakOrder(ByFreeThenId())
  {
    TextOrder();
  }

  function Edges(s: seq<Cand>): seq<EdgeId> {
    seq(|s|, i requires 0 <= i < |s| => s[i].edge)
  }

  /** `s` holds exactly the qualifiers of `seen`, each once, with its free capacity. */
  ghost predicate Collected(d: Demand, seen: set<EdgeId>, s: seq<Cand>) {
    && Distinct(Edges(s))
    && Elems(Edges(s)) == d.Qualifying(seen)
    && forall c | c in s :: c.free == d.Free(c.edge)
  }

  /** Fisher-Yates with any draws: a permutation. */
  method Shuffle(s: seq<Cand>, draws: nat -> nat) returns (r: seq<Cand>)
    ensures multiset(r) == multiset(s)
  {
    r := s;
    var i := |s| - 1;
    while i > 0
      invariant -1 <= i < |s| == |r| && multiset(r) == multiset(s)
    {
      var j := draws(i) % (i + 1);
      r := r[i := r[j]][j := r[i]];
      i := i - 1;
    }
  }

  lemma CollectedPermuted(d: Demand, seen: set<EdgeId>, s: seq<Cand>, t: seq<Cand>)
    requires Collected(d, seen, s) && multiset(s) == multiset(t)
    ensures Collected(d, seen, t)
  {
    SameBag(s, t);
    assert Elems(Edges(t)) == Elems(Edges(s)) by {
      forall e
        ensures e in Elems(Edges(t)) <==> e in Elems(Edges(s))
      {
        EdgeIn(s, e);
        EdgeIn(t, e);
      }
    }
    DistinctBySize(s, t);
  }

  lemma EdgeIn(s: seq<Cand>, e: EdgeId)
    ensures e in Elems(Edges(s)) <==> exists c :: c in s && c.edge == e
  {
    if c :| c in s && c.edge == e {
      var i :| 0 <= i < |s| && s[i] == c;
      assert Edges(s)[i] == e;
    }
    if e in Elems(Edges(s)) {
      var i :| 0 <= i < |s| && Edges(s)[i] == e;
      assert s[i] in s;
    }
  }

  /** As many elements as before with the same set: still no duplicates. */
  lemma DistinctBySize(s: seq<Cand>, t: seq<Cand>)
    requires Distinct(Edges(s)) && |s| == |t| && Elems(Edges(s)) == Elems(Edges(t))
    ensures Distinct(Edges(t))
  {
    DistinctCard(Edges(s));
    AllNeeded(Edges(t));
  }

  lemma {:induction false} AllNeeded<T>(s: seq<T>)
    ensures |Elems(s)| <= |s|
    ensures |Elems(s)| == |s| ==> Distinct(s)
    decreases |s|
  {
    if s != [] {
      var last := |s| - 1;
      AllNeeded(s[..last]);
      assert s == s[..last] + [s[last]];
      ElemsSnoc(s[..last], s[last]);
      if |Elems(s)| == |s| {
        assert s[last] !in Elems(s[..last]);
        DistinctSnoc(s[..last], s[last]);
      }
    }
  }

  /** Most free first: shuffled beforehand, or with ties in id order. */
  method Arrange(d: Demand, ghost seen: set<EdgeId>, qual: seq<Cand>, randomTieBreak: bool, draws: nat -> nat)
    returns (r: seq<Cand>)
    requires Collected(d, seen, qual)
    ensures Collected(d, seen, r) && |r| == |qual|
    ensures SortedBy(ByFree(), r) && (!randomTieBreak ==> SortedBy(ByFreeThenId(), r))
  {
    Orders();
    if randomTieBreak {
      r := Shuffle(qual, draws);
      r := SortSlice(ByFree(), r);
    } else {
      r := SortSlice(ByFreeThenId(), qual);
      ById(r);
    }
    CollectedPermuted(d, seen, qual, r);
    SameBag(qual, r);
  }

  method SelectHomes(candidates: seq<EdgeId>, d: Demand, n: int, randomTieBreak: bool, draws: nat -> nat)
    returns (r: Selection)
    ensures n <= 0 ==> r == Homes([])
    ensures n > 0 ==> (r == LookupError <==> exists e :: e in candidates && d.Fails(e))
    ensures n > 0 && r != LookupError ==>
      (r.Homes? <==> |d.Qualifying(Elems(candidates))| >= n)
    ensures n > 0 && r != LookupError ==>
      (r == InsufficientSessions <==>
        d.SessOn() && |d.Fitting(Elems(candidates))| >= n && |d.Qualifying(Elems(candidates))| < n)
    ensures n > 0 && r.Homes? ==> WorstFit(d, Elems(candidates), n, r.homes)
    ensures n > 0 && r.Homes? && !randomTieBreak ==> TiesById(d, Elems(candidates), r.homes)
    ensures n > 0 && r.Homes? ==> forall h | h in r.homes ::
      && h in candidates && d.rem(h).Some? && d.rem(h).value >= d.need
      && (d.remSess.Some? && d.needSess > 0 ==>
          d.remSess.value(h).Some? && d.remSess.value(h).value >= d.needSess)
  {
    if n <= 0 {
      return Homes([]);
    }
    var qual: seq<Cand>, bwOK: nat, seen: set<EdgeId> := [], 0, {};
    for i := 0 to |candidates|
      invariant seen == Elems(candidates[..i])
      invariant bwOK == |d.Fitting(seen)| && Collected(d, seen, qual)
      invariant forall e | e in seen :: !d.Fails(e)
    {
      var e := candidates[i];
      assert candidates[..i + 1] == candidates[..i] + [e];
      ElemsSnoc(candidates[..i], e);
      if e in seen {
        assert seen + {e} == seen;
        continue;
      }
      ghost var before := seen;
      seen := seen + {e};
      var free := d.rem(e);
      if free.None? {
        assert d.Fails(e);
        return LookupError;
      }
      GrowFitting(d, before, e);
      GrowQualifying(d, before, e, qual);
      if free.value < d.need {
        continue;
      }
      bwOK := bwOK + 1;
      if d.SessOn() {
        var freeSess := d.remSess.value(e);
        if freeSess.None? {
          assert d.Fails(e);
          return LookupError;
        }
        if freeSess.value < d.needSess {
          continue;
        }
      }
      qual := qual + [Cand(e, free.value)];
    }
    assert candidates[..|candidates|] == candidates;
    assert |qual| == |d.Qualifying(seen)| by {
      DistinctCard(Edges(qual));
    }
    if |qual| < n {
      if d.SessOn() && bwOK >= n {
        return InsufficientSessions;
      }
      return InsufficientCapacity;
    }
    qual := Arrange(d, seen, qual, randomTieBreak, draws);
    var out: seq<EdgeId> := [];
    for i := 0 to n
      invariant out == Edges(qual)[..i]
    {
      out := out + [qual[i].edge];
    }
    TakeWorstFit(d, seen, qual, n);
    if !randomTieBreak {
      TakeTiesById(d, seen, qual, n);
    }
    r := Homes(out);
  }

  lemma GrowFitting(d: Demand, seen: set<EdgeId>, e: EdgeId)
    requires e !in seen
    ensures |d.Fitting(seen + {e})| == |d.Fitting(seen)| + if d.Fits(e) then 1 else 0
  {
    assert d.Fitting(seen + {e}) == d.Fitting(seen) + if d.Fits(e) then {e} else {};
  }

  lemma GrowQualifying(d: Demand, seen: set<EdgeId>, e: EdgeId, s: seq<Cand>)
    requires e !in seen && Collected(d, seen, s)
    ensures d.Qualifies(e) ==> Collected(d, seen + {e}, s + [Cand(e, d.Free(e))])
    ensures !d.Qualifies(e) ==> Collected(d, seen + {e}, s)
  {
    assert e !in Elems(Edges(s));
    assert d.Qualifying(seen + {e}) == d.Qualifying(seen) + if d.Qualifies(e) then {e} else {};
    var c := Cand(e, d.Free(e));
    assert Edges(s + [c]) == Edges(s) + [e];
    DistinctSnoc(Edges(s), e);
    ElemsSnoc(Edges(s), e);
  }

  lemma ById(s: seq<Cand>)
    requires SortedBy(ByFreeThenId(), s)
    ensures SortedBy(ByFree(), s)
  {
    forall i, j | 0 <= i < j < |s|
      ensures !ByFree()(s[j], s[i])
    {
      assert !ByFreeThenId()(s[j], s[i]);
    }
  }

  lemma At(d: Demand, seen: set<EdgeId>, s: seq<Cand>, i: nat)
    requires Collected(d, seen, s) && i < |s|
    ensures s[i].free == d.Free(s[i].edge) && s[i].edge in d.Qualifying(seen)
  {
    assert s[i] in s && Edges(s)[i] in Elems(Edges(s));
  }

  lemma IndexOf(d: Demand, seen: set<EdgeId>, s: seq<Cand>, e: EdgeId) returns (i: nat)
    requires Collected(d, seen, s) && e in d.Qualifying(seen)
    ensures i < |s| && s[i].edge == e
  {
    assert e in Elems(Edges(s));
    i :| 0 <= i < |Edges(s)| && Edges(s)[i] == e;
  }

  lemma TakenIn(s: seq<Cand>, n: nat, j: nat)
    requires j < n <= |s|
    ensures s[j].edge in Edges(s)[..n]
  {
    assert Edges(s)[..n][j] == s[j].edge;
  }

  lemma TakeWorstFit(d: Demand, seen: set<EdgeId>, s: seq<Cand>, n: nat)
    requires Collected(d, seen, s) && SortedBy(ByFree(), s) && n <= |s|
    ensures WorstFit(d, seen, n, Edges(s)[..n])
  {
    var homes := Edges(s)[..n];
    forall i, j | 0 <= i < j < |s|
      ensures d.Free(s[i].edge) >= d.Free(s[j].edge)
    {
      At(d, seen, s, i);
      At(d, seen, s, j);
      assert !ByFree()(s[j], s[i]);
    }
    forall h | h in homes
      ensures h in d.Qualifying(seen)
    {
      var i :| 0 <= i < n && homes[i] == h;
      At(d, seen, s, i);
    }
    forall h, e | h in homes && e in d.Qualifying(seen) && e !in homes
      ensures d.Free(h) >= d.Free(e)
    {
      var i :| 0 <= i < n && homes[i] == h;
      var j := IndexOf(d, seen, s, e);
      if j < n {
        TakenIn(s, n, j);
      }
    }
  }

  lemma Later(d: Demand, seen: set<EdgeId>, s: seq<Cand>, i: nat, j: nat)
    requires Collected(d, seen, s) && SortedBy(ByFreeThenId(), s) && i < j < |s|
    requires d.Free(s[i].edge) == d.Free(s[j].edge)
    ensures TextLess(s[i].edge, s[j].edge)
  {
    At(d, seen, s, i);
    At(d, seen, s, j);
    assert !ByFreeThenId()(s[j], s[i]);
    assert Edges(s)[i] != Edges(s)[j];
    TextTotal(s[i].edge, s[j].edge);
  }

  lemma TakeTiesById(d: Demand, seen: set<EdgeId>, s: seq<Cand>, n: nat)
    requires Collected(d, seen, s) && SortedBy(ByFreeThenId(), s) && n <= |s|
    ensures TiesById(d, seen, Edges(s)[..n])
  {
    var homes := Edges(s)[..n];
    forall i, j | 0 <= i < j < n && d.Free(homes[i]) == d.Free(homes[j])
      ensures TextLess(homes[i], homes[j])
    {
      Later(d, seen, s, i, j);
    }
    forall h, e | h in homes && e in d.Qualifying(seen) && e !in homes && d.Free(h) == d.Free(e)
      ensures TextLess(h, e)
    {
      var i :| 0 <= i < n && homes[i] == h;
      var j := IndexOf(d, seen, s, e);
      if j < n {
        TakenIn(s, n, j);
      }
      Later(d, seen, s, i, j);
    }
  }

  // ---- the choice is the best there is ----

  /** Any other list of distinct qualifiers, most free first, is no better at any
      position: not as primary, not as backup. */
  lemma Dominates(d: Demand, candidates: set<EdgeId>, n: nat, homes: seq<EdgeId>, other: seq<EdgeId>, i: nat)
    requires WorstFit(d, candidates, n, homes) && i < |other| <= n && Distinct(other)
    requires forall e | e in other :: e in d.Qualifying(candidates)
    requires forall a, b | 0 <= a < b < |other| :: d.Free(other[a]) >= d.Free(other[b])
    ensures d.Free(homes[i]) >= d.Free(other[i])
  {
    if d.Free(homes[i]) < d.Free(other[i]) {
      var better, taken := other[..i + 1], homes[..i];
      forall e | e in Elems(better)
        ensures e in Elems(taken)
      {
        var a :| 0 <= a <= i && better[a] == e;
        assert e == other[a] && e in other && d.Free(e) > d.Free(homes[i]);
        assert homes[i] in homes;
        assert e in homes;
        var b :| 0 <= b < n && homes[b] == e;
        assert b < i;
        assert taken[b] == e;
      }
      DistinctCard(better);
      DistinctCard(taken);
      SubsetCard(Elems(better), Elems(taken));
    }
  }

  lemma SameFront<T>(a: seq<T>, b: seq<T>, i: nat)
    requires i < |a| && i < |b| && a[..i] == b[..i]
    ensures forall j | 0 <= j < i :: a[j] == b[j]
  {
    forall j | 0 <= j < i
      ensures a[j] == b[j]
    {
      assert a[..i][j] == b[..i][j];
    }
  }

  lemma NotAfter(d: Demand, candidates: set<EdgeId>, n: nat, a: seq<EdgeId>, b: seq<EdgeId>, i: nat)
    requires WorstFit(d, candidates, n, a) && TiesById(d, candidates, a)
    requires WorstFit(d, candidates, n, b) && i < n && a[..i] == b[..i] && a[i] != b[i]
    ensures d.Free(a[i]) >= d.Free(b[i])
    ensures d.Free(a[i]) == d.Free(b[i]) ==> TextLess(a[i], b[i])
  {
    assert b[i] in b && a[i] in a;
    SameFront(a, b, i);
  }

  /** With ties broken by id the selection is a function of the candidate set. */
  lemma {:induction false} ByIdIsUnique(d: Demand, candidates: set<EdgeId>, n: nat, a: seq<EdgeId>, b: seq<EdgeId>, i: nat)
    requires WorstFit(d, candidates, n, a) && TiesById(d, candidates, a)
    requires WorstFit(d, candidates, n, b) && TiesById(d, candidates, b)
    requires i <= n
    ensures a[..i] == b[..i]
  {
    if i > 0 {
      ByIdIsUnique(d, candidates, n, a, b, i - 1);
      if a[i - 1] != b[i - 1] {
        NotAfter(d, candidates, n, a, b, i - 1);
        NotAfter(d, candidates, n, b, a, i - 1);
        TextTotal(a[i - 1], b[i - 1]);
      }
      assert a[..i] == a[..i - 1] + [a[i - 1]];
      assert b[..i] == b[..i - 1] + [b[i - 1]];
    }
  }
}
