/** Laws of rendering: the paths agree, order does not matter, and what is advertised does
    not influence what is limited. */
module RenderLaws {
  import opened Model
  import opened Sorting
  import opened Cidr
  import opened Render

  lemma ByIdOrder()
    ensures WeakOrder(ById())
  {
  }

  /** Different pools have different ids. */
  ghost predicate IdsDiffer(ps: seq<Pool>) {
    forall p, q | p in ps && q in ps && p != q :: p.id != q.id
  }

  lemma IdsTold(ps: seq<Pool>)
    requires IdsDiffer(ps)
    ensures Told(ById(), ps)
  {
  }

  // ---- all edges at once and one edge agree ----

  lemma {:induction false} HomedBag(ps: seq<Pool>, edge: EdgeId, p: Pool)
    ensures multiset(HomedAt(ps, edge))[p] == if p.homeEdge == edge then multiset(ps)[p] else 0
    decreases |ps|
  {
    if ps != [] {
      HomedBag(ps[..|ps| - 1], edge, p);
      assert ps == ps[..|ps| - 1] + [ps[|ps| - 1]];
    }
  }

  lemma HomedIn(ps: seq<Pool>, edge: EdgeId, p: Pool)
    requires p in HomedAt(ps, edge)
    ensures p in ps && p.homeEdge == edge
  {
    HomedBag(ps, edge, p);
    assert p in multiset(HomedAt(ps, edge));
    assert p in multiset(ps);
  }

  lemma {:induction false} HomedSorted(ps: seq<Pool>, edge: EdgeId)
    requires SortedBy(ById(), ps)
    ensures SortedBy(ById(), HomedAt(ps, edge))
    decreases |ps|
  {
    if ps != [] {
      var front, last := ps[..|ps| - 1], ps[|ps| - 1];
      HomedSorted(front, edge);
      var kept := HomedAt(front, edge);
      forall i | 0 <= i < |kept|
        ensures !ById()(last, kept[i])
      {
        HomedIn(front, edge, kept[i]);
      }
    }
  }

  /** Picking an edge's pools and sorting commute. */
  lemma SortHomed(ps: seq<Pool>, edge: EdgeId)
    requires IdsDiffer(ps)
    ensures HomedAt(Sort(ById(), ps), edge) == Sort(ById(), HomedAt(ps, edge))
  {
    ByIdOrder();
    SortSorts(ById(), ps);
    SortSorts(ById(), HomedAt(ps, edge));
    var a, b := HomedAt(Sort(ById(), ps), edge), Sort(ById(), HomedAt(ps, edge));
    HomedSorted(Sort(ById(), ps), edge);
    assert multiset(a) == multiset(b) by {
      forall p
        ensures multiset(a)[p] == multiset(b)[p]
      {
        HomedBag(Sort(ById(), ps), edge, p);
        HomedBag(ps, edge, p);
      }
    }
    assert Told(ById(), a) by {
      SameBag(Sort(ById(), ps), ps);
      forall p | p in a
        ensures p in ps
      {
        HomedIn(Sort(ById(), ps), edge, p);
      }
    }
    SortedUnique(ById(), a, b);
  }

  lemma NoPools(k: Checks, o: Options, edge: EdgeId)
    ensures Sort(ById(), []) == [] && Parts(InRole(k, o, true), edge, []) == []
  {
  }

  /** For an edge with no backups the all-edges render gives what the one-edge render gives
      for the pools homed there. */
  lemma PathsAgree(k: Checks, o: Options, pools: seq<Pool>, edge: EdgeId)
    requires IdsDiffer(pools) && AllHomesRender(InRole(k, o, false), Sort(ById(), pools))
    ensures EdgeRenders(k, o, edge, HomedAt(pools, edge), [])
    ensures EdgeState(InRole(k, o, false), o.generation, Sort(ById(), pools), edge)
      == JoinAll(Fresh(edge, o.generation), EdgeParts(k, o, edge, HomedAt(pools, edge), []))
  {
    var f := InRole(k, o, false);
    SortHomed(pools, edge);
    NoPools(k, o, edge);
    HomedRender(f, Sort(ById(), pools), edge);
    var parts := Parts(f, edge, Sort(ById(), HomedAt(pools, edge)));
    assert parts + [] == parts;
  }

  // ---- order does not matter ----

  /** The same pool with its members in another order. */
  ghost predicate Like(p: Pool, q: Pool) {
    q == p.(members := q.members) && multiset(p.members) == multiset(q.members)
  }

  /** Different members have different, canonical prefixes. */
  ghost predicate MembersDiffer(p: Pool) {
    && (forall x | x in p.members :: Canonical(x.prefix))
    && forall x, y | x in p.members && y in p.members && x != y :: x.prefix != y.prefix
  }

  lemma OrderedLike(p: Pool, q: Pool)
    requires Like(p, q) && MembersDiffer(p)
    ensures Ordered(p) == Ordered(q)
  {
    assert WeakOrder(ByPrefix()) by {
      TextOrder();
    }
    forall x, y | x in p.members && y in p.members && x != y
      ensures ByPrefix()(x, y) || ByPrefix()(y, x)
    {
      TextTotal(Text(x.prefix), Text(y.prefix));
      if Text(x.prefix) == Text(y.prefix) {
        TextInjective(x.prefix, y.prefix);
      }
    }
    SortPermuted(ByPrefix(), p.members, q.members);
  }

  lemma PartLike(k: Checks, o: Options, edge: EdgeId, p: Pool, q: Pool, standby: bool)
    requires Like(p, q) && MembersDiffer(p)
    ensures Part(k, o, edge, p, standby) == Part(k, o, edge, q, standby)
  {
    OrderedLike(p, q);
    assert PolicerFor(p, Ingress) == PolicerFor(q, Ingress) && PolicerFor(p, Egress) == PolicerFor(q, Egress);
  }

  ghost predicate AllLike(ps: seq<Pool>, qs: seq<Pool>) {
    |ps| == |qs| && forall i | 0 <= i < |ps| :: Like(ps[i], qs[i])
  }

  lemma {:induction false} InsertLike(ps: seq<Pool>, qs: seq<Pool>, p: Pool, q: Pool)
    requires AllLike(ps, qs) && Like(p, q)
    ensures AllLike(Insert(ById(), ps, p), Insert(ById(), qs, q))
    decreases |ps|
  {
    if ps != [] {
      var last := |ps| - 1;
      assert Like(ps[last], qs[last]);
      InsertLike(ps[..last], qs[..last], p, q);
    }
  }

  lemma {:induction false} SortLike(ps: seq<Pool>, qs: seq<Pool>)
    requires AllLike(ps, qs)
    ensures AllLike(Sort(ById(), ps), Sort(ById(), qs))
    decreases |ps|
  {
    if ps != [] {
      var last := |ps| - 1;
      SortLike(ps[..last], qs[..last]);
      InsertLike(Sort(ById(), ps[..last]), Sort(ById(), qs[..last]), ps[last], qs[last]);
    }
  }

  /** `rs` holds the pools of `ps`, rearranged, each with its members rearranged. */
  ghost predicate Rearranged(ps: seq<Pool>, rs: seq<Pool>) {
    exists qs :: AllLike(ps, qs) && multiset(qs) == multiset(rs)
  }

  lemma RearrangedSorted(ps: seq<Pool>, rs: seq<Pool>)
    requires Rearranged(ps, rs) && IdsDiffer(rs)
    ensures AllLike(Sort(ById(), ps), Sort(ById(), rs))
  {
    var qs :| AllLike(ps, qs) && multiset(qs) == multiset(rs);
    SortLike(ps, qs);
    ByIdOrder();
    IdsTold(rs);
    SortPermuted(ById(), rs, qs);
  }

  lemma SortedMembersDiffer(ps: seq<Pool>, i: nat)
    requires (forall p | p in ps :: MembersDiffer(p)) && i < |Sort(ById(), ps)|
    ensures MembersDiffer(Sort(ById(), ps)[i])
  {
    ByIdOrder();
    SortSorts(ById(), ps);
    SameBag(Sort(ById(), ps), ps);
    assert Sort(ById(), ps)[i] in Sort(ById(), ps);
  }

  lemma PartsLike(k: Checks, o: Options, edge: EdgeId, ps: seq<Pool>, rs: seq<Pool>, standby: bool)
    requires AllLike(ps, rs) && forall i | 0 <= i < |ps| :: MembersDiffer(ps[i])
    ensures AllRender(InRole(k, o, standby), edge, ps) <==> AllRender(InRole(k, o, standby), edge, rs)
    ensures AllRender(InRole(k, o, standby), edge, ps) ==>
      Parts(InRole(k, o, standby), edge, ps) == Parts(InRole(k, o, standby), edge, rs)
  {
    var f := InRole(k, o, standby);
    forall i | 0 <= i < |ps|
      ensures f(edge, ps[i]) == f(edge, rs[i])
    {
      PartLike(k, o, edge, ps[i], rs[i], standby);
    }
    SameParts(f, edge, ps, rs);
  }

  lemma SameParts(f: Renderer, edge: EdgeId, ps: seq<Pool>, rs: seq<Pool>)
    requires |ps| == |rs| && forall i | 0 <= i < |ps| :: f(edge, ps[i]) == f(edge, rs[i])
    ensures AllRender(f, edge, ps) <==> AllRender(f, edge, rs)
    ensures AllRender(f, edge, ps) ==> Parts(f, edge, ps) == Parts(f, edge, rs)
  {
    if AllRender(f, edge, rs) {
      forall i | 0 <= i < |ps|
        ensures f(edge, ps[i]).Some?
      {
        assert f(edge, rs[i]).Some?;
      }
    }
  }

  lemma RoleOrderFree(k: Checks, o: Options, edge: EdgeId, ps: seq<Pool>, rs: seq<Pool>, standby: bool)
    requires Rearranged(ps, rs) && IdsDiffer(rs) && forall p | p in ps :: MembersDiffer(p)
    ensures var f := InRole(k, o, standby);
      && (AllRender(f, edge, Sort(ById(), ps)) <==> AllRender(f, edge, Sort(ById(), rs)))
      && (AllRender(f, edge, Sort(ById(), ps)) ==>
          Parts(f, edge, Sort(ById(), ps)) == Parts(f, edge, Sort(ById(), rs)))
  {
    RearrangedSorted(ps, rs);
    forall i | 0 <= i < |Sort(ById(), ps)|
      ensures MembersDiffer(Sort(ById(), ps)[i])
    {
      SortedMembersDiffer(ps, i);
    }
    PartsLike(k, o, edge, Sort(ById(), ps), Sort(ById(), rs), standby);
  }

  /** The one-edge render is the same for any arrangement of the pools and of the members
      within them. */
  lemma EdgeOrderFree(
    k: Checks, o: Options, edge: EdgeId, primary: seq<Pool>, backup: seq<Pool>, primary': seq<Pool>, backup': seq<Pool>)
    requires Rearranged(primary, primary') && IdsDiffer(primary') && forall p | p in primary :: MembersDiffer(p)
    requires Rearranged(backup, backup') && IdsDiffer(backup') && forall p | p in backup :: MembersDiffer(p)
    ensures EdgeRenders(k, o, edge, primary, backup) <==> EdgeRenders(k, o, edge, primary', backup')
    ensures EdgeRenders(k, o, edge, primary, backup) ==>
      EdgeParts(k, o, edge, primary, backup) == EdgeParts(k, o, edge, primary', backup')
  {
    RoleOrderFree(k, o, edge, primary, primary', false);
    RoleOrderFree(k, o, edge, backup, backup', true);
  }

  lemma {:induction false} HomedLike(ps: seq<Pool>, rs: seq<Pool>, edge: EdgeId)
    requires AllLike(ps, rs)
    ensures AllLike(HomedAt(ps, edge), HomedAt(rs, edge))
    decreases |ps|
  {
    if ps != [] {
      var last := |ps| - 1;
      HomedLike(ps[..last], rs[..last], edge);
      var a, b := HomedAt(ps[..last], edge), HomedAt(rs[..last], edge);
      assert Like(ps[last], rs[last]);
      assert AllLike(a + [ps[last]], b + [rs[last]]);
    }
  }

  lemma HomedDiffer(ps: seq<Pool>, edge: EdgeId)
    requires forall i | 0 <= i < |ps| :: MembersDiffer(ps[i])
    ensures forall i | 0 <= i < |HomedAt(ps, edge)| :: MembersDiffer(HomedAt(ps, edge)[i])
  {
    forall i | 0 <= i < |HomedAt(ps, edge)|
      ensures MembersDiffer(HomedAt(ps, edge)[i])
    {
      HomedIn(ps, edge, HomedAt(ps, edge)[i]);
    }
  }

  lemma LikeHomes(ps: seq<Pool>, rs: seq<Pool>)
    requires AllLike(ps, rs)
    ensures Homes(ps) == Homes(rs)
  {
    forall e | e in Homes(ps)
      ensures e in Homes(rs)
    {
      var i :| 0 <= i < |ps| && ps[i].homeEdge == e;
      assert Like(ps[i], rs[i]) && rs[i] in rs;
    }
    forall e | e in Homes(rs)
      ensures e in Homes(ps)
    {
      var i :| 0 <= i < |rs| && rs[i].homeEdge == e;
      assert Like(ps[i], rs[i]) && ps[i] in ps;
    }
  }

  lemma LikeRender(k: Checks, o: Options, ps: seq<Pool>, rs: seq<Pool>)
    requires AllLike(ps, rs) && forall i | 0 <= i < |ps| :: MembersDiffer(ps[i])
    ensures AllHomesRender(InRole(k, o, false), ps) <==> AllHomesRender(InRole(k, o, false), rs)
  {
    var f := InRole(k, o, false);
    forall i | 0 <= i < |ps|
      ensures Renders(f, ps[i]) <==> Renders(f, rs[i])
    {
      assert Like(ps[i], rs[i]);
      PartLike(k, o, ps[i].homeEdge, ps[i], rs[i], false);
    }
  }

  lemma LikeEdgeState(k: Checks, o: Options, ps: seq<Pool>, rs: seq<Pool>, edge: EdgeId)
    requires AllLike(ps, rs) && forall i | 0 <= i < |ps| :: MembersDiffer(ps[i])
    requires AllHomesRender(InRole(k, o, false), ps) && AllHomesRender(InRole(k, o, false), rs)
    ensures EdgeState(InRole(k, o, false), o.generation, ps, edge) == EdgeState(InRole(k, o, false), o.generation, rs, edge)
  {
    HomedLike(ps, rs, edge);
    HomedDiffer(ps, edge);
    HomedRender(InRole(k, o, false), ps, edge);
    HomedRender(InRole(k, o, false), rs, edge);
    PartsLike(k, o, edge, HomedAt(ps, edge), HomedAt(rs, edge), false);
  }

  /** The all-edges render, too: rearranged pools fail alike and give the same edges the same
      states. */
  lemma StatesOrderFree(k: Checks, o: Options, pools: seq<Pool>, pools': seq<Pool>, edge: EdgeId)
    requires Rearranged(pools, pools') && IdsDiffer(pools') && forall p | p in pools :: MembersDiffer(p)
    ensures var f, ps, rs := InRole(k, o, false), Sort(ById(), pools), Sort(ById(), pools');
      && (AllHomesRender(f, ps) <==> AllHomesRender(f, rs)) && Homes(ps) == Homes(rs)
      && (AllHomesRender(f, ps) ==> EdgeState(f, o.generation, ps, edge) == EdgeState(f, o.generation, rs, edge))
  {
    var ps, rs := Sort(ById(), pools), Sort(ById(), pools');
    RearrangedSorted(pools, pools');
    forall i | 0 <= i < |ps|
      ensures MembersDiffer(ps[i])
    {
      SortedMembersDiffer(pools, i);
    }
    LikeHomes(ps, rs);
    LikeRender(k, o, ps, rs);
    if AllHomesRender(InRole(k, o, false), ps) {
      LikeEdgeState(k, o, ps, rs, edge);
    }
  }

  // ---- what is advertised ----

  lemma {:induction false} AdvertisedHas(o: Options, home: EdgeId, ms: seq<Member>, q: Prefix)
    ensures q in Advertised(o, home, ms) <==> !o.suppress(home, q) && exists m :: m in ms && m.prefix == q
    decreases |ms|
  {
    if ms != [] {
      var front, last := ms[..|ms| - 1], ms[|ms| - 1];
      assert ms == front + [last];
      AdvertisedHas(o, home, front, q);
      if m :| m in ms && m.prefix == q && m != last {
        assert m in front;
      }
      assert last in ms;
    }
  }

  lemma OrderedHas(p: Pool, m: Member)
    ensures m in Ordered(p) <==> m in p.members
  {
    assert WeakOrder(ByPrefix()) by {
      TextOrder();
    }
    SortSorts(ByPrefix(), p.members);
    SameBag(Ordered(p), p.members);
  }

  lemma AdvertisesMembers(o: Options, edge: EdgeId, p: Pool, q: Prefix)
    ensures q in Advertised(o, edge, Ordered(p)) <==>
      !o.suppress(edge, q) && exists m :: m in p.members && m.prefix == q
  {
    AdvertisedHas(o, edge, Ordered(p), q);
    forall m
      ensures m in Ordered(p) <==> m in p.members
    {
      OrderedHas(p, m);
    }
  }

  /** A rate-limited pool's anchors and redirects carry the same prefixes in the same order:
      its members that are not suppressed. Each has a next hop of its own family, so ingress
      and egress are homed at the same edge. */
  lemma HomedBothWays(k: Checks, o: Options, edge: EdgeId, p: Pool, q: Prefix)
    requires p.action.RateLimit? && Part(k, o, edge, p, false).Some?
    ensures var d := Part(k, o, edge, p, false).value;
      && |d.anchors| == |d.redirects|
      && (forall i | 0 <= i < |d.anchors| :: d.anchors[i].prefix == d.redirects[i].srcPrefix)
      && (Redirect(q) in d.redirects <==> !o.suppress(edge, q) && exists m :: m in p.members && m.prefix == q)
      && (Redirect(q) in d.redirects ==>
          if q.V6Host? then edge in o.edgeAddrs6 && d.nextHop6 == o.edgeAddrs6[edge] && d.nextHop6.V6Address?
          else edge in o.edgeAddrs && d.nextHop == o.edgeAddrs[edge] && d.nextHop.V4Address?)
      && (forall i | 0 <= i < |d.anchors| ::
            d.anchors[i].communities == [] && Elems(d.anchors[i].largeCommunities) == Given(o.homeMarker(edge)))
  {
    var ps := Advertised(o, edge, Ordered(p));
    AdvertisesMembers(o, edge, p, q);
    var d := Part(k, o, edge, p, false).value;
    AtMostOne(if o.homeMarker(edge).Some? then [o.homeMarker(edge).value] else [], o.homeMarker(edge));
    if q in ps {
      var i :| 0 <= i < |ps| && ps[i] == q;
      assert d.redirects[i] == Redirect(q);
    }
  }

  /** No member twice, no two members of one prefix. */
  ghost predicate PrefixesDiffer(ms: seq<Member>) {
    Distinct(ms) && forall x, y | x in ms && y in ms && x != y :: x.prefix != y.prefix
  }

  lemma OrderedDiffer(p: Pool)
    requires PrefixesDiffer(p.members)
    ensures PrefixesDiffer(Ordered(p))
  {
    assert WeakOrder(ByPrefix()) by {
      TextOrder();
    }
    SortSorts(ByPrefix(), p.members);
    PermutedDistinct(p.members, Ordered(p));
    SameBag(p.members, Ordered(p));
  }

  lemma FrontDiffer(ms: seq<Member>)
    requires PrefixesDiffer(ms) && ms != []
    ensures PrefixesDiffer(ms[..|ms| - 1])
    ensures forall m | m in ms[..|ms| - 1] :: m.prefix != ms[|ms| - 1].prefix
  {
    var front, last := ms[..|ms| - 1], ms[|ms| - 1];
    assert ms == front + [last];
    DistinctFront(front, last);
    assert last in ms;
    assert forall m | m in front :: m in ms;
  }

  /** Each prefix is advertised once. */
  lemma {:induction false} AdvertisedOnce(o: Options, home: EdgeId, ms: seq<Member>)
    requires PrefixesDiffer(ms)
    ensures Distinct(Advertised(o, home, ms))
    decreases |ms|
  {
    if ms != [] {
      FrontDiffer(ms);
      AdvertisedOnce(o, home, ms[..|ms| - 1]);
      AdvertisedHas(o, home, ms[..|ms| - 1], ms[|ms| - 1].prefix);
      if !o.suppress(home, ms[|ms| - 1].prefix) {
        DistinctSnoc(Advertised(o, home, ms[..|ms| - 1]), ms[|ms| - 1].prefix);
      }
    }
  }

  /** With different prefixes there is exactly one session per member and direction. */
  lemma {:induction false} SessionsOnce(k: Checks, id: PoolId, ms: seq<Member>)
    requires MembersOk(k, ms) && PrefixesDiffer(ms)
    ensures Distinct(SessionsFor(k, id, ms))
    decreases |ms|
  {
    if ms != [] {
      var front, last := ms[..|ms| - 1], ms[|ms| - 1];
      FrontDiffer(ms);
      SessionsOnce(k, id, front);
      assert MemberOk(k, last);
      var x := Session(id, last.prefix, Ingress, k.mask(last, Ingress).value);
      var y := Session(id, last.prefix, Egress, k.mask(last, Egress).value);
      var before := SessionsFor(k, id, front);
      SessionsExact(k, id, front, x);
      SessionsExact(k, id, front, y);
      DistinctSnoc(before, x);
      DistinctSnoc(before + [x], y);
      assert SessionsFor(k, id, ms) == before + [x] + [y];
    }
  }

  /** A blackholed pool only advertises: its members that are not suppressed, each tagged
      with the pool's communities. */
  lemma BlackholeOnlyAdvertises(k: Checks, o: Options, edge: EdgeId, p: Pool, a: Anchor)
    requires p.action.Blackhole?
    ensures Part(k, o, edge, p, false).Some?
    ensures var d := Part(k, o, edge, p, false).value;
      && d.policers == [] && d.sessions == [] && d.redirects == []
      && (a in d.anchors <==>
          && !o.suppress(edge, a.prefix) && (exists m :: m in p.members && m.prefix == a.prefix)
          && Elems(a.communities) == Given(p.action.community) && |a.communities| <= 1
          && Elems(a.largeCommunities) == Given(p.action.largeCommunity) && |a.largeCommunities| <= 1)
      && (PrefixesDiffer(p.members) ==>
          forall i, j | 0 <= i < j < |d.anchors| :: d.anchors[i].prefix != d.anchors[j].prefix)
  {
    var ps := Advertised(o, edge, Ordered(p));
    AdvertisesMembers(o, edge, p, a.prefix);
    AtMostOne(a.communities, p.action.community);
    AtMostOne(a.largeCommunities, p.action.largeCommunity);
    if a.prefix in ps {
      var i :| 0 <= i < |ps| && ps[i] == a.prefix;
      assert Holed(p.action, ps)[i].prefix == a.prefix;
    }
    if PrefixesDiffer(p.members) {
      OrderedDiffer(p);
      AdvertisedOnce(o, edge, Ordered(p));
    }
  }

  function Given(x: Option<int>): set<int> {
    if x.Some? then {x.value} else {}
  }

  lemma AtMostOne(s: seq<int>, x: Option<int>)
    ensures Elems(s) == Given(x) && |s| <= 1 <==> s == if x.Some? then [x.value] else []
  {
    if |s| == 1 {
      assert s[0] in Elems(s);
    }
    if Elems(s) == Given(x) && x.Some? {
      assert x.value in Elems(s);
    }
  }

  /** The sessions are those of the members, in both directions, with each member's mask. */
  lemma {:induction false} SessionsExact(k: Checks, id: PoolId, ms: seq<Member>, s: Session)
    requires MembersOk(k, ms)
    ensures s in SessionsFor(k, id, ms) <==>
      s.pool == id && exists m :: m in ms && m.prefix == s.prefix && k.mask(m, s.dir) == Some(s.mask)
    decreases |ms|
  {
    if ms != [] {
      var front, last := ms[..|ms| - 1], ms[|ms| - 1];
      assert ms == front + [last];
      SessionsExact(k, id, front, s);
      assert MemberOk(k, last);
      var two := [Session(id, last.prefix, Ingress, k.mask(last, Ingress).value),
                  Session(id, last.prefix, Egress, k.mask(last, Egress).value)];
      assert SessionsFor(k, id, ms) == SessionsFor(k, id, front) + two;
      assert s in two <==> s == two[0] || s == two[1];
      assert s.dir == Ingress || s.dir == Egress;
      assert s == Session(s.pool, s.prefix, s.dir, s.mask);
      assert k.mask(last, s.dir).Some? && (k.mask(last, s.dir).value == s.mask <==> k.mask(last, s.dir) == Some(s.mask));
      assert s in two <==> s.pool == id && last.prefix == s.prefix && k.mask(last, s.dir) == Some(s.mask);
      assert last in ms;
      assert forall m :: m in ms <==> m in front || m == last;
    }
  }

  /** The policer carries its direction's rate and drops what exceeds it; a zero rate becomes
      a 100 Gbit/s policer that only counts, with a burst if none was given. */
  predicate Limits(p: Pool, y: Policer) {
    var r := if y.dir.Ingress? then p.ingressRate else p.egressRate;
    && y.pool == p.id && y.bindWorker == p.bindWorker && (y.transmitExceeding <==> r.cir == 0)
    && y.rate.burstPackets == r.burstPackets
    && (r.cir != 0 ==> y.rate == r)
    && (r.cir == 0 ==>
        && y.rate.cir == 100_000_000 && y.rate.kbps
        && y.rate.burstBytes == if r.burstBytes == 0 then 12_500_000 else r.burstBytes)
  }

  /** A backup advertises nothing. */
  lemma StandbyIsSilent(k: Checks, o: Options, edge: EdgeId, p: Pool)
    requires Part(k, o, edge, p, true).Some?
    ensures var d := Part(k, o, edge, p, true).value;
      d.anchors == [] && d.redirects == [] && d.nextHop == NoAddress && d.nextHop6 == NoAddress
    ensures p.action.RateLimit? ==> |Part(k, o, edge, p, true).value.policers| == 2
  {
  }

  lemma {:induction false} TwoSessionsEach(k: Checks, id: PoolId, ms: seq<Member>)
    requires MembersOk(k, ms)
    ensures |SessionsFor(k, id, ms)| == 2 * |ms|
    decreases |ms|
  {
    if ms != [] {
      TwoSessionsEach(k, id, ms[..|ms| - 1]);
    }
  }

  /** The limiting machinery of a rate-limited pool is two policers and two sessions per
      member, the same on every edge, in either role and under any options: suppressing an
      advertisement or stamping another generation changes none of it. */
  lemma LimitsStand(k: Checks, o: Options, edge: EdgeId, standby: bool, o': Options, edge': EdgeId, standby': bool, p: Pool)
    requires p.action.RateLimit?
    requires Part(k, o, edge, p, standby).Some? && Part(k, o', edge', p, standby').Some?
    ensures var d, d' := Part(k, o, edge, p, standby).value, Part(k, o', edge', p, standby').value;
      && d.policers == d'.policers && d.sessions == d'.sessions
      && |d.policers| == 2 && |d.sessions| == 2 * |p.members|
  {
    TwoSessionsEach(k, p.id, Ordered(p));
    assert WeakOrder(ByPrefix()) by {
      TextOrder();
    }
    SortSorts(ByPrefix(), p.members);
  }

  ghost predicate LimitAlike(ds: seq<Delta>, ds': seq<Delta>) {
    && |ds| == |ds'|
    && forall i | 0 <= i < |ds| :: ds[i].policers == ds'[i].policers && ds[i].sessions == ds'[i].sessions
  }

  lemma LimitAlikeConcat(a: seq<Delta>, a': seq<Delta>, b: seq<Delta>, b': seq<Delta>)
    requires LimitAlike(a, a') && LimitAlike(b, b')
    ensures LimitAlike(a + b, a' + b')
  {
  }

  /** Contributions that limit alike make states that limit alike. */
  lemma {:induction false} JoinedLimits(st: State, st': State, ds: seq<Delta>, ds': seq<Delta>)
    requires st.policers == st'.policers && st.sessions == st'.sessions && LimitAlike(ds, ds')
    ensures JoinAll(st, ds).policers == JoinAll(st', ds').policers
    ensures JoinAll(st, ds).sessions == JoinAll(st', ds').sessions
    decreases |ds|
  {
    if ds != [] {
      JoinedLimits(st, st', ds[..|ds| - 1], ds'[..|ds| - 1]);
    }
  }

  lemma SameLimits(k: Checks, o: Options, o': Options, edge: EdgeId, p: Pool, standby: bool)
    requires Part(k, o, edge, p, standby).Some? && Part(k, o', edge, p, standby).Some?
    ensures Part(k, o, edge, p, standby).value.policers == Part(k, o', edge, p, standby).value.policers
    ensures Part(k, o, edge, p, standby).value.sessions == Part(k, o', edge, p, standby).value.sessions
  {
    if p.action.RateLimit? {
      LimitsStand(k, o, edge, standby, o', edge, standby, p);
    }
  }

  lemma RoleLimits(k: Checks, o: Options, o': Options, edge: EdgeId, ps: seq<Pool>, standby: bool)
    requires AllRender(InRole(k, o, standby), edge, ps) && AllRender(InRole(k, o', standby), edge, ps)
    ensures LimitAlike(Parts(InRole(k, o, standby), edge, ps), Parts(InRole(k, o', standby), edge, ps))
  {
    forall i | 0 <= i < |ps|
      ensures
        var d, d' := Parts(InRole(k, o, standby), edge, ps)[i], Parts(InRole(k, o', standby), edge, ps)[i];
        d.policers == d'.policers && d.sessions == d'.sessions
    {
      assert InRole(k, o, standby)(edge, ps[i]).Some? && InRole(k, o', standby)(edge, ps[i]).Some?;
      SameLimits(k, o, o', edge, ps[i], standby);
    }
  }

  /** So a whole edge limits the same whatever it advertises. */
  lemma EdgeLimitsStand(k: Checks, o: Options, o': Options, edge: EdgeId, primary: seq<Pool>, backup: seq<Pool>)
    requires EdgeRenders(k, o, edge, primary, backup) && EdgeRenders(k, o', edge, primary, backup)
    ensures var st := JoinAll(Fresh(edge, o.generation), EdgeParts(k, o, edge, primary, backup));
      var st' := JoinAll(Fresh(edge, o'.generation), EdgeParts(k, o', edge, primary, backup));
      st.policers == st'.policers && st.sessions == st'.sessions
  {
    var ps, bs := Sort(ById(), primary), Sort(ById(), backup);
    RoleLimits(k, o, o', edge, ps, false);
    RoleLimits(k, o, o', edge, bs, true);
    LimitAlikeConcat(
      Parts(InRole(k, o, false), edge, ps), Parts(InRole(k, o', false), edge, ps),
      Parts(InRole(k, o, true), edge, bs), Parts(InRole(k, o', true), edge, bs));
    JoinedLimits(
      Fresh(edge, o.generation), Fresh(edge, o'.generation),
      EdgeParts(k, o, edge, primary, backup), EdgeParts(k, o', edge, primary, backup));
  }

  // ---- a whole edge ----

  ghost predicate SomeRedirects(ds: seq<Delta>, x: Redirect) {
    exists i | 0 <= i < |ds| :: x in ds[i].redirects
  }

  ghost predicate SomePolices(ds: seq<Delta>, y: Policer) {
    exists i | 0 <= i < |ds| :: y in ds[i].policers
  }

  lemma BothHave(st: State, a: seq<Delta>, b: seq<Delta>, x: Redirect, y: Policer)
    ensures x in JoinAll(st, a + b).redirects <==> x in st.redirects || SomeRedirects(a, x) || SomeRedirects(b, x)
    ensures y in JoinAll(st, a + b).policers <==> y in st.policers || SomePolices(a, y) || SomePolices(b, y)
  {
    JoinedHas(st, a, x, y);
    JoinedHas(JoinAll(st, a), b, x, y);
    JoinAllConcat(st, a, b);
  }

  lemma {:induction false} JoinedHas(st: State, ds: seq<Delta>, x: Redirect, y: Policer)
    ensures x in JoinAll(st, ds).redirects <==> x in st.redirects || SomeRedirects(ds, x)
    ensures y in JoinAll(st, ds).policers <==> y in st.policers || SomePolices(ds, y)
    decreases |ds|
  {
    if ds != [] {
      var front := ds[..|ds| - 1];
      JoinedHas(st, front, x, y);
      assert forall i | 0 <= i < |front| :: ds[i] == front[i];
    }
  }

  /** The pools of a role, sorted or not, are the same pools. */
  lemma SortedHas(ps: seq<Pool>, p: Pool)
    ensures p in Sort(ById(), ps) <==> p in ps
  {
    ByIdOrder();
    SortSorts(ById(), ps);
    SameBag(Sort(ById(), ps), ps);
  }

  lemma PartHas(k: Checks, o: Options, edge: EdgeId, p: Pool, standby: bool, q: Prefix, y: Policer)
    requires Part(k, o, edge, p, standby).Some?
    ensures var d := Part(k, o, edge, p, standby).value;
      && (Redirect(q) in d.redirects <==> !standby && Redirects(o, edge, p, q))
      && (y in d.policers <==> p.action.RateLimit? && (y == PolicerFor(p, Ingress) || y == PolicerFor(p, Egress)))
  {
    if p.action.RateLimit? && !standby {
      HomedBothWays(k, o, edge, p, q);
    }
  }

  /** A rate-limited pool with an unsuppressed member of that prefix. */
  ghost predicate Redirects(o: Options, edge: EdgeId, p: Pool, q: Prefix) {
    p.action.RateLimit? && !o.suppress(edge, q) && exists m :: m in p.members && m.prefix == q
  }

  ghost predicate AnyRedirects(o: Options, edge: EdgeId, ps: seq<Pool>, q: Prefix) {
    exists p :: p in ps && Redirects(o, edge, p, q)
  }

  lemma RoleHas(k: Checks, o: Options, edge: EdgeId, ps: seq<Pool>, standby: bool, q: Prefix, y: Policer)
    requires AllRender(InRole(k, o, standby), edge, Sort(ById(), ps))
    ensures var ds := Parts(InRole(k, o, standby), edge, Sort(ById(), ps));
      && (SomeRedirects(ds, Redirect(q)) <==> !standby && AnyRedirects(o, edge, ps, q))
      && (SomePolices(ds, y) <==> Polices(ps, y))
  {
    var f, sorted := InRole(k, o, standby), Sort(ById(), ps);
    var ds := Parts(f, edge, sorted);
    forall i | 0 <= i < |sorted|
      ensures Redirect(q) in ds[i].redirects <==> !standby && Redirects(o, edge, sorted[i], q)
      ensures y in ds[i].policers <==> PolicesOne(sorted[i], y)
      ensures sorted[i] in ps
    {
      assert f(edge, sorted[i]).Some?;
      PartHas(k, o, edge, sorted[i], standby, q, y);
      SortedHas(ps, sorted[i]);
    }
    forall p | p in ps
      ensures exists i | 0 <= i < |sorted| :: sorted[i] == p
    {
      SortedHas(ps, p);
    }
  }

  predicate PolicesOne(p: Pool, y: Policer) {
    p.action.RateLimit? && (y == PolicerFor(p, Ingress) || y == PolicerFor(p, Egress))
  }

  /** One of the pools is rate-limited and this is one of its two policers. */
  ghost predicate Polices(ps: seq<Pool>, y: Policer) {
    exists p :: p in ps && PolicesOne(p, y)
  }

  /** What an edge redirects and polices: exactly the unsuppressed members of its rate-limited
      primaries are redirected, backups being silent, and exactly the two policers of each
      rate-limited primary or backup are there. */
  lemma EdgeContents(k: Checks, o: Options, edge: EdgeId, primary: seq<Pool>, backup: seq<Pool>, q: Prefix, y: Policer)
    requires EdgeRenders(k, o, edge, primary, backup)
    ensures var st := JoinAll(Fresh(edge, o.generation), EdgeParts(k, o, edge, primary, backup));
      && (Redirect(q) in st.redirects <==> AnyRedirects(o, edge, primary, q))
      && (y in st.policers <==> Polices(primary, y) || Polices(backup, y))
  {
    RoleHas(k, o, edge, primary, false, q, y);
    RoleHas(k, o, edge, backup, true, q, y);
    BothHave(Fresh(edge, o.generation), Parts(InRole(k, o, false), edge, Sort(ById(), primary)),
             Parts(InRole(k, o, true), edge, Sort(ById(), backup)), Redirect(q), y);
  }

  lemma PolicesLimits(ps: seq<Pool>, y: Policer)
    requires Polices(ps, y)
    ensures exists p :: p in ps && p.action.RateLimit? && Limits(p, y)
  {
    var p :| p in ps && PolicesOne(p, y);
    assert Limits(p, y);
  }

  /** Every policer on an edge is a rate-limited primary's or backup's and limits its direction
      as that pool says; and every such pool `p` has one for each direction. */
  lemma EdgePolicersMean(
    k: Checks, o: Options, edge: EdgeId, primary: seq<Pool>, backup: seq<Pool>, y: Policer, p: Pool, dir: Direction)
    requires EdgeRenders(k, o, edge, primary, backup)
    ensures var policers := JoinAll(Fresh(edge, o.generation), EdgeParts(k, o, edge, primary, backup)).policers;
      && (y in policers ==> exists x :: (x in primary || x in backup) && x.action.RateLimit? && Limits(x, y))
      && ((p in primary || p in backup) && p.action.RateLimit? ==>
          exists z :: z in policers && z.dir == dir && Limits(p, z))
  {
    var z := PolicerFor(p, dir);
    EdgeContents(k, o, edge, primary, backup, V6Host(""), y);
    EdgeContents(k, o, edge, primary, backup, V6Host(""), z);
    assert dir == Ingress || dir == Egress;
    assert z.dir == dir && Limits(p, z);
    if Polices(primary, y) {
      PolicesLimits(primary, y);
    }
    if Polices(backup, y) {
      PolicesLimits(backup, y);
    }
    if p.action.RateLimit? {
      assert PolicesOne(p, z);
    }
  }

  // ---- what a whole edge announces ----

  ghost predicate Announces(anchors: seq<Anchor>, q: Prefix) {
    exists i | 0 <= i < |anchors| :: anchors[i].prefix == q
  }

  ghost predicate HasMember(o: Options, edge: EdgeId, p: Pool, q: Prefix) {
    !o.suppress(edge, q) && exists m :: m in p.members && m.prefix == q
  }

  ghost predicate SomeAnnounces(ds: seq<Delta>, q: Prefix) {
    exists i | 0 <= i < |ds| :: Announces(ds[i].anchors, q)
  }

  ghost predicate SomeHasMember(o: Options, edge: EdgeId, ps: seq<Pool>, q: Prefix) {
    exists p :: p in ps && HasMember(o, edge, p, q)
  }

  lemma BothAnnounce(st: State, a: seq<Delta>, b: seq<Delta>, q: Prefix)
    ensures Announces(JoinAll(st, a + b).anchors, q) <==>
      Announces(st.anchors, q) || SomeAnnounces(a, q) || SomeAnnounces(b, q)
  {
    JoinedAnnounces(st, a, q);
    JoinedAnnounces(JoinAll(st, a), b, q);
    JoinAllConcat(st, a, b);
  }

  lemma AnnouncesConcat(a: seq<Anchor>, b: seq<Anchor>, q: Prefix)
    ensures Announces(a + b, q) <==> Announces(a, q) || Announces(b, q)
  {
    if Announces(a, q) {
      var i :| 0 <= i < |a| && a[i].prefix == q;
      assert (a + b)[i] == a[i];
    }
    if Announces(b, q) {
      var i :| 0 <= i < |b| && b[i].prefix == q;
      assert (a + b)[|a| + i] == b[i];
    }
  }

  lemma {:induction false} JoinedAnnounces(st: State, ds: seq<Delta>, q: Prefix)
    ensures Announces(JoinAll(st, ds).anchors, q) <==>
      Announces(st.anchors, q) || SomeAnnounces(ds, q)
    decreases |ds|
  {
    if ds != [] {
      var front, last := ds[..|ds| - 1], ds[|ds| - 1];
      JoinedAnnounces(st, front, q);
      AnnouncesConcat(JoinAll(st, front).anchors, last.anchors, q);
      assert forall i | 0 <= i < |front| :: ds[i] == front[i];
    }
  }

  lemma PartAnnounces(k: Checks, o: Options, edge: EdgeId, p: Pool, standby: bool, q: Prefix)
    requires Part(k, o, edge, p, standby).Some?
    ensures Announces(Part(k, o, edge, p, standby).value.anchors, q) <==> !standby && HasMember(o, edge, p, q)
  {
    if standby {
      StandbyIsSilent(k, o, edge, p);
    } else {
      var ps := Advertised(o, edge, Ordered(p));
      AdvertisesMembers(o, edge, p, q);
      var anchors := Part(k, o, edge, p, false).value.anchors;
      assert |anchors| == |ps| && forall i | 0 <= i < |ps| :: anchors[i].prefix == ps[i];
    }
  }

  lemma RoleAnnounces(k: Checks, o: Options, edge: EdgeId, ps: seq<Pool>, standby: bool, q: Prefix)
    requires AllRender(InRole(k, o, standby), edge, Sort(ById(), ps))
    ensures var ds := Parts(InRole(k, o, standby), edge, Sort(ById(), ps));
      SomeAnnounces(ds, q) <==> !standby && SomeHasMember(o, edge, ps, q)
  {
    var f, sorted := InRole(k, o, standby), Sort(ById(), ps);
    var ds := Parts(f, edge, sorted);
    forall i | 0 <= i < |sorted|
      ensures Announces(ds[i].anchors, q) <==> !standby && HasMember(o, edge, sorted[i], q)
      ensures sorted[i] in ps
    {
      assert f(edge, sorted[i]).Some?;
      PartAnnounces(k, o, edge, sorted[i], standby, q);
      SortedHas(ps, sorted[i]);
    }
    forall p | p in ps
      ensures exists i | 0 <= i < |sorted| :: sorted[i] == p
    {
      SortedHas(ps, p);
    }
  }

  /** An edge announces exactly the unsuppressed members of its primaries; its backups, ready
      as they are, announce nothing. */
  lemma EdgeAnnounces(k: Checks, o: Options, edge: EdgeId, primary: seq<Pool>, backup: seq<Pool>, q: Prefix)
    requires EdgeRenders(k, o, edge, primary, backup)
    ensures Announces(JoinAll(Fresh(edge, o.generation), EdgeParts(k, o, edge, primary, backup)).anchors, q) <==>
      SomeHasMember(o, edge, primary, q)
  {
    RoleAnnounces(k, o, edge, primary, false, q);
    RoleAnnounces(k, o, edge, backup, true, q);
    BothAnnounce(Fresh(edge, o.generation), Parts(InRole(k, o, false), edge, Sort(ById(), primary)),
                 Parts(InRole(k, o, true), edge, Sort(ById(), backup)), q);
  }
}
