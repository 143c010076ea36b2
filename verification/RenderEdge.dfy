/** A whole edge in terms of its pools: when its render fails, in which order its parts come,
    which sessions it has and where it redirects to. */
module RenderEdge {
  import opened Model
  import opened Sorting
  import opened Cidr
  import opened Render
  import opened RenderLaws

  // ---- when a pool does not render ----

  /** The member is rejected, or has no classify mask in one of the directions. */
  predicate Bad(k: Checks, m: Member) {
    !k.valid(m) || k.mask(m, Ingress).None? || k.mask(m, Egress).None?
  }

  /** A member to advertise of a family for which the edge has no next hop of that family. */
  predicate Unreachable(o: Options, edge: EdgeId, m: Member) {
    && !o.suppress(edge, m.prefix)
    && if m.prefix.V6Host? then edge !in o.edgeAddrs6 || !o.edgeAddrs6[edge].V6Address?
       else edge !in o.edgeAddrs || !o.edgeAddrs[edge].V4Address?
  }

  lemma MembersOkIff(k: Checks, p: Pool)
    ensures !MembersOk(k, Ordered(p)) <==> exists m :: m in p.members && Bad(k, m)
  {
    var ms := Ordered(p);
    if i :| 0 <= i < |ms| && !MemberOk(k, ms[i]) {
      OrderedHas(p, ms[i]);
      assert Bad(k, ms[i]);
    }
    if m :| m in p.members && Bad(k, m) {
      OrderedHas(p, m);
      var i :| 0 <= i < |ms| && ms[i] == m;
      assert !MemberOk(k, ms[i]);
    }
  }

  lemma HopsOkIff(o: Options, edge: EdgeId, p: Pool)
    ensures !HopsOk(o, edge, Advertised(o, edge, Ordered(p))) <==> exists m :: m in p.members && Unreachable(o, edge, m)
  {
    var ps := Advertised(o, edge, Ordered(p));
    if !HopsOk(o, edge, ps) {
      var v6 := HasV6(ps) && !(edge in o.edgeAddrs6 && o.edgeAddrs6[edge].V6Address?);
      var q :| q in ps && q.V6Host? == v6;
      AdvertisesMembers(o, edge, p, q);
      var m :| m in p.members && m.prefix == q;
      assert Unreachable(o, edge, m);
    }
    if m :| m in p.members && Unreachable(o, edge, m) {
      AdvertisesMembers(o, edge, p, m.prefix);
      assert m.prefix in ps;
    }
  }

  /** Exactly when a pool does not render: a bad member, or as primary a member to advertise
      without a next hop, of a rate-limited pool; or a primary with an unsupported action. */
  lemma PartFailsIff(k: Checks, o: Options, edge: EdgeId, p: Pool, standby: bool)
    ensures Part(k, o, edge, p, standby).None? <==>
      if p.action.RateLimit? then
        (exists m :: m in p.members && Bad(k, m)) || (!standby && exists m :: m in p.members && Unreachable(o, edge, m))
      else !standby && p.action.Unsupported?
  {
    MembersOkIff(k, p);
    HopsOkIff(o, edge, p);
  }

  /** The all-edges render, by the pools themselves: it fails exactly if one has no home or does
      not render there, and its edges are the homes. */
  lemma StatesRenderIff(k: Checks, o: Options, ps: seq<Pool>)
    ensures AllHomesRender(InRole(k, o, false), Sort(ById(), ps)) <==>
      forall p | p in ps :: p.homeEdge != NoEdge && Part(k, o, p.homeEdge, p, false).Some?
    ensures forall e :: e in Homes(Sort(ById(), ps)) <==> exists p :: p in ps && p.homeEdge == e
  {
    var f, sorted := InRole(k, o, false), Sort(ById(), ps);
    forall p
      ensures p in sorted <==> p in ps
    {
      SortedHas(ps, p);
    }
    if AllHomesRender(f, sorted) {
      forall p | p in ps
        ensures p.homeEdge != NoEdge && Part(k, o, p.homeEdge, p, false).Some?
      {
        var i :| 0 <= i < |sorted| && sorted[i] == p;
        assert Renders(f, sorted[i]);
      }
    }
    forall e
      ensures e in Homes(sorted) <==> exists p :: p in ps && p.homeEdge == e
    {
      if p :| p in ps && p.homeEdge == e {
        var i :| 0 <= i < |sorted| && sorted[i] == p;
      }
    }
  }

  // ---- order ----

  function Flat<T>(xss: seq<seq<T>>): seq<T> {
    if xss == [] then [] else Flat(xss[..|xss| - 1]) + xss[|xss| - 1]
  }

  function PolicersOf(ds: seq<Delta>): seq<seq<Policer>> { seq(|ds|, i requires 0 <= i < |ds| => ds[i].policers) }
  function SessionsOf(ds: seq<Delta>): seq<seq<Session>> { seq(|ds|, i requires 0 <= i < |ds| => ds[i].sessions) }
  function AnchorsOf(ds: seq<Delta>): seq<seq<Anchor>> { seq(|ds|, i requires 0 <= i < |ds| => ds[i].anchors) }
  function RedirectsOf(ds: seq<Delta>): seq<seq<Redirect>> { seq(|ds|, i requires 0 <= i < |ds| => ds[i].redirects) }

  /** The edge's lists are the contributions' lists one after the other, and the state is
      stamped with its edge and generation. */
  lemma {:induction false} InOrder(edge: EdgeId, generation: nat, ds: seq<Delta>)
    ensures var st := JoinAll(Fresh(edge, generation), ds);
      && st.edge == edge && st.generation == generation
      && st.policers == Flat(PolicersOf(ds)) && st.sessions == Flat(SessionsOf(ds))
      && st.anchors == Flat(AnchorsOf(ds)) && st.redirects == Flat(RedirectsOf(ds))
    decreases |ds|
  {
    if ds != [] {
      var front := ds[..|ds| - 1];
      InOrder(edge, generation, front);
      assert PolicersOf(ds)[..|ds| - 1] == PolicersOf(front);
      assert SessionsOf(ds)[..|ds| - 1] == SessionsOf(front);
      assert AnchorsOf(ds)[..|ds| - 1] == AnchorsOf(front);
      assert RedirectsOf(ds)[..|ds| - 1] == RedirectsOf(front);
    }
  }

  /** Pools come by rising id, members by their texts in dictionary order. */
  lemma Ascending(ps: seq<Pool>, p: Pool)
    ensures |Sort(ById(), ps)| == |ps| && |Ordered(p)| == |p.members|
    ensures forall i, j | 0 <= i < j < |ps| :: Sort(ById(), ps)[i].id <= Sort(ById(), ps)[j].id
    ensures forall i, j | 0 <= i < j < |p.members| ::
      !TextLess(Text(Ordered(p)[j].prefix), Text(Ordered(p)[i].prefix))
  {
    ByIdOrder();
    SortSorts(ById(), ps);
    assert WeakOrder(ByPrefix()) by {
      TextOrder();
    }
    SortSorts(ByPrefix(), p.members);
    forall i, j | 0 <= i < j < |ps|
      ensures Sort(ById(), ps)[i].id <= Sort(ById(), ps)[j].id
    {
      assert !ById()(Sort(ById(), ps)[j], Sort(ById(), ps)[i]);
    }
    forall i, j | 0 <= i < j < |p.members|
      ensures !TextLess(Text(Ordered(p)[j].prefix), Text(Ordered(p)[i].prefix))
    {
      assert !ByPrefix()(Ordered(p)[j], Ordered(p)[i]);
    }
  }

  // ---- sessions ----

  /** One of the pools is rate-limited and has a member with this session. */
  ghost predicate Classifies(k: Checks, ps: seq<Pool>, s: Session) {
    exists p, m :: p in ps && p.action.RateLimit? && s.pool == p.id
      && m in p.members && m.prefix == s.prefix && k.mask(m, s.dir) == Some(s.mask)
  }

  ghost predicate ClassifiesOne(k: Checks, p: Pool, s: Session) {
    p.action.RateLimit? && s.pool == p.id
    && exists m :: m in p.members && m.prefix == s.prefix && k.mask(m, s.dir) == Some(s.mask)
  }

  lemma PartSessions(k: Checks, o: Options, edge: EdgeId, p: Pool, standby: bool, s: Session)
    requires Part(k, o, edge, p, standby).Some?
    ensures s in Part(k, o, edge, p, standby).value.sessions <==> ClassifiesOne(k, p, s)
  {
    if p.action.RateLimit? {
      SessionsExact(k, p.id, Ordered(p), s);
      forall m
        ensures m in Ordered(p) <==> m in p.members
      {
        OrderedHas(p, m);
      }
    }
  }

  ghost predicate SomeSession(ds: seq<Delta>, s: Session) {
    exists i | 0 <= i < |ds| :: s in ds[i].sessions
  }

  lemma {:induction false} JoinedSessions(st: State, ds: seq<Delta>, s: Session)
    ensures s in JoinAll(st, ds).sessions <==> s in st.sessions || SomeSession(ds, s)
    decreases |ds|
  {
    if ds != [] {
      var front := ds[..|ds| - 1];
      JoinedSessions(st, front, s);
      assert forall i | 0 <= i < |front| :: ds[i] == front[i];
    }
  }

  lemma BothSessions(st: State, a: seq<Delta>, b: seq<Delta>, s: Session)
    ensures s in JoinAll(st, a + b).sessions <==> s in st.sessions || SomeSession(a, s) || SomeSession(b, s)
  {
    JoinedSessions(st, a, s);
    JoinedSessions(JoinAll(st, a), b, s);
    JoinAllConcat(st, a, b);
  }

  lemma RoleSessions(k: Checks, o: Options, edge: EdgeId, ps: seq<Pool>, standby: bool, s: Session)
    requires AllRender(InRole(k, o, standby), edge, Sort(ById(), ps))
    ensures SomeSession(Parts(InRole(k, o, standby), edge, Sort(ById(), ps)), s) <==> Classifies(k, ps, s)
  {
    var f, sorted := InRole(k, o, standby), Sort(ById(), ps);
    var ds := Parts(f, edge, sorted);
    forall i | 0 <= i < |sorted|
      ensures s in ds[i].sessions <==> ClassifiesOne(k, sorted[i], s)
      ensures sorted[i] in ps
    {
      assert f(edge, sorted[i]).Some?;
      PartSessions(k, o, edge, sorted[i], standby, s);
      SortedHas(ps, sorted[i]);
    }
    if Classifies(k, ps, s) {
      var p :| p in ps && ClassifiesOne(k, p, s);
      SortedHas(ps, p);
      var i :| 0 <= i < |sorted| && sorted[i] == p;
      assert s in ds[i].sessions;
    }
    if SomeSession(ds, s) {
      var i :| 0 <= i < |ds| && s in ds[i].sessions;
      assert ClassifiesOne(k, sorted[i], s);
    }
  }

  /** An edge classifies exactly the members of its rate-limited primaries and backups, in both
      directions. */
  lemma EdgeSessions(k: Checks, o: Options, edge: EdgeId, primary: seq<Pool>, backup: seq<Pool>, s: Session)
    requires EdgeRenders(k, o, edge, primary, backup)
    ensures s in JoinAll(Fresh(edge, o.generation), EdgeParts(k, o, edge, primary, backup)).sessions <==>
      Classifies(k, primary, s) || Classifies(k, backup, s)
  {
    RoleSessions(k, o, edge, primary, false, s);
    RoleSessions(k, o, edge, backup, true, s);
    BothSessions(Fresh(edge, o.generation), Parts(InRole(k, o, false), edge, Sort(ById(), primary)),
                 Parts(InRole(k, o, true), edge, Sort(ById(), backup)), s);
  }

  // ---- next hops ----

  function Hop(st: State, v6: bool): Render.Address { if v6 then st.nextHop6 else st.nextHop }

  function HopOf(d: Delta, v6: bool): Render.Address { if v6 then d.nextHop6 else d.nextHop }

  ghost predicate SomeHop(ds: seq<Delta>, v6: bool) {
    exists i | 0 <= i < |ds| :: HopOf(ds[i], v6) != NoAddress
  }

  lemma {:induction false} JoinedHop(st: State, ds: seq<Delta>, v6: bool, a: Render.Address)
    requires forall i | 0 <= i < |ds| :: HopOf(ds[i], v6) == NoAddress || HopOf(ds[i], v6) == a
    ensures Hop(JoinAll(st, ds), v6) == if SomeHop(ds, v6) then a else Hop(st, v6)
    decreases |ds|
  {
    if ds != [] {
      var front := ds[..|ds| - 1];
      assert forall i | 0 <= i < |front| :: ds[i] == front[i];
      JoinedHop(st, front, v6, a);
    }
  }

  /** The edge's own address of the family. */
  function OwnAddress(o: Options, edge: EdgeId, v6: bool): Render.Address {
    if v6 then (if edge in o.edgeAddrs6 then o.edgeAddrs6[edge] else NoAddress)
    else if edge in o.edgeAddrs then o.edgeAddrs[edge] else NoAddress
  }

  ghost predicate RedirectsFamily(o: Options, edge: EdgeId, p: Pool, v6: bool) {
    p.action.RateLimit? && exists m :: m in p.members && m.prefix.V6Host? == v6 && !o.suppress(edge, m.prefix)
  }

  lemma PartHop(k: Checks, o: Options, edge: EdgeId, p: Pool, standby: bool, v6: bool)
    requires Part(k, o, edge, p, standby).Some?
    ensures var hop := HopOf(Part(k, o, edge, p, standby).value, v6);
      && (hop == NoAddress || hop == OwnAddress(o, edge, v6))
      && (hop != NoAddress <==> !standby && RedirectsFamily(o, edge, p, v6))
  {
    if p.action.RateLimit? && !standby {
      var ps := Advertised(o, edge, Ordered(p));
      if q :| q in ps && q.V6Host? == v6 {
        AdvertisesMembers(o, edge, p, q);
      }
      if m :| m in p.members && m.prefix.V6Host? == v6 && !o.suppress(edge, m.prefix) {
        AdvertisesMembers(o, edge, p, m.prefix);
        assert m.prefix in ps;
      }
    }
  }

  lemma RoleHop(k: Checks, o: Options, edge: EdgeId, ps: seq<Pool>, standby: bool, v6: bool)
    requires AllRender(InRole(k, o, standby), edge, Sort(ById(), ps))
    ensures var ds := Parts(InRole(k, o, standby), edge, Sort(ById(), ps));
      && (forall i | 0 <= i < |ds| :: HopOf(ds[i], v6) == NoAddress || HopOf(ds[i], v6) == OwnAddress(o, edge, v6))
      && (SomeHop(ds, v6) <==> !standby && exists p :: p in ps && RedirectsFamily(o, edge, p, v6))
  {
    var f, sorted := InRole(k, o, standby), Sort(ById(), ps);
    var ds := Parts(f, edge, sorted);
    forall i | 0 <= i < |sorted|
      ensures HopOf(ds[i], v6) == NoAddress || HopOf(ds[i], v6) == OwnAddress(o, edge, v6)
      ensures HopOf(ds[i], v6) != NoAddress <==> !standby && RedirectsFamily(o, edge, sorted[i], v6)
      ensures sorted[i] in ps
    {
      assert f(edge, sorted[i]).Some?;
      PartHop(k, o, edge, sorted[i], standby, v6);
      SortedHas(ps, sorted[i]);
    }
    if p :| p in ps && RedirectsFamily(o, edge, p, v6) {
      SortedHas(ps, p);
      var i :| 0 <= i < |sorted| && sorted[i] == p;
      assert !standby ==> HopOf(ds[i], v6) != NoAddress;
    }
  }

  /** An edge's redirects of a family point at the edge's own address of that family; without
      such redirects there is no next hop. */
  lemma EdgeHops(k: Checks, o: Options, edge: EdgeId, primary: seq<Pool>, backup: seq<Pool>, v6: bool)
    requires EdgeRenders(k, o, edge, primary, backup)
    ensures Hop(JoinAll(Fresh(edge, o.generation), EdgeParts(k, o, edge, primary, backup)), v6) ==
      if exists p :: p in primary && RedirectsFamily(o, edge, p, v6) then OwnAddress(o, edge, v6) else NoAddress
  {
    var st := Fresh(edge, o.generation);
    var a := Parts(InRole(k, o, false), edge, Sort(ById(), primary));
    var b := Parts(InRole(k, o, true), edge, Sort(ById(), backup));
    RoleHop(k, o, edge, primary, false, v6);
    RoleHop(k, o, edge, backup, true, v6);
    JoinedHop(st, a, v6, OwnAddress(o, edge, v6));
    JoinedHop(JoinAll(st, a), b, v6, OwnAddress(o, edge, v6));
    JoinAllConcat(st, a, b);
  }
}
