/** Rendering pools into an edge's desired state. The contract's member checks
    (validity, classify mask) are parameters. */
module Render {
  import opened Model
  import opened Sorting
  import opened Cidr

  datatype Direction = Ingress | Egress

  datatype Rate = Rate(cir: int, kbps: bool, burstBytes: int, burstPackets: int)

  /** `extra` stands for what else the contract's member record carries. */
  datatype Member = Member(prefix: Prefix, extra: int)

  datatype Action =
    | RateLimit
    | Blackhole(community: Option<int>, largeCommunity: Option<int>)
    | Unsupported

  datatype Pool = Pool(
    id: PoolId, members: seq<Member>, homeEdge: EdgeId, action: Action,
    ingressRate: Rate, egressRate: Rate, bindWorker: int)

  datatype Address = NoAddress | V4Address(text: string) | V6Address(text: string)

  datatype Options = Options(
    generation: nat,
    edgeAddrs: map<EdgeId, Address>,
    edgeAddrs6: map<EdgeId, Address>,
    homeMarker: EdgeId -> Option<int>,
    suppress: (EdgeId, Prefix) -> bool)

  /** The contract's judgement of members. */
  datatype Checks = Checks(valid: Member -> bool, mask: (Member, Direction) -> Option<int>)

  datatype Policer = Policer(pool: PoolId, dir: Direction, rate: Rate, transmitExceeding: bool, bindWorker: int)

  datatype Session = Session(pool: PoolId, prefix: Prefix, dir: Direction, mask: int)

  datatype Anchor = Anchor(prefix: Prefix, communities: seq<int>, largeCommunities: seq<int>)

  datatype Redirect = Redirect(srcPrefix: Prefix)

  /** One pool's contribution to an edge. */
  datatype Delta = Delta(
    poolId: PoolId, policers: seq<Policer>, sessions: seq<Session>, anchors: seq<Anchor>,
    redirects: seq<Redirect>, nextHop: Address, nextHop6: Address)

  datatype State = State(
    edge: EdgeId, generation: nat, policers: seq<Policer>, sessions: seq<Session>, anchors: seq<Anchor>,
    redirects: seq<Redirect>, nextHop: Address, nextHop6: Address)

  function Fresh(edge: EdgeId, generation: nat): State {
    State(edge, generation, [], [], [], [], NoAddress, NoAddress)
  }

  function Later(before: Address, after: Address): Address {
    if after.NoAddress? then before else after
  }

  /** The contribution appended to what is there; a next hop, once set, stands. */
  function Join(st: State, d: Delta): State {
    st.(policers := st.policers + d.policers, sessions := st.sessions + d.sessions,
        anchors := st.anchors + d.anchors, redirects := st.redirects + d.redirects,
        nextHop := Later(st.nextHop, d.nextHop), nextHop6 := Later(st.nextHop6, d.nextHop6))
  }

  function JoinAll(st: State, ds: seq<Delta>): State {
    if ds == [] then st else Join(JoinAll(st, ds[..|ds| - 1]), ds[|ds| - 1])
  }

  // ---- one pool ----

  const UnlimitedKbps: int := 100_000_000
  const UnlimitedBurst: int := 12_500_000

  function PolicerFor(p: Pool, dir: Direction): Policer {
    var r := if dir.Ingress? then p.ingressRate else p.egressRate;
    if r.cir == 0 then
      Policer(p.id, dir, Rate(UnlimitedKbps, true, if r.burstBytes == 0 then UnlimitedBurst else r.burstBytes, r.burstPackets),
              true, p.bindWorker)
    else Policer(p.id, dir, r, false, p.bindWorker)
  }

  predicate MemberOk(k: Checks, m: Member) {
    k.valid(m) && k.mask(m, Ingress).Some? && k.mask(m, Egress).Some?
  }

  predicate MembersOk(k: Checks, ms: seq<Member>) {
    forall i | 0 <= i < |ms| :: MemberOk(k, ms[i])
  }

  /** Two sessions per member, one per direction. */
  function SessionsFor(k: Checks, id: PoolId, ms: seq<Member>): seq<Session>
    requires MembersOk(k, ms)
  {
    if ms == [] then []
    else
      var m := ms[|ms| - 1];
      SessionsFor(k, id, ms[..|ms| - 1])
      + [Session(id, m.prefix, Ingress, k.mask(m, Ingress).value), Session(id, m.prefix, Egress, k.mask(m, Egress).value)]
  }

  /** The members advertised from `home`, in order. */
  function Advertised(o: Options, home: EdgeId, ms: seq<Member>): seq<Prefix> {
    if ms == [] then []
    else
      Advertised(o, home, ms[..|ms| - 1])
      + if o.suppress(home, ms[|ms| - 1].prefix) then [] else [ms[|ms| - 1].prefix]
  }

  function Marked(o: Options, home: EdgeId, ps: seq<Prefix>): seq<Anchor> {
    seq(|ps|, i requires 0 <= i < |ps| =>
      Anchor(ps[i], [], if o.homeMarker(home).Some? then [o.homeMarker(home).value] else []))
  }

  function Redirected(ps: seq<Prefix>): seq<Redirect> {
    seq(|ps|, i requires 0 <= i < |ps| => Redirect(ps[i]))
  }

  function Holed(a: Action, ps: seq<Prefix>): seq<Anchor>
    requires a.Blackhole?
  {
    seq(|ps|, i requires 0 <= i < |ps| =>
      Anchor(ps[i], if a.community.Some? then [a.community.value] else [],
             if a.largeCommunity.Some? then [a.largeCommunity.value] else []))
  }

  predicate HasV4(ps: seq<Prefix>) { exists p :: p in ps && !p.V6Host? }

  predicate HasV6(ps: seq<Prefix>) { exists p :: p in ps && p.V6Host? }

  /** The advertised families have a next hop of their own family. */
  predicate HopsOk(o: Options, home: EdgeId, ps: seq<Prefix>) {
    && (HasV4(ps) ==> home in o.edgeAddrs && o.edgeAddrs[home].V4Address?)
    && (HasV6(ps) ==> home in o.edgeAddrs6 && o.edgeAddrs6[home].V6Address?)
  }

  function ByPrefix(): (Member, Member) -> bool {
    (x: Member, y: Member) => TextLess(Text(x.prefix), Text(y.prefix))
  }

  function Ordered(p: Pool): seq<Member> { Sort(ByPrefix(), p.members) }

  function PolicersFor(p: Pool): seq<Policer> {
    [PolicerFor(p, Ingress), PolicerFor(p, Egress)]
  }

  /** What a pool contributes to an edge in its role, or None if its render fails. */
  function Part(k: Checks, o: Options, edge: EdgeId, p: Pool, standby: bool): Option<Delta> {
    PartOf(k, o, edge, p.id, p.action, PolicersFor(p), Ordered(p), standby)
  }

  function PartOf(
    k: Checks, o: Options, edge: EdgeId, id: PoolId, action: Action, policers: seq<Policer>, ms: seq<Member>, standby: bool)
    : Option<Delta>
  {
    var ps := Advertised(o, edge, ms);
    if action.RateLimit? then
      if !MembersOk(k, ms) then None
      else if standby then Some(Delta(id, policers, SessionsFor(k, id, ms), [], [], NoAddress, NoAddress))
      else if !HopsOk(o, edge, ps) then None
      else
        Some(Delta(id, policers, SessionsFor(k, id, ms), Marked(o, edge, ps), Redirected(ps),
                   if HasV4(ps) then o.edgeAddrs[edge] else NoAddress,
                   if HasV6(ps) then o.edgeAddrs6[edge] else NoAddress))
    else if standby then Some(Delta(id, [], [], [], [], NoAddress, NoAddress))
    else if action.Blackhole? then Some(Delta(id, [], [], Holed(action, ps), [], NoAddress, NoAddress))
    else None
  }

  // ---- the renderers ----

  /** The desired state under construction. */
  class Builder {
    var st: State

    constructor (edge: EdgeId, generation: nat)
      ensures st == Fresh(edge, generation)
    {
      st := Fresh(edge, generation);
    }

    method AddPolicersClassify(k: Checks, p: Pool, ms: seq<Member>) returns (ok: bool)
      modifies this
      ensures ok <==> MembersOk(k, ms)
      ensures ok ==> st == old(st).(
        policers := old(st).policers + [PolicerFor(p, Ingress), PolicerFor(p, Egress)],
        sessions := old(st).sessions + SessionsFor(k, p.id, ms))
    {
      st := st.(policers := st.policers + [PolicerFor(p, Ingress), PolicerFor(p, Egress)]);
      ghost var was := st;
      for i := 0 to |ms|
        invariant MembersOk(k, ms[..i])
        invariant st == was.(sessions := was.sessions + SessionsFor(k, p.id, ms[..i]))
      {
        var m := ms[i];
        assert ms[..i + 1] == ms[..i] + [m];
        if !k.valid(m) {
          return false;
        }
        var inMask := k.mask(m, Ingress);
        if inMask.None? {
          return false;
        }
        var egMask := k.mask(m, Egress);
        if egMask.None? {
          return false;
        }
        assert MembersOk(k, ms[..i + 1]);
        assert ms[..i + 1][..i] == ms[..i];
        st := st.(sessions := st.sessions
          + [Session(p.id, m.prefix, Ingress, inMask.value), Session(p.id, m.prefix, Egress, egMask.value)]);
      }
      assert ms[..|ms|] == ms;
      ok := true;
    }

    method RenderStandby(k: Checks, p: Pool, ms: seq<Member>) returns (ok: bool)
      modifies this
      ensures ok <==> !p.action.RateLimit? || MembersOk(k, ms)
      ensures ok ==> st == if !p.action.RateLimit? then old(st) else old(st).(
        policers := old(st).policers + [PolicerFor(p, Ingress), PolicerFor(p, Egress)],
        sessions := old(st).sessions + SessionsFor(k, p.id, ms))
    {
      if !p.action.RateLimit? {
        return true;
      }
      ok := AddPolicersClassify(k, p, ms);
    }

    method RenderRateLimit(k: Checks, o: Options, p: Pool, ms: seq<Member>, home: EdgeId) returns (ok: bool)
      modifies this
      ensures ok <==> MembersOk(k, ms) && HopsOk(o, home, Advertised(o, home, ms))
      ensures ok ==> var ps := Advertised(o, home, ms);
        st == old(st).(
          policers := old(st).policers + [PolicerFor(p, Ingress), PolicerFor(p, Egress)],
          sessions := old(st).sessions + SessionsFor(k, p.id, ms),
          anchors := old(st).anchors + Marked(o, home, ps),
          redirects := old(st).redirects + Redirected(ps),
          nextHop := if HasV4(ps) then o.edgeAddrs[home] else old(st).nextHop,
          nextHop6 := if HasV6(ps) then o.edgeAddrs6[home] else old(st).nextHop6)
    {
      ok := AddPolicersClassify(k, p, ms);
      if !ok {
        return;
      }
      var haveV4, haveV6 := Advertise(o, ms, home);
      if haveV4 {
        if home !in o.edgeAddrs || !o.edgeAddrs[home].V4Address? {
          return false;
        }
        st := st.(nextHop := o.edgeAddrs[home]);
      }
      if haveV6 {
        if home !in o.edgeAddrs6 || !o.edgeAddrs6[home].V6Address? {
          return false;
        }
        st := st.(nextHop6 := o.edgeAddrs6[home]);
      }
    }

    /** Ingress anchors and egress redirects of the members that are not suppressed. */
    method Advertise(o: Options, ms: seq<Member>, home: EdgeId) returns (haveV4: bool, haveV6: bool)
      modifies this
      ensures var ps := Advertised(o, home, ms);
        haveV4 == HasV4(ps) && haveV6 == HasV6(ps) && st == Publicised(old(st), o, home, ps)
    {
      ghost var was := st;
      var marker := o.homeMarker(home);
      haveV4, haveV6 := false, false;
      assert Publicised(was, o, home, []) == was;
      for i := 0 to |ms|
        invariant haveV4 == HasV4(Advertised(o, home, ms[..i])) && haveV6 == HasV6(Advertised(o, home, ms[..i]))
        invariant st == Publicised(was, o, home, Advertised(o, home, ms[..i]))
      {
        AdvertisedStep(o, home, ms, i);
        var prefix := ms[i].prefix;
        if o.suppress(home, prefix) {
          continue;
        }
        AdvertiseOne(was, o, home, Advertised(o, home, ms[..i]), prefix);
        st := st.(anchors := st.anchors + [Anchor(prefix, [], if marker.Some? then [marker.value] else [])]);
        st := st.(redirects := st.redirects + [Redirect(prefix)]);
        if prefix.V6Host? {
          haveV6 := true;
        } else {
          haveV4 := true;
        }
      }
      assert ms[..|ms|] == ms;
    }

    method RenderBlackhole(o: Options, p: Pool, ms: seq<Member>, home: EdgeId)
      requires p.action.Blackhole?
      modifies this
      ensures st == old(st).(anchors := old(st).anchors + Holed(p.action, Advertised(o, home, ms)))
    {
      for i := 0 to |ms|
        invariant st == old(st).(anchors := old(st).anchors + Holed(p.action, Advertised(o, home, ms[..i])))
      {
        assert ms[..i + 1][..i] == ms[..i];
        var prefix := ms[i].prefix;
        if o.suppress(home, prefix) {
          continue;
        }
        var ps := Advertised(o, home, ms[..i]);
        var a := Anchor(prefix, if p.action.community.Some? then [p.action.community.value] else [],
                        if p.action.largeCommunity.Some? then [p.action.largeCommunity.value] else []);
        assert Holed(p.action, ps + [prefix]) == Holed(p.action, ps) + [a];
        st := st.(anchors := st.anchors + [a]);
      }
      assert ms[..|ms|] == ms;
    }

    /** One pool in its role, into whatever is already there. */
    method RenderPool(k: Checks, o: Options, edge: EdgeId, p: Pool, standby: bool) returns (ok: bool)
      modifies this
      ensures ok <==> Part(k, o, edge, p, standby).Some?
      ensures ok ==> st == Join(old(st), Part(k, o, edge, p, standby).value)
    {
      var ms := Ordered(p);
      if standby {
        ok := RenderStandby(k, p, ms);
        return;
      }
      match p.action {
        case RateLimit => ok := RenderRateLimit(k, o, p, ms, edge);
        case Blackhole(_, _) =>
          RenderBlackhole(o, p, ms, edge);
          ok := true;
        case Unsupported => ok := false;
      }
    }
  }

  /** The anchors and redirects of the prefixes, added. */
  function Publicised(st: State, o: Options, home: EdgeId, ps: seq<Prefix>): State {
    st.(anchors := st.anchors + Marked(o, home, ps), redirects := st.redirects + Redirected(ps))
  }

  lemma AdvertisedStep(o: Options, home: EdgeId, ms: seq<Member>, i: nat)
    requires i < |ms|
    ensures Advertised(o, home, ms[..i + 1]) ==
      if o.suppress(home, ms[i].prefix) then Advertised(o, home, ms[..i])
      else Advertised(o, home, ms[..i]) + [ms[i].prefix]
  {
    assert ms[..i + 1][..i] == ms[..i];
  }

  lemma AdvertiseOne(st: State, o: Options, home: EdgeId, ps: seq<Prefix>, p: Prefix)
    ensures var before := Publicised(st, o, home, ps);
      Publicised(st, o, home, ps + [p]) == before.(
        anchors := before.anchors + [Anchor(p, [], if o.homeMarker(home).Some? then [o.homeMarker(home).value] else [])],
        redirects := before.redirects + [Redirect(p)])
    ensures HasV4(ps + [p]) <==> HasV4(ps) || !p.V6Host?
    ensures HasV6(ps + [p]) <==> HasV6(ps) || p.V6Host?
  {
    assert Marked(o, home, ps + [p])
      == Marked(o, home, ps) + [Anchor(p, [], if o.homeMarker(home).Some? then [o.homeMarker(home).value] else [])];
    assert Redirected(ps + [p]) == Redirected(ps) + [Redirect(p)];
    assert p in ps + [p];
    if HasV4(ps) {
      var q :| q in ps && !q.V6Host?;
      assert q in ps + [p];
    }
    if HasV6(ps) {
      var q :| q in ps && q.V6Host?;
      assert q in ps + [p];
    }
  }

  // ---- the per-pool path ----

  /** A contribution can be read back off the scratch state it was rendered into. */
  lemma JoinFresh(edge: EdgeId, generation: nat, d: Delta)
    ensures var st := Join(Fresh(edge, generation), d);
      d == Delta(d.poolId, st.policers, st.sessions, st.anchors, st.redirects, st.nextHop, st.nextHop6)
  {
    var st := Join(Fresh(edge, generation), d);
    assert st.policers == d.policers && st.sessions == d.sessions;
    assert st.anchors == d.anchors && st.redirects == d.redirects;
  }

  method ForPool(k: Checks, o: Options, edge: EdgeId, p: Pool, standby: bool) returns (r: Option<Delta>)
    ensures r == Part(k, o, edge, p, standby)
  {
    var b := new Builder(edge, o.generation);
    var ok := b.RenderPool(k, o, edge, p, standby);
    if !ok {
      return None;
    }
    JoinFresh(edge, o.generation, Part(k, o, edge, p, standby).value);
    r := Some(Delta(p.id, b.st.policers, b.st.sessions, b.st.anchors, b.st.redirects, b.st.nextHop, b.st.nextHop6));
  }

  // ---- the whole-edge path ----

  /** What each pool contributes to an edge. */
  type Renderer = (EdgeId, Pool) -> Option<Delta>

  function InRole(k: Checks, o: Options, standby: bool): Renderer {
    (edge, p) => Part(k, o, edge, p, standby)
  }

  function ById(): (Pool, Pool) -> bool {
    (x: Pool, y: Pool) => x.id < y.id
  }

  ghost predicate AllRender(f: Renderer, edge: EdgeId, ps: seq<Pool>) {
    forall i | 0 <= i < |ps| :: f(edge, ps[i]).Some?
  }

  ghost function Parts(f: Renderer, edge: EdgeId, ps: seq<Pool>): seq<Delta>
    requires AllRender(f, edge, ps)
  {
    seq(|ps|, i requires 0 <= i < |ps| => f(edge, ps[i]).value)
  }

  lemma PartsStep(st: State, f: Renderer, edge: EdgeId, ps: seq<Pool>, i: nat)
    requires i < |ps| && AllRender(f, edge, ps[..i]) && f(edge, ps[i]).Some?
    ensures AllRender(f, edge, ps[..i + 1])
    ensures JoinAll(st, Parts(f, edge, ps[..i + 1]))
      == Join(JoinAll(st, Parts(f, edge, ps[..i])), f(edge, ps[i]).value)
  {
    assert ps[..i + 1] == ps[..i] + [ps[i]];
    var ds := Parts(f, edge, ps[..i + 1]);
    assert ds[..i] == Parts(f, edge, ps[..i]);
  }

  /** Pools in order, all in the same role, into an existing state. */
  method RenderAll(b: Builder, k: Checks, o: Options, edge: EdgeId, pools: seq<Pool>, standby: bool) returns (ok: bool)
    modifies b
    ensures ok <==> AllRender(InRole(k, o, standby), edge, Sort(ById(), pools))
    ensures ok ==> b.st == JoinAll(old(b.st), Parts(InRole(k, o, standby), edge, Sort(ById(), pools)))
  {
    var sorted := Sort(ById(), pools);
    ghost var f := InRole(k, o, standby);
    for i := 0 to |sorted|
      invariant AllRender(f, edge, sorted[..i])
      invariant b.st == JoinAll(old(b.st), Parts(f, edge, sorted[..i]))
    {
      ok := b.RenderPool(k, o, edge, sorted[i], standby);
      if !ok {
        assert f(edge, sorted[i]).None?;
        return;
      }
      PartsStep(old(b.st), f, edge, sorted, i);
    }
    assert sorted[..|sorted|] == sorted;
    ok := true;
  }

  lemma JoinAllConcat(st: State, a: seq<Delta>, b: seq<Delta>)
    ensures JoinAll(st, a + b) == JoinAll(JoinAll(st, a), b)
    decreases |b|
  {
    if b == [] {
      assert a + b == a;
    } else {
      assert (a + b)[..|a + b| - 1] == a + b[..|b| - 1];
      JoinAllConcat(st, a, b[..|b| - 1]);
    }
  }

  /** The pools an edge renders are all fine in their roles. */
  ghost predicate EdgeRenders(k: Checks, o: Options, edge: EdgeId, primary: seq<Pool>, backup: seq<Pool>) {
    && AllRender(InRole(k, o, false), edge, Sort(ById(), primary))
    && AllRender(InRole(k, o, true), edge, Sort(ById(), backup))
  }

  /** The per-pool contributions in the order the edge takes them: primaries by id, then
      backups by id. */
  ghost function EdgeParts(k: Checks, o: Options, edge: EdgeId, primary: seq<Pool>, backup: seq<Pool>): seq<Delta>
    requires EdgeRenders(k, o, edge, primary, backup)
  {
    Parts(InRole(k, o, false), edge, Sort(ById(), primary)) + Parts(InRole(k, o, true), edge, Sort(ById(), backup))
  }

  /** The whole edge is the in-order concatenation of what `ForPool` gives for each pool,
      and fails exactly when one of those fails. */
  method ForEdge(k: Checks, o: Options, edge: EdgeId, primary: seq<Pool>, backup: seq<Pool>) returns (r: Option<State>)
    ensures r.Some? <==> EdgeRenders(k, o, edge, primary, backup)
    ensures r.Some? ==> r.value == JoinAll(Fresh(edge, o.generation), EdgeParts(k, o, edge, primary, backup))
  {
    var b := new Builder(edge, o.generation);
    var ok := RenderAll(b, k, o, edge, primary, false);
    if !ok {
      return None;
    }
    ok := RenderAll(b, k, o, edge, backup, true);
    if !ok {
      return None;
    }
    JoinAllConcat(Fresh(edge, o.generation), Parts(InRole(k, o, false), edge, Sort(ById(), primary)),
                  Parts(InRole(k, o, true), edge, Sort(ById(), backup)));
    r := Some(b.st);
  }

  // ---- all edges at once ----

  /** The pools homed at `edge`, in order. */
  function HomedAt(ps: seq<Pool>, edge: EdgeId): seq<Pool> {
    if ps == [] then []
    else HomedAt(ps[..|ps| - 1], edge) + if ps[|ps| - 1].homeEdge == edge then [ps[|ps| - 1]] else []
  }

  ghost predicate Renders(f: Renderer, p: Pool) {
    p.homeEdge != NoEdge && f(p.homeEdge, p).Some?
  }

  ghost predicate AllHomesRender(f: Renderer, ps: seq<Pool>) {
    forall i | 0 <= i < |ps| :: Renders(f, ps[i])
  }

  lemma {:induction false} HomedRender(f: Renderer, ps: seq<Pool>, edge: EdgeId)
    requires AllHomesRender(f, ps)
    ensures AllRender(f, edge, HomedAt(ps, edge))
    decreases |ps|
  {
    if ps != [] {
      HomedRender(f, ps[..|ps| - 1], edge);
    }
  }

  /** The state of one edge after the pools `ps`. */
  ghost function EdgeState(f: Renderer, generation: nat, ps: seq<Pool>, edge: EdgeId): State
    requires AllHomesRender(f, ps)
  {
    HomedRender(f, ps, edge);
    JoinAll(Fresh(edge, generation), Parts(f, edge, HomedAt(ps, edge)))
  }

  lemma EdgeStateStep(f: Renderer, generation: nat, ps: seq<Pool>, i: nat, edge: EdgeId)
    requires i < |ps| && AllHomesRender(f, ps[..i]) && Renders(f, ps[i])
    ensures AllHomesRender(f, ps[..i + 1])
    ensures EdgeState(f, generation, ps[..i + 1], edge) ==
      if ps[i].homeEdge == edge then Join(EdgeState(f, generation, ps[..i], edge), f(edge, ps[i]).value)
      else EdgeState(f, generation, ps[..i], edge)
  {
    assert ps[..i + 1][..i] == ps[..i];
    assert ps[..i + 1][i] == ps[i];
    var before := HomedAt(ps[..i], edge);
    HomedRender(f, ps[..i], edge);
    if ps[i].homeEdge != edge {
      assert HomedAt(ps[..i + 1], edge) == before;
    } else {
      var after := before + [ps[i]];
      assert after[..|before|] == before && after[..|before| + 1] == after;
      PartsStep(Fresh(edge, generation), f, edge, after, |before|);
    }
  }

  function Homes(ps: seq<Pool>): set<EdgeId> {
    set p | p in ps :: p.homeEdge
  }

  lemma HomesSnoc(ps: seq<Pool>, i: nat)
    requires i < |ps|
    ensures Homes(ps[..i + 1]) == Homes(ps[..i]) + {ps[i].homeEdge}
  {
    assert ps[..i + 1] == ps[..i] + [ps[i]];
    assert ps[i] in ps[..i + 1];
  }

  lemma {:induction false} NothingHomed(ps: seq<Pool>, edge: EdgeId)
    requires edge !in Homes(ps)
    ensures HomedAt(ps, edge) == []
    decreases |ps|
  {
    if ps != [] {
      assert ps == ps[..|ps| - 1] + [ps[|ps| - 1]];
      assert ps[|ps| - 1] in ps;
      NothingHomed(ps[..|ps| - 1], edge);
    }
  }

  /** One state per home edge of `ps`, each that edge's state after `ps`. */
  ghost predicate AllBuilt(f: Renderer, generation: nat, ps: seq<Pool>, views: map<EdgeId, State>) {
    && AllHomesRender(f, ps) && views.Keys == Homes(ps)
    && forall e | e in views :: views[e] == EdgeState(f, generation, ps, e)
  }

  lemma AllBuiltStep(f: Renderer, generation: nat, ps: seq<Pool>, i: nat, views: map<EdgeId, State>)
    requires i < |ps| && AllBuilt(f, generation, ps[..i], views) && Renders(f, ps[i])
    ensures var home := ps[i].homeEdge;
      AllBuilt(f, generation, ps[..i + 1], views[home := Join(ViewOf(views, home, generation), f(home, ps[i]).value)])
  {
    var home := ps[i].homeEdge;
    var st := ViewOf(views, home, generation);
    var after := views[home := Join(st, f(home, ps[i]).value)];
    HomesSnoc(ps, i);
    if home !in views {
      NothingHomed(ps[..i], home);
    }
    assert st == EdgeState(f, generation, ps[..i], home);
    EdgeStateStep(f, generation, ps, i, home);
    forall e | e in after
      ensures after[e] == EdgeState(f, generation, ps[..i + 1], e)
    {
      EdgeStateStep(f, generation, ps, i, e);
    }
  }

  ghost predicate Separate(states: map<EdgeId, Builder>) {
    forall e, e' | e in states && e' in states && e != e' :: states[e] != states[e']
  }

  /** The edge's state under construction, started on first use. */
  method Get(states: map<EdgeId, Builder>, edge: EdgeId, generation: nat) returns (b: Builder)
    ensures if edge in states then b == states[edge] else fresh(b) && b.st == Fresh(edge, generation)
  {
    if edge in states {
      b := states[edge];
    } else {
      b := new Builder(edge, generation);
    }
  }

  /** `f` is what the renderer does in this role. */
  ghost predicate Does(f: Renderer, k: Checks, o: Options, standby: bool) {
    forall e, p {:trigger Part(k, o, e, p, standby)} :: f(e, p) == Part(k, o, e, p, standby)
  }

  method RenderVia(ghost f: Renderer, b: Builder, k: Checks, o: Options, edge: EdgeId, p: Pool, standby: bool)
    returns (ok: bool)
    requires Does(f, k, o, standby)
    modifies b
    ensures ok <==> f(edge, p).Some?
    ensures ok ==> b.st == Join(old(b.st), f(edge, p).value)
  {
    ok := b.RenderPool(k, o, edge, p, standby);
  }

  /** The states hold these views. */
  ghost predicate Shows(states: map<EdgeId, Builder>, views: map<EdgeId, State>)
    reads states.Values
  {
    states.Keys == views.Keys && forall e | e in states :: states[e].st == views[e]
  }

  function ViewOf(views: map<EdgeId, State>, edge: EdgeId, generation: nat): State {
    if edge in views then views[edge] else Fresh(edge, generation)
  }

  /** One pool, into the state of its home edge. */
  method AddPool(
    ghost f: Renderer, ghost views: map<EdgeId, State>, k: Checks, o: Options, p: Pool, states: map<EdgeId, Builder>)
    returns (ok: bool, after: map<EdgeId, Builder>)
    requires Separate(states) && Does(f, k, o, false) && Shows(states, views)
    modifies states.Values
    ensures ok <==> Renders(f, p)
    ensures ok ==> Separate(after) && forall e | e in after :: after[e] in states.Values || fresh(after[e])
    ensures ok ==>
      Shows(after, views[p.homeEdge := Join(ViewOf(views, p.homeEdge, o.generation), f(p.homeEdge, p).value)])
  {
    after := states;
    if p.homeEdge == NoEdge {
      return false, after;
    }
    var b := Get(states, p.homeEdge, o.generation);
    assert b.st == ViewOf(views, p.homeEdge, o.generation);
    assert forall e | e in states && e != p.homeEdge :: states[e] != b;
    ok := RenderVia(f, b, k, o, p.homeEdge, p, false);
    if ok {
      after := states[p.homeEdge := b];
    }
  }

  /** The sorted pools, each into the state of its home edge. */
  method BuildAll(ghost f: Renderer, k: Checks, o: Options, sorted: seq<Pool>)
    returns (ok: bool, states: map<EdgeId, Builder>, ghost views: map<EdgeId, State>)
    requires Does(f, k, o, false)
    ensures ok <==> AllHomesRender(f, sorted)
    ensures ok ==> AllBuilt(f, o.generation, sorted, views) && Shows(states, views)
  {
    states, views := map[], map[];
    for i := 0 to |sorted|
      invariant AllBuilt(f, o.generation, sorted[..i], views) && Shows(states, views)
      invariant Separate(states) && forall e | e in states :: fresh(states[e])
    {
      var p := sorted[i];
      ok, states := AddPool(f, views, k, o, p, states);
      if !ok {
        assert !Renders(f, sorted[i]);
        return;
      }
      AllBuiltStep(f, o.generation, sorted, i, views);
      views := views[p.homeEdge := Join(ViewOf(views, p.homeEdge, o.generation), f(p.homeEdge, p).value)];
    }
    assert sorted[..|sorted|] == sorted;
    ok := true;
  }

  /** One state per home edge. */
  method DesiredStates(k: Checks, o: Options, pools: seq<Pool>) returns (r: Option<map<EdgeId, State>>)
    ensures r.Some? <==> AllHomesRender(InRole(k, o, false), Sort(ById(), pools))
    ensures r.Some? ==> r.value.Keys == Homes(Sort(ById(), pools))
    ensures r.Some? ==>
      forall e | e in r.value :: r.value[e] == EdgeState(InRole(k, o, false), o.generation, Sort(ById(), pools), e)
  {
    ghost var f := InRole(k, o, false);
    ghost var views;
    var sorted := Sort(ById(), pools);
    assert Does(f, k, o, false);
    var ok, states;
    ok, states, views := BuildAll(f, k, o, sorted);
    if !ok {
      return None;
    }
    r := Some(map e | e in states :: states[e].st);
    assert r.value == views;
  }
}
