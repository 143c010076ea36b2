/** Member presence: which coverers assert a member present on an edge, as leases. The log
    predicates say what the lease maps mean; the class keeps the maps. */
module Presence {
  import opened Model

  datatype Family = V4 | V6

  function FamilyOf(p: Prefix): Family { if p.V6Host? then V6 else V4 }

  predicate IsHost(p: Prefix) { !p.V4Net? }

  datatype ViewKey = ViewKey(edge: EdgeId, family: Family)

  type Leases = map<string, int>

  const DefaultTtl: int := 300_000_000_000

  // ---- the log ----

  /** What happened under the lock. A mark carries the deadline computed for it. */
  datatype Event =
    | Mark(edge: EdgeId, coverer: string, member: Prefix, deadline: int)
    | Drop(edge: EdgeId, coverer: string, member: Prefix)
    | Sweep

  predicate Touches(e: Event, edge: EdgeId, member: Prefix, coverer: string) {
    !e.Sweep? && e.edge == edge && e.member == member && e.coverer == coverer
  }

  predicate Refreshes(e: Event, edge: EdgeId, family: Family, coverer: string) {
    e.Mark? && e.edge == edge && FamilyOf(e.member) == family && e.coverer == coverer
  }

  /** The coverer's latest word on the member is "present until `d`". */
  ghost predicate Asserted(log: seq<Event>, edge: EdgeId, member: Prefix, coverer: string, d: int) {
    exists i | 0 <= i < |log| && log[i] == Mark(edge, coverer, member, d) ::
      forall j | i < j < |log| :: !Touches(log[j], edge, member, coverer)
  }

  /** The coverer's latest present-assertion in this family on this edge lasts until `d`. */
  ghost predicate Viewed(log: seq<Event>, edge: EdgeId, family: Family, coverer: string, d: int) {
    exists i | 0 <= i < |log| && Refreshes(log[i], edge, family, coverer) && log[i].deadline == d ::
      forall j | i < j < |log| :: !Refreshes(log[j], edge, family, coverer)
  }

  /** Some coverer's latest mark is a present mark that has not run out. */
  ghost predicate LiveIn(log: seq<Event>, edge: EdgeId, member: Prefix, t: int) {
    exists c, d :: d > t && Asserted(log, edge, member, c, d)
  }

  /** Some coverer's view of the family can be trusted. */
  ghost predicate ValidIn(log: seq<Event>, edge: EdgeId, family: Family, t: int) {
    exists c, d :: d > t && Viewed(log, edge, family, c, d)
  }

  lemma AssertedSnoc(log: seq<Event>, e: Event, edge: EdgeId, member: Prefix, coverer: string, d: int)
    ensures Asserted(log + [e], edge, member, coverer, d) <==>
      if Touches(e, edge, member, coverer) then e.Mark? && e.deadline == d
      else Asserted(log, edge, member, coverer, d)
  {
    var all := log + [e];
    if Asserted(log, edge, member, coverer, d) && !Touches(e, edge, member, coverer) {
      var i :| 0 <= i < |log| && log[i] == Mark(edge, coverer, member, d)
        && forall j | i < j < |log| :: !Touches(log[j], edge, member, coverer);
      assert all[i] == Mark(edge, coverer, member, d);
    }
    if Asserted(all, edge, member, coverer, d) {
      var i :| 0 <= i < |all| && all[i] == Mark(edge, coverer, member, d)
        && forall j | i < j < |all| :: !Touches(all[j], edge, member, coverer);
      assert i < |log| ==> !Touches(all[|log|], edge, member, coverer);
      assert i < |log| ==> log[i] == all[i];
      assert forall j | i < j < |log| :: log[j] == all[j];
    }
    if Touches(e, edge, member, coverer) && e.Mark? && e.deadline == d {
      assert all[|log|] == Mark(edge, coverer, member, d);
    }
  }

  lemma ViewedSnoc(log: seq<Event>, e: Event, edge: EdgeId, family: Family, coverer: string, d: int)
    ensures Viewed(log + [e], edge, family, coverer, d) <==>
      if Refreshes(e, edge, family, coverer) then e.deadline == d else Viewed(log, edge, family, coverer, d)
  {
    var all := log + [e];
    if Viewed(log, edge, family, coverer, d) && !Refreshes(e, edge, family, coverer) {
      var i :| 0 <= i < |log| && Refreshes(log[i], edge, family, coverer) && log[i].deadline == d
        && forall j | i < j < |log| :: !Refreshes(log[j], edge, family, coverer);
      assert Refreshes(all[i], edge, family, coverer);
    }
    if Viewed(all, edge, family, coverer, d) {
      var i :| 0 <= i < |all| && Refreshes(all[i], edge, family, coverer) && all[i].deadline == d
        && forall j | i < j < |all| :: !Refreshes(all[j], edge, family, coverer);
      assert i < |log| ==> !Refreshes(all[|log|], edge, family, coverer);
      assert i < |log| ==> log[i] == all[i];
      assert forall j | i < j < |log| :: log[j] == all[j];
    }
    if Refreshes(e, edge, family, coverer) && e.deadline == d {
      assert Refreshes(all[|log|], edge, family, coverer);
    }
  }

  // ---- the maps ----

  function Lease(present: map<EdgeId, map<Prefix, Leases>>, edge: EdgeId, member: Prefix, coverer: string): Option<int> {
    if edge in present && member in present[edge] && coverer in present[edge][member]
    then Some(present[edge][member][coverer]) else None
  }

  function ViewLease(views: map<ViewKey, Leases>, edge: EdgeId, family: Family, coverer: string): Option<int> {
    if ViewKey(edge, family) in views && coverer in views[ViewKey(edge, family)]
    then Some(views[ViewKey(edge, family)][coverer]) else None
  }

  /** Leases that still run after `clock` are exactly the latest marks that do. */
  ghost predicate PresentOk(present: map<EdgeId, map<Prefix, Leases>>, log: seq<Event>, clock: int) {
    forall e, m, c, d | d > clock :: Lease(present, e, m, c) == Some(d) <==> Asserted(log, e, m, c, d)
  }

  ghost predicate ViewsOk(views: map<ViewKey, Leases>, log: seq<Event>, clock: int) {
    forall e, f, c, d | d > clock :: ViewLease(views, e, f, c) == Some(d) <==> Viewed(log, e, f, c, d)
  }

  predicate Alive(covs: Leases, t: int) {
    exists c :: c in covs && covs[c] > t
  }

  function Covs(present: map<EdgeId, map<Prefix, Leases>>, edge: EdgeId, member: Prefix): Leases {
    if edge in present && member in present[edge] then present[edge][member] else map[]
  }

  function ViewCovs(views: map<ViewKey, Leases>, edge: EdgeId, family: Family): Leases {
    if ViewKey(edge, family) in views then views[ViewKey(edge, family)] else map[]
  }

  lemma AliveMeans(present: map<EdgeId, map<Prefix, Leases>>, log: seq<Event>, clock: int, edge: EdgeId, member: Prefix, t: int)
    requires PresentOk(present, log, clock) && t >= clock
    ensures Alive(Covs(present, edge, member), t) <==> LiveIn(log, edge, member, t)
  {
    var covs := Covs(present, edge, member);
    if Alive(covs, t) {
      var c :| c in covs && covs[c] > t;
      assert Lease(present, edge, member, c) == Some(covs[c]);
    }
    if LiveIn(log, edge, member, t) {
      var c, d :| d > t && Asserted(log, edge, member, c, d);
      assert Lease(present, edge, member, c) == Some(d);
    }
  }

  lemma ValidMeans(views: map<ViewKey, Leases>, log: seq<Event>, clock: int, edge: EdgeId, family: Family, t: int)
    requires ViewsOk(views, log, clock) && t >= clock
    ensures Alive(ViewCovs(views, edge, family), t) <==> ValidIn(log, edge, family, t)
  {
    var covs := ViewCovs(views, edge, family);
    if Alive(covs, t) {
      var c :| c in covs && covs[c] > t;
      assert ViewLease(views, edge, family, c) == Some(covs[c]);
    }
    if ValidIn(log, edge, family, t) {
      var c, d :| d > t && Viewed(log, edge, family, c, d);
      assert ViewLease(views, edge, family, c) == Some(d);
    }
  }

  method AnyLive(covs: Leases, now: int) returns (yes: bool)
    ensures yes <==> Alive(covs, now)
  {
    var left := covs.Keys;
    while left != {}
      invariant left <= covs.Keys
      invariant forall c | c in covs && c !in left :: covs[c] <= now
      decreases |left|
    {
      var c :| c in left;
      if covs[c] > now {
        return true;
      }
      left := left - {c};
    }
    return false;
  }

  // ---- reaping ----

  /** The leases still running at `now`. */
  function Reaped(covs: Leases, now: int): Leases {
    map c | c in covs && covs[c] > now :: covs[c]
  }

  lemma ReapedAlive(covs: Leases, now: int, t: int)
    requires t >= now
    ensures Alive(Reaped(covs, now), t) <==> Alive(covs, t)
    ensures Reaped(covs, now) == map[] <==> !Alive(covs, now)
  {
    if Alive(covs, t) {
      var c :| c in covs && covs[c] > t;
      assert c in Reaped(covs, now);
    }
    if Alive(covs, now) {
      var c :| c in covs && covs[c] > now;
      assert c in Reaped(covs, now);
    }
    if !Alive(covs, now) {
      assert Reaped(covs, now).Keys == {};
    }
  }

  method Reap(was: Leases, now: int) returns (covs: Leases)
    ensures covs == Reaped(was, now)
  {
    covs := was;
    var left := was.Keys;
    while left != {}
      invariant left <= was.Keys && covs.Keys <= was.Keys
      invariant forall c | c in was :: c in covs <==> c in left || was[c] > now
      invariant forall c | c in covs :: covs[c] == was[c]
      decreases |left|
    {
      var c :| c in left;
      if was[c] <= now {
        covs := covs - {c};
      }
      left := left - {c};
    }
  }

  function Of<K(==)>(m: map<K, Leases>, k: K): Leases {
    if k in m then m[k] else map[]
  }

  /** Every lease set of `was` outside `left` has been reaped. */
  ghost predicate PartReaped<K(!new)>(was: map<K, Leases>, m: map<K, Leases>, left: set<K>, now: int) {
    forall k :: Of(m, k) == if k in left then Of(was, k) else Reaped(Of(was, k), now)
  }

  /** Exactly the members outside `left` that had a lease and now have none running. */
  ghost predicate PartLost(was: map<Prefix, Leases>, left: set<Prefix>, now: int, trusted: Family -> bool, lost: seq<Prefix>) {
    && Distinct(lost)
    && forall m :: m in lost <==> m in was && m !in left && Lapsed(was[m], now) && trusted(FamilyOf(m))
  }

  predicate Lapsed(covs: Leases, now: int) { |covs| > 0 && !Alive(covs, now) }

  lemma LostStep(was: map<Prefix, Leases>, left: set<Prefix>, now: int, trusted: Family -> bool, lost: seq<Prefix>, m: Prefix)
    requires PartLost(was, left, now, trusted, lost) && m in left && left <= was.Keys
    ensures PartLost(was, left - {m}, now, trusted,
      if Lapsed(was[m], now) && trusted(FamilyOf(m)) then lost + [m] else lost)
  {
    if Lapsed(was[m], now) && trusted(FamilyOf(m)) {
      DistinctSnoc(lost, m);
    }
  }

  lemma ReapStep<K(!new)>(was: map<K, Leases>, m: map<K, Leases>, left: set<K>, now: int, k: K)
    requires PartReaped(was, m, left, now) && k in left
    ensures PartReaped(was, if Reaped(Of(was, k), now) == map[] then m - {k} else m[k := Reaped(Of(was, k), now)], left - {k}, now)
  {
  }

  function Trust(views: map<ViewKey, Leases>, edge: EdgeId, now: int): Family -> bool {
    f => Alive(ViewCovs(views, edge, f), now)
  }

  /** One edge of the sweep. */
  method SweepMembers(edge: EdgeId, was: map<Prefix, Leases>, views: map<ViewKey, Leases>, now: int)
    returns (byMember: map<Prefix, Leases>, lost: seq<Prefix>)
    ensures PartReaped(was, byMember, {}, now)
    ensures PartLost(was, {}, now, Trust(views, edge, now), lost)
  {
    byMember, lost := was, [];
    var left := was.Keys;
    ghost var trusted := Trust(views, edge, now);
    while left != {}
      invariant left <= was.Keys
      invariant PartReaped(was, byMember, left, now)
      invariant PartLost(was, left, now, trusted, lost)
      decreases |left|
    {
      var m :| m in left;
      ReapStep(was, byMember, left, now, m);
      LostStep(was, left, now, trusted, lost, m);
      ReapedAlive(was[m], now, now);
      var had := |was[m]| > 0;
      var covs := Reap(was[m], now);
      if |covs| == 0 {
        byMember := byMember - {m};
      } else {
        byMember := byMember[m := covs];
      }
      var still := AnyLive(Of(byMember, m), now);
      var valid := AnyLive(ViewCovs(views, edge, FamilyOf(m)), now);
      if had && !still && valid {
        lost := lost + [m];
      }
      left := left - {m};
    }
  }

  // ---- what each operation does to the meaning of the maps ----

  lemma MarkOk(present: map<EdgeId, map<Prefix, Leases>>, after: map<EdgeId, map<Prefix, Leases>>, log: seq<Event>, clock: int, e: Event, now: int)
    requires PresentOk(present, log, clock) && e.Mark? && now >= clock
    requires forall x, y, z ::
      Lease(after, x, y, z) == if Touches(e, x, y, z) then Some(e.deadline) else Lease(present, x, y, z)
    ensures PresentOk(after, log + [e], now)
  {
    forall x, y, z, d | d > now
      ensures Lease(after, x, y, z) == Some(d) <==> Asserted(log + [e], x, y, z, d)
    {
      AssertedSnoc(log, e, x, y, z, d);
    }
  }

  lemma MarkViewOk(views: map<ViewKey, Leases>, after: map<ViewKey, Leases>, log: seq<Event>, clock: int, e: Event, now: int)
    requires ViewsOk(views, log, clock) && now >= clock
    requires forall x, y, z ::
      ViewLease(after, x, y, z) == if Refreshes(e, x, y, z) then Some(e.deadline) else ViewLease(views, x, y, z)
    ensures ViewsOk(after, log + [e], now)
  {
    forall x, y, z, d | d > now
      ensures ViewLease(after, x, y, z) == Some(d) <==> Viewed(log + [e], x, y, z, d)
    {
      ViewedSnoc(log, e, x, y, z, d);
    }
  }

  /** A drop may leave its lease in place if that lease has run out. */
  lemma DropOk(present: map<EdgeId, map<Prefix, Leases>>, after: map<EdgeId, map<Prefix, Leases>>, log: seq<Event>, clock: int, e: Event, now: int)
    requires PresentOk(present, log, clock) && e.Drop? && now >= clock
    requires forall x, y, z | !Touches(e, x, y, z) :: Lease(after, x, y, z) == Lease(present, x, y, z)
    requires Lease(after, e.edge, e.member, e.coverer).None?
      || Lease(after, e.edge, e.member, e.coverer).value <= now
    ensures PresentOk(after, log + [e], now)
  {
    forall x, y, z, d | d > now
      ensures Lease(after, x, y, z) == Some(d) <==> Asserted(log + [e], x, y, z, d)
    {
      AssertedSnoc(log, e, x, y, z, d);
    }
  }

  lemma SweepOk(present: map<EdgeId, map<Prefix, Leases>>, after: map<EdgeId, map<Prefix, Leases>>, log: seq<Event>, clock: int, now: int)
    requires PresentOk(present, log, clock) && now >= clock
    requires forall x, y :: Covs(after, x, y) == Reaped(Covs(present, x, y), now)
    ensures PresentOk(after, log + [Sweep], now)
  {
    forall x, y, z, d | d > now
      ensures Lease(after, x, y, z) == Some(d) <==> Asserted(log + [Sweep], x, y, z, d)
    {
      AssertedSnoc(log, Sweep, x, y, z, d);
      assert Covs(after, x, y) == Reaped(Covs(present, x, y), now);
    }
  }

  lemma SweepViewsOk(views: map<ViewKey, Leases>, after: map<ViewKey, Leases>, log: seq<Event>, clock: int, now: int)
    requires ViewsOk(views, log, clock) && now >= clock
    requires PartReaped(views, after, {}, now)
    ensures ViewsOk(after, log + [Sweep], now)
  {
    forall x, y, z, d | d > now
      ensures ViewLease(after, x, y, z) == Some(d) <==> Viewed(log + [Sweep], x, y, z, d)
    {
      ViewedSnoc(log, Sweep, x, y, z, d);
      var was, left := Of(views, ViewKey(x, y)), Of(after, ViewKey(x, y));
      assert left == Reaped(was, now);
      assert z in left <==> z in was && was[z] > now;
      assert ViewLease(after, x, y, z) == if z in left then Some(left[z]) else None;
      assert ViewLease(views, x, y, z) == if z in was then Some(was[z]) else None;
    }
  }

  datatype Loss = Loss(edge: EdgeId, member: Prefix)

  /** The swept part of the presence map. */
  ghost predicate PartSwept(was: map<EdgeId, map<Prefix, Leases>>, m: map<EdgeId, map<Prefix, Leases>>, left: set<EdgeId>, now: int) {
    && m.Keys <= was.Keys
    && (forall e | e in left :: e in m && e in was && m[e] == was[e])
    && forall e, p | e !in left :: Covs(m, e, p) == Reaped(Covs(was, e, p), now)
  }

  ghost predicate PartLosses(was: map<EdgeId, map<Prefix, Leases>>, views: map<ViewKey, Leases>, left: set<EdgeId>, now: int, losses: seq<Loss>) {
    && Distinct(losses)
    && forall e, p :: Loss(e, p) in losses <==>
      e in was && e !in left && Lapsed(Covs(was, e, p), now) && Alive(ViewCovs(views, e, FamilyOf(p)), now)
  }

  function On(edge: EdgeId, lost: seq<Prefix>): seq<Loss> {
    seq(|lost|, i requires 0 <= i < |lost| => Loss(edge, lost[i]))
  }

  lemma LossesStep(
    was: map<EdgeId, map<Prefix, Leases>>, views: map<ViewKey, Leases>, left: set<EdgeId>, now: int,
    losses: seq<Loss>, edge: EdgeId, lost: seq<Prefix>)
    requires PartLosses(was, views, left, now, losses) && edge in left && left <= was.Keys
    requires PartLost(was[edge], {}, now, Trust(views, edge, now), lost)
    ensures PartLosses(was, views, left - {edge}, now, losses + On(edge, lost))
  {
    var more := On(edge, lost);
    forall e, p
      ensures Loss(e, p) in more <==> e == edge && p in lost
    {
      if p in lost {
        var i :| 0 <= i < |lost| && lost[i] == p;
        assert more[i] == Loss(edge, p);
      }
    }
    forall l | l in Elems(losses)
      ensures l !in Elems(more)
    {
      assert Loss(l.edge, l.member) in losses;
    }
    DistinctConcat(losses, more);
  }

  lemma SweptStep(
    was: map<EdgeId, map<Prefix, Leases>>, m: map<EdgeId, map<Prefix, Leases>>, left: set<EdgeId>, now: int,
    edge: EdgeId, byMember: map<Prefix, Leases>)
    requires PartSwept(was, m, left, now) && edge in left && PartReaped(was[edge], byMember, {}, now)
    ensures PartSwept(was, if byMember == map[] then m - {edge} else m[edge := byMember], left - {edge}, now)
  {
    var after := if byMember == map[] then m - {edge} else m[edge := byMember];
    forall e, p | e !in left - {edge}
      ensures Covs(after, e, p) == Reaped(Covs(was, e, p), now)
    {
      if e == edge {
        assert Of(byMember, p) == Reaped(Of(was[edge], p), now);
      } else {
        assert Covs(m, e, p) == Reaped(Covs(was, e, p), now);
      }
    }
  }

  /** `after` lacks the coverer's lease on the member and nothing else. */
  ghost predicate Dropped(was: map<Prefix, Leases>, after: map<Prefix, Leases>, coverer: string, member: Prefix) {
    forall y :: Of(after, y) == if y == member then Of(was, y) - {coverer} else Of(was, y)
  }

  method DropFrom(was: map<Prefix, Leases>, coverer: string, member: Prefix) returns (byMember: map<Prefix, Leases>)
    requires member in was
    ensures Dropped(was, byMember, coverer, member)
  {
    var covs := was[member] - {coverer};
    if |covs| == 0 {
      byMember := was - {member};
    } else {
      byMember := was[member := covs];
    }
  }

  lemma LeaseAfter(
    was: map<EdgeId, map<Prefix, Leases>>, edge: EdgeId, byMember: map<Prefix, Leases>, coverer: string, member: Prefix,
    x: EdgeId, y: Prefix, z: string)
    requires edge in was && Dropped(was[edge], byMember, coverer, member)
    ensures Lease(was[edge := byMember], x, y, z) ==
      if x == edge && y == member && z == coverer then None else Lease(was, x, y, z)
  {
    if x == edge {
      var covs, wasCovs := Of(byMember, y), Of(was[edge], y);
      assert covs == if y == member then wasCovs - {coverer} else wasCovs;
      assert Lease(was[edge := byMember], x, y, z) == if z in covs then Some(covs[z]) else None;
      assert Lease(was, x, y, z) == if z in wasCovs then Some(wasCovs[z]) else None;
    }
  }

  class MemberPresence {
    const ttl: int
    var present: map<EdgeId, map<Prefix, Leases>>
    var views: map<ViewKey, Leases>
    /** Everything that happened, and the latest clock reading under the lock. */
    ghost var log: seq<Event>
    ghost var clock: int

    ghost predicate Valid()
      reads this
    {
      PresentOk(present, log, clock) && ViewsOk(views, log, clock)
    }

    constructor (ttl: int, now: int)
      ensures Valid() && log == [] && clock == now
      ensures this.ttl == if ttl <= 0 then DefaultTtl else ttl
    {
      this.ttl := if ttl <= 0 then DefaultTtl else ttl;
      present, views, log, clock := map[], map[], [], now;
    }

    /** The deadline is computed from a reading taken before the lock. */
    method MarkPresent(edge: EdgeId, coverer: string, member: Prefix, readAt: int, now: int)
      returns (wasAbsent: bool)
      requires Valid() && now >= clock
      modifies this
      ensures Valid() && clock == now && log == old(log) + [Mark(edge, coverer, member, readAt + ttl)]
      ensures wasAbsent <==> !LiveIn(old(log), edge, member, now)
    {
      ghost var event := Mark(edge, coverer, member, readAt + ttl);
      var deadline := readAt + ttl;
      var byMember: map<Prefix, Leases> := if edge in present then present[edge] else map[];
      var covs := if member in byMember then byMember[member] else map[];
      AliveMeans(present, log, clock, edge, member, now);
      var any := AnyLive(covs, now);
      wasAbsent := !any;
      ghost var before := present;
      present := present[edge := byMember[member := covs[coverer := deadline]]];
      MarkOk(before, present, log, clock, event, now);
      RefreshView(edge, FamilyOf(member), coverer, deadline, event, now);
      log, clock := log + [event], now;
    }

    method RefreshView(edge: EdgeId, family: Family, coverer: string, deadline: int, ghost event: Event, ghost now: int)
      requires ViewsOk(views, log, clock) && now >= clock
      requires event.Mark? && event.edge == edge && FamilyOf(event.member) == family
        && event.coverer == coverer && event.deadline == deadline
      modifies this`views
      ensures ViewsOk(views, log + [event], now)
    {
      var k := ViewKey(edge, family);
      var cv := if k in views then views[k] else map[];
      ghost var before := views;
      views := views[k := cv[coverer := deadline]];
      MarkViewOk(before, views, log, clock, event, now);
    }

    method DeleteLease(edge: EdgeId, coverer: string, member: Prefix)
      requires edge in present && member in present[edge]
      modifies this`present
      ensures forall x, y, z | !(x == edge && y == member && z == coverer) ::
        Lease(present, x, y, z) == Lease(old(present), x, y, z)
      ensures Lease(present, edge, member, coverer).None?
    {
      var byMember := DropFrom(present[edge], coverer, member);
      ghost var was := present;
      present := present[edge := byMember];
      forall x, y, z
        ensures Lease(present, x, y, z) ==
          if x == edge && y == member && z == coverer then None else Lease(was, x, y, z)
      {
        LeaseAfter(was, edge, byMember, coverer, member, x, y, z);
      }
    }

    method MarkAbsent(edge: EdgeId, coverer: string, member: Prefix, now: int) returns (nowAbsent: bool)
      requires Valid() && now >= clock
      modifies this
      ensures Valid() && clock == now && log == old(log) + [Drop(edge, coverer, member)]
      ensures nowAbsent <==>
        && LiveIn(old(log), edge, member, now) && !LiveIn(log, edge, member, now)
        && ValidIn(log, edge, FamilyOf(member), now)
    {
      ghost var event := Drop(edge, coverer, member);
      ghost var before, was := present, clock;
      AliveMeans(present, log, clock, edge, member, now);
      MarkViewOk(views, views, log, clock, event, now);
      var live := AnyLive(Covs(present, edge, member), now);
      if !live {
        DropOk(before, present, log, clock, event, now);
        log, clock := log + [event], now;
        return false;
      }
      DeleteLease(edge, coverer, member);
      DropOk(before, present, log, clock, event, now);
      log, clock := log + [event], now;
      AliveMeans(present, log, clock, edge, member, now);
      var still := AnyLive(Covs(present, edge, member), now);
      if still {
        return false;
      }
      ValidMeans(views, log, clock, edge, FamilyOf(member), now);
      nowAbsent := AnyLive(ViewCovs(views, edge, FamilyOf(member)), now);
    }

    /** Withhold the anchor: a host nobody asserts, under a view that can be trusted. */
    method ShouldWithdraw(edge: EdgeId, member: Prefix, now: int) returns (yes: bool)
      requires Valid() && now >= clock
      ensures yes <==>
        && (member.V4Host? || member.V6Host?)
        && ValidIn(log, edge, FamilyOf(member), now) && !LiveIn(log, edge, member, now)
    {
      if !IsHost(member) {
        return false;
      }
      ValidMeans(views, log, clock, edge, FamilyOf(member), now);
      AliveMeans(present, log, clock, edge, member, now);
      var valid := AnyLive(ViewCovs(views, edge, FamilyOf(member)), now);
      if !valid {
        return false;
      }
      var live := AnyLive(Covs(present, edge, member), now);
      yes := !live;
    }

    /** With a trusted view, exactly the present members of the family, each once. */
    method HostsByFamily(edge: EdgeId, family: Family, now: int) returns (hosts: seq<Prefix>, ok: bool)
      requires Valid() && now >= clock
      ensures ok <==> ValidIn(log, edge, family, now)
      ensures !ok ==> hosts == []
      ensures ok ==> Distinct(hosts)
      ensures ok ==> forall m :: m in hosts <==> FamilyOf(m) == family && LiveIn(log, edge, m, now)
    {
      hosts := [];
      ValidMeans(views, log, clock, edge, family, now);
      ok := AnyLive(ViewCovs(views, edge, family), now);
      if !ok {
        return;
      }
      var byMember: map<Prefix, Leases> := if edge in present then present[edge] else map[];
      var left := byMember.Keys;
      while left != {}
        invariant left <= byMember.Keys && Distinct(hosts)
        invariant forall m :: m in hosts <==>
          m in byMember && m !in left && FamilyOf(m) == family && Alive(byMember[m], now)
        decreases |left|
      {
        var m :| m in left;
        var live := AnyLive(byMember[m], now);
        if FamilyOf(m) == family && live {
          DistinctSnoc(hosts, m);
          hosts := hosts + [m];
        }
        left := left - {m};
      }
      forall m
        ensures m in hosts <==> FamilyOf(m) == family && LiveIn(log, edge, m, now)
      {
        AliveMeans(present, log, clock, edge, m, now);
      }
    }

    /** Reaps every lease that has run out; reports each member that had a lease, has none
        running, and whose family's view is trusted. */
    method SweepExpired(now: int) returns (losses: seq<Loss>)
      requires Valid() && now >= clock
      modifies this
      ensures Valid() && clock == now && log == old(log) + [Sweep]
      ensures forall e, m :: Covs(present, e, m) == Reaped(Covs(old(present), e, m), now)
      ensures Distinct(losses)
      ensures forall e, m :: Loss(e, m) in losses <==>
        && Covs(old(present), e, m) != map[] && !LiveIn(old(log), e, m, now)
        && ValidIn(old(log), e, FamilyOf(m), now)
    {
      ghost var was, wasViews := present, views;
      losses := [];
      var left := present.Keys;
      while left != {}
        invariant left <= was.Keys && views == wasViews && log == old(log) && clock == old(clock)
        invariant PartSwept(was, present, left, now)
        invariant PartLosses(was, views, left, now, losses)
        decreases |left|
      {
        var edge :| edge in left;
        var byMember, lost := SweepMembers(edge, present[edge], views, now);
        SweptStep(was, present, left, now, edge, byMember);
        LossesStep(was, views, left, now, losses, edge, lost);
        if |byMember| == 0 {
          present := present - {edge};
        } else {
          present := present[edge := byMember];
        }
        losses := losses + On(edge, lost);
        left := left - {edge};
      }
      SweepViews(now);
      SweepOk(was, present, log, clock, now);
      SweepViewsOk(wasViews, views, log, clock, now);
      forall e, m
        ensures Loss(e, m) in losses <==>
          && Covs(was, e, m) != map[] && !LiveIn(log, e, m, now) && ValidIn(log, e, FamilyOf(m), now)
      {
        AliveMeans(was, log, clock, e, m, now);
        ValidMeans(wasViews, log, clock, e, FamilyOf(m), now);
      }
      log, clock := log + [Sweep], now;
    }

    method SweepViews(now: int)
      modifies this`views
      ensures PartReaped(old(views), views, {}, now)
    {
      ghost var was := views;
      var left := views.Keys;
      while left != {}
        invariant left <= was.Keys && PartReaped(was, views, left, now)
        decreases |left|
      {
        var k :| k in left;
        ReapStep(was, views, left, now, k);
        assert Of(views, k) == Of(was, k);
        var cv := Reap(Of(views, k), now);
        if |cv| == 0 {
          views := views - {k};
        } else {
          views := views[k := cv];
        }
        left := left - {k};
      }
    }
  }

  /** One mark: the member is live and its own family, and only that, can be trusted until the
      deadline. */
  lemma OneMark(edge: EdgeId, coverer: string, member: Prefix, d: int, t: int)
    ensures var log := [Mark(edge, coverer, member, d)];
      && (LiveIn(log, edge, member, t) <==> d > t)
      && (ValidIn(log, edge, V4, t) <==> d > t && (member.V4Host? || member.V4Net?))
      && (ValidIn(log, edge, V6, t) <==> d > t && member.V6Host?)
  {
    var mark := Mark(edge, coverer, member, d);
    assert [] + [mark] == [mark];
    forall c, d'
      ensures Asserted([mark], edge, member, c, d') <==> c == coverer && d' == d
    {
      AssertedSnoc([], mark, edge, member, c, d');
    }
    forall f, c, d'
      ensures Viewed([mark], edge, f, c, d') <==> f == FamilyOf(member) && c == coverer && d' == d
    {
      ViewedSnoc([], mark, edge, f, c, d');
    }
    assert Asserted([mark], edge, member, coverer, d);
    assert Viewed([mark], edge, FamilyOf(member), coverer, d);
  }

  // ---- whole runs ----

  /** Each coverer's deadlines on an edge and family grow in the order they are applied. */
  ghost predicate Ordered(log: seq<Event>) {
    forall i, j | 0 <= i < j < |log| && log[i].Mark? && log[j].Mark?
        && log[i].edge == log[j].edge && log[i].coverer == log[j].coverer
        && FamilyOf(log[i].member) == FamilyOf(log[j].member) ::
      log[i].deadline <= log[j].deadline
  }

  lemma {:induction false} ViewOutlivesLease(log: seq<Event>, edge: EdgeId, member: Prefix, coverer: string, d: int)
    requires Ordered(log) && Asserted(log, edge, member, coverer, d)
    ensures exists d' :: d' >= d && Viewed(log, edge, FamilyOf(member), coverer, d')
    decreases |log|
  {
    var front, e := log[..|log| - 1], log[|log| - 1];
    assert log == front + [e];
    AssertedSnoc(front, e, edge, member, coverer, d);
    if Touches(e, edge, member, coverer) {
      ViewedSnoc(front, e, edge, FamilyOf(member), coverer, d);
    } else {
      ViewOutlivesLease(front, edge, member, coverer, d);
      var d' :| d' >= d && Viewed(front, edge, FamilyOf(member), coverer, d');
      ViewedSnoc(front, e, edge, FamilyOf(member), coverer, d');
      if Refreshes(e, edge, FamilyOf(member), coverer) {
        ViewedSnoc(front, e, edge, FamilyOf(member), coverer, e.deadline);
        var i :| 0 <= i < |log| && log[i] == Mark(edge, coverer, member, d);
        assert d <= e.deadline;
      }
    }
  }

  /** No lease of a coverer outlives its view of that family. */
  ghost predicate Covers(log: seq<Event>) {
    forall e, m, c, d | Asserted(log, e, m, c, d) :: Covered(log, e, FamilyOf(m), c, d)
  }

  ghost predicate Covered(log: seq<Event>, edge: EdgeId, family: Family, coverer: string, d: int) {
    exists d' :: d' >= d && Viewed(log, edge, family, coverer, d')
  }

  lemma OrderedCovers(log: seq<Event>)
    requires Ordered(log)
    ensures Covers(log)
  {
    forall e, m, c, d | Asserted(log, e, m, c, d)
      ensures Covered(log, e, FamilyOf(m), c, d)
    {
      ViewOutlivesLease(log, e, m, c, d);
    }
  }

  /** While views cover leases, as they do if deadlines are applied in order, dropping a live
      member finds a trusted view, so losing the last live assertion is always reported. */
  lemma ViewCheckPasses(log: seq<Event>, edge: EdgeId, coverer: string, member: Prefix, t: int)
    requires Covers(log) && LiveIn(log, edge, member, t)
    ensures ValidIn(log + [Drop(edge, coverer, member)], edge, FamilyOf(member), t)
  {
    var c, d :| d > t && Asserted(log, edge, member, c, d);
    assert Covered(log, edge, FamilyOf(member), c, d);
    var d' :| d' >= d && Viewed(log, edge, FamilyOf(member), c, d');
    ViewedSnoc(log, Drop(edge, coverer, member), edge, FamilyOf(member), c, d');
  }

  lemma CoveredSnoc(log: seq<Event>, x: Event, edge: EdgeId, family: Family, coverer: string, d: int)
    ensures Covered(log + [x], edge, family, coverer, d) <==>
      if Refreshes(x, edge, family, coverer) then d <= x.deadline else Covered(log, edge, family, coverer, d)
  {
    forall d'
      ensures Viewed(log + [x], edge, family, coverer, d') <==>
        if Refreshes(x, edge, family, coverer) then x.deadline == d' else Viewed(log, edge, family, coverer, d')
    {
      ViewedSnoc(log, x, edge, family, coverer, d');
    }
    if Refreshes(x, edge, family, coverer) && d <= x.deadline {
      assert Viewed(log + [x], edge, family, coverer, x.deadline);
    }
    if !Refreshes(x, edge, family, coverer) && Covered(log, edge, family, coverer, d) {
      var d' :| d' >= d && Viewed(log, edge, family, coverer, d');
      assert Viewed(log + [x], edge, family, coverer, d');
    }
  }

  /** No other member of the same coverer, edge and family is leased past this mark. */
  ghost predicate NotOvertaken(log: seq<Event>, x: Event)
    requires x.Mark?
  {
    forall m, d | m != x.member && FamilyOf(m) == FamilyOf(x.member) && Asserted(log, x.edge, m, x.coverer, d) ::
      d <= x.deadline
  }

  /** The deadline of a mark is read before the lock, so racing marks can be applied out of
      order. The views keep covering the leases exactly when this mark was not overtaken. */
  lemma RaceExact(log: seq<Event>, x: Event)
    requires Covers(log) && x.Mark?
    ensures Covers(log + [x]) <==> NotOvertaken(log, x)
  {
    if NotOvertaken(log, x) {
      forall e, m, c, d | Asserted(log + [x], e, m, c, d)
        ensures Covered(log + [x], e, FamilyOf(m), c, d)
      {
        AssertedSnoc(log, x, e, m, c, d);
        CoveredSnoc(log, x, e, FamilyOf(m), c, d);
      }
    }
    if Covers(log + [x]) {
      forall m, d | m != x.member && FamilyOf(m) == FamilyOf(x.member) && Asserted(log, x.edge, m, x.coverer, d)
        ensures d <= x.deadline
      {
        AssertedSnoc(log, x, x.edge, m, x.coverer, d);
        CoveredSnoc(log, x, x.edge, FamilyOf(m), x.coverer, d);
      }
    }
  }

  /** Such a race makes the final view check fail: a live member is dropped, nobody asserts
      it any more, and the loss goes unreported. */
  lemma RaceHidesLoss()
    ensures var a, b := V4Host(10, 0, 0, 1), V4Host(10, 0, 0, 2);
      var log := [Mark("e", "c", b, 20), Mark("e", "c", a, 10)];
      && LiveIn(log, "e", b, 15)
      && !LiveIn(log + [Drop("e", "c", b)], "e", b, 15)
      && !ValidIn(log + [Drop("e", "c", b)], "e", V4, 15)
  {
    var a, b := V4Host(10, 0, 0, 1), V4Host(10, 0, 0, 2);
    var log := [Mark("e", "c", b, 20), Mark("e", "c", a, 10)];
    var after := log + [Drop("e", "c", b)];
    assert log[0] == Mark("e", "c", b, 20) && !Touches(log[1], "e", b, "c");
    assert Asserted(log, "e", b, "c", 20);
    forall c, d | d > 15
      ensures !Asserted(after, "e", b, c, d) && !Viewed(after, "e", V4, c, d)
    {
      assert Touches(after[2], "e", b, "c");
      assert Refreshes(after[1], "e", V4, "c");
    }
  }

  function NoSweeps(log: seq<Event>): seq<Event> {
    if log == [] then []
    else NoSweeps(log[..|log| - 1]) + if log[|log| - 1].Sweep? then [] else [log[|log| - 1]]
  }

  lemma {:induction false} AssertedNoSweeps(log: seq<Event>, edge: EdgeId, member: Prefix, coverer: string, d: int)
    ensures Asserted(log, edge, member, coverer, d) <==> Asserted(NoSweeps(log), edge, member, coverer, d)
    decreases |log|
  {
    if log != [] {
      var front, e := log[..|log| - 1], log[|log| - 1];
      assert log == front + [e];
      AssertedNoSweeps(front, edge, member, coverer, d);
      AssertedSnoc(front, e, edge, member, coverer, d);
      AssertedSnoc(NoSweeps(front), e, edge, member, coverer, d);
      assert e.Sweep? ==> NoSweeps(log) == NoSweeps(front);
    }
  }

  lemma {:induction false} ViewedNoSweeps(log: seq<Event>, edge: EdgeId, family: Family, coverer: string, d: int)
    ensures Viewed(log, edge, family, coverer, d) <==> Viewed(NoSweeps(log), edge, family, coverer, d)
    decreases |log|
  {
    if log != [] {
      var front, e := log[..|log| - 1], log[|log| - 1];
      assert log == front + [e];
      ViewedNoSweeps(front, edge, family, coverer, d);
      ViewedSnoc(front, e, edge, family, coverer, d);
      ViewedSnoc(NoSweeps(front), e, edge, family, coverer, d);
      assert e.Sweep? ==> NoSweeps(log) == NoSweeps(front);
    }
  }

  /** Two histories that differ only in when and how often they were swept agree on what is
      live and what is trusted, now and after any further marks and drops: every answer of
      the other operations is the same. */
  lemma SweepsInvisible(log: seq<Event>, other: seq<Event>, edge: EdgeId, member: Prefix, family: Family, t: int)
    requires NoSweeps(log) == NoSweeps(other)
    ensures LiveIn(log, edge, member, t) <==> LiveIn(other, edge, member, t)
    ensures ValidIn(log, edge, family, t) <==> ValidIn(other, edge, family, t)
  {
    forall c, d
      ensures Asserted(log, edge, member, c, d) <==> Asserted(other, edge, member, c, d)
      ensures Viewed(log, edge, family, c, d) <==> Viewed(other, edge, family, c, d)
    {
      AssertedNoSweeps(log, edge, member, c, d);
      AssertedNoSweeps(other, edge, member, c, d);
      ViewedNoSweeps(log, edge, family, c, d);
      ViewedNoSweeps(other, edge, family, c, d);
    }
  }
}
