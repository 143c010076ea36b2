/** The management requests that change members: validate, resolve overlaps, write, evict.
    Requests are served one at a time and their evictions succeed. */
module Admin {
  import opened Model
  import opened YbStore
  import opened StoreRefinement
  import MemStore
  import opened Cidr
  import opened Conflicts

  datatype Action = RateLimit | Blackhole(expiryUnixMs: int) | Unsupported

  /** `placement` is what the scheduler answers for a create: primary and backup. */
  datatype Request = Request(
    pool: Pool, action: Action, tokens: int, replace: bool, placement: Option<(EdgeId, EdgeId)>)

  datatype Reply =
    | Accepted(replaced: seq<Conflict>)
    | Invalid
    | Overlapping(conflicts: seq<Conflict>)
    | NoPlacement
    | Refused(err: Error)

  // ---- validation ----

  predicate ActionOk(a: Action) { a.RateLimit? || (a.Blackhole? && a.expiryUnixMs > 0) }

  ghost predicate Apart(ps: seq<Prefix>) {
    forall i, j | 0 <= j < i < |ps| :: !Overlaps(ps[j], ps[i])
  }

  ghost predicate Acceptable(ps: seq<Prefix>, a: Action) {
    ps != [] && (forall p | p in ps :: Canonical(p)) && Apart(ps) && ActionOk(a)
  }

  method IngestValidate(ps: seq<Prefix>, a: Action) returns (ok: bool)
    ensures ok <==> Acceptable(ps, a)
    ensures ok <==>
      && |ps| > 0 && (forall p | p in ps :: Canonical(p))
      && (forall i, j | 0 <= j < i < |ps| :: !Overlaps(ps[j], ps[i]))
      && (a == RateLimit || (a.Blackhole? && a.expiryUnixMs > 0))
  {
    if |ps| == 0 {
      return false;
    }
    for i := 0 to |ps|
      invariant forall k | 0 <= k < i :: Canonical(ps[k])
      invariant forall k, j | 0 <= j < k < i :: !Overlaps(ps[j], ps[k])
    {
      if !Canonical(ps[i]) {
        assert ps[i] in ps;
        return false;
      }
      for j := 0 to i
        invariant forall k | 0 <= k < j :: !Overlaps(ps[k], ps[i])
      {
        if Overlaps(ps[j], ps[i]) {
          return false;
        }
      }
    }
    ok := ActionOk(a);
  }

  // ---- the stored members ----

  function OwnersIn(t: Tables): Owners {
    map p | p in t.members :: t.members[p].pool
  }

  /** No two stored members overlap, within a pool or across pools. */
  ghost predicate Disjoint(t: Tables) {
    forall p, q | p in t.members && q in t.members && p != q :: !Overlaps(p, q)
  }

  ghost predicate Stored(t: Tables) {
    && TablesOk(t) && AllCanonical(OwnersIn(t))
    && forall id | id in t.pools :: t.pools[id].body.primary == t.pools[id].home
  }

  function MemberLists(m: MemStore.State): map<PoolId, seq<Prefix>> {
    map id | id in m.pools :: m.pools[id].pool.members
  }

  lemma OwnerListed(s: Sys, p: Prefix, id: PoolId)
    requires Inv(s)
    ensures (p in s.t.members && s.t.members[p].pool == id) <==> (id in s.m.pools && p in s.m.pools[id].pool.members)
  {
    assert Owned(s.t, id) == BodySet(s.t, id);
    assert p in Owned(s.t, id) <==> p in s.t.members && s.t.members[p].pool == id;
    assert p in BodySet(s.t, id) <==> id in s.t.pools && p in s.t.pools[id].body.pool.members;
    if id in s.t.pools {
      assert RowMatches(s.t, id, s.m.pools[id], s.m.version[id]);
    }
  }

  /** Wherever a legal run takes the two stores, the owners the members table indexes are
      the owners the records list, so the indexed lookup of the one and the full scan of
      the other answer alike. */
  lemma LookupsAgree(s: Sys, prefixes: seq<Prefix>, exclude: PoolId, a: seq<Conflict>, b: seq<Conflict>)
    requires Inv(s) && AllCanonical(OwnersIn(s.t))
    requires IsScan(OwnersIn(s.t), prefixes, exclude, a) && IsScan(OwnersIn(s.t), prefixes, exclude, b)
    ensures OwnersOf(MemberLists(s.m), OwnersIn(s.t)) && a == b
  {
    forall p, id
      ensures (p in OwnersIn(s.t) && OwnersIn(s.t)[p] == id) <==> (id in MemberLists(s.m) && p in MemberLists(s.m)[id])
    {
      OwnerListed(s, p, id);
    }
    ScansAgree(OwnersIn(s.t), prefixes, exclude, a, b);
  }

  // ---- eviction ----

  /** The orchestrator's member removal: nothing unless the body lists the prefix. */
  function EvictOne(t: Tables, c: Conflict): Tables {
    if c.pool in t.pools && c.prefix in t.pools[c.pool].body.pool.members then Remove(t, c.pool, c.prefix).0 else t
  }

  function EvictAll(t: Tables, cs: seq<Conflict>): Tables {
    if cs == [] then t else EvictOne(EvictAll(t, cs[..|cs| - 1]), cs[|cs| - 1])
  }

  /** `t'` lacks exactly the member rows in `gone`; the pools are the same pools. */
  ghost predicate LosesOnly(t: Tables, t': Tables, gone: set<Prefix>) {
    t'.members == t.members - gone && t'.pools.Keys == t.pools.Keys
  }

  lemma LosesBoth(t: Tables, t1: Tables, t2: Tables, gone: set<Prefix>, p: Prefix)
    requires LosesOnly(t, t1, gone) && LosesOnly(t1, t2, {p})
    ensures LosesOnly(t, t2, gone + {p})
  {
  }

  lemma EvictOneDoes(t: Tables, c: Conflict)
    requires Stored(t) && c.prefix in t.members && t.members[c.prefix].pool == c.pool
    ensures Stored(EvictOne(t, c)) && LosesOnly(t, EvictOne(t, c), {c.prefix})
  {
    assert Owned(t, c.pool) == BodySet(t, c.pool);
    assert c.prefix in Owned(t, c.pool);
    RemoveKeeps(t, c.pool, c.prefix);
  }

  ghost predicate Held(t: Tables, cs: seq<Conflict>) {
    forall c | c in cs :: c.prefix in t.members && t.members[c.prefix].pool == c.pool
  }

  function Prefixes(cs: seq<Conflict>): set<Prefix> {
    set c | c in cs :: c.prefix
  }

  lemma EvictNext(t: Tables, t1: Tables, front: seq<Conflict>, c: Conflict)
    requires Held(t, front + [c]) && Distinct(front + [c])
    requires Stored(t1) && LosesOnly(t, t1, Prefixes(front))
    ensures Stored(EvictOne(t1, c)) && LosesOnly(t, EvictOne(t1, c), Prefixes(front + [c]))
  {
    NotEarlier(t, front, c);
    assert c in front + [c];
    EvictOneDoes(t1, c);
    LosesBoth(t, t1, EvictOne(t1, c), Prefixes(front), c.prefix);
    assert Prefixes(front + [c]) == Prefixes(front) + {c.prefix};
  }

  lemma {:induction false} EvictAllDoes(t: Tables, cs: seq<Conflict>)
    requires Stored(t) && Held(t, cs) && Distinct(cs)
    ensures Stored(EvictAll(t, cs)) && LosesOnly(t, EvictAll(t, cs), Prefixes(cs))
    decreases |cs|
  {
    if cs == [] {
      assert t.members - {} == t.members;
    } else {
      var front, c := cs[..|cs| - 1], cs[|cs| - 1];
      assert cs == front + [c];
      EvictAllDoes(t, front);
      EvictNext(t, EvictAll(t, front), front, c);
    }
  }

  /** Conflicts that are all held and distinct have distinct prefixes. */
  lemma NotEarlier(t: Tables, front: seq<Conflict>, c: Conflict)
    requires Held(t, front + [c]) && Distinct(front + [c])
    ensures c.prefix !in Prefixes(front)
  {
    var cs := front + [c];
    assert cs[|front|] == c && c in cs;
    forall d | d in front
      ensures d.prefix != c.prefix
    {
      var i :| 0 <= i < |front| && front[i] == d;
      assert cs[i] == d && d in cs;
    }
  }

  // ---- one request ----

  /** The record a create writes, once placed. */
  function NewRecord(r: Request): Record
    requires r.placement.Some?
  {
    Record(r.pool, r.placement.value.0, r.placement.value.1, r.tokens, NoEdge)
  }

  /** The record an update writes: the stored one with the new definition. */
  function ChangedRecord(t: Tables, r: Request): Record
    requires r.pool.id in t.pools
  {
    t.pools[r.pool.id].body.(pool := r.pool, tokens := r.tokens)
  }

  /** What a request does once validated and cleared of conflicts. */
  function Written(t: Tables, r: Request, create: bool): (Tables, Reply) {
    if create then
      if r.placement.None? then (t, NoPlacement)
      else var (t', err) := Create(t, NewRecord(r)); (t', if err == Ok then Accepted([]) else Refused(err))
    else if r.pool.id !in t.pools then (t, Refused(ErrNotFound))
    else var (t', err) := Update(t, ChangedRecord(t, r)); (t', if err == Ok then Accepted([]) else Refused(err))
  }

  /** A validated request whose overlap check found `cs`. */
  ghost predicate Resolves(t: Tables, r: Request, create: bool, cs: seq<Conflict>, t': Tables, reply: Reply) {
    if cs != [] && !r.replace then t' == t && reply == Overlapping(cs)
    else
      var (t1, answer) := Written(t, r, create);
      if answer.Accepted? then t' == EvictAll(t1, cs) && reply == Accepted(cs) else t' == t1 && reply == answer
  }

  /** The request as a relation between the tables before and after. */
  ghost predicate Serves(t: Tables, r: Request, create: bool, t': Tables, reply: Reply) {
    if !Acceptable(r.pool.members, r.action) then t' == t && reply == Invalid
    else
      exists cs ::
        IsScan(OwnersIn(t), r.pool.members, r.pool.id, cs) && Resolves(t, r, create, cs, t', reply)
  }

  method ResolveOverlaps(store: Store, ps: seq<Prefix>, id: PoolId, replace: bool)
    returns (conflicts: seq<Conflict>, handled: bool)
    requires AllCanonical(OwnersIn(store.View()))
    ensures IsScan(OwnersIn(store.View()), ps, id, conflicts)
    ensures handled <==> conflicts != [] && !replace
  {
    conflicts := MemberConflicts(OwnersIn(store.View()), ps, id);
    handled := |conflicts| > 0 && !replace;
  }

  method Evict(store: Store, cs: seq<Conflict>)
    modifies store
    ensures store.View() == EvictAll(old(store.View()), cs)
  {
    for i := 0 to |cs|
      invariant store.View() == EvictAll(old(store.View()), cs[..i])
    {
      assert cs[..i + 1][..i] == cs[..i];
      var c := cs[i];
      if c.pool in store.pools && c.prefix in store.pools[c.pool].body.pool.members {
        var err := store.RemoveMember(c.pool, c.prefix);
      }
    }
    assert cs[..|cs|] == cs;
  }

  method HandlePool(store: Store, r: Request, create: bool) returns (reply: Reply)
    requires AllCanonical(OwnersIn(store.View()))
    modifies store
    ensures Serves(old(store.View()), r, create, store.View(), reply)
  {
    var ok := IngestValidate(r.pool.members, r.action);
    if !ok {
      return Invalid;
    }
    var conflicts, handled := ResolveOverlaps(store, r.pool.members, r.pool.id, r.replace);
    if handled {
      return Overlapping(conflicts);
    }
    var err;
    if create {
      if r.placement.None? {
        return NoPlacement;
      }
      err := store.CreatePool(NewRecord(r));
    } else {
      if r.pool.id !in store.pools {
        return Refused(ErrNotFound);
      }
      err := store.UpdatePool(ChangedRecord(store.View(), r));
    }
    if err != Ok {
      return Refused(err);
    }
    Evict(store, conflicts);
    reply := Accepted(conflicts);
  }

  // ---- what a request does to the stored members ----

  /** The members after the write: the request's, held by its pool, and everybody else's. */
  ghost predicate Claims(t: Tables, t1: Tables, ps: seq<Prefix>, id: PoolId) {
    && (forall p :: p in t1.members <==> p in ps || (p in t.members && t.members[p].pool != id))
    && (forall p | p in t1.members :: t1.members[p].pool == if p in ps then id else t.members[p].pool)
    && (forall p | p in ps && p in t.members :: t.members[p].pool == id)
  }

  lemma ApartDistinct(ps: seq<Prefix>)
    requires Apart(ps)
    ensures Distinct(ps)
  {
    forall i, j | 0 <= j < i < |ps|
      ensures ps[j] != ps[i]
    {
      assert !Overlaps(ps[j], ps[i]);
    }
  }

  lemma CreateClaims(t: Tables, rec: Record)
    requires Stored(t) && Create(t, rec).1 == Ok && forall p | p in rec.pool.members :: Canonical(p)
    ensures Stored(Create(t, rec).0) && Claims(t, Create(t, rec).0, rec.pool.members, rec.pool.id)
  {
    assert Owned(t, rec.pool.id) == BodySet(t, rec.pool.id);
    assert forall p | p in t.members && t.members[p].pool == rec.pool.id :: p in Owned(t, rec.pool.id);
    CreateKeeps(t, rec);
  }

  lemma UpdateClaims(t: Tables, rec: Record)
    requires Stored(t) && Update(t, rec).1 == Ok && Distinct(rec.pool.members)
    requires forall p | p in rec.pool.members :: Canonical(p)
    requires rec.pool.id in t.pools ==> rec.primary == t.pools[rec.pool.id].home
    ensures Stored(Update(t, rec).0) && Claims(t, Update(t, rec).0, rec.pool.members, rec.pool.id)
  {
    UpdateKeeps(t, rec);
  }

  lemma WrittenClaims(t: Tables, r: Request, create: bool)
    requires Stored(t) && Acceptable(r.pool.members, r.action) && Written(t, r, create).1.Accepted?
    ensures Stored(Written(t, r, create).0)
    ensures Claims(t, Written(t, r, create).0, r.pool.members, r.pool.id)
  {
    if create {
      CreateClaims(t, NewRecord(r));
    } else {
      ApartDistinct(r.pool.members);
      UpdateClaims(t, ChangedRecord(t, r));
    }
  }

  lemma ConflictsHeld(t: Tables, t1: Tables, ps: seq<Prefix>, id: PoolId, cs: seq<Conflict>)
    requires Claims(t, t1, ps, id) && IsScan(OwnersIn(t), ps, id, cs)
    ensures Held(t1, cs)
    ensures forall p :: p in Prefixes(cs) <==> p in t.members && t.members[p].pool != id && OverlapsAny(p, ps)
  {
    forall p | p in t.members && t.members[p].pool != id && OverlapsAny(p, ps)
      ensures p in Prefixes(cs)
    {
      assert Hit(OwnersIn(t), ps, id, Conflict(p, t.members[p].pool));
    }
    forall c | c in cs
      ensures c.prefix in t1.members && t1.members[c.prefix].pool == c.pool
    {
      assert Hit(OwnersIn(t), ps, id, c);
    }
  }

  /** Who holds what after an accepted request: the pool holds exactly the request's
      members, and every other pool keeps exactly its members that do not overlap them. */
  ghost predicate Settled(t: Tables, t': Tables, ps: seq<Prefix>, id: PoolId) {
    && (forall p :: p in t'.members <==>
          p in ps || (p in t.members && t.members[p].pool != id && !OverlapsAny(p, ps)))
    && (forall p | p in t'.members :: t'.members[p].pool == if p in ps then id else t.members[p].pool)
  }

  lemma AcceptedSettles(t: Tables, r: Request, create: bool, t': Tables, reply: Reply)
    requires Stored(t) && Serves(t, r, create, t', reply) && reply.Accepted?
    ensures Stored(t') && Settled(t, t', r.pool.members, r.pool.id)
    ensures forall p :: p in Prefixes(reply.replaced) <==>
      p in t.members && t.members[p].pool != r.pool.id && OverlapsAny(p, r.pool.members)
  {
    var ps, id, cs := r.pool.members, r.pool.id, reply.replaced;
    var t1 := Written(t, r, create).0;
    assert IsScan(OwnersIn(t), ps, id, cs) && t' == EvictAll(t1, cs);
    WrittenClaims(t, r, create);
    ConflictsHeld(t, t1, ps, id, cs);
    EvictAllDoes(t1, cs);
    forall p | p in ps
      ensures p !in Prefixes(cs)
    {
    }
  }

  lemma SettledDisjoint(t: Tables, t': Tables, ps: seq<Prefix>, id: PoolId)
    requires Disjoint(t) && Apart(ps) && Settled(t, t', ps, id)
    ensures Disjoint(t')
  {
    forall p, q | p in t'.members && q in t'.members && p != q
      ensures !Overlaps(p, q)
    {
      if p in ps && q in ps {
        var i :| 0 <= i < |ps| && ps[i] == p;
        var j :| 0 <= j < |ps| && ps[j] == q;
        assert i < j ==> !Overlaps(ps[i], ps[j]);
        assert j < i ==> !Overlaps(ps[j], ps[i]);
      } else if p in ps {
        assert !OverlapsAny(q, ps);
      } else if q in ps {
        assert !OverlapsAny(p, ps);
      }
    }
  }

  /** Every request, with or without replace and whatever it is answered, keeps the stored
      members pairwise disjoint. */
  lemma RequestKeepsDisjoint(t: Tables, r: Request, create: bool, t': Tables, reply: Reply)
    requires Stored(t) && Disjoint(t) && Serves(t, r, create, t', reply)
    ensures Stored(t') && Disjoint(t')
    ensures !reply.Accepted? ==> t' == t
  {
    if reply.Accepted? {
      AcceptedSettles(t, r, create, t', reply);
      SettledDisjoint(t, t', r.pool.members, r.pool.id);
    }
  }

  lemma WrittenIff(t: Tables, r: Request, create: bool)
    requires Stored(t) && Distinct(r.pool.members)
    ensures Written(t, r, create).1.Accepted? <==>
      && (create ==> r.placement.Some?) && (create <==> r.pool.id !in t.pools)
      && !ForeignClaim(t, r.pool.members, r.pool.id)
  {
    var id := r.pool.id;
    assert Owned(t, id) == BodySet(t, id);
    assert forall p | p in t.members && t.members[p].pool == id :: p in Owned(t, id);
  }

  lemma HitsListed(owners: Owners, ps: seq<Prefix>, id: PoolId, cs: seq<Conflict>)
    requires IsScan(owners, ps, id, cs)
    ensures cs != [] <==> exists c :: Hit(owners, ps, id, c)
  {
    if c :| Hit(owners, ps, id, c) {
      assert c in cs;
    }
    if cs != [] {
      assert cs[0] in cs;
    }
  }

  /** Exactly when a request is accepted. Asking to replace does not help against a member
      another pool holds under the very same prefix: the write comes before the eviction
      and is refused. */
  lemma AcceptedIff(t: Tables, r: Request, create: bool, t': Tables, reply: Reply)
    requires Stored(t) && Serves(t, r, create, t', reply)
    ensures reply.Accepted? <==>
      && Acceptable(r.pool.members, r.action)
      && (r.replace || !exists c :: Hit(OwnersIn(t), r.pool.members, r.pool.id, c))
      && (create ==> r.placement.Some?) && (create <==> r.pool.id !in t.pools)
      && !ForeignClaim(t, r.pool.members, r.pool.id)
  {
    var ps, id := r.pool.members, r.pool.id;
    if Acceptable(ps, r.action) {
      var cs :| IsScan(OwnersIn(t), ps, id, cs) && Resolves(t, r, create, cs, t', reply);
      ApartDistinct(ps);
      WrittenIff(t, r, create);
      HitsListed(OwnersIn(t), ps, id, cs);
    }
  }

  /** Two pools, one prefix: the second create asks to replace and is refused. */
  lemma ExactDuplicateRefused(p: Prefix, home: EdgeId)
    requires Canonical(p)
    ensures var t := Create(Tables(map[], map[]), Record(Pool(1, [p], home, false, 0), home, NoEdge, 0, NoEdge)).0;
      var r := Request(Pool(2, [p], home, false, 0), RateLimit, 0, true, Some((home, NoEdge)));
      && Stored(t)
      && forall t', reply | Serves(t, r, true, t', reply) :: reply == Refused(ErrMemberConflict) && t' == t
  {
    var empty := Tables(map[], map[]);
    var rec := Record(Pool(1, [p], home, false, 0), home, NoEdge, 0, NoEdge);
    var t := Create(empty, rec).0;
    var r := Request(Pool(2, [p], home, false, 0), RateLimit, 0, true, Some((home, NoEdge)));
    assert Stored(empty);
    CreateClaims(empty, rec);
    assert p in r.pool.members && p in t.members;
    assert Acceptable(r.pool.members, r.action);
    assert Written(t, r, true) == (t, Refused(ErrMemberConflict));
  }

  // ---- what an accepted request stores ----

  /** Evictions touch the pools that lose a member and no others. */
  lemma {:induction false} EvictSpares(t: Tables, cs: seq<Conflict>, id: PoolId)
    requires forall c | c in cs :: c.pool != id
    ensures id in EvictAll(t, cs).pools <==> id in t.pools
    ensures id in t.pools ==> EvictAll(t, cs).pools[id] == t.pools[id]
    decreases |cs|
  {
    if cs != [] {
      assert cs[|cs| - 1] in cs;
      EvictSpares(t, cs[..|cs| - 1], id);
    }
  }

  lemma AcceptedRow(t: Tables, r: Request, create: bool, t': Tables, reply: Reply)
    requires Serves(t, r, create, t', reply) && reply.Accepted?
    ensures var t1 := Written(t, r, create).0;
      && Written(t, r, create).1.Accepted? && r.pool.id in t1.pools
      && r.pool.id in t'.pools && t'.pools[r.pool.id] == t1.pools[r.pool.id]
  {
    var t1, id, cs := Written(t, r, create).0, r.pool.id, reply.replaced;
    assert IsScan(OwnersIn(t), r.pool.members, id, cs) && t' == EvictAll(t1, cs);
    forall c | c in cs
      ensures c.pool != id
    {
      assert Hit(OwnersIn(t), r.pool.members, id, c);
    }
    EvictSpares(t1, cs, id);
  }

  /** An accepted create is stored as placed: primary and backup as the scheduler gave them,
      the request's cost, version 1, nothing retiring, the request's definition homed at the
      primary, and its members homed there too. */
  lemma CreateStores(t: Tables, r: Request, t': Tables, reply: Reply)
    requires Stored(t) && Serves(t, r, true, t', reply) && reply.Accepted?
    ensures r.placement.Some? && r.pool.id in t'.pools
    ensures var primary, backup := r.placement.value.0, r.placement.value.1;
      && ReadRow(t', r.pool.id) ==
         PivotRow(r.pool.(homeEdge := primary), r.pool.id, primary, backup, NoEdge, r.tokens, 1)
      && forall p | p in r.pool.members :: p in t'.members && t'.members[p] == MemberRow(r.pool.id, primary)
  {
    AcceptedRow(t, r, true, t', reply);
    CreateThenRead(t, NewRecord(r));
    AcceptedSettles(t, r, true, t', reply);
    forall p | p in r.pool.members
      ensures t'.members[p] == MemberRow(r.pool.id, r.placement.value.0)
    {
      assert t'.members[p].pool == r.pool.id;
      assert t'.members[p].home == t'.pools[r.pool.id].home;
    }
  }

  /** An accepted update stores the request's definition at the next version; placement, cost
      and retiring edge are as before, and every member is homed at the stored primary. */
  lemma UpdateStores(t: Tables, r: Request, t': Tables, reply: Reply)
    requires Stored(t) && Serves(t, r, false, t', reply) && reply.Accepted?
    ensures r.pool.id in t.pools && r.pool.id in t'.pools
    ensures var was := ReadRow(t, r.pool.id);
      && ReadRow(t', r.pool.id) ==
         was.(pool := r.pool.(homeEdge := was.primary), version := was.version + 1)
      && forall p | p in r.pool.members :: p in t'.members && t'.members[p] == MemberRow(r.pool.id, was.primary)
  {
    AcceptedRow(t, r, false, t', reply);
    UpdateThenRead(t, ChangedRecord(t, r));
    AcceptedSettles(t, r, false, t', reply);
    forall p | p in r.pool.members
      ensures t'.members[p] == MemberRow(r.pool.id, t.pools[r.pool.id].home)
    {
      assert t'.members[p].pool == r.pool.id;
      assert t'.members[p].home == t'.pools[r.pool.id].home;
    }
  }

  /** What a refused request is told: invalid before anything else, then the overlaps unless
      it may replace, then no placement, then what the store says of the id and the members. */
  lemma RefusedIff(t: Tables, r: Request, create: bool, t': Tables, reply: Reply)
    requires Stored(t) && Serves(t, r, create, t', reply)
    ensures var valid := Acceptable(r.pool.members, r.action);
      var hits := exists c :: Hit(OwnersIn(t), r.pool.members, r.pool.id, c);
      var passed := valid && (!hits || r.replace);
      && (reply == Invalid <==> !valid)
      && (reply.Overlapping? <==> valid && hits && !r.replace)
      && (reply.Overlapping? ==> forall c :: c in reply.conflicts <==> Hit(OwnersIn(t), r.pool.members, r.pool.id, c))
      && (reply == NoPlacement <==> passed && create && r.placement.None?)
      && (reply == Refused(ErrNotFound) <==> passed && !create && r.pool.id !in t.pools)
      && (reply == Refused(ErrExists) <==> passed && create && r.placement.Some? && r.pool.id in t.pools)
      && (reply == Refused(ErrMemberConflict) <==>
          && passed && (create ==> r.placement.Some?) && (create <==> r.pool.id !in t.pools)
          && ForeignClaim(t, r.pool.members, r.pool.id))
  {
    var ps, id := r.pool.members, r.pool.id;
    if Acceptable(ps, r.action) {
      var cs :| IsScan(OwnersIn(t), ps, id, cs) && Resolves(t, r, create, cs, t', reply);
      ApartDistinct(ps);
      HitsListed(OwnersIn(t), ps, id, cs);
      WrittenAnswers(t, r, create);
      forall c
        ensures c in cs <==> Hit(OwnersIn(t), ps, id, c)
      {
      }
    }
  }

  lemma WrittenAnswers(t: Tables, r: Request, create: bool)
    requires Stored(t) && Distinct(r.pool.members)
    ensures Written(t, r, create).1 ==
      if create && r.placement.None? then NoPlacement
      else if !create && r.pool.id !in t.pools then Refused(ErrNotFound)
      else if create && r.pool.id in t.pools then Refused(ErrExists)
      else if ForeignClaim(t, r.pool.members, r.pool.id) then Refused(ErrMemberConflict)
      else Accepted([])
  {
    var id := r.pool.id;
    assert Owned(t, id) == BodySet(t, id);
    assert forall p | p in t.members && t.members[p].pool == id :: p in Owned(t, id);
  }

  // ---- whole runs ----

  /** Operations that bring no new member: removals, destroys, and pivot writes by a
      replica holding the current row. */
  ghost predicate BringsNone(t: Tables, op: Op) {
    match op
    case OpRemove(_, _) => true
    case OpDelete(_) => true
    case OpDeleteCas(_) => true
    case OpCas(row, primary, _, _) => primary != NoEdge && ActsOnCurrent(t, row)
    case _ => false
  }

  lemma OthersKeepDisjoint(t: Tables, op: Op)
    requires Stored(t) && Disjoint(t) && BringsNone(t, op)
    ensures Stored(StoreStep(t, op).0) && Disjoint(StoreStep(t, op).0)
  {
    match op
    case OpRemove(id, p) => RemoveKeeps(t, id, p);
    case OpDelete(id) => DeleteKeeps(t, id);
    case OpDeleteCas(row) => DeleteKeeps(t, row.poolId);
    case OpCas(row, primary, backup, retiring) =>
      CasKeepsIndex(t, row, primary, backup, retiring);
      CasKeepsHomes(t, row, primary, backup, retiring);
  }

  datatype Step = Requested(r: Request, create: bool, reply: Reply) | Other(op: Op)

  ghost predicate Follows(t: Tables, step: Step, t': Tables) {
    match step
    case Requested(r, create, reply) => Serves(t, r, create, t', reply)
    case Other(op) => BringsNone(t, op) && t' == StoreStep(t, op).0
  }

  ghost predicate History(ts: seq<Tables>, steps: seq<Step>) {
    && |ts| == |steps| + 1 && ts[0] == Tables(map[], map[])
    && forall i | 0 <= i < |steps| :: Follows(ts[i], steps[i], ts[i + 1])
  }

  /** At every point of every history no two stored members overlap. */
  lemma {:induction false} NeverOverlapping(ts: seq<Tables>, steps: seq<Step>, i: nat)
    requires History(ts, steps) && i < |ts|
    ensures Stored(ts[i]) && Disjoint(ts[i])
  {
    if i > 0 {
      NeverOverlapping(ts, steps, i - 1);
      assert Follows(ts[i - 1], steps[i - 1], ts[i]);
      match steps[i - 1]
      case Requested(r, create, reply) => RequestKeepsDisjoint(ts[i - 1], r, create, ts[i], reply);
      case Other(op) => OthersKeepDisjoint(ts[i - 1], op);
    }
  }
}
