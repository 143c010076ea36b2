/** Over every sequence of operations the two-table store answers as the one-map
    store does, its member index is the one read off the bodies, and a row a
    replica still holds is either out of date or exact. */
module StoreRefinement {
  import opened Model
  import opened YbStore
  import opened MemStore

  // ---- the member index ----

  function BodySet(t: Tables, id: PoolId): set<Prefix> {
    if id in t.pools then Elems(t.pools[id].body.pool.members) else {}
  }

  /** The members table is exactly the prefix-to-pool map read off the bodies: the
      rows a pool owns are the members its body lists, and nobody else owns any. */
  ghost predicate IndexAgrees(t: Tables) {
    forall id :: Owned(t, id) == BodySet(t, id)
  }

  /** A body is filed under its own id and lists no prefix twice. */
  ghost predicate BodiesOk(t: Tables) {
    forall id :: id in t.pools ==> t.pools[id].body.pool.id == id && Distinct(t.pools[id].body.pool.members)
  }

  /** Every member row is homed where its pool is. */
  ghost predicate HomesAgree(t: Tables) {
    forall p :: p in t.members && t.members[p].pool in t.pools ==>
      t.members[p].home == t.pools[t.members[p].pool].home
  }

  ghost predicate TablesOk(t: Tables) {
    IndexAgrees(t) && BodiesOk(t) && HomesAgree(t)
  }

  // ---- the refinement relation ----

  ghost predicate RowMatches(t: Tables, id: PoolId, rec: Record, version: nat)
    requires id in t.pools
  {
    var r := ReadRow(t, id);
    && r.pool == rec.pool && r.primary == rec.primary && r.backup == rec.backup
    && r.retiring == rec.retiringEdge && r.version == version
    && version >= 1
    && rec.pool.homeEdge == rec.primary
  }

  ghost predicate Refines(t: Tables, m: State) {
    && (forall id :: (id in t.pools <==> id in m.pools) && (id in m.pools <==> id in m.version))
    && (forall id :: id in t.pools ==> RowMatches(t, id, m.pools[id], m.version[id]))
  }

  lemma RefinesSound(t: Tables, m: State)
    requires Refines(t, m) && IndexAgrees(t)
    ensures Sound(m)
  {
    forall id, id', p | id in m.pools && id' in m.pools
      && p in m.pools[id].pool.members && p in m.pools[id'].pool.members
      ensures id == id'
    {
      assert RowMatches(t, id, m.pools[id], m.version[id]) && RowMatches(t, id', m.pools[id'], m.version[id']);
      assert p in BodySet(t, id) && p in BodySet(t, id');
      assert p in Owned(t, id) && p in Owned(t, id');
    }
  }

  /** A prefix is claimed by another record exactly when its member row is foreign. */
  lemma ClaimedIsForeign(t: Tables, m: State, ps: seq<Prefix>, id: PoolId)
    requires Refines(t, m) && IndexAgrees(t)
    ensures Claimed(m, ps, id) <==> ForeignClaim(t, ps, id)
  {
    if Claimed(m, ps, id) {
      var p, o :| o in m.pools && o != id && p in m.pools[o].pool.members && p in ps;
      assert RowMatches(t, o, m.pools[o], m.version[o]);
      assert p in BodySet(t, o) && p in Owned(t, o);
    }
    if ForeignClaim(t, ps, id) {
      var p :| p in ps && p in t.members && t.members[p].pool != id;
      var o := t.members[p].pool;
      assert p in Owned(t, o) && p in BodySet(t, o);
      assert RowMatches(t, o, m.pools[o], m.version[o]);
    }
  }

  // ---- operations and runs ----

  datatype Op =
    | OpCreate(rec: Record)
    | OpUpdate(rec: Record)
    | OpRemove(id: PoolId, prefix: Prefix)
    | OpCas(row: PivotRow, primary: EdgeId, backup: EdgeId, retiring: EdgeId)
    | OpDeleteCas(row: PivotRow)
    | OpDelete(id: PoolId)
  {
    function Target(): PoolId {
      match this
      case OpCreate(rec) => rec.pool.id
      case OpUpdate(rec) => rec.pool.id
      case OpRemove(id, _) => id
      case OpCas(row, _, _, _) => row.poolId
      case OpDeleteCas(row) => row.poolId
      case OpDelete(id) => id
    }
  }

  function StoreStep(t: Tables, op: Op): (Tables, Error) {
    match op
    case OpCreate(rec) => Create(t, rec)
    case OpUpdate(rec) => Update(t, rec)
    case OpRemove(id, p) => Remove(t, id, p)
    case OpCas(row, primary, backup, retiring) => UpdateCas(t, row, row.version, primary, backup, retiring)
    case OpDeleteCas(row) => DeleteCas(t, row.poolId, row.version)
    case OpDelete(id) => (Delete(t, id), Ok)
  }

  function MemStep(m: State, op: Op): (State, Error)
    requires Sound(m)
  {
    match op
    case OpCreate(rec) => MemCreate(m, rec)
    case OpUpdate(rec) => MemUpdate(m, rec)
    case OpRemove(id, p) => MemRemove(m, id, p)
    case OpCas(row, primary, backup, retiring) =>
      MemUpdateCas(m, row.poolId, row.version, primary, backup, retiring)
    case OpDeleteCas(row) => MemDeleteCas(m, row.poolId, row.version)
    case OpDelete(id) => (MemDelete(m, id), Ok)
  }

  /** Both stores, and every row that was ever stored for a pool since it was
      created: whatever a replica holds, from a fresh or a stale read, is one of these. */
  datatype Sys = Sys(t: Tables, m: State, past: set<PivotRow>)

  function Recorded(t: Tables, past: set<PivotRow>, id: PoolId): set<PivotRow> {
    if id in t.pools then past + {ReadRow(t, id)} else set r | r in past && r.poolId != id
  }

  ghost function Exec(s: Sys, op: Op): Sys
    requires Inv(s)
  {
    RefinesSound(s.t, s.m);
    var t := StoreStep(s.t, op).0;
    Sys(t, MemStep(s.m, op).0, Recorded(t, s.past, op.Target()))
  }

  /** What a held row is compared on: the bulk read leaves `retiring` out, and the
      manual provision path may blank `backup`. */
  predicate HeldAs(row: PivotRow, q: PivotRow) {
    row.pool == q.pool && row.poolId == q.poolId && row.primary == q.primary
    && row.tokens == q.tokens && row.version == q.version
  }

  /** What the callers guarantee: members distinct, a new record not retiring, an
      in-place update carrying the placement it read, a CAS from a row that was read in
      this incarnation of the pool, or left over from one that is gone. */
  ghost predicate Legal(s: Sys, op: Op) {
    match op
    case OpCreate(rec) => Distinct(rec.pool.members) && rec.retiringEdge == NoEdge
    case OpUpdate(rec) =>
      && Distinct(rec.pool.members)
      && (rec.pool.id in s.t.pools ==> CarriesPlacement(rec, ReadRow(s.t, rec.pool.id)))
    case OpCas(row, primary, _, _) =>
      primary != NoEdge && (row.poolId !in s.t.pools || exists q :: q in s.past && HeldAs(row, q))
    case OpDeleteCas(row) => if row.poolId in s.t.pools then row in s.past else row.version >= 1
    case _ => true
  }

  predicate CarriesPlacement(rec: Record, row: PivotRow) {
    rec.primary == row.primary && rec.backup == row.backup && rec.retiringEdge == row.retiring
  }

  /** A past row is of a live pool, not newer than the stored row, and of equal
      version only if it is the stored row. */
  ghost predicate PastOk(t: Tables, past: set<PivotRow>) {
    && (forall id :: id in t.pools ==> ReadRow(t, id) in past)
    && (forall r :: r in past ==>
          && r.poolId in t.pools
          && r.version <= t.pools[r.poolId].version
          && (r.version == t.pools[r.poolId].version ==> r == ReadRow(t, r.poolId)))
  }

  ghost predicate Inv(s: Sys) {
    Refines(s.t, s.m) && TablesOk(s.t) && PastOk(s.t, s.past)
  }

  // ---- one transaction keeps the tables sound ----

  /** Pools other than `id` are as they were. */
  ghost predicate Elsewhere<V(!new)>(before: map<PoolId, V>, after: map<PoolId, V>, id: PoolId) {
    forall o :: o != id ==> (o in before <==> o in after) && (o in before ==> after[o] == before[o])
  }

  /** Only the named pool's ownership and body moved, and they moved together. */
  lemma IndexStep(t: Tables, t': Tables, id: PoolId)
    requires IndexAgrees(t)
    requires forall o :: o != id ==> Owned(t', o) == Owned(t, o) && BodySet(t', o) == BodySet(t, o)
    requires Owned(t', id) == BodySet(t', id)
    ensures IndexAgrees(t')
  {
    forall o
      ensures Owned(t', o) == BodySet(t', o)
    {
      assert Owned(t, o) == BodySet(t, o);
    }
  }

  lemma CreateKeeps(t: Tables, rec: Record)
    requires TablesOk(t)
    ensures TablesOk(Create(t, rec).0)
  {
    var t', id := Create(t, rec).0, rec.pool.id;
    if t' != t {
      assert Owned(t, id) == BodySet(t, id);
      assert forall p :: p in Owned(t, id) <==> p in t.members && t.members[p].pool == id;
      IndexStep(t, t', id);
    }
  }

  lemma UpdateKeeps(t: Tables, rec: Record)
    requires TablesOk(t) && Distinct(rec.pool.members)
    requires rec.pool.id in t.pools ==> rec.primary == t.pools[rec.pool.id].home
    ensures TablesOk(Update(t, rec).0)
  {
    var t', id := Update(t, rec).0, rec.pool.id;
    if t' != t {
      IndexStep(t, t', id);
    }
  }

  lemma RemoveKeeps(t: Tables, id: PoolId, p: Prefix)
    requires TablesOk(t)
    ensures TablesOk(Remove(t, id, p).0)
  {
    var t' := Remove(t, id, p).0;
    if t' != t {
      assert Owned(t, id) == BodySet(t, id);
      assert BodySet(t', id) == BodySet(t, id) - {p};
      assert Owned(t', id) == Owned(t, id) - {p};
      IndexStep(t, t', id);
    }
  }

  ghost predicate ActsOnCurrent(t: Tables, row: PivotRow) {
    row.poolId in t.pools && t.pools[row.poolId].version == row.version ==>
      row.pool == t.pools[row.poolId].body.pool && row.primary == t.pools[row.poolId].home
  }

  lemma CasKeepsIndex(t: Tables, row: PivotRow, primary: EdgeId, backup: EdgeId, retiring: EdgeId)
    requires IndexAgrees(t) && BodiesOk(t) && ActsOnCurrent(t, row)
    ensures IndexAgrees(UpdateCas(t, row, row.version, primary, backup, retiring).0)
    ensures BodiesOk(UpdateCas(t, row, row.version, primary, backup, retiring).0)
  {
    var t' := UpdateCas(t, row, row.version, primary, backup, retiring).0;
    if t' != t {
      assert Owned(t, row.poolId) == BodySet(t, row.poolId);
      IndexStep(t, t', row.poolId);
    }
  }

  lemma CasKeepsHomes(t: Tables, row: PivotRow, primary: EdgeId, backup: EdgeId, retiring: EdgeId)
    requires HomesAgree(t) && ActsOnCurrent(t, row) && primary != NoEdge
    ensures HomesAgree(UpdateCas(t, row, row.version, primary, backup, retiring).0)
  {
  }

  lemma DeleteKeeps(t: Tables, id: PoolId)
    requires TablesOk(t)
    ensures TablesOk(Delete(t, id))
  {
    IndexStep(t, Delete(t, id), id);
  }

  lemma PastStep(t: Tables, t': Tables, past: set<PivotRow>, id: PoolId)
    requires PastOk(t, past) && Elsewhere(t.pools, t'.pools, id)
    requires id in t.pools && id in t'.pools && t'.pools[id] != t.pools[id] ==>
               t'.pools[id].version > t.pools[id].version
    ensures PastOk(t', Recorded(t', past, id))
  {
  }

  lemma RefinesStep(t: Tables, m: State, t': Tables, m': State, id: PoolId)
    requires Refines(t, m)
    requires Elsewhere(t.pools, t'.pools, id) && Elsewhere(m.pools, m'.pools, id)
    requires Elsewhere(m.version, m'.version, id)
    requires (id in t'.pools <==> id in m'.pools) && (id in t'.pools <==> id in m'.version)
    requires id in t'.pools ==> RowMatches(t', id, m'.pools[id], m'.version[id])
    ensures Refines(t', m')
  {
    forall o | o in t'.pools
      ensures RowMatches(t', o, m'.pools[o], m'.version[o])
    {
      assert o != id ==> RowMatches(t, o, m.pools[o], m.version[o]);
    }
  }

  /** What an operation does to the pool it names, on both sides. */
  ghost predicate Paired(s: Sys, op: Op, t': Tables, m': State) {
    var id := op.Target();
    && Elsewhere(s.t.pools, t'.pools, id) && Elsewhere(s.m.pools, m'.pools, id)
    && Elsewhere(s.m.version, m'.version, id)
    && (id in t'.pools <==> id in m'.pools) && (id in t'.pools <==> id in m'.version)
    && (id in t'.pools ==> RowMatches(t', id, m'.pools[id], m'.version[id]))
    && (id in s.t.pools && id in t'.pools && t'.pools[id] != s.t.pools[id] ==>
          t'.pools[id].version > s.t.pools[id].version)
  }

  lemma CreatePairs(s: Sys, rec: Record)
    requires Refines(s.t, s.m) && Sound(s.m) && Legal(s, OpCreate(rec))
    requires Claimed(s.m, rec.pool.members, rec.pool.id) <==> ForeignClaim(s.t, rec.pool.members, rec.pool.id)
    requires rec.pool.id !in s.t.pools ==> Owned(s.t, rec.pool.id) == {}
    ensures Create(s.t, rec).1 == MemCreate(s.m, rec).1
    ensures Paired(s, OpCreate(rec), Create(s.t, rec).0, MemCreate(s.m, rec).0)
  {
    assert forall p :: p in Owned(s.t, rec.pool.id) <==> p in s.t.members && s.t.members[p].pool == rec.pool.id;
  }

  lemma UpdatePairs(s: Sys, rec: Record)
    requires Refines(s.t, s.m) && Sound(s.m) && Legal(s, OpUpdate(rec))
    requires Claimed(s.m, rec.pool.members, rec.pool.id) <==> ForeignClaim(s.t, rec.pool.members, rec.pool.id)
    ensures Update(s.t, rec).1 == MemUpdate(s.m, rec).1
    ensures Paired(s, OpUpdate(rec), Update(s.t, rec).0, MemUpdate(s.m, rec).0)
  {
    if rec.pool.id in s.t.pools {
      assert RowMatches(s.t, rec.pool.id, s.m.pools[rec.pool.id], s.m.version[rec.pool.id]);
    }
  }

  lemma RemovePairs(s: Sys, id: PoolId, p: Prefix)
    requires Refines(s.t, s.m) && Sound(s.m)
    ensures Remove(s.t, id, p).1 == MemRemove(s.m, id, p).1
    ensures Paired(s, OpRemove(id, p), Remove(s.t, id, p).0, MemRemove(s.m, id, p).0)
  {
    if id in s.t.pools {
      assert RowMatches(s.t, id, s.m.pools[id], s.m.version[id]);
    }
  }

  lemma CasPairs(s: Sys, op: Op)
    requires Refines(s.t, s.m) && Sound(s.m) && op.OpCas? && ActsOnCurrent(s.t, op.row)
    ensures StoreStep(s.t, op).1 == MemStep(s.m, op).1
    ensures Paired(s, op, StoreStep(s.t, op).0, MemStep(s.m, op).0)
  {
    if op.row.poolId in s.t.pools {
      assert RowMatches(s.t, op.row.poolId, s.m.pools[op.row.poolId], s.m.version[op.row.poolId]);
    }
  }

  lemma DeletePairs(s: Sys, op: Op)
    requires Refines(s.t, s.m) && Sound(s.m) && op.OpDelete?
    ensures Paired(s, op, StoreStep(s.t, op).0, MemStep(s.m, op).0)
  {
  }

  lemma DeleteCasPairs(s: Sys, op: Op)
    requires Refines(s.t, s.m) && Sound(s.m) && op.OpDeleteCas?
    requires op.row.poolId in s.t.pools || op.row.version >= 1
    ensures StoreStep(s.t, op).1 == MemStep(s.m, op).1
    ensures Paired(s, op, StoreStep(s.t, op).0, MemStep(s.m, op).0)
  {
    if op.row.poolId in s.t.pools {
      assert RowMatches(s.t, op.row.poolId, s.m.pools[op.row.poolId], s.m.version[op.row.poolId]);
    }
  }

  lemma StepKeepsTables(s: Sys, op: Op)
    requires TablesOk(s.t) && Legal(s, op)
    requires op.OpCas? ==> ActsOnCurrent(s.t, op.row)
    ensures TablesOk(StoreStep(s.t, op).0)
  {
    match op
    case OpCreate(rec) => CreateKeeps(s.t, rec);
    case OpUpdate(rec) => UpdateKeeps(s.t, rec);
    case OpRemove(id, p) => RemoveKeeps(s.t, id, p);
    case OpCas(row, primary, backup, retiring) =>
      CasKeepsIndex(s.t, row, primary, backup, retiring);
      CasKeepsHomes(s.t, row, primary, backup, retiring);
    case OpDeleteCas(row) => DeleteKeeps(s.t, row.poolId);
    case OpDelete(id) => DeleteKeeps(s.t, id);
  }

  /** One legal operation gives the same answer on both stores and keeps the invariant. */
  lemma {:induction false} StepRefines(s: Sys, op: Op)
    requires Inv(s) && Legal(s, op)
    ensures Sound(s.m) && StoreStep(s.t, op).1 == MemStep(s.m, op).1
    ensures Inv(Exec(s, op))
  {
    RefinesSound(s.t, s.m);
    if op.OpCreate? || op.OpUpdate? {
      ClaimedIsForeign(s.t, s.m, op.rec.pool.members, op.rec.pool.id);
      if op.OpCreate? {
        CreatePairs(s, op.rec);
      } else {
        UpdatePairs(s, op.rec);
      }
    } else if op.OpRemove? {
      RemovePairs(s, op.id, op.prefix);
    } else if op.OpCas? {
      if op.row.poolId in s.t.pools {
        HeldIsCurrent(s.t, s.past, op.row);
      }
      CasPairs(s, op);
    } else if op.OpDelete? {
      DeletePairs(s, op);
    } else {
      DeleteCasPairs(s, op);
    }
    StepKeepsTables(s, op);
    var t', m' := StoreStep(s.t, op).0, MemStep(s.m, op).0;
    PastStep(s.t, t', s.past, op.Target());
    RefinesStep(s.t, s.m, t', m', op.Target());
  }

  // ---- whole runs ----

  ghost function Next(s: Sys, op: Op): (s': Sys)
    requires Inv(s) && Legal(s, op)
    ensures Inv(s')
  {
    StepRefines(s, op);
    Exec(s, op)
  }

  ghost predicate LegalRun(s: Sys, ops: seq<Op>)
    requires Inv(s)
    decreases |ops|
  {
    ops == [] || (Legal(s, ops[0]) && LegalRun(Next(s, ops[0]), ops[1..]))
  }

  ghost function Run(s: Sys, ops: seq<Op>): (s': Sys)
    requires Inv(s) && LegalRun(s, ops)
    ensures Inv(s')
    decreases |ops|
  {
    if ops == [] then s else Run(Next(s, ops[0]), ops[1..])
  }

  /** The answers of a run, one store at a time. */
  ghost function StoreAnswers(t: Tables, ops: seq<Op>): seq<Error>
    decreases |ops|
  {
    if ops == [] then [] else [StoreStep(t, ops[0]).1] + StoreAnswers(StoreStep(t, ops[0]).0, ops[1..])
  }

  ghost predicate MemAnswers(m: State, ops: seq<Op>, errs: seq<Error>)
    decreases |ops|
  {
    && Sound(m) && |errs| == |ops|
    && (ops == [] || (MemStep(m, ops[0]).1 == errs[0] && MemAnswers(MemStep(m, ops[0]).0, ops[1..], errs[1..])))
  }

  /** THE REFINEMENT: from empty stores, every legal run gets the same answers from
      the two-table store and the one-map store, and ends with the same rows, an
      exact member index and every member homed with its pool. */
  lemma RunRefines(ops: seq<Op>)
    requires LegalRun(Empty(), ops)
    ensures MemAnswers(Empty().m, ops, StoreAnswers(Empty().t, ops))
    ensures Refines(Run(Empty(), ops).t, Run(Empty(), ops).m)
    ensures IndexAgrees(Run(Empty(), ops).t) && HomesAgree(Run(Empty(), ops).t)
  {
    AnswersAgree(Empty(), ops);
  }

  ghost function Empty(): (s: Sys)
    ensures Inv(s)
  {
    Sys(Tables(map[], map[]), State(map[], map[]), {})
  }

  lemma {:induction false} AnswersAgree(s: Sys, ops: seq<Op>)
    requires Inv(s) && LegalRun(s, ops)
    ensures MemAnswers(s.m, ops, StoreAnswers(s.t, ops))
    decreases |ops|
  {
    RefinesSound(s.t, s.m);
    if ops != [] {
      StepRefines(s, ops[0]);
      AnswersAgree(Next(s, ops[0]), ops[1..]);
      assert StoreAnswers(s.t, ops)[1..] == StoreAnswers(StoreStep(s.t, ops[0]).0, ops[1..]);
    }
  }

  /** The reconciler reads the same row from both stores, up to the cost column. */
  lemma ReadsAgree(s: Sys, id: PoolId)
    requires Inv(s)
    ensures (id in s.t.pools <==> id in s.m.pools) && (id in s.m.pools <==> id in s.m.version)
    ensures id in s.t.pools ==> ReadRow(s.t, id) == MemRead(s.m, id).(tokens := s.t.pools[id].cost)
  {
    if id in s.t.pools {
      assert RowMatches(s.t, id, s.m.pools[id], s.m.version[id]);
    }
  }

  // ---- what the version column buys ----

  /** A CAS that succeeds acts on the current row: the definition and primary it was decided
      from are the stored ones, and so is everything else if the row is as it was read. The
      rewritten body keeps exactly the members a concurrent change left there, and no member
      row changes owner. */
  lemma CasLosesNoMemberChange(s: Sys, op: Op)
    requires Inv(s) && op.OpCas? && Legal(s, op) && StoreStep(s.t, op).1 == Ok
    ensures op.row.pool == s.t.pools[op.row.poolId].body.pool
    ensures op.row.primary == s.t.pools[op.row.poolId].home
    ensures op.row in s.past ==> op.row == ReadRow(s.t, op.row.poolId)
    ensures Next(s, op).t.pools[op.row.poolId].body.pool.members == s.t.pools[op.row.poolId].body.pool.members
    ensures Owned(Next(s, op).t, op.row.poolId) == Owned(s.t, op.row.poolId)
  {
    HeldIsCurrent(s.t, s.past, op.row);
    CasKeepsMembers(s.t, op.row, op.primary, op.backup, op.retiring);
  }

  /** A row as it was read, of the stored version, is the stored row, backup and retiring edge
      included; a held row has at least its definition and primary. */
  lemma HeldIsCurrent(t: Tables, past: set<PivotRow>, row: PivotRow)
    requires PastOk(t, past) && exists q :: q in past && HeldAs(row, q)
    ensures ActsOnCurrent(t, row)
    ensures row in past && row.poolId in t.pools && t.pools[row.poolId].version == row.version ==>
      row == ReadRow(t, row.poolId)
  {
  }

  lemma CasKeepsMembers(t: Tables, row: PivotRow, primary: EdgeId, backup: EdgeId, retiring: EdgeId)
    requires ActsOnCurrent(t, row) && UpdateCas(t, row, row.version, primary, backup, retiring).1 == Ok
    ensures var t' := UpdateCas(t, row, row.version, primary, backup, retiring).0;
            t'.pools[row.poolId].body.pool.members == t.pools[row.poolId].body.pool.members
            && Owned(t', row.poolId) == Owned(t, row.poolId)
  {
  }

  ghost predicate Keeps(ops: seq<Op>, id: PoolId) {
    forall i :: 0 <= i < |ops| ==>
      !((ops[i].OpDelete? || ops[i].OpDeleteCas?) && ops[i].Target() == id)
  }

  lemma VersionStep(t: Tables, op: Op, id: PoolId)
    requires id in t.pools && !((op.OpDelete? || op.OpDeleteCas?) && op.Target() == id)
    ensures id in StoreStep(t, op).0.pools && StoreStep(t, op).0.pools[id].version >= t.pools[id].version
  {
  }

  function RunTables(t: Tables, ops: seq<Op>): Tables
    decreases |ops|
  {
    if ops == [] then t else RunTables(StoreStep(t, ops[0]).0, ops[1..])
  }

  /** Within one incarnation the version never goes back. */
  lemma {:induction false} VersionGrows(t: Tables, ops: seq<Op>, id: PoolId)
    requires Keeps(ops, id) && id in t.pools
    ensures id in RunTables(t, ops).pools && RunTables(t, ops).pools[id].version >= t.pools[id].version
    decreases |ops|
  {
    if ops != [] {
      VersionStep(t, ops[0], id);
      assert forall i :: 0 <= i < |ops[1..]| ==> ops[1..][i] == ops[i + 1];
      VersionGrows(StoreStep(t, ops[0]).0, ops[1..], id);
    }
  }

  /** At most one CAS wins a version: once one has succeeded, every other CAS or
      delete from a row of that version is refused, whatever ran in between. */
  lemma OneWinnerPerVersion(t: Tables, first: Op, between: seq<Op>, second: Op)
    requires first.OpCas? && StoreStep(t, first).1 == Ok && Keeps(between, first.row.poolId)
    requires second.OpCas? || second.OpDeleteCas?
    requires second.row.poolId == first.row.poolId && second.row.version == first.row.version
    ensures StoreStep(RunTables(StoreStep(t, first).0, between), second).1 == ErrConflict
  {
    VersionGrows(StoreStep(t, first).0, between, first.row.poolId);
  }

  // ---- where the two stores part ----

  /** A create that names a prefix twice is refused by the table's key and accepted by the
      map; otherwise the answers are the same. */
  lemma CreateAnswersAgreeIff(s: Sys, rec: Record)
    requires Inv(s) && Sound(s.m) && rec.pool.id !in s.t.pools
    ensures Create(s.t, rec).1 == MemCreate(s.m, rec).1 <==>
      Distinct(rec.pool.members) || ForeignClaim(s.t, rec.pool.members, rec.pool.id)
  {
    ClaimedIsForeign(s.t, s.m, rec.pool.members, rec.pool.id);
    assert Owned(s.t, rec.pool.id) == BodySet(s.t, rec.pool.id);
    assert forall p :: p in Owned(s.t, rec.pool.id) <==> p in s.t.members && s.t.members[p].pool == rec.pool.id;
  }

  // ---- where an in-place update may go wrong ----

  /** UpdatePool writes the record it was given, not the columns. Member homes stay in
      step exactly when it adds no member or was given the current home. */
  lemma UpdateKeepsHomesIff(t: Tables, rec: Record)
    requires TablesOk(t) && Update(t, rec).1 == Ok
    ensures HomesAgree(Update(t, rec).0) <==>
              (rec.primary == t.pools[rec.pool.id].home || Elems(rec.pool.members) <= Owned(t, rec.pool.id))
  {
    var t' := Update(t, rec).0;
    if rec.primary != t.pools[rec.pool.id].home && !(Elems(rec.pool.members) <= Owned(t, rec.pool.id)) {
      var p :| p in Elems(rec.pool.members) && p !in Owned(t, rec.pool.id);
      assert p in t'.members && t'.members[p] == MemberRow(rec.pool.id, rec.primary);
    }
  }

  /** ... and the retiring edge the reconciler will read survives exactly when no
      retire is pending or the record already names that edge: an update read before
      a promote silently drops the pending withdraw. */
  lemma UpdateKeepsRetiringIff(t: Tables, rec: Record)
    requires Update(t, rec).1 == Ok
    ensures ReadRow(Update(t, rec).0, rec.pool.id).retiring == ReadRow(t, rec.pool.id).retiring <==>
              (!t.pools[rec.pool.id].retiring || rec.retiringEdge == t.pools[rec.pool.id].body.retiringEdge)
  {
  }

  /** A pool of one member, promoted from `e1` to `e2`. */
  function JustPromoted(e1: EdgeId, e2: EdgeId, p: Prefix): Tables {
    Tables(
      map[7 := PoolRow(Record(Pool(7, [p], e2, false, 0), e2, NoEdge, 0, e1), e2, NoEdge, 0, 2, true)],
      map[p := MemberRow(7, e2)])
  }

  lemma PromotedOk(e1: EdgeId, e2: EdgeId, p: Prefix)
    requires e1 != NoEdge && e2 != NoEdge && e1 != e2
    ensures var t := Create(Tables(map[], map[]), Record(Pool(7, [p], e1, false, 0), e1, e2, 0, NoEdge)).0;
      7 in t.pools && JustPromoted(e1, e2, p) == UpdateCas(t, ReadRow(t, 7), 1, e2, NoEdge, e1).0
    ensures TablesOk(JustPromoted(e1, e2, p))
  {
    var t := JustPromoted(e1, e2, p);
    forall id
      ensures Owned(t, id) == BodySet(t, id)
    {
    }
  }

  /** Such an update: its record was read before a promote moved the pool from `e1` to `e2`.
      It homes the member it adds at `e1`, and the withdraw of `e1` is forgotten. */
  lemma StaleUpdateLosesRetire(e1: EdgeId, e2: EdgeId, p: Prefix, q: Prefix)
    requires e1 != NoEdge && e2 != NoEdge && e1 != e2 && p != q
    ensures
      var t := JustPromoted(e1, e2, p);
      var (t', err) := Update(t, Record(Pool(7, [p, q], e1, false, 0), e1, e2, 0, NoEdge));
      && TablesOk(t) && ReadRow(t, 7).retiring == e1
      && err == Ok && ReadRow(t', 7).retiring == NoEdge && !HomesAgree(t')
  {
    PromotedOk(e1, e2, p);
    var t, late := JustPromoted(e1, e2, p), Record(Pool(7, [p, q], e1, false, 0), e1, e2, 0, NoEdge);
    assert q in late.pool.members;
    var t' := Update(t, late).0;
    assert q in t'.members && t'.members[q] == MemberRow(7, e1);
  }

  // ---- a CAS from any row, also of an earlier incarnation ----

  /** The row passes the version gate. */
  predicate PassesGate(t: Tables, row: PivotRow) {
    row.poolId in t.pools && t.pools[row.poolId].version == row.version
  }

  /** Whatever row a CAS is made from, the member index survives exactly when the CAS is
      refused or the row lists the stored members. */
  lemma CasKeepsIndexIff(t: Tables, row: PivotRow, primary: EdgeId, backup: EdgeId, retiring: EdgeId)
    requires IndexAgrees(t)
    ensures IndexAgrees(UpdateCas(t, row, row.version, primary, backup, retiring).0) <==>
      (PassesGate(t, row) ==> Elems(row.pool.members) == Elems(t.pools[row.poolId].body.pool.members))
  {
    var t' := UpdateCas(t, row, row.version, primary, backup, retiring).0;
    if PassesGate(t, row) {
      var id := row.poolId;
      assert Owned(t, id) == BodySet(t, id);
      assert forall o :: Owned(t', o) == Owned(t, o);
      assert BodySet(t', id) == Elems(row.pool.members);
      if Elems(row.pool.members) == BodySet(t, id) {
        IndexStep(t, t', id);
      } else {
        assert Owned(t', id) != BodySet(t', id);
      }
    }
  }

  /** ... and the members stay homed with their pool exactly when it is refused, re-homes
      them, leaves the home as it is, or the pool has none. */
  lemma CasKeepsHomesIff(t: Tables, row: PivotRow, primary: EdgeId, backup: EdgeId, retiring: EdgeId)
    requires TablesOk(t) && primary != NoEdge
    ensures HomesAgree(UpdateCas(t, row, row.version, primary, backup, retiring).0) <==>
      (PassesGate(t, row) ==>
        || primary != row.primary || primary == t.pools[row.poolId].home
        || t.pools[row.poolId].body.pool.members == [])
  {
    var t', id := UpdateCas(t, row, row.version, primary, backup, retiring).0, row.poolId;
    if PassesGate(t, row) {
      assert Owned(t, id) == BodySet(t, id);
      assert forall p :: p in t.members && t.members[p].pool == id <==> p in Owned(t, id);
      if t.pools[id].body.pool.members != [] {
        var p := t.pools[id].body.pool.members[0];
        assert p in BodySet(t, id);
      }
    }
  }

  /** Across delete and re-create the version restarts, so a row read before the
      delete can pass the CAS and bring the old members back into the body. */
  lemma RecreateLetsStaleRowWin(e1: EdgeId, e2: EdgeId, p: Prefix, q: Prefix)
    requires e1 != NoEdge && e2 != NoEdge && e1 != e2 && p != q
    ensures
      var was := Record(Pool(7, [p], e1, false, 0), e1, e2, 0, NoEdge);
      var now := Record(Pool(7, [q], e1, false, 0), e1, e2, 0, NoEdge);
      var t1 := Create(Tables(map[], map[]), was).0;
      var t2 := Create(Delete(t1, 7), now).0;
      var (t3, err) := UpdateCas(t2, ReadRow(t1, 7), 1, e2, NoEdge, e1);
      err == Ok && !IndexAgrees(t3)
  {
    var was := Record(Pool(7, [p], e1, false, 0), e1, e2, 0, NoEdge);
    var now := Record(Pool(7, [q], e1, false, 0), e1, e2, 0, NoEdge);
    var t1 := Create(Tables(map[], map[]), was).0;
    var t2 := Create(Delete(t1, 7), now).0;
    var t3 := UpdateCas(t2, ReadRow(t1, 7), 1, e2, NoEdge, e1).0;
    assert q in Owned(t3, 7) && q !in BodySet(t3, 7);
  }
}
