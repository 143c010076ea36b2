/** The pivot protocol running on the two-table store: what the protocol says of a row holds
    of the stored row, and what the store says of members holds along every protocol run. */
module PivotOnStore {
  import opened Model
  import opened YbStore
  import opened Failover
  import SR = StoreRefinement
  import PP = PivotProtocol
  import PS = PivotSafety

  /** Both stores with every row read so far, and the protocol's view of one pool. */
  datatype Joint = Joint(sys: SR.Sys, piv: PP.State)

  datatype Step =
    | Pass(r: PP.Replica, o: Obs, raw: PivotRow)
    | Bulk(raw: PivotRow)
    | Promote(raw: PivotRow)
    | Replace(raw: PivotRow, o: Obs, cleared: bool)
    | Amend(rec: Record)
    | Evict(prefix: Prefix)
    | Quiet(a: PP.Action)
    | Elsewhere(op: SR.Op)

  function RowIn(t: Tables, id: PoolId): Option<Row> {
    if id in t.pools then Some(Pivot(ReadRow(t, id))) else None
  }

  /** The store operation a decision made from `raw` turns into. */
  function OpFor(raw: PivotRow, d: Decision): Option<SR.Op> {
    match d
    case Stay(_) => None
    case Put(primary, backup, retiring, _) => Some(SR.OpCas(raw, primary, backup, retiring))
    case Drop(_) => Some(SR.OpDeleteCas(raw))
  }

  function PassDecision(piv: PP.State, r: PP.Replica, o: Obs, raw: PivotRow): Decision {
    if r in piv.held then Decide(Pivot(raw), PP.Gating(piv.held[r], o)) else Stay(Conflict)
  }

  function ReplaceDecision(raw: PivotRow, o: Obs, cleared: bool): Decision {
    Provision(if cleared then Pivot(raw).(backup := NoEdge) else Pivot(raw), o)
  }

  /** What the step does to the store. The bulk listing leaves the retiring edge out of its
      rows, and a manual provision may have blanked the backup. */
  function StoreOp(piv: PP.State, id: PoolId, step: Step): Option<SR.Op> {
    match step
    case Pass(r, o, raw) => OpFor(raw, PassDecision(piv, r, o, raw))
    case Bulk(raw) => Some(SR.OpCas(raw.(retiring := NoEdge), raw.backup, NoEdge, NoEdge))
    case Promote(raw) => Some(SR.OpCas(raw, raw.backup, NoEdge, raw.primary))
    case Replace(raw, o, cleared) =>
      (match ReplaceDecision(raw, o, cleared)
       case Put(primary, backup, retiring, _) =>
         Some(SR.OpCas(if cleared then raw.(backup := NoEdge) else raw, primary, backup, retiring))
       case Drop(_) => Some(SR.OpDeleteCas(raw))
       case Stay(_) => None)
    case Amend(rec) => Some(SR.OpUpdate(rec))
    case Evict(p) => Some(SR.OpRemove(id, p))
    case Quiet(_) => None
    case Elsewhere(op) => Some(op)
  }

  /** What the step is in the protocol; an update that was refused is nothing. */
  function Act(t: Tables, step: Step): Option<PP.Action> {
    match step
    case Pass(r, o, _) => Some(PP.Commit(r, o))
    case Bulk(raw) => Some(PP.BulkCas(Pivot(raw)))
    case Promote(raw) => Some(PP.ManualPromote(Pivot(raw)))
    case Replace(raw, o, cleared) => Some(PP.ManualProvision(Pivot(raw), o, cleared))
    case Amend(rec) => if Update(t, rec).1 == Ok then Some(PP.Edit) else None
    case Evict(_) => Some(PP.Edit)
    case Quiet(a) => Some(a)
    case Elsewhere(_) => None
  }

  /** Rows come from reads of this incarnation; updates carry the placement they read. */
  ghost predicate Enabled(j: Joint, id: PoolId, step: Step) {
    match step
    case Pass(r, o, raw) =>
      && Known(j, id, raw) && r in j.piv.held && j.piv.held[r].row == Pivot(raw)
      && PlacedElsewhere(Pivot(raw), o.place)
    case Bulk(raw) => Known(j, id, raw) && raw.backup != NoEdge
    case Promote(raw) => Known(j, id, raw) && raw.backup != NoEdge
    case Replace(raw, o, _) => Known(j, id, raw) && PlacedElsewhere(Pivot(raw), o.place)
    case Amend(rec) => rec.pool.id == id && SR.Legal(j.sys, SR.OpUpdate(rec))
    case Evict(_) => true
    case Quiet(a) => !PP.Writes(a) && !a.Edit?
    case Elsewhere(op) => op.Target() != id && SR.Legal(j.sys, op)
  }

  ghost predicate Known(j: Joint, id: PoolId, raw: PivotRow) {
    raw in j.sys.past && raw.poolId == id
  }

  /** The protocol's row is the stored row, and it knows every row a replica may hold. */
  ghost predicate InTune(j: Joint, id: PoolId) {
    && j.piv.row == RowIn(j.sys.t, id)
    && forall q | q in j.sys.past && q.poolId == id :: Pivot(q) in j.piv.past && q.primary != NoEdge
  }

  ghost predicate JointInv(j: Joint, id: PoolId) {
    SR.Inv(j.sys) && PP.RowInv(j.piv) && PS.GateInv(j.piv) && InTune(j, id)
  }

  // ---- the store seen through the row ----

  lemma CasRow(t: Tables, raw: PivotRow, primary: EdgeId, backup: EdgeId, retiring: EdgeId)
    ensures var t' := UpdateCas(t, raw, raw.version, primary, backup, retiring).0;
      RowIn(t', raw.poolId) ==
        if SR.PassesGate(t, raw) then Some(Row(primary, backup, retiring, raw.version + 1)) else RowIn(t, raw.poolId)
  {
  }

  lemma UpdateRow(t: Tables, rec: Record)
    requires rec.pool.id in t.pools ==> SR.CarriesPlacement(rec, ReadRow(t, rec.pool.id))
    ensures var (t', err) := Update(t, rec);
      RowIn(t', rec.pool.id) ==
        if err == Ok then Some(RowIn(t, rec.pool.id).value.(version := t.pools[rec.pool.id].version + 1))
        else RowIn(t, rec.pool.id)
  {
  }

  lemma RemoveRow(t: Tables, id: PoolId, p: Prefix)
    ensures RowIn(Remove(t, id, p).0, id) ==
      if id in t.pools then Some(RowIn(t, id).value.(version := t.pools[id].version + 1)) else None
  {
  }

  lemma OtherRow(t: Tables, op: SR.Op, id: PoolId)
    requires op.Target() != id
    ensures RowIn(SR.StoreStep(t, op).0, id) == RowIn(t, id)
  {
  }

  // ---- one step ----

  lemma DecisionIsLegal(sys: SR.Sys, raw: PivotRow, held: PivotRow, d: Decision)
    requires SR.PastOk(sys.t, sys.past) && raw in sys.past && SR.HeldAs(held, raw)
    requires d.Put? ==> d.primary != NoEdge
    ensures d.Put? ==> SR.Legal(sys, SR.OpCas(held, d.primary, d.backup, d.retiring))
    ensures SR.Legal(sys, SR.OpDeleteCas(raw))
  {
  }

  lemma OpIsLegal(j: Joint, id: PoolId, step: Step)
    requires SR.PastOk(j.sys.t, j.sys.past) && InTune(j, id) && Enabled(j, id, step)
    requires StoreOp(j.piv, id, step).Some?
    ensures SR.Legal(j.sys, StoreOp(j.piv, id, step).value)
  {
    match step
    case Pass(r, o, raw) => DecisionIsLegal(j.sys, raw, raw, PassDecision(j.piv, r, o, raw));
    case Bulk(raw) => DecisionIsLegal(j.sys, raw, raw.(retiring := NoEdge), Put(raw.backup, NoEdge, NoEdge, []));
    case Promote(raw) => DecisionIsLegal(j.sys, raw, raw, Put(raw.backup, NoEdge, raw.primary, []));
    case Replace(raw, o, cleared) =>
      DecisionIsLegal(j.sys, raw, if cleared then raw.(backup := NoEdge) else raw, ReplaceDecision(raw, o, cleared));
    case _ =>
  }

  ghost function Do(j: Joint, id: PoolId, step: Step): Joint
    requires JointInv(j, id) && Enabled(j, id, step)
  {
    var op, act := StoreOp(j.piv, id, step), Act(j.sys.t, step);
    if op.Some? then OpIsLegal(j, id, step); Joint(SR.Next(j.sys, op.value), Acted(j.piv, act))
    else Joint(j.sys, Acted(j.piv, act))
  }

  function Acted(piv: PP.State, act: Option<PP.Action>): PP.State {
    if act.Some? then PP.Exec(piv, act.value) else piv
  }

  function After(t: Tables, op: Option<SR.Op>): Tables {
    if op.Some? then SR.StoreStep(t, op.value).0 else t
  }

  lemma Gate(t: Tables, piv: PP.State, raw: PivotRow)
    requires piv.row == RowIn(t, raw.poolId)
    ensures PP.Wins(piv, Pivot(raw)) <==> SR.PassesGate(t, raw)
  {
  }

  lemma PassRow(t: Tables, piv: PP.State, r: PP.Replica, o: Obs, raw: PivotRow)
    requires PP.RowInv(piv) && piv.row == RowIn(t, raw.poolId) && Pivot(raw) in piv.past
    requires r in piv.held && piv.held[r].row == Pivot(raw) && PlacedElsewhere(Pivot(raw), o.place)
    ensures PP.Exec(piv, PP.Commit(r, o)).row == RowIn(After(t, OpFor(raw, PassDecision(piv, r, o, raw))), raw.poolId)
  {
    var h, s0 := piv.held[r], piv.(held := piv.held - {r});
    var d := PassDecision(piv, r, o, raw);
    Gate(t, piv, raw);
    if PP.Wins(piv, h.row) {
      PP.WinnerIsCurrent(piv, h.row);
      PP.ApplyRow(s0, h.row, PP.Gating(h, o));
    }
    if d.Put? {
      CasRow(t, raw, d.primary, d.backup, d.retiring);
    }
  }

  lemma ReplaceRow(t: Tables, piv: PP.State, o: Obs, cleared: bool, raw: PivotRow)
    requires PP.RowInv(piv) && piv.row == RowIn(t, raw.poolId) && Pivot(raw) in piv.past
    requires PlacedElsewhere(Pivot(raw), o.place)
    ensures PP.Exec(piv, PP.ManualProvision(Pivot(raw), o, cleared)).row
      == RowIn(After(t, StoreOp(piv, raw.poolId, Replace(raw, o, cleared))), raw.poolId)
  {
    var d := ReplaceDecision(raw, o, cleared);
    Gate(t, piv, raw);
    if d.Put? {
      CasRow(t, if cleared then raw.(backup := NoEdge) else raw, d.primary, d.backup, d.retiring);
    }
    if PP.Wins(piv, Pivot(raw)) {
      PP.WinnerIsCurrent(piv, Pivot(raw));
    }
  }

  lemma MoveRow(t: Tables, piv: PP.State, id: PoolId, step: Step)
    requires PP.RowInv(piv) && (step.Bulk? || step.Promote?)
    requires step.raw.poolId == id && Pivot(step.raw) in piv.past && step.raw.backup != NoEdge
    requires piv.row == RowIn(t, id)
    ensures Acted(piv, Act(t, step)).row == RowIn(After(t, StoreOp(piv, id, step)), id)
  {
    var raw := step.raw;
    Gate(t, piv, raw);
    if step.Bulk? {
      CasRow(t, raw.(retiring := NoEdge), raw.backup, NoEdge, NoEdge);
    } else {
      CasRow(t, raw, raw.backup, NoEdge, raw.primary);
    }
    if PP.Wins(piv, Pivot(raw)) {
      PP.WinnerIsCurrent(piv, Pivot(raw));
    }
  }

  /** The protocol's action and the store's operation leave the same row. */
  lemma RowFollows(j: Joint, id: PoolId, step: Step)
    requires PP.RowInv(j.piv) && InTune(j, id) && Enabled(j, id, step)
    ensures Acted(j.piv, Act(j.sys.t, step)).row == RowIn(After(j.sys.t, StoreOp(j.piv, id, step)), id)
  {
    match step
    case Pass(r, o, raw) => PassRow(j.sys.t, j.piv, r, o, raw);
    case Bulk(raw) => MoveRow(j.sys.t, j.piv, id, step);
    case Promote(raw) => MoveRow(j.sys.t, j.piv, id, step);
    case Replace(raw, o, cleared) => ReplaceRow(j.sys.t, j.piv, o, cleared, raw);
    case Amend(rec) => UpdateRow(j.sys.t, rec);
    case Evict(p) => RemoveRow(j.sys.t, id, p);
    case Quiet(a) => QuietRow(j.piv, a);
    case Elsewhere(op) => OtherRow(j.sys.t, op, id);
  }

  lemma QuietRow(piv: PP.State, a: PP.Action)
    requires !PP.Writes(a) && !a.Edit?
    ensures PP.Exec(piv, a).row == piv.row
  {
  }

  lemma PastGrows(piv: PP.State, a: PP.Action)
    ensures piv.past <= PP.Exec(piv, a).past
  {
  }

  lemma StaysInTune(j: Joint, id: PoolId, j': Joint, target: PoolId)
    requires InTune(j, id) && j'.piv.row == RowIn(j'.sys.t, id) && j.piv.past <= j'.piv.past
    requires j'.sys.past == SR.Recorded(j'.sys.t, j.sys.past, target) && PP.RowInv(j'.piv)
    ensures InTune(j', id)
  {
  }

  lemma StepKeeps(j: Joint, id: PoolId, step: Step)
    requires JointInv(j, id) && Enabled(j, id, step)
    ensures JointInv(Do(j, id, step), id)
  {
    var j', op, act := Do(j, id, step), StoreOp(j.piv, id, step), Act(j.sys.t, step);
    RowFollows(j, id, step);
    if act.Some? {
      PP.RowStep(j.piv, act.value);
      PS.GateStep(j.piv, act.value);
      PastGrows(j.piv, act.value);
    }
    if op.Some? {
      StaysInTune(j, id, j', op.value.Target());
    }
  }

  /** A replica that reads the stored row holds a known row, so its pass is enabled. */
  lemma ReadIsKnown(j: Joint, id: PoolId, r: PP.Replica)
    requires SR.PastOk(j.sys.t, j.sys.past) && InTune(j, id) && id in j.sys.t.pools
    ensures Known(j, id, ReadRow(j.sys.t, id))
    ensures var held := PP.Exec(j.piv, PP.ReadPivot(r)).held;
      r in held && held[r].row == Pivot(ReadRow(j.sys.t, id))
  {
  }

  // ---- whole runs ----

  /** A pool just created on sound stores, with any versions. */
  ghost predicate Created(j: Joint, s: SR.Sys, rec: Record) {
    && SR.Inv(s) && SR.Legal(s, SR.OpCreate(rec)) && Create(s.t, rec).1 == Ok
    && rec.primary != NoEdge && rec.primary != rec.backup
    && j.sys == SR.Next(s, SR.OpCreate(rec))
    && PP.Init(j.piv) && j.piv.row == Some(Row(rec.primary, rec.backup, NoEdge, 1))
  }

  lemma CreatedInTune(j: Joint, s: SR.Sys, rec: Record)
    requires Created(j, s, rec)
    ensures JointInv(j, rec.pool.id)
  {
    PS.InitIsSafe(j.piv);
  }

  /** A history of the pool: created, then one enabled step after the other. */
  ghost predicate History(js: seq<Joint>, steps: seq<Step>, s: SR.Sys, rec: Record) {
    Chain(js, rec.pool.id, steps) && Created(js[0], s, rec)
  }

  ghost predicate Chain(js: seq<Joint>, id: PoolId, steps: seq<Step>) {
    |js| == |steps| + 1 && forall i | 0 <= i < |steps| :: Follows(js[i], id, steps[i], js[i + 1])
  }

  ghost predicate Follows(j: Joint, id: PoolId, step: Step, j': Joint) {
    Enabled(j, id, step) && (JointInv(j, id) ==> j' == Do(j, id, step))
  }

  lemma FollowKeeps(j: Joint, id: PoolId, step: Step, j': Joint)
    requires JointInv(j, id) && Follows(j, id, step, j')
    ensures JointInv(j', id)
  {
    StepKeeps(j, id, step);
  }

  lemma {:induction false} ChainKeeps(js: seq<Joint>, id: PoolId, steps: seq<Step>, i: nat)
    requires Chain(js, id, steps) && JointInv(js[0], id) && i < |js|
    ensures JointInv(js[i], id)
  {
    if i > 0 {
      ChainKeeps(js, id, steps, i - 1);
      FollowKeeps(js[i - 1], id, steps[i - 1], js[i]);
    }
  }

  /** At every point of every history, through passes, bulk failovers, manual moves, updates,
      evictions and anything on other pools, as long as the pool exists: its stored primary
      is not empty, not its backup and not retiring, its member rows are the members its
      body lists, every one homed at the stored primary, and no withdraw or gated promote
      came before its edge had applied what it had to. */
  lemma StoredPoolIsSound(js: seq<Joint>, steps: seq<Step>, s: SR.Sys, rec: Record, i: nat)
    requires History(js, steps, s, rec) && i < |js|
    ensures PS.SafeLog(js[i].piv.log) && js[i].piv.row == RowIn(js[i].sys.t, rec.pool.id)
    ensures rec.pool.id in js[i].sys.t.pools ==> SoundIn(js[i].sys.t, rec.pool.id)
  {
    CreatedInTune(js[0], s, rec);
    ChainKeeps(js, rec.pool.id, steps, i);
    var t, id := js[i].sys.t, rec.pool.id;
    assert Owned(t, id) == SR.BodySet(t, id);
  }

  ghost predicate SoundIn(t: Tables, id: PoolId)
    requires id in t.pools
  {
    && Shaped(Pivot(ReadRow(t, id)))
    && Owned(t, id) == Elems(t.pools[id].body.pool.members)
    && forall p | p in Owned(t, id) :: t.members[p].home == t.pools[id].home
  }
}
