/** Every interleaving of replicas over one pool's row and the per-edge versions:
    reads of the row, of a desired and of an applied version, CAS writes with the
    bump that follows, bulk and manual moves, member edits, bumps and advances. */
module PivotProtocol {
  import opened Model
  import opened Failover
  import Scheduler

  type Replica = nat

  /** How far a replica's pass has come with the gate edge of the row it holds. */
  datatype Stage = Fresh | SawDesired(des: nat) | SawGate(ok: bool)

  datatype Held = Held(row: Row, stage: Stage)

  /** The log has one entry per successful pivot write. `minted` is the desired version
      the bump gave the edge, `applied` the edge's applied version at that moment;
      `promote` and `placement` point back at the entry that put the edge there. */
  datatype Event =
    | Placed(edge: EdgeId, minted: nat)
    | Promoted(to: EdgeId, from: EdgeId, minted: nat, gated: bool, placement: int, applied: nat)
    | Withdrew(old': EdgeId, primary: EdgeId, promote: int, applied: nat)
    | BulkMoved(to: EdgeId, from: EdgeId)
    | Dropped

  /** `promoAt` and `placeAt` are the log entries behind the stored row's primary and
      backup (-1: none). `past` is every row ever stored. */
  datatype State = State(
    row: Option<Row>, promoAt: int, placeAt: int, past: set<Row>,
    desired: map<EdgeId, nat>, applied: map<EdgeId, nat>,
    held: map<Replica, Held>, log: seq<Event>)

  datatype Action =
    | ReadPivot(r: Replica)
    | ReadDesired(r: Replica)
    | ReadApplied(r: Replica)
    | Commit(r: Replica, o: Obs)
    | BulkCas(row: Row)
    | ManualPromote(row: Row)
    | ManualProvision(row: Row, o: Obs, cleared: bool)
    | Edit
    | Bump(edge: EdgeId)
    | Advance(edge: EdgeId, v: nat)

  function Get(m: map<EdgeId, nat>, e: EdgeId): nat {
    if e in m then m[e] else 0
  }

  function BumpOne(m: map<EdgeId, nat>, e: EdgeId): map<EdgeId, nat> {
    if e == NoEdge then m else m[e := Get(m, e) + 1]
  }

  function BumpAll(m: map<EdgeId, nat>, es: seq<EdgeId>): (r: map<EdgeId, nat>)
    ensures forall e :: Get(r, e) >= Get(m, e)
    decreases |es|
  {
    if es == [] then m else BumpAll(BumpOne(m, es[0]), es[1..])
  }

  /** The edge a pass must find caught up before it may act on `row`. */
  function GateEdge(row: Row): EdgeId {
    if row.retiring != NoEdge then row.primary else row.backup
  }

  predicate Wins(s: State, row: Row) {
    s.row.Some? && s.row.value.version == row.version
  }

  /** Store a new row at the next version and run the bumps. */
  function Write(s: State, primary: EdgeId, backup: EdgeId, retiring: EdgeId, bumps: seq<EdgeId>): State
    requires s.row.Some?
  {
    var row := Row(primary, backup, retiring, s.row.value.version + 1);
    s.(row := Some(row), past := s.past + {row}, desired := BumpAll(s.desired, bumps))
  }

  function Provisioned(s: State, row: Row, edge: EdgeId, bumps: seq<EdgeId>): State
    requires s.row.Some?
  {
    var s' := Write(s, row.primary, edge, row.retiring, bumps);
    s'.(placeAt := |s.log|, log := s.log + [Placed(edge, Get(s'.desired, edge))])
  }

  function Promotion(s: State, row: Row, gated: bool, bumps: seq<EdgeId>): State
    requires s.row.Some?
  {
    var s' := Write(s, row.backup, NoEdge, row.primary, bumps);
    var minted := Get(s'.desired, row.backup);
    s'.(promoAt := |s.log|, placeAt := -1,
        log := s.log + [Promoted(row.backup, row.primary, minted, gated, s.placeAt, Get(s.applied, row.backup))])
  }

  function Apply(s: State, row: Row, d: Decision): State
    requires s.row.Some?
  {
    match d
    case Stay(_) => s
    case Drop(bumps) => s.(row := None, desired := BumpAll(s.desired, bumps), log := s.log + [Dropped])
    case Put(primary, backup, retiring, bumps) =>
      if row.retiring != NoEdge then
        Write(s, primary, backup, retiring, bumps)
          .(log := s.log + [Withdrew(row.retiring, row.primary, s.promoAt, Get(s.applied, row.primary))])
      else if primary != row.primary then Promotion(s, row, true, bumps)
      else Provisioned(s, row, backup, bumps)
  }

  /** Readiness is what this replica's own two version reads said, nothing else. */
  function Gating(h: Held, o: Obs): Obs {
    var ok := h.stage == SawGate(true);
    o.(primaryReady := ok, backupReady := ok)
  }

  /** One step; an action that is not enabled changes nothing. */
  function Exec(s: State, a: Action): State {
    match a
    case ReadPivot(r) => if s.row.Some? then s.(held := s.held[r := Held(s.row.value, Fresh)]) else s
    case ReadDesired(r) =>
      if r in s.held && s.held[r].stage.Fresh? then
        s.(held := s.held[r := s.held[r].(stage := SawDesired(Get(s.desired, GateEdge(s.held[r].row))))])
      else s
    case ReadApplied(r) =>
      if r in s.held && s.held[r].stage.SawDesired? then
        var des := s.held[r].stage.des;
        var ok := des == 0 || Get(s.applied, GateEdge(s.held[r].row)) >= des;
        s.(held := s.held[r := s.held[r].(stage := SawGate(ok))])
      else s
    case Commit(r, o) =>
      if r in s.held && PlacedElsewhere(s.held[r].row, o.place) then
        var h := s.held[r];
        var s0 := s.(held := s.held - {r});
        if Wins(s, h.row) then Apply(s0, h.row, Decide(h.row, Gating(h, o))) else s0
      else s
    case BulkCas(row) =>
      if row in s.past && row.backup != NoEdge && Wins(s, row) then
        Write(s, row.backup, NoEdge, NoEdge, [row.backup])
          .(promoAt := -1, placeAt := -1, log := s.log + [BulkMoved(row.backup, row.primary)])
      else s
    case ManualPromote(row) =>
      if row in s.past && row.backup != NoEdge && Wins(s, row) then
        Promotion(s, row, false, [row.backup, row.primary])
      else s
    case ManualProvision(row, o, cleared) =>
      if row in s.past && PlacedElsewhere(row, o.place) && Wins(s, row) then
        match Provision(if cleared then row.(backup := NoEdge) else row, o)
        case Put(_, backup, _, bumps) => Provisioned(s, row, backup, bumps)
        case d => Apply(s, row, d)
      else s
    case Edit =>
      if s.row.Some? then
        var row := s.row.value.(version := s.row.value.version + 1);
        s.(row := Some(row), past := s.past + {row})
      else s
    case Bump(e) => s.(desired := BumpOne(s.desired, e))
    case Advance(e, v) => if v > Get(s.applied, e) then s.(applied := s.applied[e := v]) else s
  }

  function Run(s: State, acts: seq<Action>): State
    decreases |acts|
  {
    if acts == [] then s else Run(Exec(s, acts[0]), acts[1..])
  }

  /** Just after create: version 1, a backup nobody provisioned, nothing held. */
  ghost predicate Init(s: State) {
    && s.row.Some? && Shaped(s.row.value) && s.row.value.retiring == NoEdge
    && s.past == {s.row.value} && s.held == map[] && s.log == [] && s.promoAt == -1 && s.placeAt == -1
  }

  // ---- the row keeps its shape ----

  /** The homes the scheduler selects at create make a row of that shape. */
  lemma CreatedShaped(d: Scheduler.Demand, candidates: set<EdgeId>, n: nat, homes: seq<EdgeId>)
    requires n >= 1 && NoEdge !in candidates && Scheduler.WorstFit(d, candidates, n, homes)
    ensures Shaped(Row(homes[0], if n >= 2 then homes[1] else NoEdge, NoEdge, 1))
  {
    assert homes[0] in homes;
  }

  /** A backup selected among candidates that leave out both homes is a third edge. */
  lemma SelectedElsewhere(d: Scheduler.Demand, candidates: set<EdgeId>, homes: seq<EdgeId>, row: Row)
    requires Scheduler.WorstFit(d, candidates, 1, homes)
    requires NoEdge !in candidates && row.primary !in candidates && row.backup !in candidates
    ensures PlacedElsewhere(row, Some(homes[0]))
  {
    assert homes[0] in homes;
  }

  ghost predicate PastOk(s: State) {
    forall q :: q in s.past ==>
      (s.row.Some? ==> q.version <= s.row.value.version && (q.version == s.row.value.version ==> q == s.row.value))
  }

  ghost predicate HeldPast(s: State) {
    forall r :: r in s.held ==> s.held[r].row in s.past
  }

  ghost predicate RowInv(s: State) {
    && PastOk(s) && HeldPast(s)
    && (s.row.Some? ==> s.row.value in s.past && Shaped(s.row.value))
  }

  lemma WinnerIsCurrent(s: State, row: Row)
    requires RowInv(s) && row in s.past && Wins(s, row)
    ensures s.row == Some(row)
  {
  }

  predicate Writes(a: Action) {
    a.Commit? || a.BulkCas? || a.ManualPromote? || a.ManualProvision?
  }

  lemma WriteKeepsRow(s: State, primary: EdgeId, backup: EdgeId, retiring: EdgeId, bumps: seq<EdgeId>)
    requires RowInv(s) && s.row.Some? && Shaped(Row(primary, backup, retiring, 0))
    ensures RowInv(Write(s, primary, backup, retiring, bumps))
  {
  }

  lemma QuietKeepsRow(s: State, a: Action)
    requires RowInv(s) && !Writes(a)
    ensures RowInv(Exec(s, a))
  {
  }

  lemma CommitKeepsRow(s: State, r: Replica, o: Obs)
    requires RowInv(s) && r in s.held && PlacedElsewhere(s.held[r].row, o.place) && s.row == Some(s.held[r].row)
    ensures RowInv(Exec(s, Commit(r, o)))
  {
    var h := s.held[r];
    var d := Decide(h.row, Gating(h, o));
    if d.Put? {
      WriteKeepsRow(s.(held := s.held - {r}), d.primary, d.backup, d.retiring, d.bumps);
    }
  }

  lemma ManualProvisionKeepsRow(s: State, row: Row, o: Obs, cleared: bool)
    requires RowInv(s) && s.row == Some(row) && PlacedElsewhere(row, o.place)
    ensures RowInv(Exec(s, ManualProvision(row, o, cleared)))
  {
    var d := Provision(if cleared then row.(backup := NoEdge) else row, o);
    if d.Put? {
      WriteKeepsRow(s, row.primary, d.backup, row.retiring, d.bumps);
    }
  }

  /** Every action keeps: primary non-empty, different from backup and from retiring. */
  lemma RowStep(s: State, a: Action)
    requires RowInv(s)
    ensures RowInv(Exec(s, a))
  {
    match a
    case Commit(r, o) =>
      if r in s.held && PlacedElsewhere(s.held[r].row, o.place) && Wins(s, s.held[r].row) {
        WinnerIsCurrent(s, s.held[r].row);
        CommitKeepsRow(s, r, o);
      }
    case BulkCas(row) =>
      if row in s.past && row.backup != NoEdge && Wins(s, row) {
        WinnerIsCurrent(s, row);
        WriteKeepsRow(s, row.backup, NoEdge, NoEdge, [row.backup]);
      }
    case ManualPromote(row) =>
      if row in s.past && row.backup != NoEdge && Wins(s, row) {
        WinnerIsCurrent(s, row);
        WriteKeepsRow(s, row.backup, NoEdge, row.primary, [row.backup, row.primary]);
      }
    case ManualProvision(row, o, cleared) =>
      if row in s.past && PlacedElsewhere(row, o.place) && Wins(s, row) {
        WinnerIsCurrent(s, row);
        ManualProvisionKeepsRow(s, row, o, cleared);
      }
    case _ => QuietKeepsRow(s, a);
  }

  /** In every reachable state the row has its shape. */
  lemma {:induction false} ReachableShaped(s: State, acts: seq<Action>)
    requires RowInv(s)
    ensures RowInv(Run(s, acts))
    decreases |acts|
  {
    if acts != [] {
      RowStep(s, acts[0]);
      ReachableShaped(Exec(s, acts[0]), acts[1..]);
    }
  }

  // ---- steps and short runs ----

  /** The edges of the row, without its version. */
  predicate SameEdges(a: Option<Row>, b: Option<Row>) {
    a.Some? == b.Some? && (a.Some? ==> a.value == b.value.(version := a.value.version))
  }

  /** A decision to stay changes nothing, any other leaves one log entry. */
  lemma ApplyLogs(s: State, row: Row, d: Decision)
    requires s.row.Some?
    ensures if d.Stay? then Apply(s, row, d) == s else |Apply(s, row, d).log| == |s.log| + 1
  {
  }

  /** The protocol stores the row the decision names. */
  lemma ApplyRow(s: State, row: Row, o: Obs)
    requires s.row == Some(row) && Shaped(row)
    ensures var d := Decide(row, o);
      Apply(s, row, d).row ==
        match d
        case Stay(_) => s.row
        case Put(primary, backup, retiring, _) => Some(Row(primary, backup, retiring, row.version + 1))
        case Drop(_) => None
  {
  }

  lemma RunFour(s: State, a: Action, b: Action, c: Action, d: Action)
    ensures Run(s, [a, b, c, d]) == Exec(Exec(Exec(Exec(s, a), b), c), d)
  {
    assert [a, b, c, d][1..] == [b, c, d];
    assert [b, c, d][1..] == [c, d];
    assert [c, d][1..] == [d];
    assert [d][1..] == [];
    var s1, s2, s3 := Exec(s, a), Exec(Exec(s, a), b), Exec(Exec(Exec(s, a), b), c);
    assert Run(s, [a, b, c, d]) == Run(s1, [b, c, d]);
    assert Run(s1, [b, c, d]) == Run(s2, [c, d]);
    assert Run(s2, [c, d]) == Run(s3, [d]);
    assert Run(s3, [d]) == Run(Exec(s3, d), []);
  }
}
