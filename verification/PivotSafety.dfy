/** First in place, then switch; first announce the new, then withdraw the old: what the
    version gate guarantees over every run. */
module PivotSafety {
  import opened Model
  import opened Failover
  import opened PivotProtocol

  predicate Moves(e: Event) {
    e.Promoted? || e.BulkMoved?
  }

  /** Each withdraw follows the promote it finishes, with no move in between and the new
      primary caught up with the version that promote minted; each gated promote onto a
      provisioned backup found it caught up with the version its placement minted. */
  ghost predicate SafeAt(log: seq<Event>, i: nat)
    requires i < |log|
  {
    match log[i]
    case Withdrew(old', primary, at, applied) =>
      && 0 <= at < i && log[at].Promoted? && log[at].to == primary && log[at].from == old'
      && 1 <= log[at].minted <= applied
      && (forall j :: at < j < i ==> !log[j].Promoted? && !log[j].BulkMoved?)
    case Promoted(to, _, _, gated, at, applied) =>
      gated && at != -1 ==> 0 <= at < i && log[at].Placed? && log[at].edge == to && 1 <= log[at].minted <= applied
    case _ => true
  }

  ghost predicate SafeLog(log: seq<Event>) {
    forall i: nat :: i < |log| ==> SafeAt(log, i)
  }

  /** The promote behind a retiring row, and the version its new primary was given. */
  ghost predicate PromoOk(s: State) {
    s.row.Some? && s.row.value.retiring != NoEdge ==>
      && 0 <= s.promoAt < |s.log| && s.log[s.promoAt].Promoted?
      && s.log[s.promoAt].to == s.row.value.primary && s.log[s.promoAt].from == s.row.value.retiring
      && 1 <= s.log[s.promoAt].minted <= Get(s.desired, s.row.value.primary)
      && (forall j :: s.promoAt < j < |s.log| ==> !Moves(s.log[j]))
  }

  /** The placement behind a provisioned backup. */
  ghost predicate PlaceOk(s: State) {
    s.row.Some? && s.placeAt != -1 ==>
      && 0 <= s.placeAt < |s.log| && s.log[s.placeAt].Placed?
      && s.log[s.placeAt].edge == s.row.value.backup
      && 1 <= s.log[s.placeAt].minted <= Get(s.desired, s.row.value.backup)
  }

  /** The version the gate edge of the stored row must have applied. */
  ghost function Need(s: State): nat
    requires s.row.Some? && PromoOk(s) && PlaceOk(s)
  {
    if s.row.value.retiring != NoEdge then s.log[s.promoAt].minted
    else if s.placeAt != -1 then s.log[s.placeAt].minted
    else 0
  }

  /** A replica that read the stored row and then the versions knows at least that. */
  ghost predicate GateOk(s: State)
    requires PromoOk(s) && PlaceOk(s)
  {
    s.row.Some? ==> forall r :: r in s.held && s.held[r].row == s.row.value ==>
      match s.held[r].stage
      case Fresh => true
      case SawDesired(des) => Need(s) <= des
      case SawGate(ok) => ok ==> Need(s) <= Get(s.applied, GateEdge(s.row.value))
  }

  ghost predicate GateInv(s: State) {
    PromoOk(s) && PlaceOk(s) && GateOk(s) && SafeLog(s.log)
  }

  lemma SafeSnoc(log: seq<Event>, e: Event)
    requires SafeLog(log) && SafeAt(log + [e], |log|)
    ensures SafeLog(log + [e])
  {
    forall i: nat | i < |log + [e]|
      ensures SafeAt(log + [e], i)
    {
      if i < |log| {
        assert SafeAt(log, i);
      }
    }
  }

  lemma {:induction false} BumpedGrows(m: map<EdgeId, nat>, es: seq<EdgeId>, e: EdgeId)
    requires e in es && e != NoEdge
    ensures Get(BumpAll(m, es), e) >= Get(m, e) + 1
    decreases |es|
  {
    if es[0] != e {
      BumpedGrows(BumpOne(m, es[0]), es[1..], e);
    }
  }

  lemma ProvisionedGate(s: State, row: Row, edge: EdgeId, bumps: seq<EdgeId>)
    requires RowInv(s) && GateInv(s) && s.row == Some(row) && edge in bumps && edge != NoEdge
    ensures GateInv(Provisioned(s, row, edge, bumps))
  {
    BumpedGrows(s.desired, bumps, edge);
    SafeSnoc(s.log, Placed(edge, Get(Write(s, row.primary, edge, row.retiring, bumps).desired, edge)));
  }

  lemma PromotionGate(s: State, row: Row, gated: bool, bumps: seq<EdgeId>)
    requires RowInv(s) && GateInv(s) && s.row == Some(row) && row.backup in bumps && row.backup != NoEdge
    requires gated && s.placeAt != -1 ==> s.log[s.placeAt].minted <= Get(s.applied, row.backup)
    ensures GateInv(Promotion(s, row, gated, bumps))
  {
    BumpedGrows(s.desired, bumps, row.backup);
    var s' := Promotion(s, row, gated, bumps);
    SafeSnoc(s.log, s'.log[|s.log|]);
  }

  lemma CommitGate(s: State, r: Replica, o: Obs)
    requires RowInv(s) && GateInv(s) && r in s.held && PlacedElsewhere(s.held[r].row, o.place)
    requires s.row == Some(s.held[r].row)
    ensures GateInv(Exec(s, Commit(r, o)))
  {
    var h := s.held[r];
    var s0 := s.(held := s.held - {r});
    var d := Decide(h.row, Gating(h, o));
    assert RowInv(s0) && GateInv(s0);
    if d.Put? {
      if h.row.retiring != NoEdge {
        SafeSnoc(s.log, Withdrew(h.row.retiring, h.row.primary, s.promoAt, Get(s.applied, h.row.primary)));
      } else if d.primary != h.row.primary {
        PromotionGate(s0, h.row, true, d.bumps);
      } else {
        ProvisionedGate(s0, h.row, d.backup, d.bumps);
      }
    } else if d.Drop? {
      SafeSnoc(s.log, Dropped);
    }
  }

  lemma QuietGate(s: State, a: Action)
    requires RowInv(s) && GateInv(s) && !Writes(a)
    ensures GateInv(Exec(s, a))
  {
  }

  lemma BulkGate(s: State, row: Row)
    requires RowInv(s) && GateInv(s)
    ensures GateInv(Exec(s, BulkCas(row)))
  {
    SafeSnoc(s.log, BulkMoved(row.backup, row.primary));
  }

  lemma ManualProvisionGate(s: State, row: Row, o: Obs, cleared: bool)
    requires RowInv(s) && GateInv(s) && s.row == Some(row) && PlacedElsewhere(row, o.place)
    ensures GateInv(Exec(s, ManualProvision(row, o, cleared)))
  {
    var d := Provision(if cleared then row.(backup := NoEdge) else row, o);
    if d.Put? {
      ProvisionedGate(s, row, d.backup, d.bumps);
    } else {
      SafeSnoc(s.log, Dropped);
    }
  }

  lemma GateStep(s: State, a: Action)
    requires RowInv(s) && GateInv(s)
    ensures GateInv(Exec(s, a))
  {
    match a
    case Commit(r, o) =>
      if r in s.held && PlacedElsewhere(s.held[r].row, o.place) && Wins(s, s.held[r].row) {
        WinnerIsCurrent(s, s.held[r].row);
        CommitGate(s, r, o);
      }
    case BulkCas(row) => BulkGate(s, row);
    case ManualPromote(row) =>
      if row in s.past && row.backup != NoEdge && Wins(s, row) {
        WinnerIsCurrent(s, row);
        PromotionGate(s, row, false, [row.backup, row.primary]);
      }
    case ManualProvision(row, o, cleared) =>
      if row in s.past && PlacedElsewhere(row, o.place) && Wins(s, row) {
        WinnerIsCurrent(s, row);
        ManualProvisionGate(s, row, o, cleared);
      }
    case _ => QuietGate(s, a);
  }

  /** In every run the log is safe: no withdraw bump before the new primary has applied
      its promote, no gated promote before the backup has applied its placement. */
  lemma {:induction false} RunsAreSafe(s: State, acts: seq<Action>)
    requires RowInv(s) && GateInv(s)
    ensures SafeLog(Run(s, acts).log)
    decreases |acts|
  {
    if acts != [] {
      RowStep(s, acts[0]);
      GateStep(s, acts[0]);
      RunsAreSafe(Exec(s, acts[0]), acts[1..]);
    }
  }

  lemma InitIsSafe(s: State)
    requires Init(s)
    ensures RowInv(s) && GateInv(s)
  {
  }
}
