/** How far the reconciler's gate reaches: what it does not guard. */
module PivotReach {
  import opened Model
  import opened Failover
  import opened PivotProtocol

  /** A manual promote bumps both edges at once, and the new primary has applied the version
      it was just given exactly when its applied version was ahead of its desired one. */
  lemma ManualPromoteGatedIff(s: State, row: Row)
    requires RowInv(s) && s.row == Some(row) && row.backup != NoEdge
    ensures var s' := Exec(s, ManualPromote(row));
      && |s'.log| == |s.log| + 1 && s'.log[|s.log|].Promoted?
      && Get(s'.desired, row.primary) == Get(s.desired, row.primary) + 1
      && (Get(s'.applied, row.backup) >= s'.log[|s.log|].minted
          <==> Get(s.applied, row.backup) > Get(s.desired, row.backup))
  {
    assert BumpAll(s.desired, [row.backup, row.primary])
        == BumpAll(BumpOne(s.desired, row.backup), [row.primary]);
    assert BumpAll(BumpOne(s.desired, row.backup), [row.primary])
        == BumpAll(BumpOne(BumpOne(s.desired, row.backup), row.primary), []);
  }

  /** So while agents echo only versions they were given, the old primary is always bumped
      before the new one has applied its promote. */
  lemma ManualPromoteIsUngated(s: State, row: Row)
    requires RowInv(s) && s.row == Some(row) && row.backup != NoEdge
    requires Get(s.applied, row.backup) <= Get(s.desired, row.backup)
    ensures var s' := Exec(s, ManualPromote(row));
            && Get(s'.desired, row.primary) == Get(s.desired, row.primary) + 1
            && Get(s'.applied, row.backup) < s'.log[|s.log|].minted
  {
    ManualPromoteGatedIff(s, row);
  }

  lemma WriterStep(s: State, a: Action)
    requires Writes(a)
    ensures var s' := Exec(s, a);
      |s'.log| > |s.log| || (s'.log == s.log && s'.row == s.row && s'.desired == s.desired)
  {
    match a
    case Commit(r, o) =>
      if r in s.held && Wins(s, s.held[r].row) {
        ApplyLogs(s.(held := s.held - {r}), s.held[r].row, Decide(s.held[r].row, Gating(s.held[r], o)));
      }
    case ManualProvision(row, o, cleared) =>
      if Wins(s, row) {
        ApplyLogs(s, row, Provision(if cleared then row.(backup := NoEdge) else row, o));
      }
    case _ =>
  }

  lemma OtherStep(s: State, a: Action, e: EdgeId)
    requires e != NoEdge && !Writes(a)
    ensures Exec(s, a).log == s.log && SameEdges(s.row, Exec(s, a).row)
    ensures Get(Exec(s, a).desired, e) == Get(s.desired, e) + if a == Bump(e) then 1 else 0
  {
  }

  lemma QuietStep(s: State, a: Action, e: EdgeId)
    requires e != NoEdge
    ensures |Exec(s, a).log| >= |s.log|
    ensures |Exec(s, a).log| == |s.log| ==>
      && SameEdges(s.row, Exec(s, a).row)
      && Get(Exec(s, a).desired, e) == Get(s.desired, e) + if a == Bump(e) then 1 else 0
  {
    if Writes(a) {
      WriterStep(s, a);
    } else {
      OtherStep(s, a, e);
    }
  }

  lemma {:induction false} LogGrows(s: State, acts: seq<Action>)
    ensures |Run(s, acts).log| >= |s.log|
    decreases |acts|
  {
    if acts != [] {
      QuietStep(s, acts[0], "x");
      LogGrows(Exec(s, acts[0]), acts[1..]);
    }
  }

  /** A stretch of a run without a pivot write: the row keeps its edges, and an edge is told
      to render again exactly if somebody bumps it. */
  lemma {:induction false} QuietStretch(s: State, acts: seq<Action>, e: EdgeId)
    requires |Run(s, acts).log| == |s.log| && e != NoEdge
    ensures SameEdges(s.row, Run(s, acts).row)
    ensures Get(Run(s, acts).desired, e) >= Get(s.desired, e)
    ensures Get(Run(s, acts).desired, e) == Get(s.desired, e) <==> Bump(e) !in acts
    decreases |acts|
  {
    if acts != [] {
      QuietStep(s, acts[0], e);
      LogGrows(Exec(s, acts[0]), acts[1..]);
      QuietStretch(Exec(s, acts[0]), acts[1..], e);
      assert acts == [acts[0]] + acts[1..];
    }
  }

  /** The retire gate guards the bump, not the render. From the promote on the old primary
      renders nothing, or standby if it was chosen as the new backup, so until the retire it
      stays announced exactly as long as nobody bumps it for another reason. */
  lemma StaysAnnouncedIff(s: State, acts: seq<Action>, row: Row)
    requires RowInv(s) && s.row == Some(row) && row.retiring != NoEdge
    requires |Run(s, acts).log| == |s.log|
    ensures var s' := Run(s, acts);
      && s'.row.Some? && s'.row.value.retiring == row.retiring
      && RoleOf(s'.row.value, row.retiring) == (if row.retiring == row.backup then Standby else NoRole)
      && (Get(s'.desired, row.retiring) == Get(s.desired, row.retiring) <==> Bump(row.retiring) !in acts)
  {
    QuietStretch(s, acts, row.retiring);
  }

  /** Such a run: `a` is dead, `b` is promoted by a gated pass, and a bump of `a` for some
      other pool makes it render nothing while `b` has not applied its promote. */
  lemma EarlyWithdraw(a: EdgeId, b: EdgeId, o: Obs)
    requires a != NoEdge && b != NoEdge && a != b
    requires !o.primaryAlive && o.backupAlive && o.backupStill && o.place.None?
    ensures var s := State(Some(Row(a, b, NoEdge, 1)), -1, -1, {Row(a, b, NoEdge, 1)}, map[], map[], map[], []);
      var promoted := Run(s, [ReadPivot(0), ReadDesired(0), ReadApplied(0), Commit(0, o)]);
      var after := Exec(promoted, Bump(a));
      && Init(s) && promoted.row == Some(Row(b, NoEdge, a, 2))
      && Get(promoted.desired, a) == 0 && Get(after.desired, a) == 1
      && RoleOf(after.row.value, a) == NoRole
      && |after.log| == 1 && after.log[0].Promoted? && Get(after.applied, b) < after.log[0].minted
  {
    var s := State(Some(Row(a, b, NoEdge, 1)), -1, -1, {Row(a, b, NoEdge, 1)}, map[], map[], map[], []);
    var s1 := Exec(s, ReadPivot(0));
    var s2 := Exec(s1, ReadDesired(0));
    var s3 := Exec(s2, ReadApplied(0));
    var s4 := Exec(s3, Commit(0, o));
    assert s3.held[0] == Held(Row(a, b, NoEdge, 1), SawGate(true));
    assert BumpAll(map[], [b]) == BumpAll(BumpOne(map[], b), []);
    assert s4.row == Some(Row(b, NoEdge, a, 2));
    RunFour(s, ReadPivot(0), ReadDesired(0), ReadApplied(0), Commit(0, o));
  }
}
