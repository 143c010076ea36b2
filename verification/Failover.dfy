/** The failover pivot: what one reconcile pass decides, and what every
    interleaving of any number of replicas can do to one pool's row. */
module Failover {
  import opened Model
  import opened YbStore
  import opened StoreRefinement

  datatype Row = Row(primary: EdgeId, backup: EdgeId, retiring: EdgeId, version: nat)

  datatype Status = Healthy | Acted | Gated | Degraded | Conflict

  /** What a pass sees of the world, in the order it looks. Liveness is asked more than
      once and may have changed in between; `place` is the scheduler's answer. */
  datatype Obs = Obs(
    primaryAlive: bool, backupAlive: bool, backupStill: bool, primaryStill: bool,
    primaryReady: bool, backupReady: bool,
    place: Option<EdgeId>, replicas: nat, failOpen: bool)

  datatype Decision =
    | Stay(status: Status)
    | Put(primary: EdgeId, backup: EdgeId, retiring: EdgeId, bumps: seq<EdgeId>)
    | Drop(bumps: seq<EdgeId>)

  function Decide(row: Row, o: Obs): Decision {
    if row.retiring != NoEdge then
      if !o.primaryReady || !o.primaryAlive then Stay(Gated)
      else Put(row.primary, row.backup, NoEdge, [row.retiring])
    else if !o.primaryAlive then
      if row.backup == NoEdge || !o.backupAlive then Provision(row, o)
      else if !o.backupReady then Stay(Gated)
      else if !o.backupStill then Provision(row, o)
      else Put(row.backup, NoEdge, row.primary, [row.backup])
    else if o.replicas >= 2 && (row.backup == NoEdge || !o.backupAlive) then Provision(row, o)
    else Stay(Healthy)
  }

  function Provision(row: Row, o: Obs): Decision {
    match o.place
    case Some(edge) =>
      Put(row.primary, edge, row.retiring,
          (if row.backup != NoEdge && row.backup != edge then [row.backup] else []) + [edge])
    case None =>
      if !o.primaryStill && o.failOpen then Drop(Homes(row)) else Stay(Degraded)
  }

  function Homes(row: Row): seq<EdgeId> {
    if row.backup == NoEdge then [row.primary] else [row.primary, row.backup]
  }

  /** The scheduler was given neither current home as a candidate. */
  predicate PlacedElsewhere(row: Row, place: Option<EdgeId>) {
    place.Some? ==> place.value != NoEdge && place.value != row.primary && place.value != row.backup
  }

  // ---- what a pass decides, branch by branch ----

  /** A pass waits, writing nothing, exactly when a retire is pending and its new primary is
      not both caught up and alive, or the primary is dead and the live backup has not caught
      up. */
  lemma GatedIff(row: Row, o: Obs)
    ensures Decide(row, o) == Stay(Gated) <==>
      || (row.retiring != NoEdge && !(o.primaryReady && o.primaryAlive))
      || (row.retiring == NoEdge && !o.primaryAlive && row.backup != NoEdge && o.backupAlive && !o.backupReady)
  {
  }

  /** A pass looks for a new backup exactly when no retire is pending and there is no backup
      to run on or promote: it is missing or dead, or died just before the promote. */
  lemma LooksForBackupIff(row: Row, o: Obs)
    ensures var lost := row.backup == NoEdge || !o.backupAlive;
      var looks := row.retiring == NoEdge
        && if o.primaryAlive then o.replicas >= 2 && lost else lost || (o.backupReady && !o.backupStill);
      var d := Decide(row, o);
      && (d.Drop? <==> looks && o.place.None? && !o.primaryStill && o.failOpen)
      && (d == Stay(Degraded) <==> looks && o.place.None? && !(!o.primaryStill && o.failOpen))
      && (looks && o.place.Some? ==>
          d.Put? && d.primary == row.primary && d.backup == o.place.value && d.retiring == NoEdge)
  {
  }

  /** A pool is torn down only if it is fail-open, its primary is still dead, no spare edge
      was found, no retire is pending, and its backup is missing, dead or just died. */
  lemma TearsDownOnlyIf(row: Row, o: Obs)
    requires Decide(row, o).Drop?
    ensures row.retiring == NoEdge && o.failOpen && !o.primaryStill && o.place.None?
    ensures row.backup == NoEdge || !o.backupAlive || !o.backupStill
  {
    LooksForBackupIff(row, o);
  }

  /** The two moves: a retire clears the marker and nothing else, a promote puts the backup in
      the primary's place and the primary in the marker. Nothing else is written, and a pool
      that needs nothing is left healthy. */
  lemma MovesIff(row: Row, o: Obs)
    ensures var d := Decide(row, o);
      && (row.retiring != NoEdge && o.primaryReady && o.primaryAlive ==>
          d.Put? && d.primary == row.primary && d.backup == row.backup && d.retiring == NoEdge)
      && (row.retiring == NoEdge && !o.primaryAlive && row.backup != NoEdge
          && o.backupAlive && o.backupReady && o.backupStill ==>
          d.Put? && d.primary == row.backup && d.backup == NoEdge && d.retiring == row.primary)
      && (d == Stay(Healthy) <==>
          row.retiring == NoEdge && o.primaryAlive && (o.replicas < 2 || (row.backup != NoEdge && o.backupAlive)))
      && d != Stay(Acted) && d != Stay(Conflict)
  {
  }

  /** A pass bumps edges: never the empty name, and none twice. */
  lemma BumpsEdges(row: Row, o: Obs)
    requires Shaped(row) && PlacedElsewhere(row, o.place)
    ensures !Bumps(Decide(row, o), NoEdge)
    ensures var d := Decide(row, o); d.Put? || d.Drop? ==> Distinct(d.bumps)
  {
  }

  // ---- what an edge renders, and which edges are told ----

  datatype Role = Full | Standby | NoRole

  /** What an edge renders for the pool. The render asks for the pools whose home column and
      whose backup column name the edge, and for nothing else: a retiring edge has no role. */
  function RoleOf(row: Row, e: EdgeId): Role {
    if e == row.primary then Full else if e == row.backup then Standby else NoRole
  }

  function PoolsForHome(t: Tables, e: EdgeId): set<PoolId> {
    set id | id in t.pools && t.pools[id].home == e
  }

  function PoolsForBackup(t: Tables, e: EdgeId): set<PoolId> {
    set id | id in t.pools && t.pools[id].backup == e
  }

  lemma RoleIsRendered(t: Tables, id: PoolId, e: EdgeId)
    requires id in t.pools && t.pools[id].home != t.pools[id].backup
    ensures var role := RoleOf(Pivot(ReadRow(t, id)), e);
      (role == Full <==> id in PoolsForHome(t, e)) && (role == Standby <==> id in PoolsForBackup(t, e))
  {
  }

  /** The decision's write changes what the edge renders. */
  predicate Changes(row: Row, d: Decision, e: EdgeId) {
    match d
    case Stay(_) => false
    case Put(primary, backup, retiring, _) =>
      RoleOf(row, e) != RoleOf(Row(primary, backup, retiring, row.version + 1), e)
    case Drop(_) => RoleOf(row, e) != NoRole
  }

  predicate Bumps(d: Decision, e: EdgeId) {
    (d.Put? || d.Drop?) && e in d.bumps
  }

  /** The shape every stored row has (see `PivotProtocol.ReachableShaped`). */
  predicate Shaped(row: Row) {
    row.primary != NoEdge && row.primary != row.backup && row.primary != row.retiring
  }

  /** The guards of the two branches that bump out of step with what they change. */
  predicate Retires(row: Row, o: Obs) {
    row.retiring != NoEdge && o.primaryReady && o.primaryAlive
  }

  predicate Promotes(row: Row, o: Obs) {
    && row.retiring == NoEdge && !o.primaryAlive
    && row.backup != NoEdge && o.backupAlive && o.backupReady && o.backupStill
  }

  /** A pass bumps exactly the edges whose render its write changes, except the retiring edge
      when it retires and the old primary when it promotes. */
  lemma BumpsMatchIff(row: Row, o: Obs, e: EdgeId)
    requires Shaped(row) && PlacedElsewhere(row, o.place) && e != NoEdge
    ensures var d := Decide(row, o);
      (Bumps(d, e) <==> Changes(row, d, e)) <==>
        !((Retires(row, o) && e == row.retiring) || (Promotes(row, o) && e == row.primary))
  {
    if row.retiring == NoEdge {
      ProvisionBumpsMatch(row, o, e);
    }
  }

  /** Placing a backup and tearing a pool down bump exactly the edges they change. */
  lemma ProvisionBumpsMatch(row: Row, o: Obs, e: EdgeId)
    requires Shaped(row) && PlacedElsewhere(row, o.place) && e != NoEdge
    ensures Bumps(Provision(row, o), e) <==> Changes(row, Provision(row, o), e)
  {
  }

  /** A promote takes the old primary from full to nothing without telling it: it is the one
      edge changed and not bumped, and the one recorded as retiring. */
  lemma PromoteOwesOne(row: Row, o: Obs, e: EdgeId)
    requires Shaped(row) && e != NoEdge && Promotes(row, o)
    ensures var d := Decide(row, o);
      && d.Put?
      && (Changes(row, d, e) && !Bumps(d, e) <==> e == d.retiring)
      && (Bumps(d, e) ==> Changes(row, d, e))
      && d.retiring == row.primary && RoleOf(row, d.retiring) == Full
  {
  }

  /** A retire tells that edge, and changes what nobody renders. */
  lemma RetirePaysOne(row: Row, o: Obs, e: EdgeId)
    requires Shaped(row) && e != NoEdge && Retires(row, o)
    ensures var d := Decide(row, o);
      d.Put? && (Bumps(d, e) <==> e == row.retiring) && !Changes(row, d, e) && d.retiring == NoEdge
  {
  }

  /** A bulk move owes the dead primary a bump it never gets. */
  lemma BulkOwesOne(row: Row, e: EdgeId)
    requires Shaped(row) && row.backup != NoEdge && e != NoEdge
    ensures var d := Put(row.backup, NoEdge, NoEdge, [row.backup]);
      (Bumps(d, e) <==> Changes(row, d, e)) <==> e != row.primary
  {
  }

  /** A manual promote tells both edges it changes. */
  lemma ManualPromoteBumpsMatch(row: Row, e: EdgeId)
    requires Shaped(row) && row.backup != NoEdge && e != NoEdge
    ensures var d := Put(row.backup, NoEdge, row.primary, [row.backup, row.primary]);
      Bumps(d, e) <==> Changes(row, d, e)
  {
  }

  /** A manual provision that excludes the current backup works on a row with the backup
      blanked, so exactly that edge loses its standby without being told; a drain, which is
      what excludes it, bumps the drained edge once at its end. */
  lemma ManualProvisionBumpsIff(row: Row, o: Obs, cleared: bool, e: EdgeId)
    requires Shaped(row) && PlacedElsewhere(row, o.place) && e != NoEdge
    ensures var d := Provision(if cleared then row.(backup := NoEdge) else row, o);
      (Bumps(d, e) <==> Changes(row, d, e)) <==>
        !(cleared && e == row.backup && (o.place.Some? || (!o.primaryStill && o.failOpen)))
  {
    if cleared {
      ProvisionBumpsMatch(row.(backup := NoEdge), o, e);
    } else {
      ProvisionBumpsMatch(row, o, e);
    }
  }

  /** A drained backup `b` is replaced by `c`: `b` loses its standby and only `c` is told. */
  lemma ExcludedBackupUntold(a: EdgeId, b: EdgeId, c: EdgeId, o: Obs)
    requires a != NoEdge && b != NoEdge && c != NoEdge && a != b && b != c && a != c && o.place == Some(c)
    ensures var row := Row(a, b, NoEdge, 1);
      var d := Provision(row.(backup := NoEdge), o);
      && Shaped(row) && PlacedElsewhere(row, o.place)
      && Changes(row, d, b) && !Bumps(d, b) && Bumps(d, c)
  {
    ManualProvisionBumpsIff(Row(a, b, NoEdge, 1), o, true, b);
  }

  // ---- one pass on the store ----

  function Pivot(r: PivotRow): Row {
    Row(r.primary, r.backup, r.retiring, r.version)
  }

  /** One reconcile pass: read the row, decide, and write back under the version read.
      `race` is what other replicas do to the store between the read and the write. */
  method ReconcilePool(st: Store, id: PoolId, o: Obs, race: seq<Op>) returns (status: Status, bumps: seq<EdgeId>)
    modifies st
    ensures id !in old(st.pools) ==>
              status == Healthy && bumps == [] && st.View() == old(st.View())
    ensures id in old(st.pools) ==>
              var raw := ReadRow(old(st.View()), id);
              var raced := RunTables(old(st.View()), race);
              match Decide(Pivot(raw), o)
              case Stay(s) => status == s && bumps == [] && st.View() == raced
              case Put(primary, backup, retiring, bs) =>
                && st.View() == UpdateCas(raced, raw, raw.version, primary, backup, retiring).0
                && (if UpdateCas(raced, raw, raw.version, primary, backup, retiring).1 == Ok
                    then status == Acted && bumps == bs else status == Conflict && bumps == [])
              case Drop(bs) =>
                && st.View() == DeleteCas(raced, id, raw.version).0
                && (if DeleteCas(raced, id, raw.version).1 == Ok
                    then status == Degraded && bumps == bs else status == Conflict && bumps == [])
  {
    bumps := [];
    var got := st.GetForReconcile(id);
    if got.None? {
      return Healthy, [];
    }
    var raw := got.value;
    var t := RunTables(st.View(), race);
    st.pools, st.members := t.pools, t.members;
    if raw.retiring != NoEdge {
      if !o.primaryReady || !o.primaryAlive {
        return Gated, [];
      }
      var err := st.UpdateCAS(raw, raw.version, raw.primary, raw.backup, NoEdge);
      if err == ErrConflict {
        return Conflict, [];
      }
      return Acted, [raw.retiring];
    }
    if !o.primaryAlive {
      if raw.backup == NoEdge || !o.backupAlive {
        status, bumps := AsyncProvisionBackup(st, raw, o);
        return;
      }
      if !o.backupReady {
        return Gated, [];
      }
      if !o.backupStill {
        status, bumps := AsyncProvisionBackup(st, raw, o);
        return;
      }
      var err := st.UpdateCAS(raw, raw.version, raw.backup, NoEdge, raw.primary);
      if err == ErrConflict {
        return Conflict, [];
      }
      return Acted, [raw.backup];
    }
    if o.replicas >= 2 && (raw.backup == NoEdge || !o.backupAlive) {
      status, bumps := AsyncProvisionBackup(st, raw, o);
      return;
    }
    return Healthy, [];
  }

  method AsyncProvisionBackup(st: Store, raw: PivotRow, o: Obs) returns (status: Status, bumps: seq<EdgeId>)
    modifies st
    ensures match Provision(Pivot(raw), o)
            case Stay(s) => status == s && bumps == [] && st.View() == old(st.View())
            case Put(primary, backup, retiring, bs) =>
              && st.View() == UpdateCas(old(st.View()), raw, raw.version, primary, backup, retiring).0
              && (if UpdateCas(old(st.View()), raw, raw.version, primary, backup, retiring).1 == Ok
                  then status == Acted && bumps == bs else status == Conflict && bumps == [])
            case Drop(bs) =>
              && st.View() == DeleteCas(old(st.View()), raw.poolId, raw.version).0
              && (if DeleteCas(old(st.View()), raw.poolId, raw.version).1 == Ok
                  then status == Degraded && bumps == bs else status == Conflict && bumps == [])
  {
    if o.place.None? {
      if !o.primaryStill && o.failOpen {
        var err := st.DeleteCAS(raw.poolId, raw.version);
        if err == ErrConflict {
          return Conflict, [];
        }
        return Degraded, Homes(Pivot(raw));
      }
      return Degraded, [];
    }
    var newBackup := o.place.value;
    var err := st.UpdateCAS(raw, raw.version, raw.primary, newBackup, raw.retiring);
    if err == ErrConflict {
      return Conflict, [];
    }
    bumps := [];
    if raw.backup != NoEdge && raw.backup != newBackup {
      bumps := bumps + [raw.backup];
    }
    bumps := bumps + [newBackup];
    status := Acted;
  }
}
