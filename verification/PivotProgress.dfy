/** How often one pool's row can be written while liveness stays as it is, and
    where a pool settles. */
module PivotProgress {
  import opened Model
  import opened Failover
  import opened PivotProtocol
  import PivotSafety

  type Liveness = EdgeId -> bool

  predicate LiveBackup(alive: Liveness, row: Row) {
    row.backup != NoEdge && alive(row.backup)
  }

  /** How many more pivot writes a row can take. */
  function Rank(alive: Liveness, row: Row): nat {
    if alive(row.primary) then
      (if row.retiring != NoEdge then 1 else 0) + (if LiveBackup(alive, row) then 0 else 1)
    else if row.retiring == NoEdge then
      if LiveBackup(alive, row) then 3 else 4
    else
      if LiveBackup(alive, row) then 2 else 0
  }

  function RankOf(alive: Liveness, s: State): nat {
    if s.row.Some? then Rank(alive, s.row.value) else 0
  }

  /** What a pass sees when the liveness oracle does not move. */
  predicate Sees(alive: Liveness, row: Row, o: Obs) {
    && o.primaryAlive == alive(row.primary) && o.primaryStill == alive(row.primary)
    && o.backupAlive == alive(row.backup) && o.backupStill == alive(row.backup)
    && (o.place.Some? ==> alive(o.place.value))
  }

  /** The automatic actions: passes and bulk moves under the fixed oracle, and
      everything that does not write the pivot. */
  predicate Automatic(alive: Liveness, s: State, a: Action) {
    match a
    case Commit(r, o) => r in s.held ==> Sees(alive, s.held[r].row, o)
    case BulkCas(row) => !alive(row.primary) && alive(row.backup)
    case ManualPromote(_) => false
    case ManualProvision(_, _, _) => false
    case _ => true
  }

  ghost predicate AutomaticRun(alive: Liveness, s: State, acts: seq<Action>)
    decreases |acts|
  {
    acts == [] || (Automatic(alive, s, acts[0]) && AutomaticRun(alive, Exec(s, acts[0]), acts[1..]))
  }

  lemma CommitDropsRank(alive: Liveness, s: State, r: Replica, o: Obs)
    requires r in s.held && s.row == Some(s.held[r].row) && Shaped(s.held[r].row)
    requires PlacedElsewhere(s.held[r].row, o.place) && Sees(alive, s.held[r].row, o)
    ensures var s' := Exec(s, Commit(r, o)); |s'.log| + RankOf(alive, s') <= |s.log| + RankOf(alive, s)
  {
  }

  lemma RankStep(alive: Liveness, s: State, a: Action)
    requires RowInv(s) && Automatic(alive, s, a)
    ensures var s' := Exec(s, a); |s'.log| + RankOf(alive, s') <= |s.log| + RankOf(alive, s)
  {
    match a
    case Commit(r, o) =>
      if r in s.held && PlacedElsewhere(s.held[r].row, o.place) && Wins(s, s.held[r].row) {
        WinnerIsCurrent(s, s.held[r].row);
        CommitDropsRank(alive, s, r, o);
      }
    case BulkCas(row) =>
      if row in s.past && row.backup != NoEdge && Wins(s, row) {
        WinnerIsCurrent(s, row);
      }
    case _ =>
  }

  /** However the replicas interleave, each successful pivot write uses up rank ... */
  lemma {:induction false} WritesUseRank(alive: Liveness, s: State, acts: seq<Action>)
    requires RowInv(s) && AutomaticRun(alive, s, acts)
    ensures var s' := Run(s, acts); |s'.log| + RankOf(alive, s') <= |s.log| + RankOf(alive, s)
    decreases |acts|
  {
    if acts != [] {
      RankStep(alive, s, acts[0]);
      RowStep(s, acts[0]);
      WritesUseRank(alive, Exec(s, acts[0]), acts[1..]);
    }
  }

  /** ... so at most four of them succeed on one incarnation of a pool. */
  lemma AtMostFourWrites(alive: Liveness, s: State, acts: seq<Action>)
    requires RowInv(s) && AutomaticRun(alive, s, acts)
    ensures |Run(s, acts).log| - |s.log| <= 4
  {
    WritesUseRank(alive, s, acts);
  }

  // ---- sequential passes, every version applied ----

  datatype World = World(alive: Liveness, place: (EdgeId, EdgeId) -> Option<EdgeId>, replicas: nat, failOpen: bool)
  {
    /** The scheduler only offers live edges other than the two homes. */
    ghost predicate Honest() {
      forall p, b :: place(p, b).Some? ==>
        place(p, b).value != NoEdge && place(p, b).value != p && place(p, b).value != b && alive(place(p, b).value)
    }

    function Seen(row: Row): Obs {
      Obs(alive(row.primary), alive(row.backup), alive(row.backup), alive(row.primary), true, true,
          place(row.primary, row.backup), replicas, failOpen)
    }
  }

  function Pass(w: World, row: Option<Row>): (Option<Row>, Status) {
    match row
    case None => (None, Healthy)
    case Some(r) =>
      match Decide(r, w.Seen(r))
      case Stay(status) => (row, status)
      case Drop(_) => (None, Degraded)
      case Put(primary, backup, retiring, _) => (Some(Row(primary, backup, retiring, r.version + 1)), Acted)
  }

  function Passes(w: World, row: Option<Row>, n: nat): Option<Row>
    decreases n
  {
    if n == 0 then row else Passes(w, Pass(w, row).0, n - 1)
  }

  /** A retiring row whose new primary has died waits for it; nothing else is stuck. */
  predicate Stuck(w: World, row: Option<Row>) {
    row.Some? && row.value.retiring != NoEdge && !w.alive(row.value.primary)
  }

  /** Nothing left to do for this pool. */
  predicate Settled(w: World, row: Row) {
    && row.retiring == NoEdge && w.alive(row.primary)
    && (w.replicas < 2 || LiveBackup(w.alive, row))
  }

  lemma PassMeans(w: World, row: Row)
    ensures Pass(w, Some(row)).1 == Healthy <==> Settled(w, row)
    ensures Pass(w, Some(row)).1 == Gated <==> Stuck(w, Some(row))
    ensures Pass(w, Some(row)).1 == Degraded <==>
              (!Stuck(w, Some(row)) && row.retiring == NoEdge && !LiveBackup(w.alive, row)
               && (w.alive(row.primary) ==> w.replicas >= 2) && w.place(row.primary, row.backup).None?)
    ensures Pass(w, Some(row)).1 != Conflict
  {
  }

  lemma PassDropsRank(w: World, row: Row)
    requires w.Honest() && Pass(w, Some(row)).1 == Acted
    ensures Pass(w, Some(row)).0.Some? && Rank(w.alive, Pass(w, Some(row)).0.value) < Rank(w.alive, row)
    ensures !Stuck(w, Pass(w, Some(row)).0)
  {
  }

  /** After `n` passes the next one reports a stable pool. */
  predicate SettlesAfter(w: World, row: Option<Row>, n: nat) {
    var status := Pass(w, Passes(w, row, n)).1;
    status == Healthy || status == Degraded
  }

  /** Passes one after the other reach Healthy or Degraded within the rank of the row
      they start from, hence within four, unless the row starts out stuck. */
  lemma {:induction false} PassesSettle(w: World, row: Option<Row>)
    requires w.Honest() && !Stuck(w, row)
    ensures exists n: nat :: n <= (if row.Some? then Rank(w.alive, row.value) else 0) <= 4 && SettlesAfter(w, row, n)
    decreases if row.Some? then Rank(w.alive, row.value) else 0
  {
    if row.Some? && Pass(w, row).1 == Acted {
      PassDropsRank(w, row.value);
      var next := Pass(w, row).0;
      PassesSettle(w, next);
      var k: nat :| k <= Rank(w.alive, next.value) && SettlesAfter(w, next, k);
      assert SettlesAfter(w, row, k + 1);
    } else {
      if row.Some? {
        PassMeans(w, row.value);
      }
      assert SettlesAfter(w, row, 0);
    }
  }

  /** A stuck row stays as it is for as long as the oracle does. */
  lemma {:induction false} StuckStays(w: World, row: Row, n: nat)
    requires Stuck(w, Some(row))
    ensures Passes(w, Some(row), n) == Some(row) && Pass(w, Some(row)).1 == Gated
  {
    if n > 0 {
      StuckStays(w, row, n - 1);
    }
  }

  // ---- passes are runs ----

  lemma {:induction false} RunConcat(s: State, a: seq<Action>, b: seq<Action>)
    ensures Run(s, a + b) == Run(Run(s, a), b)
    decreases |a|
  {
    if a == [] {
      assert a + b == b;
    } else {
      assert (a + b)[0] == a[0] && (a + b)[1..] == a[1..] + b;
      RunConcat(Exec(s, a[0]), a[1..], b);
    }
  }

  lemma {:induction false} AutomaticConcat(alive: Liveness, s: State, a: seq<Action>, b: seq<Action>)
    requires AutomaticRun(alive, s, a) && AutomaticRun(alive, Run(s, a), b)
    ensures AutomaticRun(alive, s, a + b)
    decreases |a|
  {
    if a == [] {
      assert a + b == b;
    } else {
      assert (a + b)[0] == a[0] && (a + b)[1..] == a[1..] + b;
      AutomaticConcat(alive, Exec(s, a[0]), a[1..], b);
    }
  }

  /** The gate edge has applied everything it was given, and a replica reads all it needs. */
  function ReadActs(s: State, row: Row): seq<Action> {
    [Advance(GateEdge(row), Get(s.desired, GateEdge(row))), ReadPivot(0), ReadDesired(0), ReadApplied(0)]
  }

  /** One replica's whole pass. */
  function PassActs(w: World, s: State, row: Row): seq<Action> {
    ReadActs(s, row) + [Commit(0, w.Seen(row))]
  }

  /** The state just before the commit: the gate has been found open. */
  function BeforeCommit(s: State, row: Row): State {
    var gate := GateEdge(row);
    var des := Get(s.desired, gate);
    var applied := if des > Get(s.applied, gate) then s.applied[gate := des] else s.applied;
    s.(applied := applied, held := s.held[0 := Held(row, SawGate(true))])
  }

  lemma ThreeReads(s: State, row: Row)
    requires s.row == Some(row) && Get(s.applied, GateEdge(row)) >= Get(s.desired, GateEdge(row))
    ensures Exec(Exec(Exec(s, ReadPivot(0)), ReadDesired(0)), ReadApplied(0))
      == s.(held := s.held[0 := Held(row, SawGate(true))])
  {
    var s1 := Exec(s, ReadPivot(0));
    assert s1 == s.(held := s.held[0 := Held(row, Fresh)]);
    var s2 := Exec(s1, ReadDesired(0));
    assert s2 == s.(held := s.held[0 := Held(row, SawDesired(Get(s.desired, GateEdge(row))))]);
  }

  lemma GateOpens(s: State, row: Row)
    requires s.row == Some(row)
    ensures Run(s, ReadActs(s, row)) == BeforeCommit(s, row)
  {
    var gate, des := GateEdge(row), Get(s.desired, GateEdge(row));
    RunFour(s, Advance(gate, des), ReadPivot(0), ReadDesired(0), ReadApplied(0));
    ThreeReads(Exec(s, Advance(gate, des)), row);
  }

  lemma {:induction false} QuietIsAutomatic(alive: Liveness, s: State, acts: seq<Action>)
    requires forall i | 0 <= i < |acts| :: !Writes(acts[i])
    ensures AutomaticRun(alive, s, acts)
    decreases |acts|
  {
    if acts != [] {
      assert !Writes(acts[0]);
      assert forall i | 0 <= i < |acts[1..]| :: acts[1..][i] == acts[i + 1];
      QuietIsAutomatic(alive, Exec(s, acts[0]), acts[1..]);
    }
  }

  lemma OneAction(alive: Liveness, s: State, a: Action)
    ensures Run(s, [a]) == Exec(s, a)
    ensures Automatic(alive, s, a) ==> AutomaticRun(alive, s, [a])
  {
    assert [a][1..] == [];
    assert Run(s, [a]) == Run(Exec(s, a), []);
    assert AutomaticRun(alive, Exec(s, a), []);
  }

  lemma ReachesCommit(w: World, s: State, row: Row)
    requires w.Honest() && s.row == Some(row)
    ensures Run(s, PassActs(w, s, row)) == Exec(BeforeCommit(s, row), Commit(0, w.Seen(row)))
    ensures AutomaticRun(w.alive, s, PassActs(w, s, row))
  {
    var before, commit := ReadActs(s, row), Commit(0, w.Seen(row));
    GateOpens(s, row);
    QuietIsAutomatic(w.alive, s, before);
    RunConcat(s, before, [commit]);
    assert Sees(w.alive, row, w.Seen(row));
    OneAction(w.alive, BeforeCommit(s, row), commit);
    AutomaticConcat(w.alive, s, before, [commit]);
  }

  /** A pass with every version applied is a run: it leaves the row `Pass` names, and one log
      entry exactly if it wrote. */
  lemma PassIsRun(w: World, s: State, row: Row)
    requires w.Honest() && RowInv(s) && s.row == Some(row)
    ensures var s' := Run(s, PassActs(w, s, row));
      && s'.row == Pass(w, Some(row)).0
      && |s'.log| == |s.log| + if s'.row != s.row then 1 else 0
    ensures AutomaticRun(w.alive, s, PassActs(w, s, row))
  {
    ReachesCommit(w, s, row);
    var before, o := BeforeCommit(s, row), w.Seen(row);
    var h := before.held[0];
    assert Gating(h, o) == o;
    var s0 := before.(held := before.held - {0});
    ApplyRow(s0, row, o);
    ApplyLogs(s0, row, Decide(row, o));
  }

  /** `n` passes, one after the other, as one run. */
  ghost function Schedule(w: World, s: State, n: nat): seq<Action>
    decreases n
  {
    if n == 0 || s.row.None? then []
    else
      var acts := PassActs(w, s, s.row.value);
      acts + Schedule(w, Run(s, acts), n - 1)
  }

  /** How many of `n` passes write. */
  function Writing(w: World, row: Option<Row>, n: nat): nat
    decreases n
  {
    if n == 0 then 0
    else (if Pass(w, row).0 != row then 1 else 0) + Writing(w, Pass(w, row).0, n - 1)
  }

  lemma {:induction false} NoneStays(w: World, n: nat)
    ensures Passes(w, None, n) == None && Writing(w, None, n) == 0
  {
    if n > 0 {
      NoneStays(w, n - 1);
    }
  }

  /** Sequential passes are a run of the protocol with as many pivot writes. */
  lemma {:induction false} PassesAreRuns(w: World, s: State, n: nat)
    requires w.Honest() && RowInv(s)
    ensures var acts := Schedule(w, s, n);
      && AutomaticRun(w.alive, s, acts) && Run(s, acts).row == Passes(w, s.row, n)
      && |Run(s, acts).log| == |s.log| + Writing(w, s.row, n)
    decreases n
  {
    if s.row.None? {
      NoneStays(w, n);
    } else if n > 0 {
      var acts := PassActs(w, s, s.row.value);
      PassIsRun(w, s, s.row.value);
      ReachableShaped(s, acts);
      PassesAreRuns(w, Run(s, acts), n - 1);
      RunConcat(s, acts, Schedule(w, Run(s, acts), n - 1));
      AutomaticConcat(w.alive, s, acts, Schedule(w, Run(s, acts), n - 1));
    }
  }

  /** A world in which `a` is dead and the scheduler offers `b` and then `c`. */
  function Dying(a: EdgeId, b: EdgeId, c: EdgeId): World {
    World(e => e != a && e != NoEdge,
          (p, q) => if p == a && q != b then Some(b) else if p == b && q != c then Some(c) else None, 2, false)
  }

  lemma FourPasses(a: EdgeId, b: EdgeId, c: EdgeId)
    requires a != NoEdge && b != NoEdge && c != NoEdge && a != b && b != c && a != c
    ensures var w := Dying(a, b, c);
      && Pass(w, Some(Row(a, NoEdge, NoEdge, 1))).0 == Some(Row(a, b, NoEdge, 2))
      && Pass(w, Some(Row(a, b, NoEdge, 2))).0 == Some(Row(b, NoEdge, a, 3))
      && Pass(w, Some(Row(b, NoEdge, a, 3))).0 == Some(Row(b, NoEdge, NoEdge, 4))
      && Pass(w, Some(Row(b, NoEdge, NoEdge, 4))).0 == Some(Row(b, c, NoEdge, 5))
      && Pass(w, Some(Row(b, c, NoEdge, 5))).1 == Healthy
  {
  }

  /** Four is reached, in an honest world and from a created pool: the lone primary is dead, a
      backup is placed, promoted, the old primary withdrawn, and a new backup placed. */
  lemma FourIsReached(a: EdgeId, b: EdgeId, c: EdgeId, s: State)
    requires a != NoEdge && b != NoEdge && c != NoEdge && a != b && b != c && a != c
    requires Init(s) && s.row == Some(Row(a, NoEdge, NoEdge, 1))
    ensures Dying(a, b, c).Honest()
    ensures var acts := Schedule(Dying(a, b, c), s, 4);
      AutomaticRun(Dying(a, b, c).alive, s, acts) && |Run(s, acts).log| == 4
  {
    var w := Dying(a, b, c);
    PivotSafety.InitIsSafe(s);
    PassesAreRuns(w, s, 4);
    FourPasses(a, b, c);
    var r1, r2, r3, r4 := Row(a, b, NoEdge, 2), Row(b, NoEdge, a, 3), Row(b, NoEdge, NoEdge, 4), Row(b, c, NoEdge, 5);
    assert Writing(w, Some(r4), 0) == 0;
    assert Writing(w, Some(r3), 1) == 1;
    assert Writing(w, Some(r2), 2) == 2;
    assert Writing(w, Some(r1), 3) == 3;
    assert Writing(w, s.row, 4) == 4;
  }
}
