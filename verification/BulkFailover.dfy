/** The edge-death fast path: re-home every pool of a dead edge at once, with one
    bump per destination edge, and lose none of them. */
module BulkFailover {
  import opened Model
  import opened YbStore
  import SR = StoreRefinement

  datatype Move = Move(id: PoolId, from: EdgeId, to: EdgeId)

  /** What the listing loop and the workers see: liveness when an edge is first asked
      about, and whether a pool's backup is still alive just before its CAS. */
  datatype Sight = Sight(alive: EdgeId -> bool, still: PoolId -> bool)

  /** A listing has one row per pool. */
  predicate UniqueIds(rows: set<PivotRow>) {
    forall r, r' | r in rows && r' in rows && r.poolId == r'.poolId :: r == r'
  }

  function Listed(rows: seq<PivotRow>, dead: EdgeId): set<PivotRow> {
    set r | r in rows && r.primary == dead
  }

  function Ready(rows: seq<PivotRow>, dead: EdgeId, sight: Sight): set<PivotRow> {
    set r | r in Listed(rows, dead) && r.backup != NoEdge && sight.alive(r.backup)
  }

  /** The worker's re-check passes and the stored version is still the listed one. */
  predicate Wins(t: Tables, r: PivotRow, sight: Sight) {
    sight.still(r.poolId) && r.poolId in t.pools && t.pools[r.poolId].version == r.version
  }

  // ---- the workers and their peers ----

  /** What other replicas do to the store just before the worker of a pool gets to run. */
  type Race = PoolId -> seq<SR.Op>

  /** One worker's turn: its row, and the tables its CAS finds. */
  datatype Turn = Turn(row: PivotRow, seen: Tables)

  function Leaves(turn: Turn, sight: Sight): Tables {
    var r := turn.row;
    if Wins(turn.seen, r, sight) then UpdateCas(turn.seen, r, r.version, r.backup, NoEdge, NoEdge).0 else turn.seen
  }

  function EndOf(t: Tables, turns: seq<Turn>, sight: Sight): Tables {
    if turns == [] then t else Leaves(turns[|turns| - 1], sight)
  }

  /** Each turn finds what the one before left, after its peers had their way with it. */
  ghost predicate Plays(t: Tables, turns: seq<Turn>, sight: Sight, race: Race) {
    forall i | 0 <= i < |turns| ::
      turns[i].seen == SR.RunTables(EndOf(t, turns[..i], sight), race(turns[i].row.poolId))
  }

  function RowsOf(turns: seq<Turn>): seq<PivotRow> {
    seq(|turns|, i requires 0 <= i < |turns| => turns[i].row)
  }

  /** The rows whose turn succeeded, or failed, in the order they had it. */
  function Outcome(turns: seq<Turn>, sight: Sight, won: bool): seq<PivotRow> {
    if turns == [] then []
    else
      var last := turns[|turns| - 1];
      Outcome(turns[..|turns| - 1], sight, won) + if Wins(last.seen, last.row, sight) == won then [last.row] else []
  }

  lemma {:induction false} OutcomeHas(turns: seq<Turn>, sight: Sight, won: bool, r: PivotRow)
    ensures r in Outcome(turns, sight, won) <==>
      exists i | 0 <= i < |turns| :: turns[i].row == r && Wins(turns[i].seen, r, sight) == won
    decreases |turns|
  {
    if turns != [] {
      var front := turns[..|turns| - 1];
      OutcomeHas(front, sight, won, r);
      assert forall i | 0 <= i < |front| :: turns[i] == front[i];
    }
  }

  lemma {:induction false} OutcomesSplit(turns: seq<Turn>, sight: Sight)
    requires Distinct(RowsOf(turns))
    ensures var w, l := Outcome(turns, sight, true), Outcome(turns, sight, false);
      Distinct(w) && Distinct(l) && Elems(w) !! Elems(l) && Elems(w) + Elems(l) == Elems(RowsOf(turns))
    decreases |turns|
  {
    if turns != [] {
      var front, last := turns[..|turns| - 1], turns[|turns| - 1];
      var rows := RowsOf(front);
      assert RowsOf(turns) == rows + [last.row];
      DistinctFront(rows, last.row);
      OutcomesSplit(front, sight);
      var w, l := Outcome(front, sight, true), Outcome(front, sight, false);
      ElemsSnoc(rows, last.row);
      ElemsSnoc(w, last.row);
      ElemsSnoc(l, last.row);
      DistinctSnoc(w, last.row);
      DistinctSnoc(l, last.row);
    }
  }

  function Ids(rows: set<PivotRow>): set<PoolId> {
    set r | r in rows :: r.poolId
  }

  function MoveOf(r: PivotRow): Move {
    Move(r.poolId, r.primary, r.backup)
  }

  /** The pool is on its old backup, with no backup and no retiring edge. */
  predicate Landed(t: Tables, r: PivotRow) {
    && r.poolId in t.pools
    && var now := ReadRow(t, r.poolId);
       now.primary == r.backup && now.backup == NoEdge && now.retiring == NoEdge && now.version == r.version + 1
  }

  predicate Untouched(t: Tables, t': Tables, id: PoolId) {
    (id in t.pools <==> id in t'.pools) && (id in t.pools ==> t'.pools[id] == t.pools[id])
  }

  /** The peers of later turns leave the pool alone. */
  ghost predicate LeftAlone(turns: seq<Turn>, i: nat, race: Race, id: PoolId) {
    forall j | i <= j < |turns| :: Spares(race(turns[j].row.poolId), id)
  }

  predicate Spares(ops: seq<SR.Op>, id: PoolId) {
    forall k | 0 <= k < |ops| :: ops[k].Target() != id
  }

  lemma {:induction false} SparedStays(t: Tables, ops: seq<SR.Op>, id: PoolId)
    requires Spares(ops, id)
    ensures Untouched(t, SR.RunTables(t, ops), id)
    decreases |ops|
  {
    if ops != [] {
      assert ops[0].Target() != id;
      assert Untouched(t, SR.StoreStep(t, ops[0]).0, id);
      assert forall k | 0 <= k < |ops[1..]| :: ops[1..][k] == ops[k + 1];
      SparedStays(SR.StoreStep(t, ops[0]).0, ops[1..], id);
    }
  }

  /** One turn of another pool, with peers that leave this pool alone. */
  lemma TurnSpares(t: Tables, turns: seq<Turn>, sight: Sight, race: Race, j: nat, id: PoolId)
    requires Plays(t, turns, sight, race) && j < |turns|
    requires Spares(race(turns[j].row.poolId), id)
    requires turns[j].row.poolId != id || !Wins(turns[j].seen, turns[j].row, sight)
    ensures Untouched(EndOf(t, turns[..j], sight), EndOf(t, turns[..j + 1], sight), id)
  {
    SparedStays(EndOf(t, turns[..j], sight), race(turns[j].row.poolId), id);
    assert turns[..j + 1][j] == turns[j];
  }

  /** A pool no turn from `i` to `n` moves and no peer touches is as it was. */
  lemma {:induction false} TurnsSpare(t: Tables, turns: seq<Turn>, sight: Sight, race: Race, i: nat, n: nat, id: PoolId)
    requires Plays(t, turns, sight, race) && i <= n <= |turns| && LeftAlone(turns, i, race, id)
    requires forall j | i <= j < n :: turns[j].row.poolId != id || !Wins(turns[j].seen, turns[j].row, sight)
    ensures Untouched(EndOf(t, turns[..i], sight), EndOf(t, turns[..n], sight), id)
    decreases n - i
  {
    if i < n {
      TurnsSpare(t, turns, sight, race, i, n - 1, id);
      TurnSpares(t, turns, sight, race, n - 1, id);
    }
  }

  /** A won turn puts the pool on its old backup, and there it is at the end unless a peer of
      a later turn touched it. */
  lemma WonTurnLands(t: Tables, turns: seq<Turn>, sight: Sight, race: Race, i: nat)
    requires Plays(t, turns, sight, race) && i < |turns| && Wins(turns[i].seen, turns[i].row, sight)
    requires Distinct(RowsOf(turns)) && UniqueIds(Elems(RowsOf(turns)))
    ensures Landed(Leaves(turns[i], sight), turns[i].row)
    ensures LeftAlone(turns, i + 1, race, turns[i].row.poolId) ==> Landed(EndOf(t, turns, sight), turns[i].row)
  {
    CasLands(turns[i].seen, turns[i].row);
    if LeftAlone(turns, i + 1, race, turns[i].row.poolId) {
      forall j | i + 1 <= j < |turns|
        ensures turns[j].row.poolId != turns[i].row.poolId
      {
        assert RowsOf(turns)[i] != RowsOf(turns)[j];
        assert RowsOf(turns)[i] in Elems(RowsOf(turns)) && RowsOf(turns)[j] in Elems(RowsOf(turns));
      }
      TurnsSpare(t, turns, sight, race, i + 1, |turns|, turns[i].row.poolId);
      assert turns[..|turns|] == turns && turns[..i + 1][i] == turns[i];
    }
  }

  lemma UnmovedStays(t: Tables, turns: seq<Turn>, sight: Sight, race: Race, id: PoolId)
    requires Plays(t, turns, sight, race) && LeftAlone(turns, 0, race, id)
    requires id !in Ids(Elems(Outcome(turns, sight, true)))
    ensures Untouched(t, EndOf(t, turns, sight), id)
  {
    forall j | 0 <= j < |turns|
      ensures turns[j].row.poolId != id || !Wins(turns[j].seen, turns[j].row, sight)
    {
      OutcomeHas(turns, sight, true, turns[j].row);
    }
    TurnsSpare(t, turns, sight, race, 0, |turns|, id);
    assert turns[..|turns|] == turns && turns[..0] == [];
  }

  /** No pool is lost: for every order in which the workers get to run and whatever peers do
      to the store before each of them, each listed pool of the dead edge is enqueued exactly
      once, is reported moved exactly once iff its turn's CAS moved it, and each destination
      is bumped exactly once. `turns` is how it went: every pool with a live backup had one
      turn. Unless a peer touched it later, a moved pool ends on its old backup; a pool that
      was not moved and that no peer touched is as it was. */
  method FailoverEdgeBulk(st: Store, rows: seq<PivotRow>, dead: EdgeId, sight: Sight, race: Race)
    returns (enqueued: seq<PoolId>, notified: seq<Move>, bumps: seq<EdgeId>, ghost turns: seq<Turn>)
    requires Distinct(rows) && UniqueIds(Elems(rows))
    modifies st
    ensures Plays(old(st.View()), turns, sight, race) && st.View() == EndOf(old(st.View()), turns, sight)
    ensures TurnsFor(rows, dead, sight, turns) && Ends(old(st.View()), st.View(), turns, sight, race)
    ensures Distinct(enqueued) && forall id :: id in enqueued <==> ListedAs(rows, dead, id)
    ensures Distinct(notified) && forall m :: m in notified <==> MovedBy(turns, sight, dead, m)
    ensures Distinct(bumps) && forall e :: e in bumps <==> exists m :: m in notified && m.to == e
  {
    var left, workers := Launch(rows, dead, sight);
    var lost, moved;
    lost, moved, turns := RunWorkers(st, workers, sight, race);
    OutcomesSplit(turns, sight);
    TurnsEnd(old(st.View()), turns, sight, race);
    bumps := BumpOnce(moved);
    enqueued, notified := Report(left + lost, moved);
    AllEnqueued(rows, dead, sight, left, lost, moved, enqueued);
    AllNotified(rows, dead, sight, turns, moved, notified, bumps);
  }

  /** Exactly the listed pools of the dead edge with a live backup get a turn, each one. */
  ghost predicate TurnsFor(rows: seq<PivotRow>, dead: EdgeId, sight: Sight, turns: seq<Turn>) {
    && Distinct(RowsOf(turns))
    && forall r :: r in Elems(RowsOf(turns)) <==>
      r in rows && r.primary == dead && r.backup != NoEdge && sight.alive(r.backup)
  }

  ghost predicate ListedAs(rows: seq<PivotRow>, dead: EdgeId, id: PoolId) {
    exists r :: r in rows && r.primary == dead && r.poolId == id
  }

  /** Where the pools are: a moved one on its old backup right after its turn, and at the end
      unless a peer touched it later; one not moved and not touched is as it was. */
  ghost predicate Ends(t: Tables, t': Tables, turns: seq<Turn>, sight: Sight, race: Race) {
    && (forall i | 0 <= i < |turns| && Wins(turns[i].seen, turns[i].row, sight) ::
          && Landed(Leaves(turns[i], sight), turns[i].row)
          && (LeftAlone(turns, i + 1, race, turns[i].row.poolId) ==> Landed(t', turns[i].row)))
    && (forall id | id !in Ids(Elems(Outcome(turns, sight, true))) && LeftAlone(turns, 0, race, id) ::
          Untouched(t, t', id))
  }

  lemma TurnsEnd(t: Tables, turns: seq<Turn>, sight: Sight, race: Race)
    requires Plays(t, turns, sight, race) && Distinct(RowsOf(turns)) && UniqueIds(Elems(RowsOf(turns)))
    ensures Ends(t, EndOf(t, turns, sight), turns, sight, race)
  {
    forall i | 0 <= i < |turns| && Wins(turns[i].seen, turns[i].row, sight)
      ensures Landed(Leaves(turns[i], sight), turns[i].row)
      ensures LeftAlone(turns, i + 1, race, turns[i].row.poolId) ==> Landed(EndOf(t, turns, sight), turns[i].row)
    {
      WonTurnLands(t, turns, sight, race, i);
    }
    forall id | id !in Ids(Elems(Outcome(turns, sight, true))) && LeftAlone(turns, 0, race, id)
      ensures Untouched(t, EndOf(t, turns, sight), id)
    {
      UnmovedStays(t, turns, sight, race, id);
    }
  }

  lemma AllNotified(
    rows: seq<PivotRow>, dead: EdgeId, sight: Sight, turns: seq<Turn>, moved: seq<PivotRow>, notified: seq<Move>, bumps: seq<EdgeId>)
    requires Elems(RowsOf(turns)) == Ready(rows, dead, sight) && UniqueIds(Elems(rows))
    requires moved == Outcome(turns, sight, true) && Distinct(moved) && notified == MovesOf(moved)
    requires Elems(moved) <= Ready(rows, dead, sight) && Elems(bumps) == set r | r in moved :: r.backup
    ensures Distinct(notified) && forall m :: m in notified <==> MovedBy(turns, sight, dead, m)
    ensures forall e :: e in bumps <==> exists m :: m in notified && m.to == e
  {
    DistinctMoves(moved);
    forall i | 0 <= i < |turns|
      ensures turns[i].row.primary == dead
    {
      assert RowsOf(turns)[i] in Elems(RowsOf(turns));
    }
    forall m
      ensures m in notified <==> MovedBy(turns, sight, dead, m)
    {
      NotifiedIff(turns, sight, dead, notified, m);
    }
    forall e
      ensures e in bumps <==> exists m :: m in notified && m.to == e
    {
      assert e in Elems(bumps) <==> e in (set m | m in notified :: m.to);
    }
  }

  /** Some turn moved this pool: from the dead edge to its backup, after its re-check passed
      and its version still stood. */
  ghost predicate MovedBy(turns: seq<Turn>, sight: Sight, dead: EdgeId, m: Move) {
    exists i | 0 <= i < |turns| ::
      && m.id == turns[i].row.poolId && m.from == dead && m.to == turns[i].row.backup
      && sight.still(m.id) && m.id in turns[i].seen.pools && turns[i].seen.pools[m.id].version == turns[i].row.version
  }

  lemma AllEnqueued(
    rows: seq<PivotRow>, dead: EdgeId, sight: Sight, left: seq<PivotRow>, lost: seq<PivotRow>, moved: seq<PivotRow>,
    enqueued: seq<PoolId>)
    requires UniqueIds(Elems(rows)) && Distinct(left) && Distinct(lost) && Distinct(moved)
    requires Elems(left) == Listed(rows, dead) - Ready(rows, dead, sight)
    requires Elems(moved) !! Elems(lost) && Elems(moved) + Elems(lost) == Ready(rows, dead, sight)
    requires enqueued == PoolIds(left + lost + moved)
    ensures Distinct(enqueued) && forall id :: id in enqueued <==> ListedAs(rows, dead, id)
  {
    var all := left + lost + moved;
    DistinctConcat(left, lost);
    DistinctConcat(left + lost, moved);
    assert Elems(all) == Listed(rows, dead);
    DistinctIds(all);
    forall id
      ensures id in enqueued <==> ListedAs(rows, dead, id)
    {
      assert id in Elems(enqueued) <==> id in Ids(Listed(rows, dead));
    }
  }

  /** A move is notified exactly if it is the move of a turn whose re-check passed and whose
      version still stood. */
  lemma NotifiedIff(turns: seq<Turn>, sight: Sight, dead: EdgeId, notified: seq<Move>, m: Move)
    requires forall i | 0 <= i < |turns| :: turns[i].row.primary == dead
    requires Elems(notified) == set r | r in Elems(Outcome(turns, sight, true)) :: MoveOf(r)
    ensures m in notified <==> MovedBy(turns, sight, dead, m)
  {
    if m in notified {
      assert m in Elems(notified);
      var r :| r in Elems(Outcome(turns, sight, true)) && MoveOf(r) == m;
      OutcomeHas(turns, sight, true, r);
      var i :| 0 <= i < |turns| && turns[i].row == r && Wins(turns[i].seen, r, sight);
      assert m.id == turns[i].row.poolId;
    }
    if MovedBy(turns, sight, dead, m) {
      var i :| 0 <= i < |turns|
        && m.id == turns[i].row.poolId && m.from == dead && m.to == turns[i].row.backup
        && sight.still(m.id) && m.id in turns[i].seen.pools && turns[i].seen.pools[m.id].version == turns[i].row.version;
      OutcomeHas(turns, sight, true, turns[i].row);
      assert MoveOf(turns[i].row) == m && m in Elems(notified);
    }
  }

  /** The pools not moved were enqueued on the way; the moved ones are notified and enqueued
      at the end. */
  method Report(unmoved: seq<PivotRow>, moved: seq<PivotRow>) returns (enqueued: seq<PoolId>, notified: seq<Move>)
    ensures enqueued == PoolIds(unmoved + moved) && notified == MovesOf(moved)
  {
    enqueued, notified := PoolIds(unmoved), [];
    assert unmoved + moved[..0] == unmoved;
    for i := 0 to |moved|
      invariant notified == MovesOf(moved[..i])
      invariant enqueued == PoolIds(unmoved + moved[..i])
    {
      assert moved[..i + 1] == moved[..i] + [moved[i]];
      assert unmoved + moved[..i + 1] == unmoved + moved[..i] + [moved[i]];
      notified := notified + [MoveOf(moved[i])];
      enqueued := enqueued + [moved[i].poolId];
    }
    assert moved[..|moved|] == moved;
  }

  function MovesOf(rows: seq<PivotRow>): seq<Move> {
    seq(|rows|, i requires 0 <= i < |rows| => MoveOf(rows[i]))
  }

  lemma DistinctMoves(rows: seq<PivotRow>)
    requires Distinct(rows) && UniqueIds(Elems(rows))
    ensures Distinct(MovesOf(rows)) && Elems(MovesOf(rows)) == set r | r in Elems(rows) :: MoveOf(r)
    ensures (set m | m in MovesOf(rows) :: m.to) == set r | r in rows :: r.backup
  {
    forall i | 0 <= i < |rows|
      ensures MoveOf(rows[i]) in MovesOf(rows)
    {
      assert MovesOf(rows)[i] == MoveOf(rows[i]);
    }
  }

  function PoolIds(rows: seq<PivotRow>): seq<PoolId> {
    seq(|rows|, i requires 0 <= i < |rows| => rows[i].poolId)
  }

  lemma DistinctIds(rows: seq<PivotRow>)
    requires Distinct(rows) && UniqueIds(Elems(rows))
    ensures Distinct(PoolIds(rows)) && Elems(PoolIds(rows)) == Ids(Elems(rows))
  {
    forall id | id in Ids(Elems(rows))
      ensures id in PoolIds(rows)
    {
      var r :| r in Elems(rows) && r.poolId == id;
      var i :| 0 <= i < |rows| && rows[i] == r;
      assert PoolIds(rows)[i] == id;
    }
  }

  /** The listing loop: a pool without a live backup goes to the per-pool path at once,
      the others get a worker. Liveness is asked once per edge. */
  method Launch(rows: seq<PivotRow>, dead: EdgeId, sight: Sight)
    returns (left: seq<PivotRow>, workers: set<PivotRow>)
    requires UniqueIds(Elems(rows)) && Distinct(rows)
    ensures workers == Ready(rows, dead, sight)
    ensures forall r :: r in workers <==> r in rows && r.primary == dead && r.backup != NoEdge && sight.alive(r.backup)
    ensures Distinct(left) && Elems(left) == Listed(rows, dead) - Ready(rows, dead, sight)
    ensures forall r :: r in left <==> r in rows && r.primary == dead && (r.backup == NoEdge || !sight.alive(r.backup))
  {
    left, workers := [], {};
    var readyCache: map<EdgeId, bool> := map[];
    for i := 0 to |rows|
      invariant forall e :: e in readyCache ==> readyCache[e] == (e != NoEdge && sight.alive(e))
      invariant workers == Ready(rows[..i], dead, sight)
      invariant Distinct(left)
      invariant forall r :: r in left <==> r in Listed(rows[..i], dead) && r !in workers
    {
      var row := rows[i];
      assert rows[..i + 1] == rows[..i] + [row];
      if row.primary == dead {
        var b := row.backup;
        if b !in readyCache {
          readyCache := readyCache[b := b != NoEdge && sight.alive(b)];
        }
        if readyCache[b] {
          workers := workers + {row};
        } else {
          DistinctSnoc(left, row);
          left := left + [row];
        }
      }
    }
    assert rows[..|rows|] == rows;
  }

  /** One worker: its peers' step, the re-check, the CAS. */
  method TakeTurn(st: Store, r: PivotRow, sight: Sight, race: Race) returns (won: bool, ghost turn: Turn)
    modifies st
    ensures turn == Turn(r, SR.RunTables(old(st.View()), race(r.poolId)))
    ensures st.View() == Leaves(turn, sight) && won == Wins(turn.seen, r, sight)
  {
    var t := SR.RunTables(st.View(), race(r.poolId));
    st.pools, st.members := t.pools, t.members;
    turn := Turn(r, t);
    if !sight.still(r.poolId) {
      return false, turn;
    }
    var err := st.UpdateCAS(r, r.version, r.backup, NoEdge, NoEdge);
    won := err == Ok;
  }

  /** The workers, in whatever order they get to run, each after its peers' step. */
  method RunWorkers(st: Store, workers: set<PivotRow>, sight: Sight, race: Race)
    returns (lost: seq<PivotRow>, moved: seq<PivotRow>, ghost turns: seq<Turn>)
    modifies st
    ensures SoFar(old(st.View()), turns, sight, race, workers, lost, moved)
    ensures st.View() == EndOf(old(st.View()), turns, sight)
  {
    ghost var t0, done := st.View(), {};
    lost, moved, turns := [], [], [];
    var todo := workers;
    while todo != {}
      invariant done !! todo && done + todo == workers
      invariant SoFar(t0, turns, sight, race, done, lost, moved)
      invariant st.View() == EndOf(t0, turns, sight)
      decreases |todo|
    {
      var r :| r in todo;
      ghost var turn;
      var won;
      won, turn := TakeTurn(st, r, sight, race);
      TurnTaken(t0, turns, sight, race, done, lost, moved, turn);
      if won {
        moved := moved + [r];
      } else {
        lost := lost + [r];
      }
      turns, done, todo := turns + [turn], done + {r}, todo - {r};
    }
    assert done == workers;
  }

  /** The turns of the workers in `done`, and what came of them. */
  ghost predicate SoFar(
    t: Tables, turns: seq<Turn>, sight: Sight, race: Race, done: set<PivotRow>, lost: seq<PivotRow>, moved: seq<PivotRow>)
  {
    && Plays(t, turns, sight, race) && Distinct(RowsOf(turns)) && Elems(RowsOf(turns)) == done
    && lost == Outcome(turns, sight, false) && moved == Outcome(turns, sight, true)
  }

  lemma TurnTaken(
    t: Tables, turns: seq<Turn>, sight: Sight, race: Race, done: set<PivotRow>, lost: seq<PivotRow>, moved: seq<PivotRow>,
    turn: Turn)
    requires SoFar(t, turns, sight, race, done, lost, moved) && turn.row !in done
    requires turn.seen == SR.RunTables(EndOf(t, turns, sight), race(turn.row.poolId))
    ensures EndOf(t, turns + [turn], sight) == Leaves(turn, sight)
    ensures var won := Wins(turn.seen, turn.row, sight);
      SoFar(t, turns + [turn], sight, race, done + {turn.row},
            if won then lost else lost + [turn.row], if won then moved + [turn.row] else moved)
  {
    var all := turns + [turn];
    assert all[..|turns|] == turns;
    forall i | 0 <= i < |all|
      ensures all[i].seen == SR.RunTables(EndOf(t, all[..i], sight), race(all[i].row.poolId))
    {
      assert all[..i] == turns[..i];
      assert turns[..|turns|] == turns;
    }
    assert RowsOf(all) == RowsOf(turns) + [turn.row];
    DistinctSnoc(RowsOf(turns), turn.row);
    ElemsSnoc(RowsOf(turns), turn.row);
  }

  lemma CasLands(t: Tables, r: PivotRow)
    requires UpdateCas(t, r, r.version, r.backup, NoEdge, NoEdge).1 == Ok
    ensures var t' := UpdateCas(t, r, r.version, r.backup, NoEdge, NoEdge).0;
            Landed(t', r) && forall id :: id != r.poolId ==> Untouched(t, t', id)
  {
  }

  /** One bump per destination edge. */
  method BumpOnce(moved: seq<PivotRow>) returns (bumps: seq<EdgeId>)
    ensures Distinct(bumps) && Elems(bumps) == set r | r in moved :: r.backup
  {
    bumps := [];
    var genByEdge: set<EdgeId> := {};
    for i := 0 to |moved|
      invariant genByEdge == Elems(bumps) && Distinct(bumps)
      invariant forall e :: e in bumps <==> exists r :: r in moved[..i] && r.backup == e
    {
      assert moved[..i + 1] == moved[..i] + [moved[i]];
      if moved[i].backup !in genByEdge {
        genByEdge := genByEdge + {moved[i].backup};
        bumps := bumps + [moved[i].backup];
      }
    }
    assert moved[..|moved|] == moved;
  }
}
