/** What every edge was last told, and which edges render something else by now: the debts the
    retiring marker is there to record, and the moves that forget one. */
module PivotDebts {
  import opened Model
  import opened Failover
  import opened PivotProtocol

  /** The protocol with, per edge, the role it rendered at its last bump. */
  datatype Books = Books(s: State, told: map<EdgeId, Role>)

  function RoleNow(s: State, e: EdgeId): Role {
    if s.row.Some? then RoleOf(s.row.value, e) else NoRole
  }

  function Told(b: Books, e: EdgeId): Role {
    if e in b.told then b.told[e] else NoRole
  }

  predicate Bumped(s: State, a: Action, e: EdgeId) {
    Get(Exec(s, a).desired, e) > Get(s.desired, e)
  }

  function Keep(b: Books, a: Action): Books {
    var s' := Exec(b.s, a);
    Books(s', map e | e in s'.desired.Keys + b.told.Keys :: if Bumped(b.s, a, e) then RoleNow(s', e) else Told(b, e))
  }

  function KeepAll(b: Books, acts: seq<Action>): Books {
    if acts == [] then b else Keep(KeepAll(b, acts[..|acts| - 1]), acts[|acts| - 1])
  }

  /** The edge renders something else than it was last told. */
  predicate Debt(b: Books, e: EdgeId) {
    Told(b, e) != RoleNow(b.s, e)
  }

  /** The homes of the pool know their role. */
  ghost predicate HomesTold(b: Books) {
    forall e | e != NoEdge && RoleNow(b.s, e) != NoRole :: !Debt(b, e)
  }

  ghost predicate BooksInv(b: Books) {
    RowInv(b.s) && HomesTold(b)
  }

  lemma ToldAfter(b: Books, a: Action, e: EdgeId)
    ensures Told(Keep(b, a), e) == if Bumped(b.s, a, e) then RoleNow(Exec(b.s, a), e) else Told(b, e)
  {
  }

  // ---- what one action changes and whom it tells ----

  lemma {:induction false} BumpAllIff(m: map<EdgeId, nat>, es: seq<EdgeId>, e: EdgeId)
    requires e != NoEdge
    ensures Get(BumpAll(m, es), e) > Get(m, e) <==> e in es
    decreases |es|
  {
    if es != [] {
      BumpAllIff(BumpOne(m, es[0]), es[1..], e);
      assert es == [es[0]] + es[1..];
    }
  }

  /** A pivot write was made from `row`, which is the stored one. */
  predicate Wrote(s: State, a: Action, row: Row) {
    match a
    case Commit(r, o) => r in s.held && row == s.held[r].row && PlacedElsewhere(row, o.place) && Wins(s, row)
    case BulkCas(q) => row == q && q in s.past && q.backup != NoEdge && Wins(s, q)
    case ManualPromote(q) => row == q && q in s.past && q.backup != NoEdge && Wins(s, q)
    case ManualProvision(q, o, _) => row == q && q in s.past && PlacedElsewhere(q, o.place) && Wins(s, q)
    case _ => false
  }

  function DecisionOf(s: State, a: Action, row: Row): Decision
    requires Wrote(s, a, row)
  {
    match a
    case Commit(r, o) => Decide(row, Gating(s.held[r], o))
    case BulkCas(_) => Put(row.backup, NoEdge, NoEdge, [row.backup])
    case ManualPromote(_) => Put(row.backup, NoEdge, row.primary, [row.backup, row.primary])
    case ManualProvision(_, o, cleared) => Provision(if cleared then row.(backup := NoEdge) else row, o)
  }

  /** The decision's row is stored and its bumps are made. */
  predicate Obeys(s: State, s': State, row: Row, d: Decision) {
    match d
    case Stay(_) => s'.row == s.row && s'.desired == s.desired
    case Put(primary, backup, retiring, bumps) =>
      && s'.row == Some(Row(primary, backup, retiring, row.version + 1))
      && s'.desired == BumpAll(s.desired, bumps)
    case Drop(bumps) => s'.row == None && s'.desired == BumpAll(s.desired, bumps)
  }

  lemma ApplyObeys(s: State, row: Row, o: Obs)
    requires s.row == Some(row) && Shaped(row)
    ensures Obeys(s, Apply(s, row, Decide(row, o)), row, Decide(row, o))
  {
    var d := Decide(row, o);
    if d.Put? && row.retiring == NoEdge && d.primary == row.primary {
      assert d == Provision(row, o);
    }
  }

  lemma CommitObeys(s: State, r: Replica, o: Obs)
    requires RowInv(s) && r in s.held && s.row == Some(s.held[r].row)
    requires PlacedElsewhere(s.held[r].row, o.place)
    ensures Obeys(s, Exec(s, Commit(r, o)), s.held[r].row, Decide(s.held[r].row, Gating(s.held[r], o)))
  {
    ApplyObeys(s.(held := s.held - {r}), s.held[r].row, Gating(s.held[r], o));
  }

  lemma ProvisionObeys(s: State, row: Row, o: Obs, cleared: bool)
    requires row in s.past && s.row == Some(row) && PlacedElsewhere(row, o.place)
    ensures Obeys(s, Exec(s, ManualProvision(row, o, cleared)), row, Provision(if cleared then row.(backup := NoEdge) else row, o))
  {
  }

  /** The write does what its decision says to the row and to the desired versions. */
  lemma Carries(s: State, a: Action, row: Row)
    requires RowInv(s) && Wrote(s, a, row)
    ensures s.row == Some(row) && Obeys(s, Exec(s, a), row, DecisionOf(s, a, row))
  {
    WinnerIsCurrent(s, row);
    match a
    case Commit(r, o) => CommitObeys(s, r, o);
    case ManualProvision(_, o, cleared) => ProvisionObeys(s, row, o, cleared);
    case _ =>
  }

  lemma Effect(s: State, a: Action, row: Row, e: EdgeId)
    requires RowInv(s) && Wrote(s, a, row) && e != NoEdge
    ensures s.row == Some(row)
    ensures Bumped(s, a, e) <==> Bumps(DecisionOf(s, a, row), e)
    ensures RoleNow(Exec(s, a), e) != RoleNow(s, e) <==> Changes(row, DecisionOf(s, a, row), e)
  {
    var d := DecisionOf(s, a, row);
    Carries(s, a, row);
    if !d.Stay? {
      BumpAllIff(s.desired, d.bumps, e);
    }
  }

  /** Nothing was written: roles stand, and only a plain bump tells anyone. */
  lemma NoEffect(s: State, a: Action, e: EdgeId)
    requires RowInv(s) && e != NoEdge && forall row :: !Wrote(s, a, row)
    ensures RoleNow(Exec(s, a), e) == RoleNow(s, e)
    ensures Bumped(s, a, e) <==> a == Bump(e)
  {
    match a
    case Commit(r, o) => assert r in s.held ==> !Wrote(s, a, s.held[r].row);
    case BulkCas(q) => assert !Wrote(s, a, q);
    case ManualPromote(q) => assert !Wrote(s, a, q);
    case ManualProvision(q, o, _) => assert !Wrote(s, a, q);
    case _ =>
  }

  /** The moves that leave an edge untold: a promote and a bulk move the old primary, a manual
      provision an excluded backup. */
  predicate Owes(s: State, a: Action, e: EdgeId) {
    match a
    case Commit(r, o) =>
      && r in s.held && Wrote(s, a, s.held[r].row)
      && Promotes(s.held[r].row, Gating(s.held[r], o)) && e == s.held[r].row.primary
    case BulkCas(row) => Wrote(s, a, row) && e == row.primary
    case ManualProvision(row, o, cleared) =>
      && Wrote(s, a, row) && cleared && e == row.backup
      && (o.place.Some? || (!o.primaryStill && o.failOpen))
    case _ => false
  }

  lemma WroteOwes(s: State, a: Action, row: Row, e: EdgeId)
    requires RowInv(s) && Wrote(s, a, row) && e != NoEdge
    ensures s.row == Some(row)
    ensures Owes(s, a, e) <==> Changes(row, DecisionOf(s, a, row), e) && !Bumps(DecisionOf(s, a, row), e)
  {
    WinnerIsCurrent(s, row);
    match a
    case Commit(r, o) =>
      var seen := Gating(s.held[r], o);
      BumpsMatchIff(row, seen, e);
      if Retires(row, seen) {
        RetirePaysOne(row, seen, e);
      } else if Promotes(row, seen) {
        PromoteOwesOne(row, seen, e);
      }
    case BulkCas(_) => BulkOwesOne(row, e);
    case ManualPromote(_) => ManualPromoteBumpsMatch(row, e);
    case ManualProvision(_, o, cleared) => ManualProvisionBumpsIff(row, o, cleared, e);
  }

  /** Exactly when an action changes what an edge renders without telling it. */
  lemma UntoldIff(s: State, a: Action, e: EdgeId)
    requires RowInv(s) && e != NoEdge
    ensures RoleNow(Exec(s, a), e) != RoleNow(s, e) && !Bumped(s, a, e) <==> Owes(s, a, e)
  {
    if row :| Wrote(s, a, row) {
      Effect(s, a, row, e);
      WroteOwes(s, a, row, e);
    } else {
      NoEffect(s, a, e);
    }
  }

  /** An edge left untold had a role and has none any more. */
  lemma OwedIsGone(s: State, a: Action, e: EdgeId)
    requires RowInv(s) && e != NoEdge && Owes(s, a, e)
    ensures RoleNow(s, e) != NoRole && RoleNow(Exec(s, a), e) == NoRole
  {
    var row := if a.Commit? then s.held[a.r].row else a.row;
    assert Wrote(s, a, row);
    Carries(s, a, row);
  }

  // ---- debts ----

  /** One action: an edge is in debt afterwards exactly if it was not told and was in debt
      before or is left owing now. */
  lemma DebtStep(b: Books, a: Action, e: EdgeId)
    requires BooksInv(b) && e != NoEdge
    ensures Debt(Keep(b, a), e) <==> !Bumped(b.s, a, e) && (Debt(b, e) || Owes(b.s, a, e))
  {
    ToldAfter(b, a, e);
    UntoldIff(b.s, a, e);
    if Owes(b.s, a, e) {
      OwedIsGone(b.s, a, e);
    }
  }

  lemma BooksStep(b: Books, a: Action)
    requires BooksInv(b)
    ensures BooksInv(Keep(b, a))
  {
    RowStep(b.s, a);
    forall e | e != NoEdge && RoleNow(Exec(b.s, a), e) != NoRole
      ensures !Debt(Keep(b, a), e)
    {
      DebtStep(b, a, e);
      UntoldIff(b.s, a, e);
      if Owes(b.s, a, e) {
        OwedIsGone(b.s, a, e);
      }
    }
  }

  /** In every run the current primary and backup have been told their role. */
  lemma {:induction false} BooksKept(b: Books, acts: seq<Action>)
    requires BooksInv(b)
    ensures BooksInv(KeepAll(b, acts))
    decreases |acts|
  {
    if acts != [] {
      BooksKept(b, acts[..|acts| - 1]);
      BooksStep(KeepAll(b, acts[..|acts| - 1]), acts[|acts| - 1]);
    }
  }

  /** Something happened at some point before `n` and nothing settled it from then on. */
  ghost predicate Open(n: nat, owes: nat -> bool, settles: nat -> bool) {
    exists i: nat | i < n && owes(i) :: forall j: nat | i <= j < n :: !settles(j)
  }

  lemma OpenLast(n: nat, owes: nat -> bool, settles: nat -> bool, owes': nat -> bool, settles': nat -> bool)
    requires n > 0 && forall i: nat | i < n - 1 :: owes(i) == owes'(i) && settles(i) == settles'(i)
    ensures Open(n, owes, settles) <==> !settles(n - 1) && (Open(n - 1, owes', settles') || owes(n - 1))
  {
    if Open(n, owes, settles) {
      var i: nat :| i < n && owes(i) && forall j: nat | i <= j < n :: !settles(j);
      assert i < n - 1 ==> owes'(i);
    }
    if !settles(n - 1) && Open(n - 1, owes', settles') {
      var i: nat :| i < n - 1 && owes'(i) && forall j: nat | i <= j < n - 1 :: !settles'(j);
      assert owes(i);
    }
  }

  ghost function OwesAt(b: Books, acts: seq<Action>, e: EdgeId): nat -> bool {
    (i: nat) => i < |acts| && Owes(KeepAll(b, acts[..i]).s, acts[i], e)
  }

  ghost function BumpedAt(b: Books, acts: seq<Action>, e: EdgeId): nat -> bool {
    (i: nat) => i < |acts| && Bumped(KeepAll(b, acts[..i]).s, acts[i], e)
  }

  /** Some action left the edge owing, and nobody has told it since. */
  ghost predicate LeftOwing(b: Books, acts: seq<Action>, e: EdgeId) {
    Open(|acts|, OwesAt(b, acts, e), BumpedAt(b, acts, e))
  }

  lemma LeftOwingLast(b: Books, acts: seq<Action>, e: EdgeId)
    requires acts != []
    ensures var front, a := acts[..|acts| - 1], acts[|acts| - 1];
      LeftOwing(b, acts, e) <==>
        !Bumped(KeepAll(b, front).s, a, e) && (LeftOwing(b, front, e) || Owes(KeepAll(b, front).s, a, e))
  {
    var front := acts[..|acts| - 1];
    forall i: nat | i < |front|
      ensures OwesAt(b, acts, e)(i) == OwesAt(b, front, e)(i) && BumpedAt(b, acts, e)(i) == BumpedAt(b, front, e)(i)
    {
      assert front[..i] == acts[..i];
    }
    OpenLast(|acts|, OwesAt(b, acts, e), BumpedAt(b, acts, e), OwesAt(b, front, e), BumpedAt(b, front, e));
  }

  /** Over every run from settled books, the edges that render something else than they were
      told are exactly those a promote, a bulk move or an excluding provision left owing and
      nobody has bumped since. */
  lemma {:induction false} DebtsOfRun(b: Books, acts: seq<Action>, e: EdgeId)
    requires BooksInv(b) && e != NoEdge && !Debt(b, e)
    ensures Debt(KeepAll(b, acts), e) <==> LeftOwing(b, acts, e)
    decreases |acts|
  {
    if acts != [] {
      var front := acts[..|acts| - 1];
      BooksKept(b, front);
      DebtsOfRun(b, front, e);
      DebtStep(KeepAll(b, front), acts[|acts| - 1], e);
      LeftOwingLast(b, acts, e);
    }
  }

  // ---- the retiring marker ----

  /** The only edge in debt, if any, is the one recorded as retiring. */
  ghost predicate Recorded(b: Books) {
    forall e | e != NoEdge && Debt(b, e) :: b.s.row.Some? && e == b.s.row.value.retiring
  }

  predicate Pending(b: Books, row: Row) {
    row.retiring != NoEdge && Debt(b, row.retiring)
  }

  /** The actions that leave every debt recorded. */
  predicate KeepsRecord(b: Books, a: Action) {
    match a
    case BulkCas(row) => !Wrote(b.s, a, row)
    case ManualPromote(row) => Wrote(b.s, a, row) ==> !Pending(b, row)
    case ManualProvision(row, o, cleared) =>
      Wrote(b.s, a, row) ==>
        if o.place.Some? then cleared && row.backup != NoEdge ==> row.backup == row.retiring
        else !o.primaryStill && o.failOpen ==> !Pending(b, row) && !(cleared && row.backup != NoEdge)
    case _ => true
  }

  lemma PassRecords(b: Books, r: Replica, o: Obs)
    requires BooksInv(b) && Recorded(b)
    ensures Recorded(Keep(b, Commit(r, o)))
  {
    var a, b' := Commit(r, o), Keep(b, Commit(r, o));
    forall e | e != NoEdge && Debt(b', e)
      ensures b'.s.row.Some? && e == b'.s.row.value.retiring
    {
      DebtStep(b, a, e);
      if r in b.s.held && Wrote(b.s, a, b.s.held[r].row) {
        var row, seen := b.s.held[r].row, Gating(b.s.held[r], o);
        Carries(b.s, a, row);
        Effect(b.s, a, row, e);
        if Retires(row, seen) {
          RetirePaysOne(row, seen, e);
        } else if Promotes(row, seen) {
          PromoteOwesOne(row, seen, e);
        }
      }
    }
  }

  lemma QuietRecords(b: Books, a: Action)
    requires BooksInv(b) && Recorded(b) && forall row :: !Wrote(b.s, a, row)
    ensures Recorded(Keep(b, a))
  {
    var b' := Keep(b, a);
    forall e | e != NoEdge && Debt(b', e)
      ensures b'.s.row.Some? && e == b'.s.row.value.retiring
    {
      DebtStep(b, a, e);
      NoEffect(b.s, a, e);
      SameRetiring(b.s, a);
    }
  }

  lemma SameRetiring(s: State, a: Action)
    requires RowInv(s) && forall row :: !Wrote(s, a, row)
    ensures SameEdges(s.row, Exec(s, a).row)
  {
    match a
    case Commit(r, o) => assert r in s.held ==> !Wrote(s, a, s.held[r].row);
    case BulkCas(q) => assert !Wrote(s, a, q);
    case ManualPromote(q) => assert !Wrote(s, a, q);
    case ManualProvision(q, o, _) => assert !Wrote(s, a, q);
    case _ =>
  }

  lemma BulkForgets(b: Books, row: Row)
    requires BooksInv(b) && Recorded(b) && Wrote(b.s, BulkCas(row), row)
    ensures !Recorded(Keep(b, BulkCas(row)))
    ensures forall e | e != NoEdge ::
      Debt(Keep(b, BulkCas(row)), e) <==> e == row.primary || (Pending(b, row) && e == row.retiring)
  {
    var a := BulkCas(row);
    Carries(b.s, a, row);
    forall e | e != NoEdge
      ensures Debt(Keep(b, a), e) <==> e == row.primary || (Pending(b, row) && e == row.retiring)
    {
      DebtStep(b, a, e);
      Effect(b.s, a, row, e);
    }
    assert Debt(Keep(b, a), row.primary) && Keep(b, a).s.row.value.retiring == NoEdge;
  }

  lemma PromoteForgetsIff(b: Books, row: Row)
    requires BooksInv(b) && Recorded(b) && Wrote(b.s, ManualPromote(row), row)
    ensures Recorded(Keep(b, ManualPromote(row))) <==> !Pending(b, row)
  {
    var a := ManualPromote(row);
    var b' := Keep(b, a);
    Carries(b.s, a, row);
    forall e | e != NoEdge
      ensures Debt(b', e) <==> Pending(b, row) && e == row.retiring
    {
      DebtStep(b, a, e);
      Effect(b.s, a, row, e);
    }
    if Pending(b, row) {
      assert Debt(b', row.retiring) && b'.s.row.value.retiring == row.primary;
    }
  }

  lemma ProvisionForgetsIff(b: Books, row: Row, o: Obs, cleared: bool)
    requires BooksInv(b) && Recorded(b) && Wrote(b.s, ManualProvision(row, o, cleared), row)
    ensures Recorded(Keep(b, ManualProvision(row, o, cleared))) <==> KeepsRecord(b, ManualProvision(row, o, cleared))
  {
    var a := ManualProvision(row, o, cleared);
    var b', d := Keep(b, a), DecisionOf(b.s, a, row);
    Carries(b.s, a, row);
    forall e | e != NoEdge
      ensures Debt(b', e) <==>
        !Bumps(d, e) && ((Pending(b, row) && e == row.retiring) || (cleared && e == row.backup && !d.Stay?))
    {
      DebtStep(b, a, e);
      Effect(b.s, a, row, e);
    }
    if d.Drop? && Pending(b, row) {
      assert RoleNow(b.s, row.retiring) == NoRole;
      assert Debt(b', row.retiring);
    }
    if cleared && row.backup != NoEdge && !d.Stay? {
      assert Debt(b', row.backup);
    }
  }

  /** Exactly which actions keep every debt recorded: passes, reads, edits, bumps and advances
      always do. A bulk move that succeeds never does, forgetting the dead primary and, if its
      withdraw was pending, the retiring edge. A manual promote forgets a pending retiring
      edge; a manual provision forgets an excluded backup, and a teardown by it a pending
      retiring edge. */
  lemma RecordKeptIff(b: Books, a: Action)
    requires BooksInv(b) && Recorded(b)
    ensures Recorded(Keep(b, a)) <==> KeepsRecord(b, a)
  {
    if row :| Wrote(b.s, a, row) {
      match a
      case Commit(r, o) => PassRecords(b, r, o);
      case BulkCas(q) => BulkForgets(b, q);
      case ManualPromote(q) => PromoteForgetsIff(b, q);
      case ManualProvision(q, o, cleared) => ProvisionForgetsIff(b, q, o, cleared);
    } else {
      QuietRecords(b, a);
    }
  }

  /** Every action of the run keeps the record. */
  ghost predicate Careful(b: Books, acts: seq<Action>) {
    forall i: nat | i < |acts| :: KeepsRecord(KeepAll(b, acts[..i]), acts[i])
  }

  /** So in runs of passes alone, and whatever else is careful, at most one edge at a time
      renders something it was not told, and it is the one the retire step will tell. */
  lemma {:induction false} CarefulRunsRecord(b: Books, acts: seq<Action>)
    requires BooksInv(b) && Recorded(b) && Careful(b, acts)
    ensures Recorded(KeepAll(b, acts))
    decreases |acts|
  {
    if acts != [] {
      var front := acts[..|acts| - 1];
      assert forall i: nat | i < |front| :: front[..i] == acts[..i] && front[i] == acts[i];
      CarefulRunsRecord(b, front);
      BooksKept(b, front);
      assert acts[..|front|] == front;
      RecordKeptIff(KeepAll(b, front), acts[|front|]);
    }
  }

  /** The books of a created pool: its homes have been told, nobody owes anything. */
  lemma CreatedBooks(s: State, row: Row)
    requires Init(s) && s.row == Some(row)
    ensures var b := Books(s, if row.backup == NoEdge then map[row.primary := Full] else map[row.primary := Full, row.backup := Standby]);
      BooksInv(b) && Recorded(b) && forall e | e != NoEdge :: !Debt(b, e)
  {
  }

  /** A pool promoted from `a` to `b` with `c` as new backup, the withdraw of `a` pending: a
      bulk move leaves it on `c` with no retiring edge, and both `a` and `b` still render it
      as far as they know. */
  lemma BulkForgetsBoth(b: Books, a: EdgeId, p: EdgeId, c: EdgeId)
    requires BooksInv(b) && Recorded(b) && b.s.row == Some(Row(p, c, a, 3))
    requires a != NoEdge && c != NoEdge && a != c && Told(b, a) == Full
    ensures var b' := Keep(b, BulkCas(Row(p, c, a, 3)));
      && b'.s.row == Some(Row(c, NoEdge, NoEdge, 4))
      && Debt(b', a) && Told(b', a) == Full && Debt(b', p) && Told(b', p) == Full
  {
    var act, row := BulkCas(Row(p, c, a, 3)), Row(p, c, a, 3);
    assert Wrote(b.s, act, row);
    Carries(b.s, act, row);
    BulkForgets(b, row);
    Effect(b.s, act, row, a);
    Effect(b.s, act, row, p);
    ToldAfter(b, act, a);
    ToldAfter(b, act, p);
    assert RoleNow(b.s, p) == Full;
  }

  function Opened(a: EdgeId, p: EdgeId): Books {
    var row := Row(a, p, NoEdge, 1);
    Books(State(Some(row), -1, -1, {row}, map[], map[], map[], []), map[a := Full, p := Standby])
  }

  function AfterReads(a: EdgeId, p: EdgeId): Books {
    Keep(Keep(Keep(Opened(a, p), ReadPivot(0)), ReadDesired(0)), ReadApplied(0))
  }

  lemma ReadsKeepBooks(a: EdgeId, p: EdgeId)
    requires a != NoEdge && p != NoEdge && a != p
    ensures var b := AfterReads(a, p);
      && BooksInv(b) && Recorded(b) && b.s.row == Some(Row(a, p, NoEdge, 1)) && Told(b, a) == Full
      && b.s.held == map[0 := Held(Row(a, p, NoEdge, 1), SawGate(true))]
  {
    var b0 := Opened(a, p);
    CreatedBooks(b0.s, Row(a, p, NoEdge, 1));
    assert b0.told == map[a := Full, p := Standby];
    var b1 := Keep(b0, ReadPivot(0));
    BooksStep(b0, ReadPivot(0));
    RecordKeptIff(b0, ReadPivot(0));
    var b2 := Keep(b1, ReadDesired(0));
    BooksStep(b1, ReadDesired(0));
    RecordKeptIff(b1, ReadDesired(0));
    BooksStep(b2, ReadApplied(0));
    RecordKeptIff(b2, ReadApplied(0));
    ToldAfter(b0, ReadPivot(0), a);
    ToldAfter(b1, ReadDesired(0), a);
    ToldAfter(b2, ReadApplied(0), a);
  }

  /** The situation arises: created on `a` with backup `p`, `a` dies, a gated pass promotes
      `p`, and a manual provision places `c`. */
  lemma PendingIsReached(a: EdgeId, p: EdgeId, c: EdgeId, o: Obs, o': Obs)
    requires a != NoEdge && p != NoEdge && c != NoEdge && a != p && p != c && a != c
    requires !o.primaryAlive && o.backupAlive && o.backupStill && o.place.None? && o'.place == Some(c)
    ensures var promoted := Keep(AfterReads(a, p), Commit(0, o));
      var b := Keep(promoted, ManualProvision(Row(p, NoEdge, a, 2), o', false));
      && BooksInv(b) && Recorded(b) && b.s.row == Some(Row(p, c, a, 3)) && Told(b, a) == Full
  {
    var b, row := AfterReads(a, p), Row(a, p, NoEdge, 1);
    ReadsKeepBooks(a, p);
    assert Wrote(b.s, Commit(0, o), row);
    Carries(b.s, Commit(0, o), row);
    Effect(b.s, Commit(0, o), row, a);
    BooksStep(b, Commit(0, o));
    RecordKeptIff(b, Commit(0, o));
    ToldAfter(b, Commit(0, o), a);
    var b1, act := Keep(b, Commit(0, o)), ManualProvision(Row(p, NoEdge, a, 2), o', false);
    assert b1.s.row == Some(Row(p, NoEdge, a, 2));
    assert Wrote(b1.s, act, Row(p, NoEdge, a, 2));
    Carries(b1.s, act, Row(p, NoEdge, a, 2));
    Effect(b1.s, act, Row(p, NoEdge, a, 2), a);
    BooksStep(b1, act);
    RecordKeptIff(b1, act);
    ToldAfter(b1, act, a);
  }
}
