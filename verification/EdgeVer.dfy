/** The per-edge desired and applied versions: counters that any number of replicas
    raise by reading a key and putting it back only if its revision has not moved. */
module EdgeVer {
  import opened Model

  type Replica = nat

  /** A key's value and the revision of its last put; an absent key reads as 0/0. */
  datatype Cell = Cell(value: nat, rev: nat)

  type Keys = map<EdgeId, Cell>

  function Read(m: Keys, e: EdgeId): Cell {
    if e in m then m[e] else Cell(0, 0)
  }

  // ---- the retry loops ----

  const MAX_RETRIES := 64

  function Sum(ks: seq<nat>): nat {
    if ks == [] then 0 else Sum(ks[..|ks| - 1]) + ks[|ks| - 1]
  }

  /** Try `i` is the first that nobody races. */
  predicate FirstFree(others: seq<nat>, i: nat) {
    i < |others| && i < MAX_RETRIES && others[i] == 0 && forall j | 0 <= j < i :: others[j] > 0
  }

  /** What try `i` finds: the start value, or what the last racer left. */
  function Found(start: nat, others: seq<nat>, i: nat): nat
    requires i <= |others|
  {
    if i == 0 then start else others[i - 1]
  }

  /** Try `i` finds less than `v` and is overtaken by a higher advance. */
  predicate Fails(start: nat, v: nat, others: seq<nat>, i: nat)
    requires i < |others|
  {
    Found(start, others, i) < v && others[i] > Found(start, others, i)
  }

  /** Every try fails. The last overtaking is not looked at again, so it may have reached `v`. */
  predicate Overtaken(start: nat, v: nat, others: seq<nat>, tries: nat)
    requires tries <= |others|
  {
    forall i: nat | i < tries :: Fails(start, v, others, i)
  }

  /** Every try fails and the last racer has reached `v` all the same. */
  predicate FailsReached(start: nat, v: nat, others: seq<nat>)
    requires |others| >= MAX_RETRIES
  {
    Overtaken(start, v, others, MAX_RETRIES) && others[MAX_RETRIES - 1] >= v
  }

  /** Racers 1, 2, ..., 64 against an advance to 64: it fails with 64 stored. */
  lemma FailureWithValueReached()
    ensures FailsReached(0, 64, seq(64, i => i + 1)) && !FailsReached(0, 64, seq(65, i => i))
  {
  }

  class Versions {
    var desired: Keys
    var applied: Keys
    var rev: nat

    constructor ()
      ensures desired == map[] && applied == map[] && Valid()
      ensures forall e :: Read(desired, e) == Cell(0, 0) && Read(applied, e) == Cell(0, 0)
    {
      desired, applied, rev := map[], map[], 0;
    }

    /** Revisions are handed out once, in increasing order, to every put. */
    ghost predicate Valid()
      reads this
    {
      && (forall e :: e in desired ==> 0 < desired[e].rev <= rev)
      && (forall e :: e in applied ==> 0 < applied[e].rev <= rev)
    }

    /** `k` bumps of `edge` by other replicas. */
    method OthersBump(edge: EdgeId, k: nat)
      requires Valid()
      modifies this`desired, this`rev
      ensures Valid() && rev == old(rev) + k
      ensures k == 0 ==> desired == old(desired)
      ensures k > 0 ==> desired == old(desired)[edge := Cell(Read(old(desired), edge).value + k, rev)]
    {
      if k > 0 {
        rev := rev + k;
        desired := desired[edge := Cell(Read(desired, edge).value + k, rev)];
      }
    }

    /** Read, add one, put back if nobody put in between; at most 64 tries.
        `others[i]` is how many bumps of this edge by other replicas land inside try `i`.
        The loop fails exactly when every try is raced; otherwise the first try nobody races
        succeeds, the value returned counts every bump of this edge up to and including it,
        and no other key moves. */
    method Bump(edge: EdgeId, others: seq<nat>) returns (r: Option<nat>)
      requires Valid() && |others| >= MAX_RETRIES
      modifies this`desired, this`rev
      ensures Valid()
      ensures r.None? <==> forall i :: 0 <= i < MAX_RETRIES ==> others[i] > 0
      ensures r.Some? ==>
                exists i: nat | FirstFree(others, i) :: r.value == Read(old(desired), edge).value + Sum(others[..i]) + 1
      ensures r.Some? ==> edge in desired && desired[edge].value == r.value
      ensures Read(desired, edge).value ==
                if r.Some? then r.value else Read(old(desired), edge).value + Sum(others[..MAX_RETRIES])
      ensures forall e :: e != edge ==> Read(desired, e) == Read(old(desired), e)
    {
      for i := 0 to MAX_RETRIES
        invariant Valid()
        invariant forall j :: 0 <= j < i ==> others[j] > 0
        invariant Read(desired, edge).value == Read(old(desired), edge).value + Sum(others[..i])
        invariant forall e :: e != edge ==> Read(desired, e) == Read(old(desired), e)
      {
        var cur := Read(desired, edge);
        var next := cur.value + 1;
        OthersBump(edge, others[i]);
        if Read(desired, edge).rev == cur.rev {
          assert FirstFree(others, i);
          rev := rev + 1;
          desired := desired[edge := Cell(next, rev)];
          return Some(next);
        }
        assert others[..i + 1][..i] == others[..i];
      }
      r := None;
    }

    /** Another replica's advance of `edge` to `v`: a put only if it raises the value. */
    method OtherAdvances(edge: EdgeId, v: nat)
      requires Valid()
      modifies this`applied, this`rev
      ensures Valid() && old(rev) <= rev
      ensures v <= Read(old(applied), edge).value ==> applied == old(applied)
      ensures v > Read(old(applied), edge).value ==> applied == old(applied)[edge := Cell(v, rev)] && rev > old(rev)
    {
      if v > Read(applied, edge).value {
        rev := rev + 1;
        applied := applied[edge := Cell(v, rev)];
      }
    }

    /** Raise the applied version to `v` unless it is there already. `others[i]` is what
        another replica advances the edge to inside try `i`. Success means at least `v`,
        failure happens exactly when every try finds less than `v` and is overtaken by a
        higher advance, and the value never goes down. */
    method Advance(edge: EdgeId, v: nat, others: seq<nat>) returns (ok: bool)
      requires Valid() && |others| >= MAX_RETRIES
      modifies this`applied, this`rev
      ensures Valid()
      ensures Read(applied, edge).value >= Read(old(applied), edge).value
      ensures ok ==> Read(applied, edge).value >= v
      ensures ok && v > 0 ==> edge in applied && applied[edge].value >= v
      ensures !ok <==> Overtaken(Read(old(applied), edge).value, v, others, MAX_RETRIES)
      ensures !ok ==> Read(applied, edge).value == others[MAX_RETRIES - 1]
      ensures !ok && Read(applied, edge).value >= v <==>
                FailsReached(Read(old(applied), edge).value, v, others)
      ensures forall e :: e != edge ==> Read(applied, e) == Read(old(applied), e)
    {
      for i := 0 to MAX_RETRIES
        invariant Valid()
        invariant Read(applied, edge).value >= Read(old(applied), edge).value
        invariant Read(applied, edge).value == Found(Read(old(applied), edge).value, others, i)
        invariant Overtaken(Read(old(applied), edge).value, v, others, i)
        invariant forall e :: e != edge ==> Read(applied, e) == Read(old(applied), e)
      {
        var cur := Read(applied, edge);
        if cur.value >= v {
          assert !Fails(Read(old(applied), edge).value, v, others, i);
          return true;
        }
        OtherAdvances(edge, others[i]);
        if Read(applied, edge).rev == cur.rev {
          assert !Fails(Read(old(applied), edge).value, v, others, i);
          rev := rev + 1;
          applied := applied[edge := Cell(v, rev)];
          return true;
        }
      }
      ok := false;
    }
  }

  // ---- every interleaving ----

  datatype Key = Desired(edge: EdgeId) | Applied(edge: EdgeId)

  type Store = map<Key, Cell>

  function At(kv: Store, k: Key): Cell {
    if k in kv then kv[k] else Cell(0, 0)
  }

  /** A replica between its read of a key and its put: what it saw, what it will write. */
  datatype Pending = Pending(key: Key, seen: Cell, next: nat)

  /** A successful bump with the value it returned, or a successful advance. */
  datatype Event = Bumped(edge: EdgeId, value: nat) | Advanced(edge: EdgeId, v: nat)

  datatype State = State(kv: Store, rev: nat, pending: map<Replica, Pending>, log: seq<Event>)

  datatype Action =
    | ReadForBump(r: Replica, edge: EdgeId)
    | ReadForAdvance(r: Replica, edge: EdgeId, v: nat)
    | Put(r: Replica)

  function Done(p: Pending): Event {
    if p.key.Desired? then Bumped(p.key.edge, p.next) else Advanced(p.key.edge, p.next)
  }

  function Exec(s: State, a: Action): State {
    match a
    case ReadForBump(r, e) =>
      var seen := At(s.kv, Desired(e));
      s.(pending := s.pending[r := Pending(Desired(e), seen, seen.value + 1)])
    case ReadForAdvance(r, e, v) =>
      var seen := At(s.kv, Applied(e));
      if seen.value >= v then s.(log := s.log + [Advanced(e, v)])
      else s.(pending := s.pending[r := Pending(Applied(e), seen, v)])
    case Put(r) =>
      if r in s.pending && At(s.kv, s.pending[r].key).rev == s.pending[r].seen.rev then
        var p := s.pending[r];
        State(s.kv[p.key := Cell(p.next, s.rev + 1)], s.rev + 1, s.pending - {r}, s.log + [Done(p)])
      else s.(pending := s.pending - {r})
  }

  function Run(s: State, acts: seq<Action>): State
    decreases |acts|
  {
    if acts == [] then s else Run(Exec(s, acts[0]), acts[1..])
  }

  const Start := State(map[], 0, map[], [])

  /** How many bumps of `e` the log holds. */
  function Bumps(log: seq<Event>, e: EdgeId): nat {
    if log == [] then 0
    else Bumps(log[..|log| - 1], e) + (if log[|log| - 1].Bumped? && log[|log| - 1].edge == e then 1 else 0)
  }

  /** The n-th successful bump of an edge returned n. */
  ghost predicate Counted(log: seq<Event>) {
    forall i :: 0 <= i < |log| && log[i].Bumped? ==> log[i].value == Bumps(log[..i], log[i].edge) + 1
  }

  /** Revisions only grow, so a remembered read whose revision still stands is exact. */
  ghost predicate ReadsOk(s: State) {
    && (forall k :: k in s.kv ==> 0 < s.kv[k].rev <= s.rev)
    && (forall r :: r in s.pending ==>
          && s.pending[r].seen.rev <= s.rev
          && (s.pending[r].seen.rev == At(s.kv, s.pending[r].key).rev ==>
                s.pending[r].seen == At(s.kv, s.pending[r].key))
          && (if s.pending[r].key.Desired? then s.pending[r].next == s.pending[r].seen.value + 1
              else s.pending[r].next > s.pending[r].seen.value))
  }

  ghost predicate BumpsOk(s: State) {
    Counted(s.log) && forall e :: At(s.kv, Desired(e)).value == Bumps(s.log, e)
  }

  ghost predicate AdvancesOk(s: State) {
    forall i :: 0 <= i < |s.log| && s.log[i].Advanced? ==> At(s.kv, Applied(s.log[i].edge)).value >= s.log[i].v
  }

  ghost predicate Inv(s: State) {
    ReadsOk(s) && BumpsOk(s) && AdvancesOk(s)
  }

  lemma ReadsStep(s: State, a: Action)
    requires ReadsOk(s)
    ensures ReadsOk(Exec(s, a))
    ensures forall k :: At(Exec(s, a).kv, k).value >= At(s.kv, k).value
  {
  }

  lemma CountSnoc(log: seq<Event>, x: Event)
    requires Counted(log) && (x.Bumped? ==> x.value == Bumps(log, x.edge) + 1)
    ensures Counted(log + [x])
    ensures forall e :: Bumps(log + [x], e) == Bumps(log, e) + if x.Bumped? && x.edge == e then 1 else 0
  {
    assert forall i :: 0 <= i <= |log| ==> (log + [x])[..i] == log[..i];
    assert log[..|log|] == log;
  }

  lemma BumpsStep(s: State, a: Action)
    requires ReadsOk(s) && BumpsOk(s)
    ensures BumpsOk(Exec(s, a))
  {
    match a
    case ReadForBump(_, _) =>
    case ReadForAdvance(_, e, v) => CountSnoc(s.log, Advanced(e, v));
    case Put(r) =>
      if r in s.pending && At(s.kv, s.pending[r].key).rev == s.pending[r].seen.rev {
        CountSnoc(s.log, Done(s.pending[r]));
      }
  }

  lemma AdvancesStep(s: State, a: Action)
    requires AdvancesOk(s)
    requires forall k :: At(Exec(s, a).kv, k).value >= At(s.kv, k).value
    ensures AdvancesOk(Exec(s, a))
  {
  }

  lemma Step(s: State, a: Action)
    requires Inv(s)
    ensures Inv(Exec(s, a))
    ensures forall k :: At(Exec(s, a).kv, k).value >= At(s.kv, k).value
  {
    ReadsStep(s, a);
    BumpsStep(s, a);
    AdvancesStep(s, a);
  }

  lemma {:induction false} RunKeeps(s: State, acts: seq<Action>)
    requires Inv(s)
    ensures Inv(Run(s, acts))
    ensures forall k :: At(Run(s, acts).kv, k).value >= At(s.kv, k).value
    decreases |acts|
  {
    if acts != [] {
      Step(s, acts[0]);
      RunKeeps(Exec(s, acts[0]), acts[1..]);
    }
  }

  lemma {:induction false} BumpsGrow(log: seq<Event>, i: nat, j: nat, e: EdgeId)
    requires i <= j <= |log|
    ensures Bumps(log[..i], e) <= Bumps(log[..j], e)
    decreases j - i
  {
    if i < j {
      BumpsGrow(log, i, j - 1, e);
      assert log[..j][..j - 1] == log[..j - 1];
    }
  }

  /** Whatever the interleaving: the n-th successful bump of an edge returned n, two bumps
      of one edge never returned the same value, and a successful advance stays in force. */
  lemma EveryRunCounts(acts: seq<Action>)
    ensures var s := Run(Start, acts);
            && Counted(s.log)
            && (forall e :: At(s.kv, Desired(e)).value == Bumps(s.log, e))
            && (forall i, j | 0 <= i < j < |s.log| && s.log[i].Bumped? && s.log[j].Bumped?
                  && s.log[i].edge == s.log[j].edge :: s.log[i].value < s.log[j].value)
            && AdvancesOk(s)
  {
    RunKeeps(Start, acts);
    var s := Run(Start, acts);
    forall i, j | 0 <= i < j < |s.log| && s.log[i].Bumped? && s.log[j].Bumped? && s.log[i].edge == s.log[j].edge
      ensures s.log[i].value < s.log[j].value
    {
      BumpsGrow(s.log, i + 1, j, s.log[i].edge);
      assert s.log[..i + 1][..i] == s.log[..i];
    }
  }
}
