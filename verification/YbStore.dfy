/** The pool/member store: the two SQL tables as finite maps, and what each
    transaction does to them. Class `Store` runs the transactions the way the
    code does; the functions say what they mean. */
module YbStore {
  import opened Model

  datatype Pool = Pool(id: PoolId, members: seq<Prefix>, homeEdge: EdgeId, failOpen: bool, product: int)

  /** The JSON that lands in pools.body. */
  datatype Record = Record(pool: Pool, primary: EdgeId, backup: EdgeId, tokens: int, retiringEdge: EdgeId)

  datatype PivotRow = PivotRow(
    pool: Pool, poolId: PoolId, primary: EdgeId, backup: EdgeId, retiring: EdgeId, tokens: int, version: nat)

  datatype Error = Ok | ErrExists | ErrMemberConflict | ErrNotFound | ErrConflict

  datatype PoolRow = PoolRow(body: Record, home: EdgeId, backup: EdgeId, cost: int, version: nat, retiring: bool)

  datatype MemberRow = MemberRow(pool: PoolId, home: EdgeId)

  datatype Tables = Tables(pools: map<PoolId, PoolRow>, members: map<Prefix, MemberRow>)

  // ---- what each transaction means ----

  function Homed(rec: Record): Record {
    rec.(pool := rec.pool.(homeEdge := rec.primary))
  }

  /** Some prefix of `ps` is a member row of a pool other than `id`. */
  predicate ForeignClaim(t: Tables, ps: seq<Prefix>, id: PoolId) {
    exists p :: p in ps && p in t.members && t.members[p].pool != id
  }

  function Owned(t: Tables, id: PoolId): set<Prefix> {
    set p | p in t.members && t.members[p].pool == id
  }

  function Create(t: Tables, rec: Record): (Tables, Error) {
    var id := rec.pool.id;
    if id in t.pools then (t, ErrExists)
    else if !Distinct(rec.pool.members) || (exists p :: p in rec.pool.members && p in t.members) then
      (t, ErrMemberConflict)
    else
      (Tables(
         t.pools[id := PoolRow(Homed(rec), rec.primary, rec.backup, rec.tokens, 1, false)],
         t.members + map p | p in rec.pool.members :: MemberRow(id, rec.primary)),
       Ok)
  }

  /** The member rows after a pool's prefixes became `ps`: rows of other pools and
      kept rows stand, new rows are homed at `home`. */
  function Synced(members: map<Prefix, MemberRow>, id: PoolId, ps: seq<Prefix>, home: EdgeId): map<Prefix, MemberRow> {
    map p | p in members.Keys + Elems(ps) && (p in ps || members[p].pool != id)
      :: if p in members then members[p] else MemberRow(id, home)
  }

  function Update(t: Tables, rec: Record): (Tables, Error) {
    var id := rec.pool.id;
    if id !in t.pools then (t, ErrNotFound)
    else if ForeignClaim(t, rec.pool.members, id) then (t, ErrMemberConflict)
    else
      (Tables(
         t.pools[id := t.pools[id].(body := Homed(rec), version := t.pools[id].version + 1)],
         Synced(t.members, id, rec.pool.members, rec.primary)),
       Ok)
  }

  function Without(ps: seq<Prefix>, p: Prefix): (r: seq<Prefix>)
    ensures forall q :: q in r <==> q in ps && q != p
    ensures Distinct(ps) ==> Distinct(r)
  {
    if ps == [] then []
    else
      var front, last := Without(ps[..|ps| - 1], p), ps[|ps| - 1];
      assert Distinct(ps) ==> last !in ps[..|ps| - 1];
      if last == p then front else front + [last]
  }

  function Remove(t: Tables, id: PoolId, p: Prefix): (Tables, Error) {
    if id !in t.pools then (t, ErrNotFound)
    else
      var row := t.pools[id];
      var body := row.body.(pool := row.body.pool.(members := Without(row.body.pool.members, p)));
      (Tables(
         t.pools[id := row.(body := body, version := row.version + 1)],
         if p in t.members && t.members[p].pool == id then t.members - {p} else t.members),
       Ok)
  }

  function Rehomed(members: map<Prefix, MemberRow>, id: PoolId, home: EdgeId): map<Prefix, MemberRow> {
    map p | p in members :: if members[p].pool == id then MemberRow(id, home) else members[p]
  }

  function UpdateCas(t: Tables, row: PivotRow, expected: nat, primary: EdgeId, backup: EdgeId, retiring: EdgeId)
    : (Tables, Error)
  {
    var id := row.poolId;
    if id !in t.pools || t.pools[id].version != expected then (t, ErrConflict)
    else
      var body := Homed(Record(row.pool, primary, backup, row.tokens, retiring));
      (Tables(
         t.pools[id := PoolRow(body, primary, backup, t.pools[id].cost, expected + 1, retiring != NoEdge)],
         if primary != row.primary && primary != NoEdge then Rehomed(t.members, id, primary) else t.members),
       Ok)
  }

  function DropMembers(members: map<Prefix, MemberRow>, id: PoolId): map<Prefix, MemberRow> {
    map p | p in members && members[p].pool != id :: members[p]
  }

  function Delete(t: Tables, id: PoolId): Tables {
    Tables(t.pools - {id}, DropMembers(t.members, id))
  }

  function DeleteCas(t: Tables, id: PoolId, expected: nat): (Tables, Error) {
    if id !in t.pools || t.pools[id].version != expected then (t, ErrConflict) else (Delete(t, id), Ok)
  }

  /** GetForReconcile: placement from the columns, the definition and the retiring
      edge from the body. */
  function ReadRow(t: Tables, id: PoolId): PivotRow
    requires id in t.pools
  {
    var r := t.pools[id];
    PivotRow(r.body.pool, id, r.home, r.backup, if r.retiring then r.body.retiringEdge else NoEdge, r.cost, r.version)
  }

  /** What a replica read lets it write, and what it wrote is what the next reader gets:
      placement and retiring edge as given, members and cost as read, the next version. */
  lemma WriteThenRead(t: Tables, id: PoolId, primary: EdgeId, backup: EdgeId, retiring: EdgeId)
    requires id in t.pools
    ensures var read := ReadRow(t, id);
      var (t', err) := UpdateCas(t, read, read.version, primary, backup, retiring);
      && err == Ok && id in t'.pools
      && ReadRow(t', id) ==
         PivotRow(read.pool.(homeEdge := primary), id, primary, backup, retiring, read.tokens, read.version + 1)
  {
  }

  /** What a successful create leaves to read: the record's placement and cost, nothing
      retiring, version 1, the definition homed at the primary, and a row per member there. */
  lemma CreateThenRead(t: Tables, rec: Record)
    requires Create(t, rec).1 == Ok
    ensures var t', id := Create(t, rec).0, rec.pool.id;
      && id !in t.pools && id in t'.pools
      && ReadRow(t', id) ==
         PivotRow(rec.pool.(homeEdge := rec.primary), id, rec.primary, rec.backup, NoEdge, rec.tokens, 1)
      && (forall p :: p in t'.members <==> p in t.members || p in rec.pool.members)
      && (forall p | p in t'.members ::
            t'.members[p] == if p in rec.pool.members then MemberRow(id, rec.primary) else t.members[p])
  {
  }

  /** What a successful update leaves to read: the new definition at the next version, with
      placement and cost untouched. */
  lemma UpdateThenRead(t: Tables, rec: Record)
    requires Update(t, rec).1 == Ok
    ensures var t', id := Update(t, rec).0, rec.pool.id;
      && id in t.pools && t'.pools.Keys == t.pools.Keys
      && var was, now := ReadRow(t, id), ReadRow(t', id);
         && now.pool == rec.pool.(homeEdge := rec.primary) && now.version == was.version + 1
         && now.primary == was.primary && now.backup == was.backup && now.tokens == was.tokens
         && now.retiring == (if t.pools[id].retiring then rec.retiringEdge else NoEdge)
    ensures var t', id := Update(t, rec).0, rec.pool.id;
      && (forall p :: p in t'.members <==> p in rec.pool.members || (p in t.members && t.members[p].pool != id))
      && (forall p | p in t'.members :: t'.members[p] == if p in t.members then t.members[p] else MemberRow(id, rec.primary))
  {
  }

  /** A removal takes the one member from the definition and from the pool's rows, and leaves
      placement, cost and retiring edge alone. */
  lemma RemoveThenRead(t: Tables, id: PoolId, p: Prefix)
    requires id in t.pools
    ensures var t' := Remove(t, id, p).0;
      && id in t'.pools
      && var was, now := ReadRow(t, id), ReadRow(t', id);
         && now == was.(pool := was.pool.(members := now.pool.members), version := was.version + 1)
         && (forall q :: q in now.pool.members <==> q in was.pool.members && q != p)
    ensures var t' := Remove(t, id, p).0;
      && (forall q :: q in t'.members <==> q in t.members && !(q == p && t.members[q].pool == id))
      && (forall q | q in t'.members :: t'.members[q] == t.members[q])
  {
  }

  // ---- the transactions as the code runs them ----

  class Store {
    var pools: map<PoolId, PoolRow>
    var members: map<Prefix, MemberRow>

    function View(): Tables
      reads this
    {
      Tables(pools, members)
    }

    constructor ()
      ensures View() == Tables(map[], map[])
    {
      pools, members := map[], map[];
    }

    method CreatePool(rec: Record) returns (err: Error)
      modifies this
      ensures (View(), err) == Create(old(View()), rec)
    {
      var id := rec.pool.id;
      if id in pools {
        return ErrExists;
      }
      var ms := rec.pool.members;
      var table := members;
      for i := 0 to |ms|
        invariant Distinct(ms[..i])
        invariant forall p :: p in ms[..i] ==> p !in members
        invariant table.Keys == members.Keys + Elems(ms[..i])
        invariant forall p :: p in table ==> table[p] == if p in members then members[p] else MemberRow(id, rec.primary)
      {
        assert ms[..i + 1] == ms[..i] + [ms[i]];
        if ms[i] in table {
          assert ms[i] in members || ms[i] in ms[..i];
          return ErrMemberConflict;
        }
        table := table[ms[i] := MemberRow(id, rec.primary)];
      }
      assert ms[..|ms|] == ms;
      assert table == members + map p | p in ms :: MemberRow(id, rec.primary);
      pools := pools[id := PoolRow(Homed(rec), rec.primary, rec.backup, rec.tokens, 1, false)];
      members := table;
      err := Ok;
    }

    /** The incremental member diff: read this pool's prefixes, delete the removed,
        insert the added, and treat a short insert count as a foreign claim. */
    method UpdatePool(rec: Record) returns (err: Error)
      modifies this
      ensures (View(), err) == Update(old(View()), rec)
    {
      var id := rec.pool.id;
      if id !in pools {
        return ErrNotFound;
      }
      var ms := rec.pool.members;
      var cur: set<Prefix> := set p | p in members && members[p].pool == id;
      var newSet: set<Prefix> := {};
      for i := 0 to |ms|
        invariant newSet == Elems(ms[..i])
      {
        assert ms[..i + 1] == ms[..i] + [ms[i]];
        newSet := newSet + {ms[i]};
      }
      assert ms[..|ms|] == ms;
      var added := Minus(newSet, cur);
      var removed := Minus(cur, newSet);
      var table := members - Elems(removed);
      var inserted;
      table, inserted := InsertAll(table, added, MemberRow(id, rec.primary));
      assert forall p :: p in added <==> p in ms && p !in cur;
      if inserted < |added| {
        return ErrMemberConflict;
      }
      assert forall p :: p in removed <==> p in cur && p !in ms;
      assert table == Synced(members, id, ms, rec.primary);
      pools := pools[id := pools[id].(body := Homed(rec), version := pools[id].version + 1)];
      members := table;
      err := Ok;
    }

    method RemoveMember(id: PoolId, prefix: Prefix) returns (err: Error)
      modifies this
      ensures (View(), err) == Remove(old(View()), id, prefix)
    {
      var table := if prefix in members && members[prefix].pool == id then members - {prefix} else members;
      if id !in pools {
        return ErrNotFound;
      }
      var row := pools[id];
      var kept := Keep(row.body.pool.members, prefix);
      pools := pools[id := row.(body := row.body.(pool := row.body.pool.(members := kept)), version := row.version + 1)];
      members := table;
      err := Ok;
    }

    method GetForReconcile(id: PoolId) returns (row: Option<PivotRow>)
      ensures row == if id in pools then Some(ReadRow(View(), id)) else None
    {
      row := if id in pools then Some(ReadRow(View(), id)) else None;
    }

    method UpdateCAS(row: PivotRow, expected: nat, primary: EdgeId, backup: EdgeId, retiring: EdgeId)
      returns (err: Error)
      modifies this
      ensures (View(), err) == UpdateCas(old(View()), row, expected, primary, backup, retiring)
    {
      var id := row.poolId;
      if id !in pools || pools[id].version != expected {
        return ErrConflict;
      }
      var body := Homed(Record(row.pool, primary, backup, row.tokens, retiring));
      pools := pools[id := PoolRow(body, primary, backup, pools[id].cost, pools[id].version + 1, retiring != NoEdge)];
      if primary != row.primary && primary != NoEdge {
        members := Rehomed(members, id, primary);
      }
      err := Ok;
    }

    method DeleteCAS(id: PoolId, expected: nat) returns (err: Error)
      modifies this
      ensures (View(), err) == DeleteCas(old(View()), id, expected)
    {
      if id !in pools || pools[id].version != expected {
        return ErrConflict;
      }
      pools := pools - {id};
      members := DropMembers(members, id);
      err := Ok;
    }
  }

  /** Copy `ms` leaving out `prefix`. */
  method Keep(ms: seq<Prefix>, prefix: Prefix) returns (kept: seq<Prefix>)
    ensures kept == Without(ms, prefix)
  {
    kept := [];
    for i := 0 to |ms|
      invariant kept == Without(ms[..i], prefix)
    {
      assert ms[..i + 1][..i] == ms[..i];
      if ms[i] != prefix {
        kept := kept + [ms[i]];
      }
    }
    assert ms[..|ms|] == ms;
  }

  /** The elements of `xs` not in `ys`, each once, in the order the map yields them. */
  method Minus(xs: set<Prefix>, ys: set<Prefix>) returns (out: seq<Prefix>)
    ensures Distinct(out)
    ensures forall p :: p in out <==> p in xs && p !in ys
  {
    out := [];
    var todo := xs;
    while todo != {}
      invariant todo <= xs
      invariant Distinct(out)
      invariant forall p :: p in out <==> p in xs && p !in todo && p !in ys
      decreases |todo|
    {
      var p :| p in todo;
      if p !in ys {
        out := out + [p];
      }
      todo := todo - {p};
    }
  }

  /** INSERT ... ON CONFLICT (prefix) DO NOTHING, with the affected-row count. */
  method InsertAll(table: map<Prefix, MemberRow>, ps: seq<Prefix>, row: MemberRow)
    returns (out: map<Prefix, MemberRow>, inserted: nat)
    requires Distinct(ps)
    ensures inserted <= |ps|
    ensures inserted == |ps| <==> forall p :: p in ps ==> p !in table
    ensures out.Keys == table.Keys + Elems(ps)
    ensures forall p :: p in out ==> out[p] == if p in table then table[p] else row
  {
    out, inserted := table, 0;
    for i := 0 to |ps|
      invariant inserted <= i
      invariant inserted == i <==> forall p :: p in ps[..i] ==> p !in table
      invariant out.Keys == table.Keys + Elems(ps[..i])
      invariant forall p :: p in out ==> out[p] == if p in table then table[p] else row
    {
      assert ps[..i + 1] == ps[..i] + [ps[i]];
      assert ps[i] !in ps[..i];
      if ps[i] !in out {
        out := out[ps[i] := row];
        inserted := inserted + 1;
      }
    }
    assert ps[..|ps|] == ps;
  }
}
