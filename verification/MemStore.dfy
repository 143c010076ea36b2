/** The one-map store: a record and a version per pool id. It has the same
    operations as the two-table store and is the meaning that store should have. */
module MemStore {
  import opened Model
  import opened YbStore

  datatype State = State(pools: map<PoolId, Record>, version: map<PoolId, nat>)

  /** The version map is keyed by the pools, and no prefix is a member of two pools. */
  predicate Sound(m: State) {
    && m.version.Keys == m.pools.Keys
    && forall id, id', p | id in m.pools && id' in m.pools
         && p in m.pools[id].pool.members && p in m.pools[id'].pool.members :: id == id'
  }

  predicate Claimed(m: State, ps: seq<Prefix>, id: PoolId) {
    exists p, o :: o in m.pools && o != id && p in m.pools[o].pool.members && p in ps
  }

  function MemCreate(m: State, rec: Record): (State, Error) {
    var id := rec.pool.id;
    if id in m.pools then (m, ErrExists)
    else if Claimed(m, rec.pool.members, id) then (m, ErrMemberConflict)
    else (State(m.pools[id := Homed(rec)], m.version[id := 1]), Ok)
  }

  function MemUpdate(m: State, rec: Record): (State, Error)
    requires Sound(m)
  {
    var id := rec.pool.id;
    if id !in m.pools then (m, ErrNotFound)
    else if Claimed(m, rec.pool.members, id) then (m, ErrMemberConflict)
    else (State(m.pools[id := Homed(rec)], m.version[id := m.version[id] + 1]), Ok)
  }

  function MemRemove(m: State, id: PoolId, p: Prefix): (State, Error)
    requires Sound(m)
  {
    if id !in m.pools then (m, ErrNotFound)
    else
      var rec := m.pools[id];
      (State(
         m.pools[id := rec.(pool := rec.pool.(members := Without(rec.pool.members, p)))],
         m.version[id := m.version[id] + 1]),
       Ok)
  }

  function MemUpdateCas(m: State, id: PoolId, expected: nat, primary: EdgeId, backup: EdgeId, retiring: EdgeId)
    : (State, Error)
  {
    if id !in m.pools || id !in m.version || m.version[id] != expected then (m, ErrConflict)
    else
      var rec := m.pools[id].(primary := primary, backup := backup, retiringEdge := retiring);
      (State(m.pools[id := Homed(rec)], m.version[id := expected + 1]), Ok)
  }

  function MemDelete(m: State, id: PoolId): State {
    State(m.pools - {id}, m.version - {id})
  }

  /** An absent id reads version 0, so a delete expecting 0 "succeeds" on nothing. */
  function MemDeleteCas(m: State, id: PoolId, expected: nat): (State, Error) {
    if (if id in m.version then m.version[id] else 0) != expected then (m, ErrConflict) else (MemDelete(m, id), Ok)
  }

  function MemRead(m: State, id: PoolId): PivotRow
    requires id in m.pools && id in m.version
  {
    var r := m.pools[id];
    PivotRow(r.pool, id, r.primary, r.backup, r.retiringEdge, r.tokens, m.version[id])
  }

  class Mem {
    var pools: map<PoolId, Record>
    var version: map<PoolId, nat>

    function View(): State
      reads this
    {
      State(pools, version)
    }

    constructor ()
      ensures View() == State(map[], map[]) && Sound(View())
    {
      pools, version := map[], map[];
    }

    /** Which pool claims each prefix, read off every record in map order. */
    method MemberOwners() returns (owners: map<Prefix, PoolId>)
      requires Sound(View())
      ensures forall p :: p in owners ==> owners[p] in pools && p in pools[owners[p]].pool.members
      ensures forall id, p :: id in pools && p in pools[id].pool.members ==> p in owners
    {
      owners := map[];
      var todo := pools.Keys;
      while todo != {}
        invariant todo <= pools.Keys
        invariant forall p :: p in owners ==> owners[p] in pools && p in pools[owners[p]].pool.members
        invariant forall id, p :: id in pools && id !in todo && p in pools[id].pool.members ==> p in owners
        decreases |todo|
      {
        var id :| id in todo;
        var ms := pools[id].pool.members;
        for i := 0 to |ms|
          invariant forall p :: p in owners ==> owners[p] in pools && p in pools[owners[p]].pool.members
          invariant forall o, p :: o in pools && o !in todo && p in pools[o].pool.members ==> p in owners
          invariant forall j :: 0 <= j < i ==> ms[j] in owners
        {
          owners := owners[ms[i] := id];
        }
        todo := todo - {id};
      }
    }

    method ConflictsForeign(members: seq<Prefix>, id: PoolId) returns (err: Error)
      requires Sound(View())
      ensures err == if Claimed(View(), members, id) then ErrMemberConflict else Ok
    {
      var owners := MemberOwners();
      for i := 0 to |members|
        invariant forall j, o :: 0 <= j < i && o in pools && members[j] in pools[o].pool.members ==> o == id
      {
        if members[i] in owners && owners[members[i]] != id {
          var p, o := members[i], owners[members[i]];
          assert o in pools && o != id && p in pools[o].pool.members && p in members;
          return ErrMemberConflict;
        }
      }
      err := Ok;
    }

    method CreatePool(rec: Record) returns (err: Error)
      requires Sound(View())
      modifies this
      ensures (View(), err) == MemCreate(old(View()), rec) && Sound(View())
    {
      if rec.pool.id in pools {
        return ErrExists;
      }
      err := ConflictsForeign(rec.pool.members, rec.pool.id);
      if err != Ok {
        return;
      }
      pools := pools[rec.pool.id := Homed(rec)];
      version := version[rec.pool.id := 1];
    }

    method UpdatePool(rec: Record) returns (err: Error)
      requires Sound(View())
      modifies this
      ensures (View(), err) == MemUpdate(old(View()), rec) && Sound(View())
    {
      if rec.pool.id !in pools {
        return ErrNotFound;
      }
      err := ConflictsForeign(rec.pool.members, rec.pool.id);
      if err != Ok {
        return;
      }
      pools := pools[rec.pool.id := Homed(rec)];
      version := version[rec.pool.id := version[rec.pool.id] + 1];
    }

    method RemoveMember(id: PoolId, prefix: Prefix) returns (err: Error)
      requires Sound(View())
      modifies this
      ensures (View(), err) == MemRemove(old(View()), id, prefix) && Sound(View())
    {
      if id !in pools {
        return ErrNotFound;
      }
      var rec := pools[id];
      var kept := Keep(rec.pool.members, prefix);
      pools := pools[id := rec.(pool := rec.pool.(members := kept))];
      version := version[id := version[id] + 1];
      err := Ok;
    }

    method UpdateCAS(row: PivotRow, expected: nat, primary: EdgeId, backup: EdgeId, retiring: EdgeId)
      returns (err: Error)
      requires Sound(View())
      modifies this
      ensures (View(), err) == MemUpdateCas(old(View()), row.poolId, expected, primary, backup, retiring)
      ensures Sound(View())
    {
      var id := row.poolId;
      if (if id in version then version[id] else 0) != expected || id !in pools {
        return ErrConflict;
      }
      pools := pools[id := Homed(pools[id].(primary := primary, backup := backup, retiringEdge := retiring))];
      version := version[id := expected + 1];
      err := Ok;
    }

    method DeleteCAS(id: PoolId, expected: nat) returns (err: Error)
      requires Sound(View())
      modifies this
      ensures (View(), err) == MemDeleteCas(old(View()), id, expected) && Sound(View())
    {
      if (if id in version then version[id] else 0) != expected {
        return ErrConflict;
      }
      pools, version := pools - {id}, version - {id};
      err := Ok;
    }
  }
}
