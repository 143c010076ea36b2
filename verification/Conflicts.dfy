/** Which stored members overlap a request's members: the indexed lookup of the two-table
    store and the full scan of the one-map store. */
module Conflicts {
  import opened Model
  import opened Sorting
  import opened Cidr

  datatype Conflict = Conflict(prefix: Prefix, pool: PoolId)

  /** Who holds each stored prefix. */
  type Owners = map<Prefix, PoolId>

  predicate OverlapsAny(p: Prefix, prefixes: seq<Prefix>) {
    exists q :: q in prefixes && Overlaps(p, q)
  }

  /** A stored member of another pool that overlaps the request. */
  predicate Hit(owners: Owners, prefixes: seq<Prefix>, exclude: PoolId, c: Conflict) {
    && c.prefix in owners && owners[c.prefix] == c.pool && c.pool != exclude
    && OverlapsAny(c.prefix, prefixes)
  }

  function ByText(): (Conflict, Conflict) -> bool {
    (x: Conflict, y: Conflict) => TextLess(Text(x.prefix), Text(y.prefix))
  }

  /** Exactly the hits among `visited`, each once. */
  ghost predicate Gathered(owners: Owners, prefixes: seq<Prefix>, exclude: PoolId, visited: set<Prefix>, out: seq<Conflict>) {
    && Distinct(out)
    && forall c :: c in out <==> c.prefix in visited && Hit(owners, prefixes, exclude, c)
  }

  /** The answer: every hit, each once, in text order. */
  ghost predicate IsScan(owners: Owners, prefixes: seq<Prefix>, exclude: PoolId, out: seq<Conflict>) {
    Gathered(owners, prefixes, exclude, owners.Keys, out) && SortedBy(ByText(), out)
  }

  ghost predicate AllCanonical(owners: Owners) {
    forall p | p in owners :: Canonical(p)
  }

  function Texts(out: seq<Conflict>): set<string> {
    set c | c in out :: Text(c.prefix)
  }

  /** The answer spelled out: the members of other pools that share an address with a requested
      prefix, in dictionary order of their texts. */
  lemma ScanMeans(owners: Owners, prefixes: seq<Prefix>, exclude: PoolId, out: seq<Conflict>, p: Prefix, pool: PoolId)
    requires IsScan(owners, prefixes, exclude, out)
    ensures Conflict(p, pool) in out <==>
      && p in owners && owners[p] == pool && pool != exclude
      && exists q, x :: q in prefixes && Contains(p, x) && Contains(q, x)
    ensures forall i, j | 0 <= i < j < |out| :: !TextLess(Text(out[j].prefix), Text(out[i].prefix))
  {
    assert Conflict(p, pool) in out <==> Hit(owners, prefixes, exclude, Conflict(p, pool)) by {
      assert Conflict(p, pool).prefix == p;
    }
    assert OverlapsAny(p, prefixes) <==> exists q, x :: q in prefixes && Contains(p, x) && Contains(q, x) by {
      if OverlapsAny(p, prefixes) {
        var q :| q in prefixes && Overlaps(p, q);
        OverlapsMeans(p, q);
      }
      if q, x :| q in prefixes && Contains(p, x) && Contains(q, x) {
        OverlapsMeans(p, q);
      }
    }
    forall i, j | 0 <= i < j < |out|
      ensures !TextLess(Text(out[j].prefix), Text(out[i].prefix))
    {
      assert !ByText()(out[j], out[i]);
    }
  }

  // ---- the indexed lookup ----

  method OverlapsOne(p: Prefix, prefixes: seq<Prefix>) returns (yes: bool)
    ensures yes <==> OverlapsAny(p, prefixes)
  {
    for i := 0 to |prefixes|
      invariant forall q | q in prefixes[..i] :: !Overlaps(p, q)
    {
      if Overlaps(p, prefixes[i]) {
        return true;
      }
    }
    assert prefixes[..|prefixes|] == prefixes;
    return false;
  }

  lemma GatherStep(owners: Owners, prefixes: seq<Prefix>, exclude: PoolId, visited: set<Prefix>, out: seq<Conflict>, p: Prefix)
    requires Gathered(owners, prefixes, exclude, visited, out) && p in owners && AllCanonical(owners)
    ensures var c := Conflict(p, owners[p]);
      && (c in out <==> Text(p) in Texts(out))
      && (Hit(owners, prefixes, exclude, c) && c !in out ==>
          Gathered(owners, prefixes, exclude, visited + {p}, out + [c]))
      && (!Hit(owners, prefixes, exclude, c) || c in out ==>
          Gathered(owners, prefixes, exclude, visited + {p}, out))
  {
    var c := Conflict(p, owners[p]);
    if Text(p) in Texts(out) {
      var d :| d in out && Text(d.prefix) == Text(p);
      TextInjective(p, d.prefix);
    }
    if c !in out {
      DistinctSnoc(out, c);
    }
  }

  /** The rows of one query, in the order the database returns them. */
  method ScanRows(rows: set<Prefix>, owners: Owners, prefixes: seq<Prefix>, exclude: PoolId, ghost visited: set<Prefix>, found: seq<Conflict>, seenBefore: set<string>)
    returns (out: seq<Conflict>, seen: set<string>)
    requires rows <= owners.Keys && AllCanonical(owners)
    requires Gathered(owners, prefixes, exclude, visited, found) && seenBefore == Texts(found)
    ensures Gathered(owners, prefixes, exclude, visited + rows, out) && seen == Texts(out)
  {
    out, seen := found, seenBefore;
    var left := rows;
    assert visited + (rows - left) == visited;
    while left != {}
      invariant left <= rows && seen == Texts(out)
      invariant Gathered(owners, prefixes, exclude, visited + (rows - left), out)
      decreases |left|
    {
      var p :| p in left;
      GatherStep(owners, prefixes, exclude, visited + (rows - left), out, p);
      assert visited + (rows - left) + {p} == visited + (rows - (left - {p}));
      left := left - {p};
      if owners[p] != exclude && Text(p) !in seen {
        var overlaps := OverlapsOne(p, prefixes);
        if overlaps {
          seen := seen + {Text(p)};
          out := out + [Conflict(p, owners[p])];
        }
      }
    }
    assert rows - left == rows;
  }

  /** Every request's text and enclosing /24 is a key; every requested /24 is scanned. */
  ghost predicate KeysFor(prefixes: seq<Prefix>, keys: set<string>, likes: seq<string>) {
    forall q | q in prefixes ::
      && Text(q) in keys
      && (q.V4Host? ==> Text(NetOf(q)) in keys)
      && (q.V4Net? ==> Key24(q.a, q.b, q.c) in likes)
  }

  method CandidateKeys(prefixes: seq<Prefix>) returns (keys: set<string>, likes: seq<string>)
    ensures KeysFor(prefixes, keys, likes)
  {
    keys, likes := {}, [];
    for i := 0 to |prefixes|
      invariant KeysFor(prefixes[..i], keys, likes)
    {
      var p := prefixes[i];
      assert prefixes[..i + 1] == prefixes[..i] + [p];
      keys := keys + {Text(p)};
      if p.V4Host? {
        keys := keys + {Text(NetOf(p))};
      } else if p.V4Net? {
        likes := likes + [Key24(p.a, p.b, p.c)];
      }
    }
    assert prefixes[..|prefixes|] == prefixes;
  }

  function Matching(owners: Owners, like: string): set<Prefix> {
    set p | p in owners && StartsWith(Text(p), like)
  }

  function Keyed(owners: Owners, keys: set<string>): set<Prefix> {
    set p | p in owners && Text(p) in keys
  }

  /** One key-range scan per requested /24. */
  method ScanLikes(
    likes: seq<string>, owners: Owners, prefixes: seq<Prefix>, exclude: PoolId,
    ghost already: set<Prefix>, found: seq<Conflict>, seenBefore: set<string>)
    returns (out: seq<Conflict>, seen: set<string>, ghost visited: set<Prefix>)
    requires AllCanonical(owners)
    requires Gathered(owners, prefixes, exclude, already, found) && seenBefore == Texts(found)
    ensures already <= visited && VisitsAll(owners, likes, visited)
    ensures Gathered(owners, prefixes, exclude, visited, out) && seen == Texts(out)
  {
    out, seen, visited := found, seenBefore, already;
    for i := 0 to |likes|
      invariant already <= visited && VisitsAll(owners, likes[..i], visited) && seen == Texts(out)
      invariant Gathered(owners, prefixes, exclude, visited, out)
    {
      out, seen := ScanRows(Matching(owners, likes[i]), owners, prefixes, exclude, visited, out, seen);
      VisitsMore(owners, likes, i, visited);
      visited := visited + Matching(owners, likes[i]);
    }
    assert likes[..|likes|] == likes;
  }

  ghost predicate VisitsAll(owners: Owners, likes: seq<string>, visited: set<Prefix>) {
    forall l | l in likes :: Matching(owners, l) <= visited
  }

  lemma VisitsMore(owners: Owners, likes: seq<string>, i: nat, visited: set<Prefix>)
    requires i < |likes| && VisitsAll(owners, likes[..i], visited)
    ensures VisitsAll(owners, likes[..i + 1], visited + Matching(owners, likes[i]))
  {
    forall l | l in likes[..i + 1]
      ensures Matching(owners, l) <= visited + Matching(owners, likes[i])
    {
      assert l in likes[..i] || l == likes[i];
    }
  }

  method InTextOrder(ghost owners: Owners, ghost prefixes: seq<Prefix>, ghost exclude: PoolId, found: seq<Conflict>)
    returns (out: seq<Conflict>)
    requires Gathered(owners, prefixes, exclude, owners.Keys, found)
    ensures IsScan(owners, prefixes, exclude, out)
  {
    TextOrder();
    out := SortSlice(ByText(), found);
    GatheredPermuted(owners, prefixes, exclude, owners.Keys, found, out);
  }

  /** Point lookups for the exact texts and the enclosing /24s, and one key-range scan per
      requested /24. */
  method MemberConflicts(owners: Owners, prefixes: seq<Prefix>, exclude: PoolId) returns (out: seq<Conflict>)
    requires AllCanonical(owners)
    ensures IsScan(owners, prefixes, exclude, out)
  {
    var keys, likes := CandidateKeys(prefixes);
    var seen;
    ghost var visited;
    assert Gathered(owners, prefixes, exclude, {}, []) && Texts([]) == {};
    out, seen := ScanRows(Keyed(owners, keys), owners, prefixes, exclude, {}, [], {});
    out, seen, visited := ScanLikes(likes, owners, prefixes, exclude, {} + Keyed(owners, keys), out, seen);
    Complete(owners, prefixes, exclude, keys, likes, visited, out);
    out := InTextOrder(owners, prefixes, exclude, out);
  }

  /** What the lookups visit holds every hit. */
  lemma Complete(
    owners: Owners, prefixes: seq<Prefix>, exclude: PoolId, keys: set<string>, likes: seq<string>,
    visited: set<Prefix>, out: seq<Conflict>)
    requires AllCanonical(owners) && KeysFor(prefixes, keys, likes)
    requires Keyed(owners, keys) <= visited
    requires VisitsAll(owners, likes, visited)
    requires Gathered(owners, prefixes, exclude, visited, out)
    ensures Gathered(owners, prefixes, exclude, owners.Keys, out)
  {
    forall c | Hit(owners, prefixes, exclude, c)
      ensures c.prefix in visited
    {
      var q :| q in prefixes && Overlaps(c.prefix, q);
      FoundBySome(c.prefix, q);
      if q.V4Net? && StartsWith(Text(c.prefix), Key24(q.a, q.b, q.c)) {
        assert c.prefix in Matching(owners, Key24(q.a, q.b, q.c));
      } else {
        assert c.prefix in Keyed(owners, keys);
      }
    }
  }

  /** An overlapping stored prefix is the request itself, its /24, or inside it. */
  lemma FoundBySome(p: Prefix, q: Prefix)
    requires Overlaps(p, q) && Canonical(p)
    ensures p == q || (q.V4Host? && p == NetOf(q)) || (q.V4Net? && StartsWith(Text(p), Key24(q.a, q.b, q.c)))
  {
    if q.V4Net? {
      LikeExact(p, q.a, q.b, q.c);
    }
  }

  lemma GatheredPermuted(owners: Owners, prefixes: seq<Prefix>, exclude: PoolId, visited: set<Prefix>, a: seq<Conflict>, b: seq<Conflict>)
    requires Gathered(owners, prefixes, exclude, visited, a) && multiset(a) == multiset(b)
    ensures Gathered(owners, prefixes, exclude, visited, b)
  {
    SameBag(a, b);
    PermutedDistinct(a, b);
  }

  // ---- the full scan ----

  /** The owners read off the pools' member lists. */
  ghost predicate OwnersOf(pools: map<PoolId, seq<Prefix>>, owners: Owners) {
    forall p, id :: (p in owners && owners[p] == id) <==> (id in pools && p in pools[id])
  }

  /** Every pool, every member, every requested prefix. */
  method FullScan(pools: map<PoolId, seq<Prefix>>, ghost owners: Owners, prefixes: seq<Prefix>, exclude: PoolId)
    returns (out: seq<Conflict>)
    requires OwnersOf(pools, owners) && AllCanonical(owners)
    ensures IsScan(owners, prefixes, exclude, out)
  {
    out := [];
    var seen: set<string> := {};
    var left := pools.Keys;
    ghost var visited: set<Prefix> := {};
    while left != {}
      invariant left <= pools.Keys && seen == Texts(out)
      invariant Gathered(owners, prefixes, exclude, visited, out)
      invariant forall p | p in owners :: p in visited || owners[p] in left || owners[p] == exclude
      decreases |left|
    {
      var id :| id in left;
      left := left - {id};
      if id != exclude {
        out, seen := ScanPool(id, pools[id], owners, prefixes, exclude, visited, out, seen);
        visited := visited + Elems(pools[id]);
        assert forall p | p in owners && owners[p] == id :: p in pools[id];
      }
    }
    assert Gathered(owners, prefixes, exclude, owners.Keys, out);
    out := InTextOrder(owners, prefixes, exclude, out);
  }

  method ScanPool(
    id: PoolId, ms: seq<Prefix>, ghost owners: Owners, prefixes: seq<Prefix>, exclude: PoolId,
    ghost visited: set<Prefix>, found: seq<Conflict>, seenBefore: set<string>)
    returns (out: seq<Conflict>, seen: set<string>)
    requires AllCanonical(owners) && id != exclude && forall p | p in ms :: p in owners && owners[p] == id
    requires Gathered(owners, prefixes, exclude, visited, found) && seenBefore == Texts(found)
    ensures Gathered(owners, prefixes, exclude, visited + Elems(ms), out) && seen == Texts(out)
  {
    out, seen := found, seenBefore;
    assert visited + Elems(ms[..0]) == visited;
    for i := 0 to |ms|
      invariant Gathered(owners, prefixes, exclude, visited + Elems(ms[..i]), out) && seen == Texts(out)
    {
      var p := ms[i];
      assert p in ms;
      assert ms[..i + 1] == ms[..i] + [p];
      ElemsSnoc(ms[..i], p);
      assert visited + Elems(ms[..i]) + {p} == visited + Elems(ms[..i + 1]);
      GatherStep(owners, prefixes, exclude, visited + Elems(ms[..i]), out, p);
      ghost var before := out;
      for j := 0 to |prefixes|
        invariant out == before || (out == before + [Conflict(p, id)] && OverlapsAny(p, prefixes) && Conflict(p, id) !in before)
        invariant seen == Texts(out)
        invariant out == before ==> Conflict(p, id) in before || !OverlapsAny(p, prefixes[..j])
      {
        assert prefixes[..j + 1] == prefixes[..j] + [prefixes[j]];
        if Overlaps(p, prefixes[j]) && Text(p) !in seen {
          assert prefixes[j] in prefixes;
          seen := seen + {Text(p)};
          out := out + [Conflict(p, id)];
        }
      }
      assert prefixes[..|prefixes|] == prefixes;
    }
    assert ms[..|ms|] == ms;
  }

  // ---- the two agree ----

  /** There is only one answer, so both lookups return the same list. */
  lemma ScansAgree(owners: Owners, prefixes: seq<Prefix>, exclude: PoolId, a: seq<Conflict>, b: seq<Conflict>)
    requires AllCanonical(owners)
    requires IsScan(owners, prefixes, exclude, a) && IsScan(owners, prefixes, exclude, b)
    ensures a == b
  {
    assert Elems(a) == Elems(b) by {
      forall c
        ensures c in Elems(a) <==> c in Elems(b)
      {
        assert c in a <==> c in b;
      }
    }
    DistinctSame(a, b);
    forall x, y | x in a && y in a && x != y
      ensures ByText()(x, y) || ByText()(y, x)
    {
      TextTotal(Text(x.prefix), Text(y.prefix));
      if Text(x.prefix) == Text(y.prefix) {
        TextInjective(x.prefix, y.prefix);
      }
    }
    SortedUnique(ByText(), a, b);
  }
}
