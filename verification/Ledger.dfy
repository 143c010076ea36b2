/** The token ledger: balances split over shards, and the reclaim sweep that any
    number of replicas run at once over revision-gated transactions. */
module Ledger {
  import opened Model

  // ---- totals over a map ----

  ghost function Total<K(!new), V(!new)>(m: map<K, V>, w: (K, V) -> int): int
    decreases |m|
  {
    if m == map[] then 0
    else
      var k :| k in m;
      assert |m - {k}| < |m| by {
        assert (m - {k}).Keys == m.Keys - {k};
      }
      w(k, m[k]) + Total(m - {k}, w)
  }

  /** Any key may be taken out first. */
  lemma {:induction false} TotalWithout<K(!new), V(!new)>(m: map<K, V>, w: (K, V) -> int, k: K)
    requires k in m
    ensures Total(m, w) == w(k, m[k]) + Total(m - {k}, w)
    decreases |m|
  {
    var first :| first in m && Total(m, w) == w(first, m[first]) + Total(m - {first}, w);
    if first != k {
      assert |m - {first}| < |m| && |m - {k}| < |m| by {
        assert (m - {first}).Keys == m.Keys - {first} && (m - {k}).Keys == m.Keys - {k};
      }
      TotalWithout(m - {first}, w, k);
      TotalWithout(m - {k}, w, first);
      assert m - {first} - {k} == m - {k} - {first};
    }
  }

  lemma TotalPut<K(!new), V(!new)>(m: map<K, V>, w: (K, V) -> int, k: K, v: V)
    ensures Total(m[k := v], w) == Total(m - {k}, w) + w(k, v)
  {
    TotalWithout(m[k := v], w, k);
    assert m[k := v] - {k} == m - {k};
  }

  // ---- the reclaim sweep ----

  type Agent = string
  type Replica = nat

  datatype Reservation = Reservation(agent: Agent, amount: int, reserved: bool, expireAt: int, shard: int)
  {
    function Home(): Slot {
      Slot(agent, shard)
    }
  }

  /** One shard counter of one agent. */
  datatype Slot = Slot(agent: Agent, shard: int)

  /** A stored value and the revision of its last put. */
  datatype Versioned<V> = Versioned(value: V, rev: nat)

  /** A transaction about to be sent, with the time at which its reservation was judged. */
  datatype Refund = Refund(key: string, resv: Versioned<Reservation>, bal: Versioned<int>, at: int)

  /** `seen` is what a replica's last scan returned, `inflight` the transaction it is
      about to send, `refunded` the reservations refunded so far, newest last. */
  datatype State = State(
    tok: map<Slot, Versioned<int>>, resv: map<string, Versioned<Reservation>>, rev: nat,
    seen: map<Replica, map<string, Versioned<Reservation>>>, inflight: map<Replica, Refund>,
    refunded: seq<(string, nat)>)

  datatype Action =
    | Scan(r: Replica)
    | ReadShard(r: Replica, key: string, now: int)
    | Txn(r: Replica)
    | CommitResv(key: string)

  function Balance(tok: map<Slot, Versioned<int>>, slot: Slot): Versioned<int> {
    if slot in tok then tok[slot] else Versioned(0, 0)
  }

  predicate Reclaimable(r: Reservation, now: int) {
    r.reserved && now > r.expireAt
  }

  /** Both compares of the refund transaction hold: a missing reservation has revision 0. */
  predicate Passes(s: State, f: Refund) {
    && (if f.key in s.resv then s.resv[f.key].rev else 0) == f.resv.rev
    && Balance(s.tok, f.resv.value.Home()).rev == f.bal.rev
  }

  function Exec(s: State, a: Action): State {
    match a
    case Scan(r) => s.(seen := s.seen[r := s.resv])
    case ReadShard(r, key, now) =>
      if r in s.seen && key in s.seen[r] && Reclaimable(s.seen[r][key].value, now) then
        var rec := s.seen[r][key];
        s.(inflight := s.inflight[r := Refund(key, rec, Balance(s.tok, rec.value.Home()), now)])
      else s
    case Txn(r) =>
      if r !in s.inflight then s
      else
        var f := s.inflight[r];
        if Passes(s, f) then
          s.(tok := s.tok[f.resv.value.Home() := Versioned(f.bal.value + f.resv.value.amount, s.rev + 1)],
             resv := s.resv - {f.key}, rev := s.rev + 1, inflight := s.inflight - {r},
             refunded := s.refunded + [(f.key, f.resv.rev)])
        else s.(inflight := s.inflight - {r})
    case CommitResv(key) =>
      if key in s.resv then
        s.(resv := s.resv[key := Versioned(s.resv[key].value.(reserved := false), s.rev + 1)], rev := s.rev + 1)
      else s
  }

  function Run(s: State, acts: seq<Action>): State
    decreases |acts|
  {
    if acts == [] then s else Run(Exec(s, acts[0]), acts[1..])
  }

  /** A remembered record is exact if its revision still stands. */
  ghost predicate Known(s: State, key: string, rec: Versioned<Reservation>) {
    0 < rec.rev <= s.rev && (key in s.resv && s.resv[key].rev == rec.rev ==> s.resv[key] == rec)
  }

  ghost predicate StoredOk(s: State) {
    && (forall k :: k in s.resv ==> 0 < s.resv[k].rev <= s.rev)
    && (forall slot :: slot in s.tok ==> 0 < s.tok[slot].rev <= s.rev)
  }

  ghost predicate SeenOk(s: State) {
    forall r, k :: r in s.seen && k in s.seen[r] ==> Known(s, k, s.seen[r][k])
  }

  ghost predicate SendingOk(s: State) {
    forall r :: r in s.inflight ==> InflightOk(s, s.inflight[r])
  }

  ghost predicate RefundedOk(s: State) {
    Distinct(s.refunded) && forall i :: 0 <= i < |s.refunded| ==> Gone(s, s.refunded[i])
  }

  ghost predicate Inv(s: State) {
    StoredOk(s) && SeenOk(s) && SendingOk(s) && RefundedOk(s)
  }

  ghost predicate InflightOk(s: State, f: Refund) {
    && Known(s, f.key, f.resv) && f.resv.value.reserved && f.at > f.resv.value.expireAt
    && f.bal.rev <= s.rev
    && (f.bal.rev == Balance(s.tok, f.resv.value.Home()).rev ==> f.bal == Balance(s.tok, f.resv.value.Home()))
  }

  /** That version of that reservation is not stored and will not be again. */
  ghost predicate Gone(s: State, refund: (string, nat)) {
    refund.1 <= s.rev && !(refund.0 in s.resv && s.resv[refund.0].rev == refund.1)
  }

  /** What a step does to the stored keys: a key stands, goes, or gets a new revision. */
  ghost predicate Moves(s: State, s': State) {
    && s.rev <= s'.rev
    && (forall k :: k in s'.resv ==> s'.resv[k].rev > s.rev || (k in s.resv && s'.resv[k] == s.resv[k]))
    && (forall slot :: Balance(s'.tok, slot).rev > s.rev || Balance(s'.tok, slot) == Balance(s.tok, slot))
  }

  lemma MoveStep(s: State, a: Action)
    requires StoredOk(s)
    ensures StoredOk(Exec(s, a)) && Moves(s, Exec(s, a))
  {
  }

  lemma SeenStep(s: State, a: Action)
    requires StoredOk(s) && SeenOk(s) && Moves(s, Exec(s, a))
    ensures SeenOk(Exec(s, a))
  {
    var s' := Exec(s, a);
    forall r, k | r in s'.seen && k in s'.seen[r]
      ensures Known(s', k, s'.seen[r][k])
    {
      assert Known(s, k, s'.seen[r][k]);
    }
  }

  lemma SendingStep(s: State, a: Action)
    requires StoredOk(s) && SeenOk(s) && SendingOk(s) && Moves(s, Exec(s, a))
    ensures SendingOk(Exec(s, a))
  {
    var s' := Exec(s, a);
    forall r | r in s'.inflight
      ensures InflightOk(s', s'.inflight[r])
    {
      assert InflightOk(s, s'.inflight[r]);
    }
  }

  lemma RefundedStep(s: State, a: Action)
    requires SendingOk(s) && RefundedOk(s) && Moves(s, Exec(s, a))
    ensures RefundedOk(Exec(s, a))
  {
    var s' := Exec(s, a);
    if s'.refunded != s.refunded {
      var f := s.inflight[a.r];
      assert !Gone(s, (f.key, f.resv.rev));
      DistinctSnoc(s.refunded, (f.key, f.resv.rev));
    }
    forall i | 0 <= i < |s'.refunded|
      ensures Gone(s', s'.refunded[i])
    {
      assert i < |s.refunded| ==> Gone(s, s.refunded[i]);
    }
  }

  lemma Step(s: State, a: Action)
    requires Inv(s)
    ensures Inv(Exec(s, a))
  {
    MoveStep(s, a);
    SeenStep(s, a);
    SendingStep(s, a);
    RefundedStep(s, a);
  }

  /** Tokens held by the chosen slots plus what reservations on them still hold back. */
  ghost function Holdings(s: State, chosen: Slot -> bool): int {
    Total(s.tok, TokenWeight(chosen)) + Total(s.resv, ReservedWeight(chosen))
  }

  ghost function TokenWeight(chosen: Slot -> bool): (Slot, Versioned<int>) -> int {
    (slot: Slot, bal: Versioned<int>) => if chosen(slot) then bal.value else 0
  }

  ghost function ReservedWeight(chosen: Slot -> bool): (string, Versioned<Reservation>) -> int {
    (key: string, rec: Versioned<Reservation>) => if chosen(rec.value.Home()) then rec.value.amount else 0
  }

  lemma RefundHoldings(s: State, r: Replica, chosen: Slot -> bool)
    requires r in s.inflight && InflightOk(s, s.inflight[r]) && Passes(s, s.inflight[r])
    ensures Holdings(Exec(s, Txn(r)), chosen) == Holdings(s, chosen)
  {
    var wt, wr, f := TokenWeight(chosen), ReservedWeight(chosen), s.inflight[r];
    var slot := f.resv.value.Home();
    TotalWithout(s.resv, wr, f.key);
    TotalPut(s.tok, wt, slot, Versioned(f.bal.value + f.resv.value.amount, s.rev + 1));
    if slot in s.tok {
      TotalWithout(s.tok, wt, slot);
    } else {
      assert s.tok - {slot} == s.tok;
    }
  }

  lemma CommitHoldings(s: State, key: string, chosen: Slot -> bool)
    requires key in s.resv
    ensures Holdings(Exec(s, CommitResv(key)), chosen) == Holdings(s, chosen)
  {
    var wr, rec := ReservedWeight(chosen), s.resv[key];
    var rec' := Versioned(rec.value.(reserved := false), s.rev + 1);
    TotalWithout(s.resv, wr, key);
    TotalPut(s.resv, wr, key, rec');
    assert rec.value.Home() == rec'.value.Home();
    assert wr(key, rec) == wr(key, rec');
  }

  lemma HoldingsStep(s: State, a: Action, chosen: Slot -> bool)
    requires SendingOk(s)
    ensures Holdings(Exec(s, a), chosen) == Holdings(s, chosen)
  {
    match a
    case Txn(r) =>
      if r in s.inflight && Passes(s, s.inflight[r]) {
        RefundHoldings(s, r, chosen);
      }
    case CommitResv(key) =>
      if key in s.resv {
        CommitHoldings(s, key, chosen);
      }
    case _ =>
  }

  /** Over every interleaving of scans, reads and transactions: no reservation is refunded
      twice, and every shard, and so every agent, keeps balance plus outstanding. */
  lemma {:induction false} ReclaimConserves(s: State, acts: seq<Action>, chosen: Slot -> bool)
    requires Inv(s)
    ensures Inv(Run(s, acts)) && Distinct(Run(s, acts).refunded)
    ensures Holdings(Run(s, acts), chosen) == Holdings(s, chosen)
    decreases |acts|
  {
    if acts != [] {
      Step(s, acts[0]);
      HoldingsStep(s, acts[0], chosen);
      ReclaimConserves(Exec(s, acts[0]), acts[1..], chosen);
    }
  }

  /** A refund is only ever taken from a reservation that is, at that moment, stored and
      still reserved and was judged past its expiry, and it takes exactly that one: a commit
      that raced in is safe. */
  lemma RefundsOnlyReserved(s: State, a: Action)
    requires Inv(s) && Exec(s, a).refunded != s.refunded
    ensures a.Txn? && a.r in s.inflight
    ensures var f := s.inflight[a.r];
            && f.key in s.resv && s.resv[f.key].value.reserved && f.at > s.resv[f.key].value.expireAt
            && Exec(s, a).resv == s.resv - {f.key}
            && Balance(Exec(s, a).tok, s.resv[f.key].value.Home()).value
               == Balance(s.tok, s.resv[f.key].value.Home()).value + s.resv[f.key].value.amount
  {
    assert InflightOk(s, s.inflight[a.r]);
  }

  /** An undisturbed attempt refunds exactly the reservations that are stored, reserved and
      past their expiry. */
  lemma RefundedIff(s: State, r: Replica, key: string, now: int)
    requires Inv(s) && r !in s.inflight
    ensures var s' := Exec(Exec(Exec(s, Scan(r)), ReadShard(r, key, now)), Txn(r));
      s'.refunded != s.refunded <==>
        key in s.resv && s.resv[key].value.reserved && now > s.resv[key].value.expireAt
  {
  }

  /** Stored, still reserved and past its expiry. */
  predicate Due(s: State, key: string, now: int) {
    key in s.resv && s.resv[key].value.reserved && now > s.resv[key].value.expireAt
  }

  function Attempt(s: State, r: Replica, key: string, now: int): State {
    Exec(Exec(s, ReadShard(r, key, now)), Txn(r))
  }

  lemma AttemptDoes(s: State, r: Replica, key: string, now: int)
    requires Inv(s) && r !in s.inflight && r in s.seen
    requires key in s.seen[r] && key in s.resv && s.resv[key] == s.seen[r][key]
    ensures var s' := Attempt(s, r, key, now);
      && Inv(s') && r !in s'.inflight && s'.seen == s.seen
      && s'.resv == (if Due(s, key, now) then s.resv - {key} else s.resv)
      && |s'.refunded| == |s.refunded| + if Due(s, key, now) then 1 else 0
  {
    Step(s, ReadShard(r, key, now));
    Step(Exec(s, ReadShard(r, key, now)), Txn(r));
  }

  /** The reservations outside `todo` that were due are gone, all others stand. */
  ghost predicate Swept(was: State, s: State, todo: set<string>, now: int) {
    && (forall k :: k in s.resv <==> k in was.resv && (k in todo || !Due(was, k, now)))
    && (forall k | k in s.resv :: s.resv[k] == was.resv[k])
  }

  /** One sweep with nobody interfering: scan, then read and transact for each key. Exactly
      the due reservations are returned. */
  method Reclaim(was: State, r: Replica, now: int) returns (s: State, n: nat)
    requires Inv(was) && r !in was.inflight
    ensures Inv(s) && n == |s.refunded| - |was.refunded|
    ensures forall k :: k in s.resv <==>
      k in was.resv && !(was.resv[k].value.reserved && now > was.resv[k].value.expireAt)
    ensures forall k | k in s.resv :: s.resv[k] == was.resv[k]
  {
    s, n := Exec(was, Scan(r)), 0;
    Step(was, Scan(r));
    var todo := was.resv.Keys;
    while todo != {}
      invariant Inv(s) && r !in s.inflight && r in s.seen && s.seen[r] == was.resv
      invariant todo <= was.resv.Keys && n == |s.refunded| - |was.refunded|
      invariant Swept(was, s, todo, now)
      decreases |todo|
    {
      var key :| key in todo;
      todo := todo - {key};
      AttemptDoes(s, r, key, now);
      var before := |s.refunded|;
      s := Attempt(s, r, key, now);
      if |s.refunded| > before {
        n := n + 1;
      }
    }
  }

  // ---- splitting a balance over the shards ----

  const TOKEN_SHARDS := 64

  /** Go's integer division truncates toward zero, and the remainder has the dividend's sign. */
  function GoDiv(a: int, b: int): int
    requires b > 0
  {
    if a >= 0 then a / b else -(-a / b)
  }

  function GoMod(a: int, b: int): int
    requires b > 0
  {
    a - b * GoDiv(a, b)
  }

  /** Truncation: quotient and remainder recompose, the remainder is smaller than the divisor
      and has the dividend's sign. */
  lemma GoDivTruncates(a: int, b: int)
    requires b > 0
    ensures GoDiv(a, b) * b + GoMod(a, b) == a && -b < GoMod(a, b) < b
    ensures (a >= 0 ==> GoMod(a, b) >= 0) && (a <= 0 ==> GoMod(a, b) <= 0)
  {
    if a < 0 {
      assert -a == b * (-a / b) + -a % b;
    }
  }

  function Sum(xs: seq<int>): int {
    if xs == [] then 0 else Sum(xs[..|xs| - 1]) + xs[|xs| - 1]
  }

  lemma {:induction false} SumUpdate(xs: seq<int>, i: nat, x: int)
    requires i < |xs|
    ensures Sum(xs[i := x]) == Sum(xs) - xs[i] + x
  {
    var last := |xs| - 1;
    if i < last {
      SumUpdate(xs[..last], i, x);
      assert xs[i := x][..last] == xs[..last][i := x];
    } else {
      assert xs[i := x][..last] == xs[..last];
    }
  }

  lemma {:induction false} SumConst(xs: seq<int>, c: int)
    requires forall i :: 0 <= i < |xs| ==> xs[i] == c
    ensures Sum(xs) == |xs| * c
  {
    if xs != [] {
      SumConst(xs[..|xs| - 1], c);
    }
  }

  /** The slices add up to the balance for every balance, negative ones included, and
      only shard 0 differs from the even share. */
  method SplitTokens(tokens: int) returns (shards: array<int>)
    ensures fresh(shards) && shards.Length == TOKEN_SHARDS
    ensures Sum(shards[..]) == tokens
    ensures forall i :: 0 < i < TOKEN_SHARDS ==> shards[i] == GoDiv(tokens, TOKEN_SHARDS)
    ensures -TOKEN_SHARDS < shards[0] - GoDiv(tokens, TOKEN_SHARDS) < TOKEN_SHARDS
  {
    shards := new int[TOKEN_SHARDS];
    var base, rem := GoDiv(tokens, TOKEN_SHARDS), GoMod(tokens, TOKEN_SHARDS);
    for i := 0 to TOKEN_SHARDS
      invariant forall j :: 0 <= j < i ==> shards[j] == base
    {
      shards[i] := base;
    }
    ghost var even := shards[..];
    SumConst(even, base);
    shards[0] := shards[0] + rem;
    SumUpdate(even, 0, base + rem);
    assert shards[..] == even[0 := base + rem];
  }

  ghost function AgentWeight(agent: Agent, below: int): (Slot, int) -> int {
    (slot: Slot, bal: int) => if slot.agent == agent && slot.shard < below then bal else 0
  }

  lemma {:induction false} TotalSame<K(!new), V(!new)>(m: map<K, V>, w: (K, V) -> int, w': (K, V) -> int)
    requires forall k :: k in m ==> w(k, m[k]) == w'(k, m[k])
    ensures Total(m, w) == Total(m, w')
    decreases |m|
  {
    if m != map[] {
      var k :| k in m;
      assert |m - {k}| < |m| by {
        assert (m - {k}).Keys == m.Keys - {k};
      }
      TotalWithout(m, w, k);
      TotalWithout(m, w', k);
      TotalSame(m - {k}, w, w');
    }
  }

  lemma SeedOne(tok: map<Slot, int>, agent: Agent, i: int, x: int)
    ensures Total(tok[Slot(agent, i) := x], AgentWeight(agent, i + 1)) == Total(tok, AgentWeight(agent, i)) + x
  {
    var slot, w, w' := Slot(agent, i), AgentWeight(agent, i), AgentWeight(agent, i + 1);
    TotalPut(tok, w', slot, x);
    TotalSame(tok - {slot}, w, w');
    if slot in tok {
      TotalWithout(tok, w, slot);
    } else {
      assert tok - {slot} == tok;
    }
  }

  class Balances {
    var tok: map<Slot, int>

    /** Shard indexes are 0..63. */
    ghost predicate Valid()
      reads this
    {
      forall slot :: slot in tok ==> 0 <= slot.shard < TOKEN_SHARDS
    }

    ghost function Of(agent: Agent): int
      reads this
    {
      Total(tok, AgentWeight(agent, TOKEN_SHARDS))
    }

    constructor ()
      ensures Valid() && tok == map[]
    {
      tok := map[];
    }

    /** After a forced set the agent's balance is exactly the given one, and no other
        agent's shard has moved. */
    method SetTokens(agent: Agent, tokens: int)
      requires Valid()
      modifies this
      ensures Valid() && Of(agent) == tokens
      ensures forall slot: Slot :: slot.agent != agent ==>
                (slot in tok <==> slot in old(tok)) && (slot in tok ==> tok[slot] == old(tok)[slot])
    {
      var shards := SplitTokens(tokens);
      ghost var xs := shards[..];
      TotalZero(tok, AgentWeight(agent, 0));
      for i := 0 to TOKEN_SHARDS
        invariant Valid() && shards[..] == xs
        invariant Total(tok, AgentWeight(agent, i)) == Sum(xs[..i])
        invariant forall slot: Slot :: slot.agent != agent ==>
                    (slot in tok <==> slot in old(tok)) && (slot in tok ==> tok[slot] == old(tok)[slot])
      {
        var slot := Slot(agent, i);
        SeedOne(tok, agent, i, shards[i]);
        assert xs[..i + 1][..i] == xs[..i];
        tok := tok[slot := shards[i]];
      }
      assert xs[..TOKEN_SHARDS] == xs;
    }

    /** Seed on first registration only: shard 0's presence marks an agent as known. */
    method InitAgent(agent: Agent, tokens: int) returns (did: bool)
      requires Valid()
      modifies this
      ensures Valid() && did == (Slot(agent, 0) !in old(tok))
      ensures if did then Of(agent) == tokens else tok == old(tok)
    {
      did := Slot(agent, 0) !in tok;
      if did {
        SetTokens(agent, tokens);
      }
    }

    /** The balance is the sum over the agent's shards. */
    method Remaining(agent: Agent) returns (total: int)
      requires Valid()
      ensures total == Of(agent)
    {
      total := 0;
      var todo := tok;
      ghost var w := AgentWeight(agent, TOKEN_SHARDS);
      while todo != map[]
        invariant forall slot :: slot in todo ==> slot in tok
        invariant total + Total(todo, w) == Total(tok, w)
        decreases |todo|
      {
        var slot :| slot in todo;
        TotalWithout(todo, w, slot);
        if slot.agent == agent && slot.shard < TOKEN_SHARDS {
          total := total + todo[slot];
        }
        assert (todo - {slot}).Keys == todo.Keys - {slot};
        todo := todo - {slot};
      }
    }
  }

  lemma {:induction false} TotalZero<K(!new), V(!new)>(m: map<K, V>, w: (K, V) -> int)
    requires forall k :: k in m ==> w(k, m[k]) == 0
    ensures Total(m, w) == 0
    decreases |m|
  {
    if m != map[] {
      var k :| k in m;
      assert |m - {k}| < |m| by {
        assert (m - {k}).Keys == m.Keys - {k};
      }
      TotalWithout(m, w, k);
      TotalZero(m - {k}, w);
    }
  }
}
