/** The server's fan towards its connected coverers: which coverer an edge's directives
    are routed through, and which agents are told to move when the connected set changes. */
module Rehome {
  import opened Model
  import opened Sorting
  import opened Shard

  const MisHomeInterval: int := 15_000_000_000

  datatype Coverer = Coverer(id: string, endpoint: string, primary: bool)

  // ---- coverers of a set ----

  /** Some listing of a set; by `OrderDoesNotMatter` it is irrelevant which. */
  ghost function Listing(s: set<string>): (r: seq<string>)
    ensures Distinct(r) && Elems(r) == s
  {
    if s == {} then []
    else
      var x :| x in s;
      DistinctSnoc(Listing(s - {x}), x);
      ElemsSnoc(Listing(s - {x}), x);
      Listing(s - {x}) + [x]
  }

  /** The top-k coverers of an edge over the connected set. */
  ghost function Covering(score: Score, edge: string, connected: set<string>, k: int): seq<string> {
    TopK(score, edge, Listing(connected), k)
  }

  /** Where the edge's directives go: the first coverer, if there is one. */
  ghost function Target(score: Score, edge: string, connected: set<string>, k: int): Option<string> {
    var covers := Covering(score, edge, connected, k);
    if covers == [] then None else Some(covers[0])
  }

  lemma CoveringOf(score: Score, edge: string, ids: seq<string>, k: int)
    requires Distinct(ids)
    ensures Covering(score, edge, Elems(ids), k) == TopK(score, edge, ids, k)
  {
    DistinctSame(ids, Listing(Elems(ids)));
    OrderDoesNotMatter(score, edge, ids, Listing(Elems(ids)), k);
  }

  /** Preferred to every other connected coverer. */
  ghost predicate IsBest(score: Score, edge: string, connected: set<string>, c: string) {
    c in connected && forall d | d in connected && d != c :: Beats(score, edge, c, d)
  }

  lemma BestUnique(score: Score, edge: string, connected: set<string>, c: string, d: string)
    requires IsBest(score, edge, connected, c) && IsBest(score, edge, connected, d)
    ensures c == d
  {
    if c != d {
      NotBoth(score, edge, c, d);
    }
  }

  lemma TargetIsBest(score: Score, edge: string, connected: set<string>, k: int)
    ensures Target(score, edge, connected, k).None? <==> k <= 0 || connected == {}
    ensures Target(score, edge, connected, k).Some? ==>
      IsBest(score, edge, connected, Target(score, edge, connected, k).value)
  {
    var ids := Listing(connected);
    var covers := Covering(score, edge, connected, k);
    TopIsTop(score, edge, ids, k);
    DistinctCard(ids);
    assert |covers| == 0 <==> k <= 0 || connected == {};
    if covers != [] {
      forall d | d in connected && d != covers[0]
        ensures Beats(score, edge, covers[0], d)
      {
        assert d in Elems(ids);
      }
      assert covers[0] in ids;
    }
  }

  lemma TargetIs(score: Score, edge: string, connected: set<string>, k: int, c: string)
    requires k > 0
    ensures Target(score, edge, connected, k) == Some(c) <==> IsBest(score, edge, connected, c)
  {
    TargetIsBest(score, edge, connected, k);
    if IsBest(score, edge, connected, c) {
      BestUnique(score, edge, connected, c, Target(score, edge, connected, k).value);
    }
  }

  // ---- one recompute over the known edges ----

  type Router = string -> Option<string>

  /** The baseline after `edges` were looked at in order. */
  function Noted(last: map<string, string>, edges: seq<string>, route: Router): map<string, string> {
    if edges == [] then last
    else
      var e, before := edges[|edges| - 1], Noted(last, edges[..|edges| - 1], route);
      if route(e).Some? then before[e := route(e).value] else before
  }

  /** The edges told to move, in the order they were told. */
  function Moved(last: map<string, string>, edges: seq<string>, route: Router): seq<string> {
    if edges == [] then []
    else
      var e, rest := edges[|edges| - 1], edges[..|edges| - 1];
      var before := Noted(last, rest, route);
      Moved(last, rest, route)
      + if route(e).Some? && e in before && before[e] != route(e).value then [e] else []
  }

  lemma {:induction false} NotedAt(last: map<string, string>, edges: seq<string>, route: Router, e: string)
    ensures e in Noted(last, edges, route) <==> e in last || (e in edges && route(e).Some?)
    ensures e in Noted(last, edges, route) ==>
      Noted(last, edges, route)[e] == if e in edges && route(e).Some? then route(e).value else last[e]
    decreases |edges|
  {
    if edges != [] {
      NotedAt(last, edges[..|edges| - 1], route, e);
      assert edges == edges[..|edges| - 1] + [edges[|edges| - 1]];
    }
  }

  /** An edge is told to move exactly when it was known and its target differs; once. */
  lemma {:induction false} MovedAt(last: map<string, string>, edges: seq<string>, route: Router, e: string)
    ensures multiset(Moved(last, edges, route))[e] ==
      if e in edges && e in last && route(e).Some? && route(e).value != last[e] then 1 else 0
    decreases |edges|
  {
    if edges != [] {
      var rest := edges[..|edges| - 1];
      MovedAt(last, rest, route, e);
      NotedAt(last, rest, route, e);
      assert edges == rest + [edges[|edges| - 1]];
    }
  }

  ghost function RouteOver(score: Score, connected: set<string>, k: int): Router {
    e => Target(score, e, connected, k)
  }

  lemma SweepStep(last: map<string, string>, edges: seq<string>, i: nat, route: Router)
    requires i < |edges|
    ensures var e, before := edges[i], Noted(last, edges[..i], route);
      && Noted(last, edges[..i + 1], route)
         == (if route(e).Some? then before[e := route(e).value] else before)
      && Moved(last, edges[..i + 1], route)
         == Moved(last, edges[..i], route)
            + (if route(e).Some? && e in before && before[e] != route(e).value then [e] else [])
  {
    assert edges[..i + 1][..i] == edges[..i];
  }

  class DesiredFan {
    /** Connected coverer id to its agent-facing endpoint. */
    var streams: map<string, string>
    var lastPrimary: map<string, string>
    var misHomeRehomedAt: map<string, int>
    const k: int
    const score: Score

    constructor (k: int, score: Score)
      ensures this.k == k && this.score == score
      ensures streams == map[] && lastPrimary == map[] && misHomeRehomedAt == map[]
    {
      this.k, this.score := k, score;
      streams, lastPrimary, misHomeRehomedAt := map[], map[], map[];
    }

    method NotePrimary(edge: string, primary: string)
      modifies this`lastPrimary
      ensures lastPrimary == old(lastPrimary)[edge := primary]
    {
      lastPrimary := lastPrimary[edge := primary];
    }

    method ConnectedIds() returns (ids: seq<string>)
      ensures Distinct(ids) && Elems(ids) == streams.Keys && SortedBy(TextLess, ids)
    {
      ids := [];
      var left := streams.Keys;
      while left != {}
        invariant left <= streams.Keys && Distinct(ids) && Elems(ids) == streams.Keys - left
        decreases |left|
      {
        var id :| id in left;
        assert id !in Elems(ids);
        DistinctSnoc(ids, id);
        ElemsSnoc(ids, id);
        ids := ids + [id];
        left := left - {id};
      }
      TextOrder();
      ghost var unsorted := ids;
      ids := SortSlice(TextLess, ids);
      PermutedDistinct(unsorted, ids);
    }

    method StreamFor(edge: string) returns (s: Option<string>)
      ensures s == Target(score, edge, streams.Keys, k)
    {
      var ids := ConnectedIds();
      var covers := Coverers(score, edge, ids, k);
      CoveringOf(score, edge, ids, k);
      TopIsTop(score, edge, ids, k);
      for i := 0 to |covers|
        invariant i == 0
      {
        assert covers[i] in ids;
        assert covers[i] in Elems(ids);
        if covers[i] in streams {
          return Some(covers[i]);
        }
      }
      s := None;
    }

    method IsSubscribed(edge: string) returns (yes: bool)
      ensures yes <==> Target(score, edge, streams.Keys, k).Some?
    {
      var s := StreamFor(edge);
      yes := s.Some?;
    }

    /** The assignment handed to the agent: it lists the covering coverers with their
        endpoints, its first entry is the one routing uses, and it exists exactly when
        the edge is subscribed. */
    method AssignmentFor(edge: string) returns (a: Option<seq<Coverer>>)
      ensures a.Some? <==> Target(score, edge, streams.Keys, k).Some?
      ensures a.Some? ==>
        && |a.value| == |Covering(score, edge, streams.Keys, k)| > 0
        && Target(score, edge, streams.Keys, k) == Some(a.value[0].id)
        && forall i | 0 <= i < |a.value| ::
          && a.value[i].id == Covering(score, edge, streams.Keys, k)[i] && a.value[i].id in streams
          && a.value[i].endpoint == streams[a.value[i].id] && (a.value[i].primary <==> i == 0)
    {
      var ids := ConnectedIds();
      var covers := Coverers(score, edge, ids, k);
      CoveringOf(score, edge, ids, k);
      if |covers| == 0 {
        return None;
      }
      TopIsTop(score, edge, ids, k);
      var out: seq<Coverer> := [];
      for i := 0 to |covers|
        invariant |out| == i
        invariant forall j | 0 <= j < i ::
          && out[j].id == covers[j] && out[j].id in streams
          && out[j].endpoint == streams[out[j].id] && (out[j].primary <==> j == 0)
      {
        var id := covers[i];
        assert id in ids;
        assert id in Elems(ids);
        if id in streams {
          out := out + [Coverer(id, streams[id], i == 0)];
        }
      }
      if |out| == 0 {
        assert false;
        return None;
      }
      a := Some(out);
    }

    /** The first coverer of the assignment. */
    method PrimaryFor(edge: string) returns (p: Option<string>)
      ensures p == Target(score, edge, streams.Keys, k)
    {
      var a := AssignmentFor(edge);
      p := if a.Some? then Some(a.value[0].id) else None;
    }

    /** `moved` lists the edges a re-home was pushed to; the returned count is its length. */
    method RehomeChangedPrimaries(edges: seq<string>) returns (n: nat, moved: seq<string>)
      modifies this`lastPrimary
      ensures n == |moved|
      ensures moved == Moved(old(lastPrimary), edges, RouteOver(score, streams.Keys, k))
      ensures lastPrimary == Noted(old(lastPrimary), edges, RouteOver(score, streams.Keys, k))
    {
      ghost var route := RouteOver(score, streams.Keys, k);
      n, moved := 0, [];
      for i := 0 to |edges|
        invariant n == |moved|
        invariant moved == Moved(old(lastPrimary), edges[..i], route)
        invariant lastPrimary == Noted(old(lastPrimary), edges[..i], route)
      {
        var e := edges[i];
        SweepStep(old(lastPrimary), edges, i, route);
        var a := PrimaryFor(e);
        if a.Some? {
          var primary := a.value;
          var seen := e in lastPrimary;
          var differs := seen && lastPrimary[e] != primary;
          lastPrimary := lastPrimary[e := primary];
          if seen && differs {
            moved := moved + [e];
            n := n + 1;
          }
        }
      }
      assert edges[..|edges|] == edges;
    }

    /** The answer is the primary the edge was re-homed to, or the empty string. */
    method RehomeMisHome(edge: string, relay: string, now: int) returns (r: string)
      modifies this`lastPrimary, this`misHomeRehomedAt
      ensures var to := Correction(Target(score, edge, streams.Keys, k), relay, old(misHomeRehomedAt), edge, now);
        if to.None? then
          r == "" && lastPrimary == old(lastPrimary) && misHomeRehomedAt == old(misHomeRehomedAt)
        else
          && r == to.value
          && lastPrimary == old(lastPrimary)[edge := to.value]
          && misHomeRehomedAt == old(misHomeRehomedAt)[edge := now]
    {
      if relay == "" {
        return "";
      }
      var a := PrimaryFor(edge);
      if a.None? || relay == a.value {
        return "";
      }
      var primary := a.value;
      if edge in misHomeRehomedAt && now - misHomeRehomedAt[edge] < MisHomeInterval {
        return "";
      }
      misHomeRehomedAt := misHomeRehomedAt[edge := now];
      lastPrimary := lastPrimary[edge := primary];
      r := primary;
    }
  }

  /** The coverer a mis-homed edge is sent back to, unless it is homed right, nobody is
      connected, or it was corrected less than the interval ago. */
  function Correction(target: Option<string>, relay: string, at: map<string, int>, edge: string, now: int): Option<string> {
    if relay == "" || target.None? || relay == target.value then None
    else if edge in at && now - at[edge] < MisHomeInterval then None
    else target
  }

  /** A report is corrected exactly when it came through a named coverer other than the
      target, and the edge was not corrected in the last 15 seconds; it is sent to the target. */
  lemma CorrectedIff(target: Option<string>, relay: string, at: map<string, int>, edge: string, now: int)
    ensures var to := Correction(target, relay, at, edge, now);
      && (to.Some? <==>
          && relay != "" && target.Some? && relay != target.value
          && (edge in at ==> now - at[edge] >= 15_000_000_000))
      && (to.Some? ==> to == target)
  {
  }

  // ---- exactness ----

  /** Every known edge was last told its current target. */
  ghost predicate InStep(score: Score, last: map<string, string>, edges: seq<string>, connected: set<string>, k: int) {
    forall e | e in edges :: e in last && Target(score, e, connected, k) == Some(last[e])
  }

  /** Noting a primary for an edge keeps the baseline in step exactly when the edge is not
      among the known ones or the primary is its current target. */
  lemma NoteKeepsStepIff(
    score: Score, last: map<string, string>, edges: seq<string>, connected: set<string>, k: int, edge: string, primary: string)
    requires InStep(score, last, edges, connected, k)
    ensures InStep(score, last[edge := primary], edges, connected, k) <==>
      edge !in edges || Target(score, edge, connected, k) == Some(primary)
  {
  }

  /** So registering an edge with the first coverer of its assignment, which is its target,
      adds it to the edges that are in step. */
  lemma RegisterInStep(
    score: Score, last: map<string, string>, edges: seq<string>, connected: set<string>, k: int, edge: string, primary: string)
    requires InStep(score, last, edges, connected, k)
    ensures InStep(score, last[edge := primary], edges + [edge], connected, k) <==>
      Target(score, edge, connected, k) == Some(primary)
  {
    NoteKeepsStepIff(score, last, edges, connected, k, edge, primary);
    assert edge in edges + [edge];
  }

  lemma StepsAgain(score: Score, last: map<string, string>, edges: seq<string>, was: set<string>, connected: set<string>, k: int)
    requires InStep(score, last, edges, was, k) && connected != {} && k > 0
    ensures InStep(score, Noted(last, edges, RouteOver(score, connected, k)), edges, connected, k)
    ensures forall e ::
      multiset(Moved(last, edges, RouteOver(score, connected, k)))[e] ==
      (if e in edges && Target(score, e, was, k) != Target(score, e, connected, k) then 1 else 0)
  {
    var route := RouteOver(score, connected, k);
    forall e
      ensures multiset(Moved(last, edges, route))[e] ==
        if e in edges && Target(score, e, was, k) != Target(score, e, connected, k) then 1 else 0
      ensures e in edges ==> e in Noted(last, edges, route) && Target(score, e, connected, k) == Some(Noted(last, edges, route)[e])
    {
      NotedAt(last, edges, route, e);
      MovedAt(last, edges, route, e);
      TargetIsBest(score, e, connected, k);
    }
  }

  lemma LeaveTarget(score: Score, e: string, connected: set<string>, x: string, k: int)
    requires k > 0 && x in connected && connected != {x}
    ensures Target(score, e, connected, k) != Target(score, e, connected - {x}, k)
      <==> Target(score, e, connected, k) == Some(x)
  {
    TargetIsBest(score, e, connected, k);
    TargetIsBest(score, e, connected - {x}, k);
    var was := Target(score, e, connected, k).value;
    if was != x {
      TargetIs(score, e, connected - {x}, k, was);
    }
  }

  /** A coverer leaves and others remain: exactly the edges it was primary for are told to
      move, each once, and the baseline is in step with the smaller set. */
  lemma LeaveIsExact(score: Score, last: map<string, string>, edges: seq<string>, connected: set<string>, x: string, k: int)
    requires k > 0 && x in connected && connected != {x} && InStep(score, last, edges, connected, k)
    ensures InStep(score, Noted(last, edges, RouteOver(score, connected - {x}, k)), edges, connected - {x}, k)
    ensures forall e ::
      multiset(Moved(last, edges, RouteOver(score, connected - {x}, k)))[e] ==
      (if e in edges && last[e] == x then 1 else 0)
  {
    StepsAgain(score, last, edges, connected, connected - {x}, k);
    forall e
      ensures multiset(Moved(last, edges, RouteOver(score, connected - {x}, k)))[e] ==
        if e in edges && last[e] == x then 1 else 0
    {
      LeaveTarget(score, e, connected, x, k);
    }
  }

  /** A coverer joins: exactly the edges it now wins are told to move, each once. */
  lemma JoinIsExact(score: Score, last: map<string, string>, edges: seq<string>, connected: set<string>, x: string, k: int)
    requires k > 0 && x !in connected && connected != {} && InStep(score, last, edges, connected, k)
    ensures InStep(score, Noted(last, edges, RouteOver(score, connected + {x}, k)), edges, connected + {x}, k)
    ensures forall e ::
      multiset(Moved(last, edges, RouteOver(score, connected + {x}, k)))[e] ==
      (if e in edges && IsBest(score, e, connected + {x}, x) then 1 else 0)
  {
    StepsAgain(score, last, edges, connected, connected + {x}, k);
    assert connected + {x} - {x} == connected;
    forall e
      ensures multiset(Moved(last, edges, RouteOver(score, connected + {x}, k)))[e] ==
        if e in edges && IsBest(score, e, connected + {x}, x) then 1 else 0
    {
      LeaveTarget(score, e, connected + {x}, x, k);
      TargetIs(score, e, connected + {x}, k, x);
    }
  }

  // ---- whole runs ----

  datatype Change = Connect(id: string) | Disconnect(id: string)

  /** `latest` is the latest connected set that was not empty. */
  datatype Fan = Fan(connected: set<string>, latest: set<string>, last: map<string, string>, told: seq<string>)

  ghost function Apply(score: Score, edges: seq<string>, k: int, f: Fan, c: Change): Fan {
    var now := if c.Connect? then f.connected + {c.id} else f.connected - {c.id};
    var route := RouteOver(score, now, k);
    Fan(now, if now == {} then f.latest else now,
        Noted(f.last, edges, route), f.told + Moved(f.last, edges, route))
  }

  ghost function ApplyAll(score: Score, edges: seq<string>, k: int, f: Fan, cs: seq<Change>): Fan {
    if cs == [] then f
    else Apply(score, edges, k, ApplyAll(score, edges, k, f, cs[..|cs| - 1]), cs[|cs| - 1])
  }

  ghost predicate FanOk(score: Score, edges: seq<string>, k: int, f: Fan) {
    && f.latest != {} && (f.connected == {} || f.connected == f.latest)
    && InStep(score, f.last, edges, f.latest, k)
  }

  /** With somebody connected and every edge told its target, and just after everybody left. */
  lemma FanStarts(score: Score, edges: seq<string>, k: int, connected: set<string>, last: map<string, string>, told: seq<string>)
    requires connected != {}
    requires forall e | e in edges :: e in last && Target(score, e, connected, k) == Some(last[e])
    ensures FanOk(score, edges, k, Fan(connected, connected, last, told))
    ensures FanOk(score, edges, k, Fan({}, connected, last, told))
  {
  }

  /** Who is connected: those whose latest change is a connect, and those who were and changed
      nothing. */
  lemma {:induction false} ConnectedAfter(score: Score, edges: seq<string>, k: int, f: Fan, cs: seq<Change>, x: string)
    ensures x in ApplyAll(score, edges, k, f, cs).connected <==>
      || (x in f.connected && forall j | 0 <= j < |cs| :: cs[j].id != x)
      || exists i | 0 <= i < |cs| :: cs[i] == Connect(x) && forall j | i < j < |cs| :: cs[j].id != x
    decreases |cs|
  {
    if cs != [] {
      var front, last := cs[..|cs| - 1], cs[|cs| - 1];
      ConnectedAfter(score, edges, k, f, front, x);
      assert forall j | 0 <= j < |front| :: front[j] == cs[j];
      if last.id == x {
        assert last == Connect(x) || last == Disconnect(x);
      } else if i :| 0 <= i < |front| && front[i] == Connect(x) && forall j | i < j < |front| :: front[j].id != x {
        assert cs[i] == Connect(x) && forall j | i < j < |cs| :: cs[j].id != x;
      }
    }
  }

  lemma EmptyRoute(score: Score, last: map<string, string>, edges: seq<string>, k: int)
    ensures Noted(last, edges, RouteOver(score, {}, k)) == last
    ensures Moved(last, edges, RouteOver(score, {}, k)) == []
    decreases |edges|
  {
    if edges != [] {
      EmptyRoute(score, last, edges[..|edges| - 1], k);
      TargetIsBest(score, edges[|edges| - 1], {}, k);
    }
  }

  /** Each change tells exactly the edges whose target over the latest non-empty set
      changes, also across moments with nobody connected. */
  lemma ChangeIsExact(score: Score, edges: seq<string>, k: int, f: Fan, c: Change)
    requires FanOk(score, edges, k, f) && k > 0
    ensures FanOk(score, edges, k, Apply(score, edges, k, f, c))
    ensures var f' := Apply(score, edges, k, f, c);
      forall e :: multiset(f'.told)[e] == multiset(f.told)[e] +
        if e in edges && Target(score, e, f.latest, k) != Target(score, e, f'.latest, k) then 1 else 0
  {
    var f' := Apply(score, edges, k, f, c);
    if f'.connected == {} {
      EmptyRoute(score, f.last, edges, k);
    } else {
      StepsAgain(score, f.last, edges, f.latest, f'.connected, k);
    }
  }

  /** After any history of connects and disconnects every known edge's baseline is the best
      coverer of the latest non-empty connected set, so while anyone is connected it is
      the coverer the edge's directives are routed through. */
  lemma {:induction false} BaselineFollows(score: Score, edges: seq<string>, k: int, f: Fan, cs: seq<Change>, e: string)
    requires FanOk(score, edges, k, f) && k > 0 && e in edges
    ensures var f' := ApplyAll(score, edges, k, f, cs);
      && FanOk(score, edges, k, f')
      && e in f'.last && IsBest(score, e, f'.latest, f'.last[e])
      && (f'.connected != {} ==> Target(score, e, f'.connected, k) == Some(f'.last[e]))
    decreases |cs|
  {
    if cs != [] {
      BaselineFollows(score, edges, k, f, cs[..|cs| - 1], e);
      ChangeIsExact(score, edges, k, ApplyAll(score, edges, k, f, cs[..|cs| - 1]), cs[|cs| - 1]);
    }
    var f' := ApplyAll(score, edges, k, f, cs);
    TargetIsBest(score, e, f'.latest, k);
  }

  // ---- the correction's rate limit ----

  datatype Report = Report(edge: string, relay: string, now: int, target: Option<string>)

  /** Correction times per edge, and the times at which `edge` was corrected. */
  function Corrected(at: map<string, int>, rs: seq<Report>): map<string, int> {
    if rs == [] then at
    else
      var r, before := rs[|rs| - 1], Corrected(at, rs[..|rs| - 1]);
      if Correction(r.target, r.relay, before, r.edge, r.now).Some? then before[r.edge := r.now] else before
  }

  function Fires(at: map<string, int>, rs: seq<Report>, edge: string): seq<int> {
    if rs == [] then []
    else
      var r, rest := rs[|rs| - 1], rs[..|rs| - 1];
      Fires(at, rest, edge)
      + if r.edge == edge && Correction(r.target, r.relay, Corrected(at, rest), r.edge, r.now).Some?
        then [r.now] else []
  }

  ghost predicate Spaced(f: seq<int>) {
    forall i | 0 < i < |f| :: f[i] - f[i - 1] >= 15_000_000_000
  }

  lemma {:induction false} LatestFire(rs: seq<Report>, edge: string)
    ensures var f := Fires(map[], rs, edge);
      if f == [] then edge !in Corrected(map[], rs)
      else edge in Corrected(map[], rs) && Corrected(map[], rs)[edge] == f[|f| - 1]
    decreases |rs|
  {
    if rs != [] {
      LatestFire(rs[..|rs| - 1], edge);
    }
  }

  /** Whatever reports come and whatever is connected, two corrections of one edge are at
      least the interval apart. */
  lemma {:induction false} CorrectionsSpaced(rs: seq<Report>, edge: string)
    ensures Spaced(Fires(map[], rs, edge))
    decreases |rs|
  {
    if rs != [] {
      var r, rest := rs[|rs| - 1], rs[..|rs| - 1];
      CorrectionsSpaced(rest, edge);
      LatestFire(rest, edge);
      var f := Fires(map[], rest, edge);
      assert Fires(map[], rs, edge) == f || Fires(map[], rs, edge) == f + [r.now];
    }
  }
}
