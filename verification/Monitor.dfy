/** The liveness monitor: a map of per-edge records changed by signals and ticks. A ghost
    log of everything that happened ties the records to the log predicates. */
module LivenessMonitor {
  import opened Model
  import opened Liveness
  import opened LivenessSummary

  datatype Entry = On(edge: EdgeId, event: Event) | TickAll(now: int, reporting: EdgeId -> bool)

  /** What one edge sees of the monitor's history: its own signals and every tick. */
  ghost function Of(log: seq<Entry>, edge: EdgeId): seq<Event> {
    if log == [] then []
    else
      var last := log[|log| - 1];
      Of(log[..|log| - 1], edge)
      + (if last.TickAll? then [Tick(last.now, last.reporting(edge))]
         else if last.edge == edge then [last.event] else [])
  }

  function Lookup(edges: map<EdgeId, State>, edge: EdgeId): Option<State> {
    if edge in edges then Some(edges[edge]) else None
  }

  lemma OfSnoc(log: seq<Entry>, e: Entry, edge: EdgeId)
    ensures e.TickAll? ==> Of(log + [e], edge) == Of(log, edge) + [Tick(e.now, e.reporting(edge))]
    ensures e.On? && e.edge == edge ==> Of(log + [e], edge) == Of(log, edge) + [e.event]
    ensures e.On? && e.edge != edge ==> Of(log + [e], edge) == Of(log, edge)
  {
    assert (log + [e])[..|log|] == log;
  }

  lemma ReplaySnoc(c: Config, log: seq<Event>, e: Event)
    ensures Replay(c, log + [e]) == Step(c, Replay(c, log), e)
  {
    assert (log + [e])[..|log|] == log;
  }

  /** Every record is the replay of what its edge saw; untracked edges have none. */
  ghost predicate Summarises(c: Config, edges: map<EdgeId, State>, log: seq<Entry>) {
    forall e :: Lookup(edges, e) == Replay(c, Of(log, e))
  }

  lemma Signalled(c: Config, before: map<EdgeId, State>, after: map<EdgeId, State>, log: seq<Entry>, edge: EdgeId, e: Event)
    requires Summarises(c, before, log)
    requires forall x | x != edge :: Lookup(after, x) == Lookup(before, x)
    requires Lookup(after, edge) == Step(c, Lookup(before, edge), e)
    ensures Summarises(c, after, log + [On(edge, e)])
  {
    forall x
      ensures Lookup(after, x) == Replay(c, Of(log + [On(edge, e)], x))
    {
      OfSnoc(log, On(edge, e), x);
      ReplaySnoc(c, Of(log, x), e);
      assert Lookup(before, x) == Replay(c, Of(log, x));
    }
  }

  lemma TickedAll(c: Config, before: map<EdgeId, State>, after: map<EdgeId, State>, log: seq<Entry>, now: int, reporting: EdgeId -> bool)
    requires Summarises(c, before, log) && after.Keys == before.Keys
    requires forall e | e in before :: after[e] == Ticked(c, before[e], now, reporting(e))
    ensures Summarises(c, after, log + [TickAll(now, reporting)])
  {
    forall x
      ensures Lookup(after, x) == Replay(c, Of(log + [TickAll(now, reporting)], x))
    {
      OfSnoc(log, TickAll(now, reporting), x);
      ReplaySnoc(c, Of(log, x), Tick(now, reporting(x)));
      assert Lookup(before, x) == Replay(c, Of(log, x));
    }
  }

  /** The strongest rule the log supports. */
  ghost function RuleFor(c: Config, log: seq<Event>, now: int): Method {
    if HardRipe(c, log, now) then HardQuorum else if SoftRipe(c, log, now) then SoftDeath else HeartbeatStale
  }

  lemma CondemnedExact(c: Config, edges: map<EdgeId, State>, log: seq<Entry>, now: int, reporting: EdgeId -> bool, e: EdgeId)
    requires c.quorum >= 1 && Summarises(c, edges, log)
    ensures NewlyDead(c, Of(log, e), now, reporting(e)) <==>
      e in edges && Condemned(c, edges[e], now, reporting(e)).Some?
    ensures e in edges && Condemned(c, edges[e], now, reporting(e)).Some? ==>
      Condemned(c, edges[e], now, reporting(e)).value == RuleFor(c, Of(log, e), now)
  {
    assert Lookup(edges, e) == Replay(c, Of(log, e));
    TickExact(c, Of(log, e), now, reporting(e));
  }

  /** Every edge outside `left` has been looked at. */
  ghost predicate PartTicked(
    c: Config, before: map<EdgeId, State>, edges: map<EdgeId, State>, left: set<EdgeId>,
    now: int, reporting: EdgeId -> bool)
  {
    && edges.Keys == before.Keys
    && forall e | e in before ::
      edges[e] == if e in left then before[e] else Ticked(c, before[e], now, reporting(e))
  }

  /** Exactly the condemned edges outside `left` are listed. */
  ghost predicate PartListed(
    c: Config, before: map<EdgeId, State>, left: set<EdgeId>, now: int, reporting: EdgeId -> bool,
    dead: seq<EdgeId>, why: map<EdgeId, Method>)
  {
    && Distinct(dead) && why.Keys == Elems(dead)
    && (forall e :: e in Elems(dead) <==>
          e in before && e !in left && Condemned(c, before[e], now, reporting(e)).Some?)
    && (forall e | e in why && e in before :: Some(why[e]) == Condemned(c, before[e], now, reporting(e)))
  }

  lemma ListStep(
    c: Config, before: map<EdgeId, State>, left: set<EdgeId>, now: int, reporting: EdgeId -> bool,
    dead: seq<EdgeId>, why: map<EdgeId, Method>, edge: EdgeId)
    requires PartListed(c, before, left, now, reporting, dead, why) && edge in left && left <= before.Keys
    ensures var fired := Condemned(c, before[edge], now, reporting(edge));
      && (fired.None? ==> PartListed(c, before, left - {edge}, now, reporting, dead, why))
      && (fired.Some? ==>
          PartListed(c, before, left - {edge}, now, reporting, dead + [edge], why[edge := fired.value]))
  {
    assert edge !in Elems(dead);
    DistinctSnoc(dead, edge);
    ElemsSnoc(dead, edge);
  }

  class Monitor {
    const cfg: Config
    var edges: map<EdgeId, State>
    ghost var log: seq<Entry>

    ghost predicate Valid()
      reads this
    {
      cfg.quorum >= 1 && Summarises(cfg, edges, log)
    }

    constructor (options: Config, now: int, startupGrace: int)
      ensures Valid() && log == [] && edges == map[]
      ensures options.softDebounce != 0 ==> cfg.softDebounce == options.softDebounce
      ensures options.softDebounce == 0 ==> cfg.softDebounce == if options.grace > 0 then options.grace else 5_000_000_000
      ensures cfg.restartGrace == if options.restartGrace == 0 then 5_000_000_000 else options.restartGrace
      ensures cfg.quorum == if options.quorum < 1 then 1 else options.quorum
      ensures cfg.readyAt == now + startupGrace && cfg.grace == options.grace
      ensures cfg.hardDebounce == options.hardDebounce && cfg.selfId == options.selfId
    {
      cfg := Defaults(options, now, startupGrace);
      edges, log := map[], [];
    }

    /** The edge's record, created on first sight. */
    method Get(edge: EdgeId, now: int) returns (s: State)
      ensures s == Touch(Lookup(edges, edge), now)
    {
      if edge in edges {
        s := edges[edge];
      } else {
        s := State(now, {}, false, false, FaultNone, None, None, false, false);
      }
    }

    ghost method Record(edge: EdgeId, e: Event, before: map<EdgeId, State>)
      requires cfg.quorum >= 1 && Summarises(cfg, before, log)
      requires forall x | x != edge :: Lookup(edges, x) == Lookup(before, x)
      requires Lookup(edges, edge) == Step(cfg, Lookup(before, edge), e)
      modifies this`log
      ensures Valid() && log == old(log) + [On(edge, e)]
    {
      Signalled(cfg, before, edges, log, edge, e);
      log := log + [On(edge, e)];
    }

    method Alive(edge: EdgeId, now: int) returns (revived: bool)
      requires Valid()
      modifies this
      ensures Valid() && log == old(log) + [On(edge, Event.Alive(now))]
      ensures revived <==> Failed(cfg, Of(old(log), edge))
    {
      var s := Get(edge, now);
      revived := s.failed;
      RecordAgrees(cfg, Of(log, edge));
      assert Lookup(edges, edge) == Replay(cfg, Of(log, edge));
      ghost var before := edges;
      s := s.(lastSeen := now, hardVotes := {}, canaryDown := false, healthDead := false);
      s := s.(fault := FaultNone, softSince := None, failed := false);
      edges := edges[edge := s];
      Record(edge, Event.Alive(now), before);
    }

    method Heartbeat(edge: EdgeId, now: int) returns (revived: bool)
      requires Valid()
      modifies this
      ensures Valid() && log == old(log) + [On(edge, Event.Heartbeat(now))]
      ensures revived <==> Failed(cfg, Of(old(log), edge)) && !Failed(cfg, Of(log, edge))
    {
      var s := Get(edge, now);
      RecordAgrees(cfg, Of(log, edge));
      assert Lookup(edges, edge) == Replay(cfg, Of(log, edge));
      ghost var before := edges;
      s := s.(lastSeen := now, everReported := true);
      revived := s.failed && !HasQuorum(cfg, s, now) && !HasDeadData(s);
      if revived {
        s := s.(failed := false);
      }
      edges := edges[edge := s];
      Record(edge, Event.Heartbeat(now), before);
      RecordAgrees(cfg, Of(log, edge));
      assert Lookup(edges, edge) == Replay(cfg, Of(log, edge));
    }

    method Health(edge: EdgeId, now: int, sick: bool, fault: Fault)
      requires Valid()
      modifies this
      ensures Valid() && log == old(log) + [On(edge, Event.Health(now, sick, fault))]
    {
      var s := Get(edge, now);
      ghost var before := edges;
      s := s.(healthDead := sick, fault := fault);
      if !HasDeadData(s) {
        s := s.(softSince := None);
      }
      edges := edges[edge := s];
      Record(edge, Event.Health(now, sick, fault), before);
    }

    method HardDown(edge: EdgeId, now: int)
      requires Valid()
      modifies this
      ensures Valid() && log == old(log) + [On(edge, Event.HardDown(now))]
    {
      var s := Get(edge, now);
      ghost var before := edges;
      edges := edges[edge := s.(hardVotes := s.hardVotes + {cfg.Key()})];
      Record(edge, Event.HardDown(now), before);
    }

    method HardUp(edge: EdgeId, now: int)
      requires Valid()
      modifies this
      ensures Valid() && log == old(log) + [On(edge, Event.HardUp(now))]
    {
      var s := Get(edge, now);
      ghost var before := edges;
      edges := edges[edge := s.(hardVotes := s.hardVotes - {cfg.Key()})];
      Record(edge, Event.HardUp(now), before);
    }

    method Vote(edge: EdgeId, now: int, coverer: string, down: bool)
      requires Valid()
      modifies this
      ensures Valid() && log == old(log) + [On(edge, Event.Vote(now, coverer, down))]
    {
      ghost var before := edges;
      if coverer != "" && coverer != cfg.Key() {
        var s := Get(edge, now);
        if down {
          s := s.(hardVotes := s.hardVotes + {coverer});
        } else {
          s := s.(hardVotes := s.hardVotes - {coverer});
        }
        edges := edges[edge := s];
      }
      Record(edge, Event.Vote(now, coverer, down), before);
    }

    method CanaryDown(edge: EdgeId, now: int)
      requires Valid()
      modifies this
      ensures Valid() && log == old(log) + [On(edge, Event.CanaryDown(now))]
    {
      var s := Get(edge, now);
      ghost var before := edges;
      edges := edges[edge := s.(canaryDown := true)];
      Record(edge, Event.CanaryDown(now), before);
    }

    method CanaryUp(edge: EdgeId, now: int)
      requires Valid()
      modifies this
      ensures Valid() && log == old(log) + [On(edge, Event.CanaryUp(now))]
    {
      var s := Get(edge, now);
      ghost var before := edges;
      edges := edges[edge := s.(canaryDown := false, softSince := None)];
      Record(edge, Event.CanaryUp(now), before);
    }

    method Forget(edge: EdgeId)
      requires Valid()
      modifies this
      ensures Valid() && log == old(log) + [On(edge, Event.Forget)]
    {
      ghost var before := edges;
      edges := edges - {edge};
      Record(edge, Event.Forget, before);
    }

    /** Dead for placement: the quorum stands, or the edge is failed over. */
    method IsDead(edge: EdgeId, now: int) returns (dead: bool)
      requires Valid()
      ensures dead <==> (Quorum(cfg, Of(log, edge)) && cfg.Ready(now)) || Failed(cfg, Of(log, edge))
    {
      RecordAgrees(cfg, Of(log, edge));
      QuorumExact(cfg, Of(log, edge));
      assert Lookup(edges, edge) == Replay(cfg, Of(log, edge));
      if edge !in edges {
        return false;
      }
      dead := HasQuorum(cfg, edges[edge], now) || edges[edge].failed;
    }

    /** One un-failed record under the three rules. */
    method Examine(was: State, now: int, reporting: bool) returns (s: State, fired: Option<Method>)
      requires !was.failed
      ensures s == Evaluate(cfg, was, now, reporting).s && fired == Evaluate(cfg, was, now, reporting).fired
    {
      s := was;
      var stale := cfg.grace > 0 && now - s.lastSeen > cfg.grace && reporting;
      var softFired := false;
      if HasDeadData(s) {
        var d := cfg.DebounceFor(s.fault);
        if d <= 0 {
          softFired := true;
        } else if s.softSince.None? {
          s := s.(softSince := Some(now));
        } else if now - s.softSince.value >= d {
          softFired := true;
        }
      } else {
        s := s.(softSince := None);
      }
      var staleEligible := stale && s.everReported;
      var hardFired := false;
      if HasQuorum(cfg, s, now) {
        if cfg.hardDebounce <= 0 {
          hardFired := true;
        } else if s.hardSince.None? {
          s := s.(hardSince := Some(now));
        } else if now - s.hardSince.value >= cfg.hardDebounce {
          hardFired := true;
        }
      } else {
        s := s.(hardSince := None);
      }
      fired := None;
      if hardFired || staleEligible || softFired {
        s := s.(failed := true);
        fired := Some(if hardFired then HardQuorum else if softFired then SoftDeath else HeartbeatStale);
      }
    }

    /** Returns exactly the edges the log judges newly dead, each once, with the rule that
        fired; afterwards the records replay a log that ends with this tick. */
    method Tick(now: int, reporting: EdgeId -> bool) returns (dead: seq<EdgeId>, why: map<EdgeId, Method>)
      requires Valid()
      modifies this
      ensures Valid() && log == old(log) + [TickAll(now, reporting)]
      ensures Distinct(dead) && why.Keys == Elems(dead)
      ensures forall e :: e in dead <==> NewlyDead(cfg, Of(old(log), e), now, reporting(e))
      ensures forall e | e in dead :: why[e] == RuleFor(cfg, Of(old(log), e), now)
    {
      ghost var before := edges;
      dead, why := [], map[];
      var left := edges.Keys;
      while left != {}
        invariant left <= before.Keys && log == old(log)
        invariant PartTicked(cfg, before, edges, left, now, reporting)
        invariant PartListed(cfg, before, left, now, reporting, dead, why)
        decreases |left|
      {
        var edge :| edge in left;
        ListStep(cfg, before, left, now, reporting, dead, why, edge);
        left := left - {edge};
        if edges[edge].failed {
          continue;
        }
        var s, fired := Examine(edges[edge], now, reporting(edge));
        if fired.Some? {
          dead := dead + [edge];
          why := why[edge := fired.value];
        }
        edges := edges[edge := s];
      }
      TickedAll(cfg, before, edges, log, now, reporting);
      log := log + [TickAll(now, reporting)];
      forall e
        ensures e in dead <==> NewlyDead(cfg, Of(old(log), e), now, reporting(e))
        ensures e in dead ==> e in why && why[e] == RuleFor(cfg, Of(old(log), e), now)
      {
        assert e in Elems(dead) <==> e in dead;
        CondemnedExact(cfg, before, old(log), now, reporting, e);
      }
    }
  }

  function Ticked(c: Config, s: State, now: int, reporting: bool): State {
    if s.failed then s else Evaluate(c, s, now, reporting).s
  }

  /** The rule by which a tick fails this record over. */
  function Condemned(c: Config, s: State, now: int, reporting: bool): Option<Method> {
    if s.failed then None else Evaluate(c, s, now, reporting).fired
  }
}
