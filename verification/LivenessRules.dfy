/** The death rules in terms of the configuration alone: which hold-down each fault gets, what a
    short history leads to, and whose votes count. */
module LivenessRules {
  import opened Model
  import opened Liveness
  import opened LivenessSummary

  // ---- hold-downs ----

  lemma SickOne(c: Config, log: seq<Event>, f: Fault, g: Fault)
    requires SickOf(log, f) && SickOf(log, g)
    ensures f == g
  {
    HealthExact(c, log, f);
    HealthExact(c, log, g);
  }

  /** A dead uplink and a confirmed black hole are not held at all. */
  lemma ImmediateFaults(c: Config, log: seq<Event>, f: Fault, now: int, reporting: bool)
    requires Tracked(c, log) && !Failed(c, log)
    requires SickOf(log, f) && (f == FaultLinkDown || f == FaultForwardingBroken)
    ensures NewlyDead(c, log, now, reporting)
  {
    assert DeadOf(log, f) && c.DebounceFor(f) <= 0;
  }

  /** The earliest open soft window is at least this old. */
  ghost predicate HeldFor(c: Config, log: seq<Event>, now: int, d: int) {
    d <= 0 || exists i: nat | i < |log| && log[i].Tick? :: FirstSoft(c, log, i) && now - log[i].now >= d
  }

  /** A gone data plane is held for the restart grace, with or without the canary; a fault
      without a type for the soft debounce, and only while the canary is out too. */
  lemma HeldFaults(c: Config, log: seq<Event>, f: Fault, now: int)
    requires SickOf(log, f)
    ensures f == FaultVppGone ==> (SoftRipe(c, log, now) <==> HeldFor(c, log, now, c.restartGrace))
    ensures f == FaultNone || f == FaultOther ==>
      (SoftRipe(c, log, now) <==> CanaryOut(log) && HeldFor(c, log, now, c.softDebounce))
  {
    forall g | DeadOf(log, g)
      ensures g == f
    {
      SickOne(c, log, f, g);
    }
    if SoftRipe(c, log, now) {
      assert DeadOf(log, f);
    }
    if f == FaultVppGone && HeldFor(c, log, now, c.restartGrace) {
      assert DeadOf(log, f);
    }
  }

  /** Without a sick report there is no soft death. */
  lemma HealthyIsNotSoft(c: Config, log: seq<Event>, now: int)
    requires forall f :: !SickOf(log, f)
    ensures !SoftRipe(c, log, now)
  {
  }

  // ---- short histories ----

  lemma ReplayShort(c: Config, x: Event, y: Event, z: Event)
    ensures Replay(c, [x]) == Step(c, None, x)
    ensures Replay(c, [x, y]) == Step(c, Replay(c, [x]), y)
    ensures Replay(c, [x, y, z]) == Step(c, Replay(c, [x, y]), z)
  {
    assert [x][..0] == [] && Replay(c, []) == None;
    assert [x, y][..1] == [x];
    assert [x, y, z][..2] == [x, y];
  }

  /** One report, then silence: dead exactly after more than the grace, if the edge reports
      here. An edge that never reported is not judged by its silence. */
  lemma SilenceRule(c: Config, t: int, now: int, reporting: bool)
    requires c.quorum >= 1
    ensures NewlyDead(c, [Heartbeat(t)], now, reporting) <==> c.grace > 0 && reporting && now - t > c.grace
    ensures !NewlyDead(c, [Alive(t)], now, reporting)
  {
    ReplayShort(c, Heartbeat(t), Forget, Forget);
    ReplayShort(c, Alive(t), Forget, Forget);
    TickExact(c, [Heartbeat(t)], now, reporting);
    TickExact(c, [Alive(t)], now, reporting);
  }

  /** Votes and nothing else, without a hold-down: dead exactly if there are enough and the
      startup grace is over. */
  lemma VotesOnly(c: Config, log: seq<Event>, votes: set<string>, t: int, now: int, reporting: bool)
    requires c.quorum >= 1 && c.hardDebounce <= 0
    requires Replay(c, log) == Some(State(t, votes, false, false, FaultNone, None, None, false, false))
    ensures NewlyDead(c, log, now, reporting) <==> |votes| >= c.quorum && now >= c.readyAt
  {
    TickExact(c, log, now, reporting);
  }

  /** Our own vote alone is a quorum of one, until it is withdrawn. */
  lemma OwnVoteRule(c: Config, t: int, now: int, reporting: bool)
    requires c.quorum >= 1 && c.hardDebounce <= 0
    ensures NewlyDead(c, [HardDown(t)], now, reporting) <==> c.quorum == 1 && now >= c.readyAt
    ensures !NewlyDead(c, [HardDown(t), HardUp(t)], now, reporting)
  {
    ReplayShort(c, HardDown(t), HardUp(t), Forget);
    assert {} + {c.Key()} == {c.Key()} && {c.Key()} - {c.Key()} == {};
    VotesOnly(c, [HardDown(t)], {c.Key()}, t, now, reporting);
    VotesOnly(c, [HardDown(t), HardUp(t)], {}, t, now, reporting);
  }

  /** Two other coverers make a quorum of two, one coverer voting twice does not, and a vote
      taken back is gone. */
  lemma TwoVotesRule(c: Config, x: string, y: string, t: int, now: int, reporting: bool)
    requires c.quorum >= 1 && c.hardDebounce <= 0 && x != y
    requires x != "" && y != "" && x != c.selfId && y != c.selfId && x != "local" && y != "local"
    ensures NewlyDead(c, [Vote(t, x, true), Vote(t, y, true)], now, reporting) <==> c.quorum <= 2 && now >= c.readyAt
    ensures NewlyDead(c, [Vote(t, x, true), Vote(t, x, true)], now, reporting) <==> c.quorum == 1 && now >= c.readyAt
    ensures !NewlyDead(c, [Vote(t, x, true), Vote(t, x, false)], now, reporting)
  {
    ReplayShort(c, Vote(t, x, true), Vote(t, y, true), Forget);
    ReplayShort(c, Vote(t, x, true), Vote(t, x, true), Forget);
    ReplayShort(c, Vote(t, x, true), Vote(t, x, false), Forget);
    assert {} + {x} == {x} && {x} + {y} == {x, y} && {x} + {x} == {x} && {x} - {x} == {};
    VotesOnly(c, [Vote(t, x, true), Vote(t, y, true)], {x, y}, t, now, reporting);
    VotesOnly(c, [Vote(t, x, true), Vote(t, x, true)], {x}, t, now, reporting);
    VotesOnly(c, [Vote(t, x, true), Vote(t, x, false)], {}, t, now, reporting);
  }

  /** With a hold-down the quorum must be seen again that long after the first tick saw it. */
  lemma HoldDownRule(c: Config, t: int, t1: int, now: int, reporting: bool)
    requires c.quorum == 1 && c.hardDebounce > 0 && t1 >= c.readyAt
    ensures !NewlyDead(c, [HardDown(t)], now, reporting)
    ensures NewlyDead(c, [HardDown(t), Tick(t1, reporting)], now, reporting) <==>
      now >= c.readyAt && now - t1 >= c.hardDebounce
  {
    TickExact(c, [HardDown(t)], now, reporting);
    TickExact(c, [HardDown(t), Tick(t1, reporting)], now, reporting);
    ReplayShort(c, HardDown(t), Tick(t1, reporting), Forget);
  }

  /** One sick report: dead at once for a dead uplink or a black hole. */
  lemma FaultRule(c: Config, f: Fault, t: int, now: int, reporting: bool)
    requires c.quorum >= 1
    ensures NewlyDead(c, [Health(t, true, f)], now, reporting) <==>
      f == FaultLinkDown || f == FaultForwardingBroken || (f == FaultVppGone && c.restartGrace <= 0)
    ensures !NewlyDead(c, [Health(t, false, f)], now, reporting)
  {
    TickExact(c, [Health(t, true, f)], now, reporting);
    TickExact(c, [Health(t, false, f)], now, reporting);
    ReplayShort(c, Health(t, true, f), Forget, Forget);
    ReplayShort(c, Health(t, false, f), Forget, Forget);
  }

  /** A gone data plane is dead once the restart grace has passed since the first tick. */
  lemma RestartRule(c: Config, t: int, t1: int, now: int, reporting: bool)
    requires c.quorum >= 1 && c.restartGrace > 0
    ensures NewlyDead(c, [Health(t, true, FaultVppGone), Tick(t1, reporting)], now, reporting) <==>
      now - t1 >= c.restartGrace
  {
    TickExact(c, [Health(t, true, FaultVppGone), Tick(t1, reporting)], now, reporting);
    ReplayShort(c, Health(t, true, FaultVppGone), Tick(t1, reporting), Forget);
  }

  /** An untyped sick report needs the canary out, and then the soft debounce. */
  lemma CanaryRule(c: Config, t: int, t1: int, now: int, reporting: bool)
    requires c.quorum >= 1 && c.softDebounce > 0
    ensures NewlyDead(c, [CanaryDown(t), Health(t, true, FaultNone), Tick(t1, reporting)], now, reporting) <==>
      now - t1 >= c.softDebounce
    ensures !NewlyDead(c, [Health(t, true, FaultNone), Tick(t1, reporting)], now, reporting)
    ensures !NewlyDead(c, [CanaryDown(t), Tick(t1, reporting)], now, reporting)
  {
    TickExact(c, [CanaryDown(t), Health(t, true, FaultNone), Tick(t1, reporting)], now, reporting);
    TickExact(c, [Health(t, true, FaultNone), Tick(t1, reporting)], now, reporting);
    TickExact(c, [CanaryDown(t), Tick(t1, reporting)], now, reporting);
    ReplayShort(c, CanaryDown(t), Health(t, true, FaultNone), Tick(t1, reporting));
    ReplayShort(c, Health(t, true, FaultNone), Tick(t1, reporting), Forget);
    ReplayShort(c, CanaryDown(t), Tick(t1, reporting), Forget);
  }

  /** The canary coming back starts the hold-down over, and so does a healthy report; an Alive
      clears what was reported. */
  lemma ResetRule(c: Config, t: int, t1: int, e: Event, now: int, reporting: bool)
    requires c.quorum >= 1 && c.restartGrace > 0 && (e.CanaryUp? || (e.Health? && !e.sick) || e.Alive?)
    ensures !NewlyDead(c, [Health(t, true, FaultVppGone), Tick(t1, reporting), e], now, reporting)
  {
    ReplayShort(c, Health(t, true, FaultVppGone), Tick(t1, reporting), e);
    TickExact(c, [Health(t, true, FaultVppGone), Tick(t1, reporting), e], now, reporting);
  }

  /** A failed-over edge is revived by an Alive, and by a heartbeat only if no death signal
      stands: not while our down vote does. */
  lemma ReviveRule(c: Config, t: int, t1: int, t2: int, reporting: bool)
    requires c.quorum == 1 && c.hardDebounce <= 0 && t1 >= c.readyAt
    ensures var down, tick := HardDown(t), Tick(t1, reporting);
      && Failed(c, [down, tick])
      && !Failed(c, [down, tick, Alive(t2)])
      && (Failed(c, [down, tick, Heartbeat(t2)]) <==> t2 >= c.readyAt)
      && Failed(c, [down, tick, HardUp(t2)])
  {
    var down, tick := HardDown(t), Tick(t1, reporting);
    ReplayShort(c, down, tick, Alive(t2));
    ReplayShort(c, down, tick, Heartbeat(t2));
    ReplayShort(c, down, tick, HardUp(t2));
    assert {} + {c.Key()} == {c.Key()};
    RecordAgrees(c, [down, tick]);
    RecordAgrees(c, [down, tick, Alive(t2)]);
    RecordAgrees(c, [down, tick, Heartbeat(t2)]);
    RecordAgrees(c, [down, tick, HardUp(t2)]);
  }

  // ---- whose votes ----

  /** A vote without a name or in our own name changes nothing; our tap's vote counts under our
      id, or under "local" if we have none. */
  lemma VoteNames(c: Config, s: Option<State>, now: int, down: bool)
    ensures var own := if c.selfId != "" then c.selfId else "local";
      && Step(c, s, Vote(now, "", down)) == s && Step(c, s, Vote(now, own, down)) == s
      && Step(c, s, HardDown(now)).Some?
      && Step(c, s, HardDown(now)).value.hardVotes == Touch(s, now).hardVotes + {own}
      && forall who | who != "" && who != own ::
           && Step(c, s, Vote(now, who, true)).Some?
           && Step(c, s, Vote(now, who, true)).value.hardVotes == Touch(s, now).hardVotes + {who}
  {
  }
}
