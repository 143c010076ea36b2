/** The failover trigger. `Step` is what each signal does to an edge's record; the
    predicates over event logs say, without any record, what the record must mean. */
module Liveness {
  import opened Model

  datatype Fault = FaultNone | FaultVppGone | FaultLinkDown | FaultForwardingBroken | FaultOther

  const FiveSeconds: int := 5_000_000_000

  datatype Config = Config(
    grace: int, softDebounce: int, hardDebounce: int, restartGrace: int,
    readyAt: int, quorum: int, selfId: string)
  {
    function Key(): string { if selfId != "" then selfId else "local" }

    predicate Ready(now: int) { now >= readyAt }

    function DebounceFor(f: Fault): int {
      match f
      case FaultLinkDown => 0
      case FaultForwardingBroken => 0
      case FaultVppGone => restartGrace
      case _ => softDebounce
    }

    /** A vote another coverer may cast: not anonymous and not in our own name. */
    predicate Remote(c: string) { c != "" && c != Key() }
  }

  /** The configuration after the constructor filled in its defaults. */
  function Defaults(c: Config, now: int, startupGrace: int): Config {
    c.(softDebounce := if c.softDebounce != 0 then c.softDebounce else if c.grace > 0 then c.grace else FiveSeconds,
       restartGrace := if c.restartGrace != 0 then c.restartGrace else FiveSeconds,
       quorum := if c.quorum < 1 then 1 else c.quorum,
       readyAt := now + startupGrace)
  }

  datatype State = State(
    lastSeen: int, hardVotes: set<string>, canaryDown: bool, healthDead: bool, fault: Fault,
    softSince: Option<int>, hardSince: Option<int>, failed: bool, everReported: bool)

  /** What can happen to one edge. A tick carries whether the edge's agent reports here. */
  datatype Event =
    | Alive(now: int)
    | Heartbeat(now: int)
    | Health(now: int, sick: bool, fault: Fault)
    | HardDown(now: int)
    | HardUp(now: int)
    | Vote(now: int, coverer: string, down: bool)
    | CanaryDown(now: int)
    | CanaryUp(now: int)
    | Forget
    | Tick(now: int, reporting: bool)

  predicate Typed(f: Fault) {
    f.FaultVppGone? || f.FaultLinkDown? || f.FaultForwardingBroken?
  }

  predicate HasDeadData(s: State) {
    if Typed(s.fault) then s.healthDead else s.canaryDown && s.healthDead
  }

  predicate HasQuorum(c: Config, s: State, now: int) {
    c.Ready(now) && |s.hardVotes| >= c.quorum
  }

  function Touch(s: Option<State>, now: int): State {
    if s.Some? then s.value else State(now, {}, false, false, FaultNone, None, None, false, false)
  }

  // ---- one signal ----

  datatype Method = HardQuorum | SoftDeath | HeartbeatStale

  /** The record after a tick looked at it, and the rule that fired, if one did. */
  datatype Verdict = Verdict(s: State, fired: Option<Method>)

  function Evaluate(c: Config, s: State, now: int, reporting: bool): Verdict {
    var stale := c.grace > 0 && now - s.lastSeen > c.grace && reporting && s.everReported;
    var d := c.DebounceFor(s.fault);
    var softSince := if !HasDeadData(s) then None else if d > 0 && s.softSince.None? then Some(now) else s.softSince;
    var soft := HasDeadData(s) && (d <= 0 || (s.softSince.Some? && now - s.softSince.value >= d));
    var hardSince := if !HasQuorum(c, s, now) then None
                     else if c.hardDebounce > 0 && s.hardSince.None? then Some(now) else s.hardSince;
    var hard := HasQuorum(c, s, now)
                && (c.hardDebounce <= 0 || (s.hardSince.Some? && now - s.hardSince.value >= c.hardDebounce));
    Verdict(s.(softSince := softSince, hardSince := hardSince, failed := hard || soft || stale),
            if hard then Some(HardQuorum) else if soft then Some(SoftDeath)
            else if stale then Some(HeartbeatStale) else None)
  }

  function Step(c: Config, s: Option<State>, e: Event): Option<State> {
    match e
    case Alive(now) =>
      Some(Touch(s, now).(lastSeen := now, hardVotes := {}, canaryDown := false, healthDead := false,
                          fault := FaultNone, softSince := None, failed := false))
    case Heartbeat(now) =>
      var t := Touch(s, now).(lastSeen := now, everReported := true);
      Some(t.(failed := t.failed && (HasQuorum(c, t, now) || HasDeadData(t))))
    case Health(now, sick, fault) =>
      var t := Touch(s, now).(healthDead := sick, fault := fault);
      Some(t.(softSince := if HasDeadData(t) then t.softSince else None))
    case HardDown(now) =>
      var t := Touch(s, now);
      Some(t.(hardVotes := t.hardVotes + {c.Key()}))
    case HardUp(now) =>
      var t := Touch(s, now);
      Some(t.(hardVotes := t.hardVotes - {c.Key()}))
    case Vote(now, coverer, down) =>
      if !c.Remote(coverer) then s
      else
        var t := Touch(s, now);
        Some(t.(hardVotes := if down then t.hardVotes + {coverer} else t.hardVotes - {coverer}))
    case CanaryDown(now) => Some(Touch(s, now).(canaryDown := true))
    case CanaryUp(now) => Some(Touch(s, now).(canaryDown := false, softSince := None))
    case Forget => None
    case Tick(now, reporting) =>
      if s.None? || s.value.failed then s else Some(Evaluate(c, s.value, now, reporting).s)
  }

  function Replay(c: Config, log: seq<Event>): Option<State> {
    if log == [] then None else Step(c, Replay(c, log[..|log| - 1]), log[|log| - 1])
  }

  // ---- what a log says ----

  /** Something marked in the log and not cleared since. */
  ghost predicate Standing(log: seq<Event>, mark: Event -> bool, clear: Event -> bool) {
    exists i | 0 <= i < |log| :: mark(log[i]) && forall j | i < j < |log| :: !clear(log[j])
  }

  lemma StandingLast(log: seq<Event>, mark: Event -> bool, clear: Event -> bool)
    requires log != []
    ensures Standing(log, mark, clear) <==>
      mark(log[|log| - 1]) || (Standing(log[..|log| - 1], mark, clear) && !clear(log[|log| - 1]))
  {
    var last := |log| - 1;
    var front := log[..last];
    if mark(log[last]) {
    } else if Standing(front, mark, clear) && !clear(log[last]) {
      var i :| 0 <= i < |front| && mark(front[i]) && forall j | i < j < |front| :: !clear(front[j]);
      assert mark(log[i]);
      forall j | i < j < |log|
        ensures !clear(log[j])
      {
        assert j < last ==> log[j] == front[j];
      }
    }
    if Standing(log, mark, clear) && !mark(log[last]) {
      var i :| 0 <= i < |log| && mark(log[i]) && forall j | i < j < |log| :: !clear(log[j]);
      assert mark(front[i]);
      forall j | i < j < |front|
        ensures !clear(front[j])
      {
        assert log[j] == front[j];
      }
    }
  }

  ghost function VotesDown(c: Config, who: string): Event -> bool {
    (e: Event) => (e.HardDown? && who == c.Key()) || (e.Vote? && e.down && e.coverer == who && c.Remote(who))
  }

  ghost function ClearsVote(c: Config, who: string): Event -> bool {
    (e: Event) =>
      e.Alive? || e.Forget? || (e.HardUp? && who == c.Key())
      || (e.Vote? && !e.down && e.coverer == who && c.Remote(who))
  }

  ghost function IsForget(): Event -> bool { (e: Event) => e.Forget? }

  ghost function IsSignal(c: Config): Event -> bool {
    (e: Event) => !e.Forget? && !e.Tick? && (e.Vote? ==> c.Remote(e.coverer))
  }

  ghost function IsHeartbeat(): Event -> bool { (e: Event) => e.Heartbeat? }

  ghost function IsCanaryDown(): Event -> bool { (e: Event) => e.CanaryDown? }

  ghost function ClearsCanary(): Event -> bool { (e: Event) => e.CanaryUp? || e.Alive? || e.Forget? }

  ghost function IsSick(f: Fault): Event -> bool { (e: Event) => e.Health? && e.sick && e.fault == f }

  ghost function ClearsHealth(): Event -> bool { (e: Event) => e.Health? || e.Alive? || e.Forget? }

  ghost function IsHealth(): Event -> bool { (e: Event) => e.Health? }

  ghost function ForgetsHealth(): Event -> bool { (e: Event) => e.Alive? || e.Forget? }

  ghost function IsReport(sick: bool, f: Fault): Event -> bool {
    (e: Event) => e.Health? && e.sick == sick && e.fault == f
  }

  ghost function SeenAt(t: int): Event -> bool { (e: Event) => (e.Alive? || e.Heartbeat?) && e.now == t }

  ghost function SeenAgain(): Event -> bool { (e: Event) => e.Alive? || e.Heartbeat? || e.Forget? }

  ghost predicate Tracked(c: Config, log: seq<Event>) { Standing(log, IsSignal(c), IsForget()) }

  /** The coverer's latest vote since the last Alive or Forget is down. */
  ghost predicate DownVote(c: Config, log: seq<Event>, who: string) {
    Standing(log, VotesDown(c, who), ClearsVote(c, who))
  }

  ghost predicate AllDown(c: Config, log: seq<Event>, who: set<string>) {
    forall w | w in who :: DownVote(c, log, w)
  }

  /** Enough distinct coverers stand by a down vote. */
  ghost predicate Quorum(c: Config, log: seq<Event>) {
    exists who: set<string> :: |who| >= c.quorum && AllDown(c, log, who)
  }

  ghost predicate CanaryOut(log: seq<Event>) { Standing(log, IsCanaryDown(), ClearsCanary()) }

  /** The latest health report since Alive or Forget says the data plane is dead of `f`. */
  ghost predicate SickOf(log: seq<Event>, f: Fault) { Standing(log, IsSick(f), ClearsHealth()) }

  /** Some health report came since Alive or Forget. */
  ghost predicate HasReport(log: seq<Event>) { Standing(log, IsHealth(), ForgetsHealth()) }

  /** The latest health report since Alive or Forget is this one. */
  ghost predicate Says(log: seq<Event>, sick: bool, f: Fault) { Standing(log, IsReport(sick, f), ClearsHealth()) }

  /** A typed fault is believed on its own, any other needs the canary to be out too. */
  ghost predicate DeadOf(log: seq<Event>, f: Fault) {
    SickOf(log, f) && (Typed(f) || CanaryOut(log))
  }

  ghost predicate DataDead(log: seq<Event>) { exists f :: DeadOf(log, f) }

  ghost predicate Reported(log: seq<Event>) { Standing(log, IsHeartbeat(), IsForget()) }

  ghost predicate LastSeen(log: seq<Event>, t: int) { Standing(log, SeenAt(t), SeenAgain()) }

  // ---- death, over logs ----

  /** Since the un-failed tick at `i` the data plane has been dead after every event, and
      the canary has not come back. */
  ghost predicate SoftWindow(c: Config, log: seq<Event>, i: nat)
    decreases |log|, 1
  {
    && i < |log| && log[i].Tick? && !Failed(c, log[..i])
    && (exists f :: DeadOf(log[..i], f) && c.DebounceFor(f) > 0)
    && (forall j | i <= j <= |log| :: DataDead(log[..j]))
    && (forall j | i < j < |log| :: !log[j].CanaryUp?)
  }

  /** The un-failed tick at `i` saw the quorum and so did every un-failed tick since. */
  ghost predicate HardWindow(c: Config, log: seq<Event>, i: nat)
    decreases |log|, 1
  {
    && i < |log| && log[i].Tick? && !Failed(c, log[..i]) && Tracked(c, log[..i])
    && Quorum(c, log[..i]) && c.Ready(log[i].now)
    && (forall j | i < j < |log| ::
          && log[j] != Forget
          && (log[j].Tick? && !Failed(c, log[..j]) ==> Quorum(c, log[..j]) && c.Ready(log[j].now)))
  }

  ghost predicate FirstSoft(c: Config, log: seq<Event>, i: nat)
    decreases |log|, 2
  {
    SoftWindow(c, log, i) && forall j: nat | j < i :: !SoftWindow(c, log, j)
  }

  ghost predicate FirstHard(c: Config, log: seq<Event>, i: nat)
    decreases |log|, 2
  {
    HardWindow(c, log, i) && forall j: nat | j < i :: !HardWindow(c, log, j)
  }

  ghost predicate SoftRipe(c: Config, log: seq<Event>, now: int)
    decreases |log|, 3
  {
    exists f :: DeadOf(log, f)
      && (c.DebounceFor(f) <= 0
          || exists i: nat | i < |log| && log[i].Tick? :: FirstSoft(c, log, i) && now - log[i].now >= c.DebounceFor(f))
  }

  ghost predicate HardRipe(c: Config, log: seq<Event>, now: int)
    decreases |log|, 3
  {
    Quorum(c, log) && c.Ready(now)
    && (c.hardDebounce <= 0
        || exists i: nat | i < |log| && log[i].Tick? :: FirstHard(c, log, i) && now - log[i].now >= c.hardDebounce)
  }

  ghost predicate StaleRipe(c: Config, log: seq<Event>, now: int, reporting: bool) {
    c.grace > 0 && reporting && Reported(log) && exists t :: LastSeen(log, t) && now - t > c.grace
  }

  /** A tick after `log` fails the edge over. */
  ghost predicate NewlyDead(c: Config, log: seq<Event>, now: int, reporting: bool)
    decreases |log|, 4
  {
    && Tracked(c, log) && !Failed(c, log)
    && (HardRipe(c, log, now) || SoftRipe(c, log, now) || StaleRipe(c, log, now, reporting))
  }

  /** The edge has been failed over and not revived or forgotten since. */
  ghost predicate Failed(c: Config, log: seq<Event>)
    decreases |log|, 0
  {
    log != [] && var front := log[..|log| - 1];
      match log[|log| - 1]
      case Tick(now, reporting) => Failed(c, front) || NewlyDead(c, front, now, reporting)
      case Alive(_) => false
      case Forget => false
      case Heartbeat(now) => Failed(c, front) && ((Quorum(c, log) && c.Ready(now)) || DataDead(log))
      case _ => Failed(c, front)
  }
}
