/** An edge's record is a faithful summary of its event log: every field, and every
    verdict of a tick, is what the log predicates say. */
module LivenessSummary {
  import opened Model
  import opened Liveness

  function Front(log: seq<Event>): seq<Event>
    requires log != []
  {
    log[..|log| - 1]
  }

  function Last(log: seq<Event>): Event
    requires log != []
  {
    log[|log| - 1]
  }

  lemma {:induction false} TrackedExact(c: Config, log: seq<Event>)
    ensures Tracked(c, log) <==> Replay(c, log).Some?
    decreases |log|
  {
    if log != [] {
      TrackedExact(c, Front(log));
      StandingLast(log, IsSignal(c), IsForget());
    }
  }

  predicate Holds(s: Option<State>, who: string) {
    s.Some? && who in s.value.hardVotes
  }

  lemma VoteStep(c: Config, s: Option<State>, e: Event, who: string)
    ensures Holds(Step(c, s, e), who) <==> VotesDown(c, who)(e) || (Holds(s, who) && !ClearsVote(c, who)(e))
  {
  }

  predicate Ails(s: Option<State>, f: Fault) {
    s.Some? && s.value.healthDead && s.value.fault == f
  }

  lemma HealthStep(c: Config, s: Option<State>, e: Event, f: Fault)
    ensures Ails(Step(c, s, e), f) <==> IsSick(f)(e) || (Ails(s, f) && !ClearsHealth()(e))
  {
  }

  /** The vote set is exactly the distinct coverers whose latest vote stands. */
  lemma {:induction false} VotesExact(c: Config, log: seq<Event>, who: string)
    ensures DownVote(c, log, who) <==> Holds(Replay(c, log), who)
    decreases |log|
  {
    if log != [] {
      VotesExact(c, Front(log), who);
      VoteStep(c, Replay(c, Front(log)), Last(log), who);
      StandingLast(log, VotesDown(c, who), ClearsVote(c, who));
    }
  }

  lemma {:induction false} CanaryExact(c: Config, log: seq<Event>)
    ensures CanaryOut(log) <==> Replay(c, log).Some? && Replay(c, log).value.canaryDown
    decreases |log|
  {
    if log != [] {
      CanaryExact(c, Front(log));
      StandingLast(log, IsCanaryDown(), ClearsCanary());
    }
  }

  lemma {:induction false} HealthExact(c: Config, log: seq<Event>, f: Fault)
    ensures SickOf(log, f) <==> Ails(Replay(c, log), f)
    decreases |log|
  {
    if log != [] {
      HealthExact(c, Front(log), f);
      HealthStep(c, Replay(c, Front(log)), Last(log), f);
      StandingLast(log, IsSick(f), ClearsHealth());
    }
  }

  /** What the record says of health and fault, sick or not. */
  ghost predicate HealthAs(log: seq<Event>, s: Option<State>) {
    if s.None? then !HasReport(log)
    else if HasReport(log) then forall sick, f :: Says(log, sick, f) <==> sick == s.value.healthDead && f == s.value.fault
    else !s.value.healthDead && s.value.fault == FaultNone
  }

  lemma HealthAsStep(c: Config, log: seq<Event>, s: Option<State>)
    requires log != [] && HealthAs(Front(log), s)
    ensures HealthAs(log, Step(c, s, Last(log)))
  {
    var s' := Step(c, s, Last(log));
    StandingLast(log, IsHealth(), ForgetsHealth());
    if s'.Some? && HasReport(log) {
      forall sick, f
        ensures Says(log, sick, f) <==> sick == s'.value.healthDead && f == s'.value.fault
      {
        StandingLast(log, IsReport(sick, f), ClearsHealth());
        if !Last(log).Health? {
          assert HasReport(Front(log));
          assert s'.value.healthDead == s.value.healthDead && s'.value.fault == s.value.fault;
          assert Says(log, sick, f) <==> Says(Front(log), sick, f);
        }
      }
    }
  }

  /** The record's health and fault kind are those of the latest health report since Alive or
      Forget, whether it was sick or not, and healthy without one. */
  lemma {:induction false} HealthReportExact(c: Config, log: seq<Event>)
    ensures HealthAs(log, Replay(c, log))
    decreases |log|
  {
    if log != [] {
      HealthReportExact(c, Front(log));
      HealthAsStep(c, log, Replay(c, Front(log)));
    }
  }

  lemma {:induction false} ReportedExact(c: Config, log: seq<Event>)
    ensures Reported(log) <==> Replay(c, log).Some? && Replay(c, log).value.everReported
    decreases |log|
  {
    if log != [] {
      ReportedExact(c, Front(log));
      StandingLast(log, IsHeartbeat(), IsForget());
    }
  }

  lemma {:induction false} SeenSound(c: Config, log: seq<Event>, t: int)
    requires LastSeen(log, t)
    ensures Replay(c, log).Some? && Replay(c, log).value.lastSeen == t
    decreases |log|
  {
    StandingLast(log, SeenAt(t), SeenAgain());
    if !SeenAt(t)(Last(log)) {
      SeenSound(c, Front(log), t);
    }
  }

  /** Once the edge has reported, its last-seen time is that of the latest Alive or
      Heartbeat. */
  lemma {:induction false} SeenExact(c: Config, log: seq<Event>)
    requires Reported(log)
    ensures Replay(c, log).Some? && LastSeen(log, Replay(c, log).value.lastSeen)
    decreases |log|
  {
    StandingLast(log, IsHeartbeat(), IsForget());
    ReportedExact(c, log);
    StandingLast(log, SeenAt(Replay(c, log).value.lastSeen), SeenAgain());
    if !Last(log).Heartbeat? {
      SeenExact(c, Front(log));
      ReportedExact(c, Front(log));
    }
  }

  lemma QuorumExact(c: Config, log: seq<Event>)
    requires c.quorum >= 1
    ensures Quorum(c, log) <==> Replay(c, log).Some? && |Replay(c, log).value.hardVotes| >= c.quorum
  {
    if Quorum(c, log) {
      var who: set<string> :| |who| >= c.quorum && AllDown(c, log, who);
      var some :| some in who;
      VotesExact(c, log, some);
      var votes := Replay(c, log).value.hardVotes;
      assert who <= votes by {
        forall w | w in who
          ensures w in votes
        {
          VotesExact(c, log, w);
        }
      }
      SubsetCard(who, votes);
    }
    if Replay(c, log).Some? && |Replay(c, log).value.hardVotes| >= c.quorum {
      var votes := Replay(c, log).value.hardVotes;
      forall w | w in votes
        ensures DownVote(c, log, w)
      {
        VotesExact(c, log, w);
      }
      assert AllDown(c, log, votes);
    }
  }

  lemma DeadOfExact(c: Config, log: seq<Event>, f: Fault)
    ensures DeadOf(log, f) <==>
      Replay(c, log).Some? && HasDeadData(Replay(c, log).value) && Replay(c, log).value.fault == f
  {
    HealthExact(c, log, f);
    CanaryExact(c, log);
  }

  lemma DataDeadExact(c: Config, log: seq<Event>)
    ensures DataDead(log) <==> Replay(c, log).Some? && HasDeadData(Replay(c, log).value)
  {
    forall f
      ensures DeadOf(log, f) <==>
        Replay(c, log).Some? && HasDeadData(Replay(c, log).value) && Replay(c, log).value.fault == f
    {
      DeadOfExact(c, log, f);
    }
    if Replay(c, log).Some? && HasDeadData(Replay(c, log).value) {
      assert DeadOf(log, Replay(c, log).value.fault);
    }
  }

  // ---- the debounce windows ----

  lemma FrontPrefix(log: seq<Event>, i: nat)
    requires log != [] && i < |log|
    ensures Front(log)[..i] == log[..i]
  {
  }

  /** The data plane is dead of a fault with a hold-down. */
  ghost predicate Patient(c: Config, log: seq<Event>) {
    exists f :: DeadOf(log, f) && c.DebounceFor(f) > 0
  }

  lemma SoftWindowKept(c: Config, log: seq<Event>, i: nat)
    requires log != [] && i < |log| - 1
    ensures SoftWindow(c, log, i) <==> SoftWindow(c, Front(log), i) && DataDead(log) && !Last(log).CanaryUp?
  {
    var front := Front(log);
    FrontPrefix(log, i);
    assert log[..|log|] == log;
    assert forall j | i <= j <= |front| :: front[..j] == log[..j];
    if SoftWindow(c, log, i) {
      forall j | i <= j <= |front|
        ensures DataDead(front[..j])
      {
        assert front[..j] == log[..j];
      }
    }
    if SoftWindow(c, front, i) && DataDead(log) && !Last(log).CanaryUp? {
      forall j | i <= j <= |log|
        ensures DataDead(log[..j])
      {
        assert j < |log| ==> front[..j] == log[..j];
      }
    }
  }

  lemma SoftWindowNew(c: Config, log: seq<Event>)
    requires log != []
    ensures SoftWindow(c, log, |log| - 1) <==>
      Last(log).Tick? && !Failed(c, Front(log)) && Patient(c, Front(log)) && DataDead(log)
  {
    assert log[..|log|] == log;
    if Patient(c, Front(log)) {
      assert DataDead(Front(log));
    }
  }

  lemma HardWindowKept(c: Config, log: seq<Event>, i: nat)
    requires log != [] && i < |log| - 1
    ensures HardWindow(c, log, i) <==>
      && HardWindow(c, Front(log), i) && Last(log) != Forget
      && (Last(log).Tick? && !Failed(c, Front(log)) ==> Quorum(c, Front(log)) && c.Ready(Last(log).now))
  {
    var front := Front(log);
    assert forall j | i <= j <= |front| :: front[..j] == log[..j];
    assert front[..|front|] == front;
  }

  lemma HardWindowNew(c: Config, log: seq<Event>)
    requires log != []
    ensures HardWindow(c, log, |log| - 1) <==>
      && Last(log).Tick? && !Failed(c, Front(log)) && Tracked(c, Front(log))
      && Quorum(c, Front(log)) && c.Ready(Last(log).now)
  {
  }

  function SoftOf(s: Option<State>): Option<int> { if s.Some? then s.value.softSince else None }

  function HardOf(s: Option<State>): Option<int> { if s.Some? then s.value.hardSince else None }

  predicate FailedIn(s: Option<State>) { s.Some? && s.value.failed }

  predicate DeadIn(s: Option<State>) { s.Some? && HasDeadData(s.value) }

  /** The soft debounce started at the earliest open window, or no window is open. */
  ghost predicate SoftAgrees(c: Config, log: seq<Event>, since: Option<int>) {
    if since.None? then forall i: nat :: !SoftWindow(c, log, i)
    else exists i: nat | i < |log| && log[i].Tick? :: FirstSoft(c, log, i) && log[i].now == since.value
  }

  ghost predicate HardAgrees(c: Config, log: seq<Event>, since: Option<int>) {
    if since.None? then forall i: nat :: !HardWindow(c, log, i)
    else exists i: nat | i < |log| && log[i].Tick? :: FirstHard(c, log, i) && log[i].now == since.value
  }

  predicate ArmsSoft(c: Config, s: Option<State>, e: Event) {
    e.Tick? && DeadIn(s) && !s.value.failed && c.DebounceFor(s.value.fault) > 0
  }

  predicate KeepsSoft(c: Config, s: Option<State>, e: Event) { DeadIn(Step(c, s, e)) && !e.CanaryUp? }

  lemma SoftStep(c: Config, s: Option<State>, e: Event)
    requires SoftOf(s).Some? ==> DeadIn(s)
    ensures SoftOf(Step(c, s, e)) ==
      if !KeepsSoft(c, s, e) then None
      else if SoftOf(s).Some? then SoftOf(s)
      else if ArmsSoft(c, s, e) then Some(e.now) else None
  {
  }

  predicate SeesQuorum(c: Config, s: Option<State>, e: Event) {
    e.Tick? && s.Some? && !s.value.failed && HasQuorum(c, s.value, e.now)
  }

  predicate KeepsHard(c: Config, s: Option<State>, e: Event) {
    !e.Forget? && (e.Tick? && !FailedIn(s) && s.Some? ==> SeesQuorum(c, s, e))
  }

  lemma HardStep(c: Config, s: Option<State>, e: Event)
    requires c.hardDebounce > 0
    ensures HardOf(Step(c, s, e)) ==
      if !KeepsHard(c, s, e) then None
      else if HardOf(s).Some? then HardOf(s)
      else if SeesQuorum(c, s, e) then Some(e.now) else None
  {
  }

  lemma PatientExact(c: Config, log: seq<Event>)
    ensures Patient(c, log) <==>
      DeadIn(Replay(c, log)) && c.DebounceFor(Replay(c, log).value.fault) > 0
  {
    var s := Replay(c, log);
    forall f
      ensures DeadOf(log, f) <==> DeadIn(s) && s.value.fault == f
    {
      DeadOfExact(c, log, f);
    }
    if DeadIn(s) {
      assert DeadOf(log, s.value.fault);
    }
  }

  /** Where the window opened at `i` is after one more event. */
  lemma SoftWindowStep(c: Config, log: seq<Event>, i: nat)
    requires log != [] && (Failed(c, Front(log)) <==> FailedIn(Replay(c, Front(log))))
    ensures var s := Replay(c, Front(log));
      SoftWindow(c, log, i) <==>
        KeepsSoft(c, s, Last(log))
        && (SoftWindow(c, Front(log), i) || (i == |log| - 1 && ArmsSoft(c, s, Last(log))))
  {
    DataDeadExact(c, log);
    if i < |log| - 1 {
      SoftWindowKept(c, log, i);
    } else if i == |log| - 1 {
      SoftWindowNew(c, log);
      PatientExact(c, Front(log));
    }
  }

  lemma OpenMeansDead(c: Config, log: seq<Event>, i: nat)
    requires SoftWindow(c, log, i)
    ensures DeadIn(Replay(c, log))
  {
    assert log[..|log|] == log;
    assert forall j | i <= j <= |log| :: DataDead(log[..j]);
    assert DataDead(log);
    DataDeadExact(c, log);
  }

  lemma OpenMeansTracked(c: Config, log: seq<Event>, i: nat)
    requires HardWindow(c, log, i)
    ensures Replay(c, log).Some?
  {
    var before := log[..i];
    var k :| 0 <= k < |before| && IsSignal(c)(before[k]) && forall j | k < j < |before| :: !IsForget()(before[j]);
    assert IsSignal(c)(log[k]);
    forall j | k < j < |log|
      ensures !IsForget()(log[j])
    {
      assert j < i ==> log[j] == before[j];
    }
    assert Tracked(c, log);
    TrackedExact(c, log);
  }

  lemma SoftAgreesStep(c: Config, log: seq<Event>)
    requires log != [] && (Failed(c, Front(log)) <==> FailedIn(Replay(c, Front(log))))
    requires SoftAgrees(c, Front(log), SoftOf(Replay(c, Front(log))))
    ensures SoftAgrees(c, log, SoftOf(Replay(c, log)))
  {
    var s, e, front := Replay(c, Front(log)), Last(log), Front(log);
    if SoftOf(s).Some? {
      var i: nat :| i < |front| && front[i].Tick? && FirstSoft(c, front, i);
      OpenMeansDead(c, front, i);
    }
    SoftStep(c, s, e);
    forall i: nat
      ensures SoftWindow(c, log, i) <==>
        KeepsSoft(c, s, e) && (SoftWindow(c, front, i) || (i == |log| - 1 && ArmsSoft(c, s, e)))
    {
      SoftWindowStep(c, log, i);
    }
    if SoftOf(Replay(c, log)).Some? {
      SoftFirst(c, log, s, e);
    }
  }

  lemma SoftFirst(c: Config, log: seq<Event>, s: Option<State>, e: Event)
    requires log != [] && e == Last(log) && KeepsSoft(c, s, e)
    requires SoftAgrees(c, Front(log), SoftOf(s))
    requires forall i: nat :: SoftWindow(c, log, i) <==>
      (SoftWindow(c, Front(log), i) || (i == |log| - 1 && ArmsSoft(c, s, e)))
    requires SoftOf(s).Some? || ArmsSoft(c, s, e)
    ensures SoftAgrees(c, log, Some(if SoftOf(s).Some? then SoftOf(s).value else e.now))
  {
    var front := Front(log);
    if SoftOf(s).Some? {
      var i: nat :| i < |front| && front[i].Tick? && FirstSoft(c, front, i) && front[i].now == SoftOf(s).value;
      assert FirstSoft(c, log, i);
    } else {
      assert FirstSoft(c, log, |log| - 1);
    }
  }

  lemma HardWindowStep(c: Config, log: seq<Event>, i: nat)
    requires log != [] && c.quorum >= 1 && (Failed(c, Front(log)) <==> FailedIn(Replay(c, Front(log))))
    requires HardWindow(c, Front(log), i) ==> Replay(c, Front(log)).Some?
    ensures var s := Replay(c, Front(log));
      HardWindow(c, log, i) <==>
        KeepsHard(c, s, Last(log))
        && (HardWindow(c, Front(log), i) || (i == |log| - 1 && SeesQuorum(c, s, Last(log))))
  {
    QuorumExact(c, Front(log));
    TrackedExact(c, Front(log));
    if i < |log| - 1 {
      HardWindowKept(c, log, i);
    } else if i == |log| - 1 {
      HardWindowNew(c, log);
    }
  }

  lemma HardAgreesStep(c: Config, log: seq<Event>)
    requires log != [] && c.quorum >= 1 && c.hardDebounce > 0
    requires Failed(c, Front(log)) <==> FailedIn(Replay(c, Front(log)))
    requires HardAgrees(c, Front(log), HardOf(Replay(c, Front(log))))
    ensures HardAgrees(c, log, HardOf(Replay(c, log)))
  {
    var s, e, front := Replay(c, Front(log)), Last(log), Front(log);
    HardStep(c, s, e);
    forall i: nat
      ensures HardWindow(c, log, i) <==>
        KeepsHard(c, s, e) && (HardWindow(c, front, i) || (i == |log| - 1 && SeesQuorum(c, s, e)))
    {
      if HardWindow(c, front, i) {
        OpenMeansTracked(c, front, i);
      }
      HardWindowStep(c, log, i);
    }
    if HardOf(Replay(c, log)).Some? {
      HardFirst(c, log, s, e);
    }
  }

  lemma HardFirst(c: Config, log: seq<Event>, s: Option<State>, e: Event)
    requires log != [] && e == Last(log) && KeepsHard(c, s, e)
    requires HardAgrees(c, Front(log), HardOf(s))
    requires forall i: nat :: HardWindow(c, log, i) <==>
      (HardWindow(c, Front(log), i) || (i == |log| - 1 && SeesQuorum(c, s, e)))
    requires HardOf(s).Some? || SeesQuorum(c, s, e)
    ensures HardAgrees(c, log, Some(if HardOf(s).Some? then HardOf(s).value else e.now))
  {
    var front := Front(log);
    if HardOf(s).Some? {
      var i: nat :| i < |front| && front[i].Tick? && FirstHard(c, front, i) && front[i].now == HardOf(s).value;
      assert FirstHard(c, log, i);
    } else {
      assert FirstHard(c, log, |log| - 1);
    }
  }

  // ---- the verdict ----

  /** The rules as the record states them. */
  predicate SoftFires(c: Config, s: State, now: int) {
    var d := c.DebounceFor(s.fault);
    HasDeadData(s) && (d <= 0 || (s.softSince.Some? && now - s.softSince.value >= d))
  }

  predicate HardFires(c: Config, s: State, now: int) {
    HasQuorum(c, s, now)
    && (c.hardDebounce <= 0 || (s.hardSince.Some? && now - s.hardSince.value >= c.hardDebounce))
  }

  predicate StaleFires(c: Config, s: State, now: int, reporting: bool) {
    c.grace > 0 && now - s.lastSeen > c.grace && reporting && s.everReported
  }

  lemma SoftRipeExact(c: Config, log: seq<Event>, now: int)
    requires SoftAgrees(c, log, SoftOf(Replay(c, log)))
    ensures SoftRipe(c, log, now) <==> Replay(c, log).Some? && SoftFires(c, Replay(c, log).value, now)
  {
    var s := Replay(c, log);
    forall f
      ensures DeadOf(log, f) <==> DeadIn(s) && s.value.fault == f
    {
      DeadOfExact(c, log, f);
    }
    if DeadIn(s) {
      var f := s.value.fault;
      assert DeadOf(log, f);
      if s.value.softSince.Some? {
        var i: nat :| i < |log| && log[i].Tick? && FirstSoft(c, log, i) && log[i].now == s.value.softSince.value;
        assert forall j: nat | j < |log| && FirstSoft(c, log, j) :: j == i;
      } else {
        assert forall j: nat :: !FirstSoft(c, log, j);
      }
    }
  }

  lemma HardRipeExact(c: Config, log: seq<Event>, now: int)
    requires c.quorum >= 1
    requires c.hardDebounce > 0 ==> HardAgrees(c, log, HardOf(Replay(c, log)))
    ensures HardRipe(c, log, now) <==> Replay(c, log).Some? && HardFires(c, Replay(c, log).value, now)
  {
    var s := Replay(c, log);
    QuorumExact(c, log);
    if s.Some? && c.hardDebounce > 0 {
      if s.value.hardSince.Some? {
        var i: nat :| i < |log| && log[i].Tick? && FirstHard(c, log, i) && log[i].now == s.value.hardSince.value;
        assert forall j: nat | j < |log| && FirstHard(c, log, j) :: j == i;
      } else {
        assert forall j: nat :: !FirstHard(c, log, j);
      }
    }
  }

  lemma StaleRipeExact(c: Config, log: seq<Event>, now: int, reporting: bool)
    ensures StaleRipe(c, log, now, reporting)
      <==> Replay(c, log).Some? && StaleFires(c, Replay(c, log).value, now, reporting)
  {
    ReportedExact(c, log);
    if Reported(log) {
      SeenExact(c, log);
      forall t | LastSeen(log, t)
        ensures t == Replay(c, log).value.lastSeen
      {
        SeenSound(c, log, t);
      }
    }
  }

  ghost predicate Agrees(c: Config, log: seq<Event>) {
    && (Failed(c, log) <==> FailedIn(Replay(c, log)))
    && SoftAgrees(c, log, SoftOf(Replay(c, log)))
    && (c.hardDebounce > 0 ==> HardAgrees(c, log, HardOf(Replay(c, log))))
  }

  lemma VerdictExact(c: Config, log: seq<Event>, now: int, reporting: bool)
    requires c.quorum >= 1 && Agrees(c, log)
    ensures NewlyDead(c, log, now, reporting) <==>
      var s := Replay(c, log);
      s.Some? && !s.value.failed && Evaluate(c, s.value, now, reporting).fired.Some?
  {
    TrackedExact(c, log);
    SoftRipeExact(c, log, now);
    HardRipeExact(c, log, now);
    StaleRipeExact(c, log, now, reporting);
  }

  lemma FailedStep(c: Config, log: seq<Event>)
    requires log != [] && c.quorum >= 1 && Agrees(c, Front(log))
    ensures Failed(c, log) <==> FailedIn(Replay(c, log))
  {
    match Last(log) {
      case Tick(now, reporting) => VerdictExact(c, Front(log), now, reporting);
      case Heartbeat(now) =>
        QuorumExact(c, log);
        DataDeadExact(c, log);
      case _ =>
    }
  }

  /** After any history: whether the edge counts as failed over, and where both debounce
      windows began, are what the log says. */
  lemma {:induction false} RecordAgrees(c: Config, log: seq<Event>)
    requires c.quorum >= 1
    ensures Agrees(c, log)
    decreases |log|
  {
    if log != [] {
      RecordAgrees(c, Front(log));
      FailedStep(c, log);
      SoftAgreesStep(c, log);
      if c.hardDebounce > 0 {
        HardAgreesStep(c, log);
      }
    }
  }

  /** A tick fails an edge over exactly when the log judges it newly dead, and it names the
      strongest rule that holds: quorum, then soft death, then silence. */
  lemma TickExact(c: Config, log: seq<Event>, now: int, reporting: bool)
    requires c.quorum >= 1
    ensures var s := Replay(c, log);
      && (NewlyDead(c, log, now, reporting) <==>
          s.Some? && !s.value.failed && Evaluate(c, s.value, now, reporting).fired.Some?)
      && (NewlyDead(c, log, now, reporting) ==>
          Evaluate(c, s.value, now, reporting).fired ==
            Some(if HardRipe(c, log, now) then HardQuorum
                 else if SoftRipe(c, log, now) then SoftDeath else HeartbeatStale))
  {
    RecordAgrees(c, log);
    VerdictExact(c, log, now, reporting);
    SoftRipeExact(c, log, now);
    HardRipeExact(c, log, now);
  }
}
