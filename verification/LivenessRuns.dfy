/** What holds over whole runs of the monitor: which windows a failover implies, and that
    failovers and revivals alternate. */
module LivenessRuns {
  import opened Model
  import opened Liveness
  import opened LivenessSummary

  /** A soft failover: the data plane was dead after every event since an un-failed tick at
      least the current fault's hold-down ago, or that fault needs none. */
  lemma SoftFireHeld(c: Config, log: seq<Event>, now: int, reporting: bool)
    requires c.quorum >= 1 && Replay(c, log).Some? && !Replay(c, log).value.failed
    requires Evaluate(c, Replay(c, log).value, now, reporting).fired == Some(SoftDeath)
    ensures exists f ::
      && DeadOf(log, f)
      && (c.DebounceFor(f) <= 0 || exists i: nat | i < |log| && log[i].Tick? ::
            && now - log[i].now >= c.DebounceFor(f) && !Failed(c, log[..i])
            && forall j | i <= j <= |log| :: DataDead(log[..j]))
  {
    TickExact(c, log, now, reporting);
    var f :| DeadOf(log, f)
      && (c.DebounceFor(f) <= 0
          || exists i: nat | i < |log| && log[i].Tick? :: FirstSoft(c, log, i) && now - log[i].now >= c.DebounceFor(f));
    if c.DebounceFor(f) > 0 {
      var i: nat :| i < |log| && log[i].Tick? && FirstSoft(c, log, i) && now - log[i].now >= c.DebounceFor(f);
      assert SoftWindow(c, log, i);
    }
  }

  /** Every un-failed tick from `i` on saw the quorum. */
  ghost predicate QuorumHeld(c: Config, log: seq<Event>, i: nat) {
    forall j | i <= j < |log| && log[j].Tick? && !Failed(c, log[..j]) ::
      Quorum(c, log[..j]) && c.Ready(log[j].now)
  }

  lemma WindowHeld(c: Config, log: seq<Event>, i: nat)
    requires HardWindow(c, log, i)
    ensures i < |log| && log[i].Tick? && !Failed(c, log[..i]) && QuorumHeld(c, log, i)
  {
  }

  lemma HardFireRipe(c: Config, log: seq<Event>, now: int, reporting: bool)
    requires c.quorum >= 1 && Replay(c, log).Some?
    requires Evaluate(c, Replay(c, log).value, now, reporting).fired == Some(HardQuorum)
    ensures HardRipe(c, log, now)
  {
    RecordAgrees(c, log);
    HardRipeExact(c, log, now);
  }

  /** A hard failover under a hold-down: every un-failed tick of a window at least that long
      saw the quorum, and so does this one. */
  lemma HardFireHeld(c: Config, log: seq<Event>, now: int, reporting: bool)
    requires c.quorum >= 1 && c.hardDebounce > 0
    requires Replay(c, log).Some? && !Replay(c, log).value.failed
    requires Evaluate(c, Replay(c, log).value, now, reporting).fired == Some(HardQuorum)
    ensures Quorum(c, log) && c.Ready(now)
    ensures exists i: nat | i < |log| && log[i].Tick? ::
      now - log[i].now >= c.hardDebounce && !Failed(c, log[..i]) && QuorumHeld(c, log, i)
  {
    HardFireRipe(c, log, now, reporting);
    var i: nat :| i < |log| && log[i].Tick? && FirstHard(c, log, i) && now - log[i].now >= c.hardDebounce;
    WindowHeld(c, log, i);
  }

  /** The clock readings of a log do not go back. */
  ghost predicate Monotone(log: seq<Event>) {
    forall i, j | 0 <= i < j < |log| && log[i] != Forget && log[j] != Forget :: log[i].now <= log[j].now
  }

  /** A failover for silence: the edge has reported since it was last forgotten, and every
      Alive or Heartbeat since then is older than the grace. */
  lemma StaleFireSilent(c: Config, log: seq<Event>, now: int, reporting: bool, k: nat)
    requires c.quorum >= 1 && Monotone(log)
    requires Replay(c, log).Some? && !Replay(c, log).value.failed
    requires Evaluate(c, Replay(c, log).value, now, reporting).fired == Some(HeartbeatStale)
    requires k < |log| && (log[k].Alive? || log[k].Heartbeat?)
    requires forall j | k < j < |log| :: log[j] != Forget
    ensures Reported(log) && reporting && now - log[k].now > c.grace > 0
  {
    StaleRipeExact(c, log, now, reporting);
    var t :| LastSeen(log, t) && now - t > c.grace;
    var i :| 0 <= i < |log| && SeenAt(t)(log[i]) && forall j | i < j < |log| :: !SeenAgain()(log[j]);
    assert SeenAgain()(log[k]);
  }

  // ---- failovers and revivals ----

  /** The tick at `i` fails the edge over. */
  ghost predicate FiresAt(c: Config, log: seq<Event>, i: nat) {
    i < |log| && log[i].Tick? && NewlyDead(c, log[..i], log[i].now, log[i].reporting)
  }

  /** The signal at `i` revives a failed-over edge. */
  ghost predicate RevivesAt(c: Config, log: seq<Event>, i: nat) {
    && i < |log| && Failed(c, log[..i])
    && (log[i].Alive?
        || (log[i].Heartbeat?
            && !(Quorum(c, log[..i + 1]) && c.Ready(log[i].now)) && !DataDead(log[..i + 1])))
  }

  lemma Toggles(c: Config, log: seq<Event>, i: nat)
    requires i < |log|
    ensures Failed(c, log[..i + 1]) <==>
      FiresAt(c, log, i) || (Failed(c, log[..i]) && !RevivesAt(c, log, i) && log[i] != Forget)
    ensures !(FiresAt(c, log, i) && Failed(c, log[..i]))
  {
    assert log[..i + 1][..i] == log[..i];
    assert log[..i + 1][i] == log[i];
  }

  /** Failed means: a failover since which nothing revived or forgot the edge. */
  lemma {:induction false} FailedMeans(c: Config, log: seq<Event>, n: nat)
    requires n <= |log|
    ensures Failed(c, log[..n]) <==>
      exists i: nat | i < n :: FiresAt(c, log, i) && Quiet(c, log, i + 1, n)
  {
    if n > 0 {
      FailedMeans(c, log, n - 1);
      Toggles(c, log, n - 1);
      if FiresAt(c, log, n - 1) {
        assert Quiet(c, log, n, n);
      } else if Failed(c, log[..n]) {
        var i: nat :| i < n - 1 && FiresAt(c, log, i) && Quiet(c, log, i + 1, n - 1);
        assert Quiet(c, log, i + 1, n);
      } else if i: nat :| i < n && FiresAt(c, log, i) && Quiet(c, log, i + 1, n) {
        assert Quiet(c, log, i + 1, n - 1);
      }
    }
  }

  /** No revival and no Forget from `i` up to `n`. */
  ghost predicate Quiet(c: Config, log: seq<Event>, i: nat, n: nat) {
    forall m: nat | i <= m < n && m < |log| :: !RevivesAt(c, log, m) && log[m] != Forget
  }

  /** Between two failovers the edge was revived or forgotten. */
  lemma FireThenFire(c: Config, log: seq<Event>, i: nat, j: nat)
    requires i < j && FiresAt(c, log, i) && FiresAt(c, log, j)
    ensures exists m: nat | i < m < j && m < |log| :: RevivesAt(c, log, m) || log[m] == Forget
  {
    FailedMeans(c, log, j);
    if Quiet(c, log, i + 1, j) {
      assert false;
    }
  }

  /** A revival follows a failover, with no Forget and no other revival between. */
  lemma ReviveNeedsFire(c: Config, log: seq<Event>, j: nat)
    requires RevivesAt(c, log, j)
    ensures exists i: nat | i < j :: FiresAt(c, log, i) && Quiet(c, log, i + 1, j)
  {
    FailedMeans(c, log, j);
  }

  /** So between two revivals there is a failover. */
  lemma ReviveThenRevive(c: Config, log: seq<Event>, i: nat, j: nat)
    requires i < j && RevivesAt(c, log, i) && RevivesAt(c, log, j)
    ensures exists m: nat | i < m < j :: FiresAt(c, log, m)
  {
    ReviveNeedsFire(c, log, j);
    var m: nat :| m < j && FiresAt(c, log, m) && Quiet(c, log, m + 1, j);
    assert m != i;
    assert m < i ==> !RevivesAt(c, log, i);
  }
}
