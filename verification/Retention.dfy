/**
 * What retention cleanup does to the alerts: nothing to brute-force detection when logins
 * arrive in time, and to first-use detection only what deleting every earlier login does.
 */
module Retention {
  import opened Common
  import D = Database
  import opened Alerts
  import opened AlertRuns

  // -- brute-force detection ---------------------------------------------------------------

  /** No event is older than retention minus the window before any earlier cleanup. */
  predicate Timely(cfg: Config, steps: seq<Step>) {
    forall i, j :: 0 <= i < j < |steps| && steps[i].Cleanup? && steps[j].Ingest?
      ==> steps[j].event.ts >= steps[i].now - (steps[i].days * D.SECONDS_PER_DAY - Window(cfg))
  }

  function FailedOnly(alerts: seq<D.AlertRow>): seq<D.AlertRow> {
    if alerts == [] then []
    else
      var r, rest := alerts[|alerts| - 1], FailedOnly(alerts[..|alerts| - 1]);
      if IsFailedKey(r.key) then rest + [r] else rest
  }

  lemma FailedOnlyPush(alerts: seq<D.AlertRow>, r: D.AlertRow)
    ensures FailedOnly(alerts + [r]) == if IsFailedKey(r.key) then FailedOnly(alerts) + [r] else FailedOnly(alerts)
  {
    assert (alerts + [r])[..|alerts|] == alerts;
  }

  lemma {:induction false} LastFailedAlert(alerts: seq<D.AlertRow>, key: string)
    requires IsFailedKey(key)
    ensures D.LastAlert(alerts, key) == D.LastAlert(FailedOnly(alerts), key)
  {
    if alerts != [] {
      var init, r := alerts[..|alerts| - 1], alerts[|alerts| - 1];
      LastFailedAlert(init, key);
      D.LastAlertPush(FailedOnly(init), r, key);
    }
  }

  lemma RaisedFailed(cfg: Config, a: seq<D.AlertRow>, b: seq<D.AlertRow>, key: string, clock: Clock)
    requires IsFailedKey(key) && FailedOnly(a) == FailedOnly(b)
    ensures FailedOnly(Raised(cfg, a, key, clock)) == FailedOnly(Raised(cfg, b, key, clock))
  {
    LastFailedAlert(a, key);
    LastFailedAlert(b, key);
    FailedOnlyPush(a, D.AlertRow(clock.fire, key));
    FailedOnlyPush(b, D.AlertRow(clock.fire, key));
  }

  lemma RaisedOther(cfg: Config, alerts: seq<D.AlertRow>, key: string, clock: Clock)
    requires !IsFailedKey(key)
    ensures FailedOnly(Raised(cfg, alerts, key, clock)) == FailedOnly(alerts)
  {
    FailedOnlyPush(alerts, D.AlertRow(clock.fire, key));
  }

  lemma {:induction false} DisksFailed(cfg: Config, alerts: seq<D.AlertRow>, disks: seq<Disk>, clocks: seq<Clock>)
    requires |clocks| == |disks|
    ensures FailedOnly(OnDisks(cfg, alerts, disks, clocks)) == FailedOnly(alerts)
    decreases |disks|
  {
    if disks != [] && cfg.enabled {
      var n := |disks| - 1;
      DisksFailed(cfg, alerts, disks[..n], clocks[..n]);
      KeysApart("", disks[n].mountpoint);
      RaisedOther(cfg, OnDisks(cfg, alerts, disks[..n], clocks[..n]), DISK_USAGE + disks[n].mountpoint, clocks[n]);
    }
  }

  /** Every window that starts at the latest cutoff or later counts what the whole log counts. */
  ghost predicate WindowsKept(s: State) {
    forall ip: string, since: int :: (s.cutoff.Some? ==> since >= s.cutoff.value)
      ==> D.CountFailed(s.login, ip, since) == D.CountFailed(s.all, ip, since)
  }

  /** What the brute-force rule does with a failure that has an address. */
  lemma FailureEvent(cfg: Config, login: seq<D.LoginRow>, alerts: seq<D.AlertRow>, e: D.LoginRow, clock: Clock)
    requires cfg.enabled && IsFailure(e.eventType) && Present(e.sourceIp)
    ensures OnEvent(cfg, login, alerts, e, clock) ==
      if D.CountFailed(login, e.sourceIp.value, e.ts - Window(cfg)) >= cfg.threshold
      then Raised(cfg, alerts, FAILED_LOGIN + e.sourceIp.value, clock) else alerts
  {
  }

  lemma SameWindowCount(s: State, e: D.LoginRow, ip: string, since: int)
    requires WindowsKept(s) && (s.cutoff.Some? ==> since >= s.cutoff.value)
    ensures D.CountFailed(s.login + [e], ip, since) == D.CountFailed(s.all + [e], ip, since)
  {
    D.CountFailedPush(s.login, e, ip, since);
    D.CountFailedPush(s.all, e, ip, since);
  }

  /** Both tables get the alert, or neither. */
  lemma BothFailed(cfg: Config, fires: bool, a: seq<D.AlertRow>, b: seq<D.AlertRow>, key: string, clock: Clock,
                   a': seq<D.AlertRow>, b': seq<D.AlertRow>)
    requires IsFailedKey(key) && FailedOnly(a) == FailedOnly(b)
    requires a' == (if fires then Raised(cfg, a, key, clock) else a)
    requires b' == (if fires then Raised(cfg, b, key, clock) else b)
    ensures FailedOnly(a') == FailedOnly(b')
  {
    if fires {
      RaisedFailed(cfg, a, b, key, clock);
    }
  }

  lemma FailureFailed(cfg: Config, s: State, e: D.LoginRow, clock: Clock)
    requires WindowsKept(s) && FailedOnly(s.alerts) == FailedOnly(s.allAlerts)
    requires s.cutoff.Some? ==> e.ts - Window(cfg) >= s.cutoff.value
    requires cfg.enabled && IsFailure(e.eventType) && Present(e.sourceIp)
    ensures FailedOnly(OnEvent(cfg, s.login + [e], s.alerts, e, clock))
         == FailedOnly(OnEvent(cfg, s.all + [e], s.allAlerts, e, clock))
  {
    var ip := e.sourceIp.value;
    var fires := D.CountFailed(s.login + [e], ip, e.ts - Window(cfg)) >= cfg.threshold;
    SameWindowCount(s, e, ip, e.ts - Window(cfg));
    FailureEvent(cfg, s.login + [e], s.alerts, e, clock);
    FailureEvent(cfg, s.all + [e], s.allAlerts, e, clock);
    PrefixKept(FAILED_LOGIN, ip, ip);
    BothFailed(cfg, fires, s.alerts, s.allAlerts, FAILED_LOGIN + ip, clock,
               OnEvent(cfg, s.login + [e], s.alerts, e, clock), OnEvent(cfg, s.all + [e], s.allAlerts, e, clock));
  }

  lemma NoFailureFailed(cfg: Config, login: seq<D.LoginRow>, alerts: seq<D.AlertRow>, e: D.LoginRow, clock: Clock)
    requires !(cfg.enabled && IsFailure(e.eventType) && Present(e.sourceIp))
    ensures FailedOnly(OnEvent(cfg, login, alerts, e, clock)) == FailedOnly(alerts)
  {
    if Triggered(cfg, login, e).Some? {
      KeysApart("", e.fingerprint.value);
      RaisedOther(cfg, alerts, NEW_KEY + e.fingerprint.value, clock);
    }
  }

  lemma EventFailed(cfg: Config, s: State, e: D.LoginRow, clock: Clock)
    requires WindowsKept(s) && FailedOnly(s.alerts) == FailedOnly(s.allAlerts)
    requires s.cutoff.Some? ==> e.ts - Window(cfg) >= s.cutoff.value
    ensures FailedOnly(OnEvent(cfg, s.login + [e], s.alerts, e, clock))
         == FailedOnly(OnEvent(cfg, s.all + [e], s.allAlerts, e, clock))
  {
    if cfg.enabled && IsFailure(e.eventType) && Present(e.sourceIp) {
      FailureFailed(cfg, s, e, clock);
    } else {
      NoFailureFailed(cfg, s.login + [e], s.alerts, e, clock);
      NoFailureFailed(cfg, s.all + [e], s.allAlerts, e, clock);
    }
  }

  lemma IngestKeepsWindows(s: State, e: D.LoginRow, next: State)
    requires WindowsKept(s) && next.login == s.login + [e] && next.all == s.all + [e] && next.cutoff == s.cutoff
    ensures WindowsKept(next)
  {
    forall ip: string, since: int | next.cutoff.Some? ==> since >= next.cutoff.value
      ensures D.CountFailed(next.login, ip, since) == D.CountFailed(next.all, ip, since)
    {
      D.CountFailedPush(s.login, e, ip, since);
      D.CountFailedPush(s.all, e, ip, since);
    }
  }

  lemma CleanupKeepsWindows(cfg: Config, s: State, step: Step)
    requires WindowsKept(s) && step.Cleanup?
    ensures WindowsKept(Next(cfg, s, step))
  {
    var next := Next(cfg, s, step);
    forall ip: string, since: int | next.cutoff.Some? ==> since >= next.cutoff.value
      ensures D.CountFailed(next.login, ip, since) == D.CountFailed(next.all, ip, since)
    {
      D.PrunedCount(s.login, CutoffOf(step), ip, since);
    }
  }

  /** The latest cutoff of a run is the cutoff of one of its cleanups. */
  lemma {:induction false} CutoffIsOneOfThem(cfg: Config, steps: seq<Step>)
    requires IsRun(steps)
    ensures After(cfg, steps).cutoff.Some? ==>
      exists i :: 0 <= i < |steps| && steps[i].Cleanup? && CutoffOf(steps[i]) == After(cfg, steps).cutoff.value
    decreases |steps|
  {
    if steps != [] {
      RunPrefix(steps);
      var init, last := steps[..|steps| - 1], steps[|steps| - 1];
      CutoffIsOneOfThem(cfg, init);
      if !last.Cleanup? && After(cfg, init).cutoff.Some? {
        var i :| 0 <= i < |init| && init[i].Cleanup? && CutoffOf(init[i]) == After(cfg, init).cutoff.value;
        assert steps[i] == init[i];
      } else if After(cfg, init).cutoff.Some? && CutoffOf(last) < After(cfg, init).cutoff.value {
        var i :| 0 <= i < |init| && init[i].Cleanup? && CutoffOf(init[i]) == After(cfg, init).cutoff.value;
        assert steps[i] == init[i];
      }
    }
  }

  lemma InTime(cfg: Config, steps: seq<Step>)
    requires IsRun(steps) && Timely(cfg, steps) && steps != [] && steps[|steps| - 1].Ingest?
    ensures IsRun(steps[..|steps| - 1])
    ensures var s := After(cfg, steps[..|steps| - 1]);
            s.cutoff.Some? ==> steps[|steps| - 1].event.ts - Window(cfg) >= s.cutoff.value
  {
    RunPrefix(steps);
    var init := steps[..|steps| - 1];
    CutoffIsOneOfThem(cfg, init);
    forall i | 0 <= i < |init| && init[i].Cleanup?
      ensures steps[|steps| - 1].event.ts - Window(cfg) >= CutoffOf(init[i])
    {
      assert steps[i] == init[i];
    }
  }

  /**
   * The pruned and the unpruned run raise the same brute-force alerts. It applies to every
   * prefix of a run as well, so the two stay in lockstep.
   */
  lemma {:induction false} RetentionIsInvisible(cfg: Config, steps: seq<Step>)
    requires IsRun(steps) && Timely(cfg, steps)
    ensures FailedOnly(After(cfg, steps).alerts) == FailedOnly(After(cfg, steps).allAlerts)
    ensures WindowsKept(After(cfg, steps))
    decreases |steps|
  {
    if steps != [] {
      RunPrefix(steps);
      var init, last := steps[..|steps| - 1], steps[|steps| - 1];
      assert forall i :: 0 <= i < |init| ==> init[i] == steps[i];
      RetentionIsInvisible(cfg, init);
      var s := After(cfg, init);
      match last
      case Ingest(e, clock) =>
        InTime(cfg, steps);
        EventFailed(cfg, s, e, clock);
        IngestKeepsWindows(s, e, Next(cfg, s, last));
      case Metrics(disks, clocks) =>
        DisksFailed(cfg, s.alerts, disks, clocks);
        DisksFailed(cfg, s.allAlerts, disks, clocks);
      case Cleanup(_, _) => CleanupKeepsWindows(cfg, s, last);
    }
  }

  /** Every login that a run ever inserted. */
  function Logins(steps: seq<Step>): seq<D.LoginRow> {
    if steps == [] then []
    else
      var before, last := Logins(steps[..|steps| - 1]), steps[|steps| - 1];
      if last.Ingest? then before + [last.event] else before
  }

  lemma {:induction false} AllAreLogins(cfg: Config, steps: seq<Step>)
    requires IsRun(steps)
    ensures After(cfg, steps).all == Logins(steps)
    decreases |steps|
  {
    if steps != [] {
      RunPrefix(steps);
      AllAreLogins(cfg, steps[..|steps| - 1]);
    }
  }

  /** Some alert with this key is new or younger than the cooldown. */
  ghost predicate FreshAlert(cfg: Config, alerts: seq<D.AlertRow>, key: string, clock: Clock) {
    exists r :: r in alerts && r.key == key && (r.ts == clock.fire || clock.check - r.ts < cfg.cooldownMinutes * 60)
  }

  lemma TimelyPrefix(cfg: Config, before: seq<Step>, step: Step)
    requires Timely(cfg, before + [step])
    ensures Timely(cfg, before)
  {
    var steps := before + [step];
    assert forall i :: 0 <= i < |before| ==> steps[i] == before[i];
  }

  lemma InTimeAfter(cfg: Config, before: seq<Step>, e: D.LoginRow, clock: Clock)
    requires IsRun(before) && Timely(cfg, before + [Ingest(e, clock)])
    ensures After(cfg, before).cutoff.Some? ==> e.ts - Window(cfg) >= After(cfg, before).cutoff.value
  {
    var steps := before + [Ingest(e, clock)];
    assert steps[..|steps| - 1] == before;
    InTime(cfg, steps);
  }

  lemma ReportedAt(cfg: Config, s: State, e: D.LoginRow, clock: Clock)
    requires WindowsKept(s) && (s.cutoff.Some? ==> e.ts - Window(cfg) >= s.cutoff.value)
    requires cfg.enabled && IsFailure(e.eventType) && Present(e.sourceIp) && clock.check <= clock.fire
    requires D.CountFailed(s.all + [e], e.sourceIp.value, e.ts - Window(cfg)) >= cfg.threshold
    ensures FreshAlert(cfg, OnEvent(cfg, s.login + [e], s.alerts, e, clock), FAILED_LOGIN + e.sourceIp.value, clock)
  {
    SameWindowCount(s, e, e.sourceIp.value, e.ts - Window(cfg));
    FailureEvent(cfg, s.login + [e], s.alerts, e, clock);
    AlertIsFresh(cfg, s.alerts, FAILED_LOGIN + e.sourceIp.value, clock);
  }

  /** The step ingests a failure that makes up the threshold among all those ever logged. */
  predicate IsLastStraw(cfg: Config, steps: seq<Step>, e: D.LoginRow, ip: string) {
    && IsFailure(e.eventType) && e.sourceIp == Some(ip) && ip != ""
    && D.CountFailed(Logins(steps), ip, e.ts - cfg.windowMinutes * 60) >= cfg.threshold
  }

  lemma LastStrawRaises(cfg: Config, before: seq<Step>, e: D.LoginRow, clock: Clock, ip: string)
    requires IsRun(before) && Timely(cfg, before + [Ingest(e, clock)]) && cfg.enabled && clock.check <= clock.fire
    requires IsFailure(e.eventType) && e.sourceIp == Some(ip) && ip != ""
    requires D.CountFailed(Logins(before) + [e], ip, e.ts - Window(cfg)) >= cfg.threshold
    ensures FreshAlert(cfg, Next(cfg, After(cfg, before), Ingest(e, clock)).alerts, FAILED_LOGIN + ip, clock)
  {
    TimelyPrefix(cfg, before, Ingest(e, clock));
    RetentionIsInvisible(cfg, before);
    InTimeAfter(cfg, before, e, clock);
    AllAreLogins(cfg, before);
    ReportedAt(cfg, After(cfg, before), e, clock);
  }

  lemma LastStrawIsReported(cfg: Config, steps: seq<Step>, e: D.LoginRow, clock: Clock, ip: string)
    requires steps != [] && steps[|steps| - 1] == Ingest(e, clock) && IsRun(steps) && Timely(cfg, steps) && cfg.enabled
    requires IsLastStraw(cfg, steps, e, ip) && clock.check <= clock.fire
    ensures FreshAlert(cfg, After(cfg, steps).alerts, "failed_login:" + ip, clock)
  {
    var before := steps[..|steps| - 1];
    assert before + [Ingest(e, clock)] == steps;
    RunPrefix(steps);
    LastStrawRaises(cfg, before, e, clock, ip);
  }

  /**
   * However the table is pruned: when a failure makes up the threshold among all failures ever
   * logged from its address in the window, an alert for the address is there and is fresh.
   */
  lemma BruteForceIsReported(cfg: Config, steps: seq<Step>, e: D.LoginRow, clock: Clock, ip: string)
    requires steps != [] && steps[|steps| - 1] == Ingest(e, clock) && IsRun(steps) && Timely(cfg, steps) && cfg.enabled
    requires e.eventType == "failed_publickey" || e.eventType == "invalid_user" || e.eventType == "failed_other"
    requires e.sourceIp == Some(ip) && ip != "" && clock.check <= clock.fire
    requires |D.FailuresAt(Logins(steps), ip, e.ts - cfg.windowMinutes * 60)| >= cfg.threshold
    ensures FreshAlert(cfg, After(cfg, steps).alerts, "failed_login:" + ip, clock)
  {
    D.CountFailedIsNumber(Logins(steps), ip, e.ts - cfg.windowMinutes * 60);
    assert IsLastStraw(cfg, steps, e, ip);
    LastStrawIsReported(cfg, steps, e, clock, ip);
  }

  /**
   * A `failed_other` event starts the check but is not counted: it raises an alert exactly
   * when the failures before it already reach the threshold.
   */
  lemma OtherFailureIsNotCounted(cfg: Config, login: seq<D.LoginRow>, e: D.LoginRow)
    requires e.eventType == "failed_other" && cfg.enabled
    ensures Triggered(cfg, login + [e], e).Some?
       <==> Present(e.sourceIp) && D.CountFailed(login, e.sourceIp.value, e.ts - Window(cfg)) >= cfg.threshold
  {
    if Present(e.sourceIp) {
      D.CountFailedPush(login, e, e.sourceIp.value, e.ts - Window(cfg));
    }
  }

  /** No login of the run is a counted failure from the address, whatever the window. */
  predicate Uncounted(steps: seq<Step>, ip: string) {
    forall i :: 0 <= i < |steps| && steps[i].Ingest?
      ==> !D.IsCountedFailure(steps[i].event, ip, steps[i].event.ts)
  }

  lemma {:induction false} DisksAddNoFailedKey(cfg: Config, alerts: seq<D.AlertRow>, disks: seq<Disk>,
                                               clocks: seq<Clock>, ip: string)
    requires |clocks| == |disks|
    ensures WithKey(OnDisks(cfg, alerts, disks, clocks), FAILED_LOGIN + ip) == WithKey(alerts, FAILED_LOGIN + ip)
    decreases |disks|
  {
    if disks != [] && cfg.enabled {
      var n := |disks| - 1;
      DisksAddNoFailedKey(cfg, alerts, disks[..n], clocks[..n], ip);
      var before := OnDisks(cfg, alerts, disks[..n], clocks[..n]);
      KeysApart(ip, disks[n].mountpoint);
      KeysAreIndependent(cfg, before, before, DISK_USAGE + disks[n].mountpoint, clocks[n]);
    }
  }

  /** No login in the table counts against the address. */
  ghost predicate NoneCounted(login: seq<D.LoginRow>, ip: string) {
    forall r, since :: r in login ==> !D.IsCountedFailure(r, ip, since)
  }

  lemma NoneCountedPush(login: seq<D.LoginRow>, e: D.LoginRow, ip: string)
    requires NoneCounted(login, ip) && !D.IsCountedFailure(e, ip, e.ts)
    ensures NoneCounted(login + [e], ip)
  {
    forall r, since | r in login + [e] ensures !D.IsCountedFailure(r, ip, since) {
      assert r in login || r == e;
    }
  }

  lemma NoneCountedPruned(login: seq<D.LoginRow>, cutoff: int, ip: string)
    requires NoneCounted(login, ip)
    ensures NoneCounted(D.Pruned(login, cutoff), ip)
  {
    D.PrunedRows(login, cutoff);
  }

  lemma EventRaisesNothing(cfg: Config, login: seq<D.LoginRow>, alerts: seq<D.AlertRow>, e: D.LoginRow, clock: Clock,
                           ip: string)
    requires NoneCounted(login, ip) && cfg.threshold >= 1
    ensures WithKey(OnEvent(cfg, login, alerts, e, clock), FAILED_LOGIN + ip) == WithKey(alerts, FAILED_LOGIN + ip)
  {
    D.CountFailedZero(login, ip, e.ts - Window(cfg));
    if Triggered(cfg, login, e) == Some(FAILED_LOGIN + ip) {
      FailedKeyNeedsCount(cfg, login, e, ip);
    }
    EventKeepsOtherKeys(cfg, login, alerts, e, clock, FAILED_LOGIN + ip);
  }

  lemma StepRaisesNothing(cfg: Config, s: State, step: Step, ip: string)
    requires WellFormed(step) && cfg.threshold >= 1
    requires NoneCounted(s.login, ip) && (step.Ingest? ==> !D.IsCountedFailure(step.event, ip, step.event.ts))
    ensures NoneCounted(Next(cfg, s, step).login, ip)
    ensures WithKey(Next(cfg, s, step).alerts, FAILED_LOGIN + ip) == WithKey(s.alerts, FAILED_LOGIN + ip)
  {
    match step
    case Ingest(e, clock) =>
      NoneCountedPush(s.login, e, ip);
      EventRaisesNothing(cfg, s.login + [e], s.alerts, e, clock, ip);
    case Metrics(disks, clocks) => DisksAddNoFailedKey(cfg, s.alerts, disks, clocks, ip);
    case Cleanup(_, _) => NoneCountedPruned(s.login, CutoffOf(step), ip);
  }

  lemma UncountedPrefix(steps: seq<Step>, ip: string)
    requires Uncounted(steps, ip) && steps != []
    ensures Uncounted(steps[..|steps| - 1], ip)
  {
    var init := steps[..|steps| - 1];
    forall i | 0 <= i < |init| && init[i].Ingest? ensures !D.IsCountedFailure(init[i].event, ip, init[i].event.ts) {
      assert init[i] == steps[i];
    }
  }

  /** However many uncounted failures an address makes, they alone never raise its alert. */
  lemma {:induction false} UncountedFailuresRaiseNothing(cfg: Config, steps: seq<Step>, ip: string)
    requires IsRun(steps) && Uncounted(steps, ip) && cfg.threshold >= 1
    ensures WithKey(After(cfg, steps).alerts, FAILED_LOGIN + ip) == []
    ensures NoneCounted(After(cfg, steps).login, ip)
    decreases |steps|
  {
    if steps != [] {
      RunPrefix(steps);
      UncountedPrefix(steps, ip);
      var init := steps[..|steps| - 1];
      UncountedFailuresRaiseNothing(cfg, init, ip);
      StepRaisesNothing(cfg, After(cfg, init), steps[|steps| - 1], ip);
    }
  }

  lemma FailedKeyNeedsCount(cfg: Config, login: seq<D.LoginRow>, e: D.LoginRow, ip: string)
    requires Triggered(cfg, login, e) == Some(FAILED_LOGIN + ip)
    ensures D.CountFailed(login, ip, e.ts - Window(cfg)) >= cfg.threshold
  {
    if IsFailure(e.eventType) {
      KeysApart(ip, e.sourceIp.value);
    } else {
      KeysApart(ip, e.fingerprint.value);
    }
  }

  // -- first-use detection -----------------------------------------------------------------

  predicate AcceptedAt(steps: seq<Step>, i: int, f: string) {
    0 <= i < |steps| && steps[i].Ingest? && D.IsAccepted(steps[i].event, f)
  }

  /** Login times with one key strictly increase. */
  ghost predicate Increasing(steps: seq<Step>, f: string) {
    forall i, j :: i < j && AcceptedAt(steps, i, f) && AcceptedAt(steps, j, f)
      ==> steps[i].event.ts < steps[j].event.ts
  }

  /** Some cleanup between two steps deletes the login of the first. */
  predicate DeletedBetween(steps: seq<Step>, i: int, j: int)
    requires 0 <= i < |steps| && j <= |steps| && steps[i].Ingest?
  {
    exists k :: i < k < j && steps[k].Cleanup? && CutoffOf(steps[k]) > steps[i].event.ts
  }

  lemma RunTo(cfg: Config, steps: seq<Step>, n: nat)
    requires IsRun(steps) && n < |steps|
    ensures IsRun(steps[..n]) && IsRun(steps[..n + 1]) && WellFormed(steps[n])
    ensures After(cfg, steps[..n + 1]) == Next(cfg, After(cfg, steps[..n]), steps[n])
  {
    assert steps[..n + 1][..n] == steps[..n] && steps[..n + 1][n] == steps[n];
    assert steps[n] in steps;
  }

  lemma LoginStays(cfg: Config, s: State, step: Step, r: D.LoginRow)
    requires WellFormed(step) && r in s.login && (step.Cleanup? ==> CutoffOf(step) <= r.ts)
    ensures r in Next(cfg, s, step).login
  {
    if step.Cleanup? {
      D.PrunedRows(s.login, CutoffOf(step));
    }
  }

  /** A login is in the table until a cleanup deletes it. */
  lemma {:induction false} KeptUntilDeleted(cfg: Config, steps: seq<Step>, i: int, n: int)
    requires IsRun(steps) && 0 <= i < n <= |steps| && steps[i].Ingest? && !DeletedBetween(steps, i, n)
    ensures IsRun(steps[..n]) && steps[i].event in After(cfg, steps[..n]).login
    decreases n
  {
    RunTo(cfg, steps, n - 1);
    if i < n - 1 {
      KeptUntilDeleted(cfg, steps, i, n - 1);
      LoginStays(cfg, After(cfg, steps[..n - 1]), steps[n - 1], steps[i].event);
    }
  }

  /** The rule raises an alert for a key only on an accepted login with it. */
  lemma NewKeyNeedsLogin(cfg: Config, login: seq<D.LoginRow>, e: D.LoginRow, f: string)
    requires Triggered(cfg, login, e) == Some(NEW_KEY + f)
    ensures D.IsAccepted(e, f) && D.CountAccepted(login, f, e.ts) == 0
  {
    if IsFailure(e.eventType) {
      KeysApart(e.sourceIp.value, f);
    } else {
      KeysApart(e.fingerprint.value, f);
    }
  }

  lemma EventKeepsOtherKeys(cfg: Config, login: seq<D.LoginRow>, alerts: seq<D.AlertRow>, e: D.LoginRow, clock: Clock,
                            key: string)
    requires Triggered(cfg, login, e) != Some(key)
    ensures WithKey(OnEvent(cfg, login, alerts, e, clock), key) == WithKey(alerts, key)
  {
    match Triggered(cfg, login, e)
    case None =>
    case Some(other) => KeysAreIndependent(cfg, alerts, alerts, other, clock);
  }

  lemma {:induction false} DisksKeepNewKeys(cfg: Config, alerts: seq<D.AlertRow>, disks: seq<Disk>, clocks: seq<Clock>,
                                            f: string)
    requires |clocks| == |disks|
    ensures WithKey(OnDisks(cfg, alerts, disks, clocks), NEW_KEY + f) == WithKey(alerts, NEW_KEY + f)
    decreases |disks|
  {
    if disks != [] && cfg.enabled {
      var n := |disks| - 1;
      DisksKeepNewKeys(cfg, alerts, disks[..n], clocks[..n], f);
      var before := OnDisks(cfg, alerts, disks[..n], clocks[..n]);
      HeadsApart(DISK_USAGE, disks[n].mountpoint, NEW_KEY, f);
      KeysAreIndependent(cfg, before, before, DISK_USAGE + disks[n].mountpoint, clocks[n]);
    }
  }

  /** The alerts of the first-use rule for one key after the first `n` steps. */
  function NewKeyAlerts(cfg: Config, steps: seq<Step>, n: nat, f: string): seq<D.AlertRow>
    requires IsRun(steps) && n <= |steps|
  {
    WithKey(After(cfg, steps[..n]).alerts, NEW_KEY + f)
  }

  lemma AfterStep(cfg: Config, steps: seq<Step>, n: nat)
    requires IsRun(steps) && n < |steps|
    ensures WellFormed(steps[n]) && After(cfg, steps[..n + 1]) == Next(cfg, After(cfg, steps[..n]), steps[n])
  {
    assert steps[n] in steps;
    assert steps[..n + 1][..n] == steps[..n] && steps[..n + 1][n] == steps[n];
  }

  /** A step that changes these alerts is an accepted login that the table knows no earlier use of. */
  lemma RaisedByLogin(cfg: Config, steps: seq<Step>, n: nat, f: string)
    requires IsRun(steps) && n < |steps|
    requires NewKeyAlerts(cfg, steps, n + 1, f) != NewKeyAlerts(cfg, steps, n, f)
    ensures AcceptedAt(steps, n, f)
    ensures D.CountAccepted(After(cfg, steps[..n]).login + [steps[n].event], f, steps[n].event.ts) == 0
  {
    AfterStep(cfg, steps, n);
    var s := After(cfg, steps[..n]);
    match steps[n]
    case Ingest(e, clock) =>
      if Triggered(cfg, s.login + [e], e) != Some(NEW_KEY + f) {
        EventKeepsOtherKeys(cfg, s.login + [e], s.alerts, e, clock, NEW_KEY + f);
      } else {
        NewKeyNeedsLogin(cfg, s.login + [e], e, f);
      }
    case Metrics(disks, clocks) => DisksKeepNewKeys(cfg, s.alerts, disks, clocks, f);
    case Cleanup(_, _) =>
  }

  /**
   * An alert after an earlier login with the same key is possible only when a cleanup in
   * between deleted that login, which was then older than the retention period.
   */
  lemma SecondAlertNeedsDeletion(cfg: Config, steps: seq<Step>, i: int, j: int, f: string)
    requires IsRun(steps) && Increasing(steps, f) && 0 <= i < j < |steps| && AcceptedAt(steps, i, f)
    requires NewKeyAlerts(cfg, steps, j + 1, f) != NewKeyAlerts(cfg, steps, j, f)
    ensures AcceptedAt(steps, j, f) && DeletedBetween(steps, i, j)
  {
    RaisedByLogin(cfg, steps, j, f);
    var login, e := After(cfg, steps[..j]).login, steps[j].event;
    D.CountAcceptedZero(login + [e], f, e.ts);
    if !DeletedBetween(steps, i, j) {
      KeptUntilDeleted(cfg, steps, i, j);
    }
  }

  /** The alert at the first accepted login with the key among the first `n` steps, if any. */
  function FirstUse(steps: seq<Step>, n: nat, f: string): seq<D.AlertRow>
    requires n <= |steps|
  {
    if n == 0 then []
    else if FirstUse(steps, n - 1, f) != [] then FirstUse(steps, n - 1, f)
    else if AcceptedAt(steps, n - 1, f) then [D.AlertRow(steps[n - 1].clock.fire, NEW_KEY + f)]
    else []
  }

  lemma {:induction false} FirstUseFound(steps: seq<Step>, n: nat, f: string)
    requires n <= |steps|
    ensures FirstUse(steps, n, f) != [] <==> exists i :: 0 <= i < n && AcceptedAt(steps, i, f)
  {
    if n > 0 {
      FirstUseFound(steps, n - 1, f);
    }
  }

  predicate IsEventOf(steps: seq<Step>, n: nat, r: D.LoginRow)
    requires n <= |steps|
  {
    exists i :: 0 <= i < n && steps[i].Ingest? && steps[i].event == r
  }

  /** Every login in the table is that of an earlier step. */
  lemma {:induction false} LoginsAreEvents(cfg: Config, steps: seq<Step>, n: nat, r: D.LoginRow)
    requires IsRun(steps) && n <= |steps| && r in After(cfg, steps[..n]).login
    ensures IsEventOf(steps, n, r)
  {
    if n > 0 {
      AfterStep(cfg, steps, n - 1);
      var before := After(cfg, steps[..n - 1]).login;
      if steps[n - 1].Cleanup? {
        D.PrunedRows(before, CutoffOf(steps[n - 1]));
      }
      if r in before {
        LoginsAreEvents(cfg, steps, n - 1, r);
      }
    }
  }

  lemma NoEarlierUse(cfg: Config, steps: seq<Step>, n: nat, f: string)
    requires IsRun(steps) && n <= |steps| && FirstUse(steps, n, f) == []
    ensures forall r :: r in After(cfg, steps[..n]).login ==> !D.IsAccepted(r, f)
  {
    FirstUseFound(steps, n, f);
    forall r | r in After(cfg, steps[..n]).login ensures !D.IsAccepted(r, f) {
      LoginsAreEvents(cfg, steps, n, r);
      var i :| 0 <= i < n && steps[i].Ingest? && steps[i].event == r;
      assert !AcceptedAt(steps, i, f);
    }
  }

  lemma FirstLoginTriggers(cfg: Config, login: seq<D.LoginRow>, e: D.LoginRow, f: string)
    requires cfg.enabled && cfg.alertOnNewKey && f != "" && D.IsAccepted(e, f)
    requires forall r :: r in login ==> !D.IsAccepted(r, f)
    ensures Triggered(cfg, login + [e], e) == Some(NEW_KEY + f)
  {
    D.CountAcceptedZero(login + [e], f, e.ts);
  }

  lemma FirstAlert(cfg: Config, alerts: seq<D.AlertRow>, key: string, clock: Clock)
    requires WithKey(alerts, key) == []
    ensures WithKey(Raised(cfg, alerts, key, clock), key) == [D.AlertRow(clock.fire, key)]
  {
    LastAlertWithKey(alerts, key);
    WithKeyPush(alerts, D.AlertRow(clock.fire, key), key);
  }

  lemma FirstLoginRaises(cfg: Config, steps: seq<Step>, n: nat, f: string)
    requires IsRun(steps) && cfg.enabled && cfg.alertOnNewKey && f != ""
    requires n < |steps| && AcceptedAt(steps, n, f) && FirstUse(steps, n, f) == []
    requires NewKeyAlerts(cfg, steps, n, f) == []
    ensures NewKeyAlerts(cfg, steps, n + 1, f) == [D.AlertRow(steps[n].clock.fire, NEW_KEY + f)]
  {
    AfterStep(cfg, steps, n);
    NoEarlierUse(cfg, steps, n, f);
    var s := After(cfg, steps[..n]);
    FirstLoginTriggers(cfg, s.login, steps[n].event, f);
    FirstAlert(cfg, s.alerts, NEW_KEY + f, steps[n].clock);
  }

  lemma LaterLoginIsSilent(cfg: Config, steps: seq<Step>, n: nat, f: string)
    requires IsRun(steps) && Increasing(steps, f) && n < |steps|
    requires AcceptedAt(steps, n, f) ==> FirstUse(steps, n, f) != []
    requires forall i :: AcceptedAt(steps, i, f) ==> !DeletedBetween(steps, i, n)
    ensures NewKeyAlerts(cfg, steps, n + 1, f) == NewKeyAlerts(cfg, steps, n, f)
  {
    if NewKeyAlerts(cfg, steps, n + 1, f) != NewKeyAlerts(cfg, steps, n, f) {
      RaisedByLogin(cfg, steps, n, f);
      FirstUseFound(steps, n, f);
      var i :| 0 <= i < n && AcceptedAt(steps, i, f);
      SecondAlertNeedsDeletion(cfg, steps, i, n, f);
    }
  }

  /** While no login with the key is deleted, its only alert is the one at its first login. */
  lemma {:induction false} AlertedOnceAtFirstUse(cfg: Config, steps: seq<Step>, n: nat, f: string)
    requires IsRun(steps) && Increasing(steps, f) && n <= |steps|
    requires cfg.enabled && cfg.alertOnNewKey && f != ""
    requires forall i :: AcceptedAt(steps, i, f) ==> !DeletedBetween(steps, i, n)
    ensures NewKeyAlerts(cfg, steps, n, f) == FirstUse(steps, n, f)
  {
    if n > 0 {
      AlertedOnceAtFirstUse(cfg, steps, n - 1, f);
      if AcceptedAt(steps, n - 1, f) && FirstUse(steps, n - 1, f) == [] {
        FirstLoginRaises(cfg, steps, n - 1, f);
      } else {
        LaterLoginIsSilent(cfg, steps, n - 1, f);
      }
    }
  }
}
