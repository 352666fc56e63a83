/**
 * The alert rules in the terms of the tables: which rows an event or a disk must meet for an
 * alert, and the alerts that the daemon raises for the messages that sshd prints.
 */
module AlertRules {
  import opened Common
  import D = Database
  import opened Alerts
  import opened AlertRuns
  import opened Retention
  import opened SshdMessages
  import opened SshdRoundTrip

  // -- the three rules ---------------------------------------------------------------------

  /** No alert with this key is younger than the cooldown. */
  ghost predicate CooledDown(cfg: Config, alerts: seq<D.AlertRow>, key: string, now: int) {
    forall r :: r in alerts && r.key == key ==> now - r.ts >= cfg.cooldownMinutes * 60
  }

  lemma CooldownRule(cfg: Config, alerts: seq<D.AlertRow>, key: string, clock: Clock)
    ensures Raised(cfg, alerts, key, clock)
         == if CooledDown(cfg, alerts, key, clock.check) then alerts + [D.AlertRow(clock.fire, key)] else alerts
  {
    D.LastAlertIsGreatest(alerts, key);
    var last := D.LastAlert(alerts, key);
    if last.Some? {
      assert D.AlertRow(last.value, key) in alerts;
    }
  }

  predicate IsFailedType(eventType: string) {
    eventType == "failed_publickey" || eventType == "invalid_user" || eventType == "failed_other"
  }

  /**
   * Any failure from an address with enough public-key failures and unknown users in the
   * window raises an alert for the address, unless one is younger than the cooldown.
   */
  lemma FailedLoginRule(cfg: Config, login: seq<D.LoginRow>, alerts: seq<D.AlertRow>, e: D.LoginRow, clock: Clock,
                        ip: string)
    requires e.eventType == "failed_publickey" || e.eventType == "invalid_user" || e.eventType == "failed_other"
    requires e.sourceIp == Some(ip)
    ensures OnEvent(cfg, login, alerts, e, clock)
         == if && cfg.enabled && ip != ""
               && |D.FailuresAt(login, ip, e.ts - cfg.windowMinutes * 60)| >= cfg.threshold
               && CooledDown(cfg, alerts, "failed_login:" + ip, clock.check)
            then alerts + [D.AlertRow(clock.fire, "failed_login:" + ip)] else alerts
  {
    D.CountFailedIsNumber(login, ip, e.ts - cfg.windowMinutes * 60);
    CooldownRule(cfg, alerts, "failed_login:" + ip, clock);
  }

  /** An accepted key raises an alert if no row shows an earlier use of it. */
  lemma NewKeyRule(cfg: Config, login: seq<D.LoginRow>, alerts: seq<D.AlertRow>, e: D.LoginRow, clock: Clock, f: string)
    requires e.eventType == "accepted_publickey" && e.fingerprint == Some(f)
    ensures OnEvent(cfg, login, alerts, e, clock)
         == if && cfg.enabled && cfg.alertOnNewKey && f != ""
               && (forall r :: r in login && r.fingerprint == Some(f) && r.eventType == "accepted_publickey"
                     ==> r.ts >= e.ts)
               && CooledDown(cfg, alerts, "new_key:" + f, clock.check)
            then alerts + [D.AlertRow(clock.fire, "new_key:" + f)] else alerts
  {
    D.CountAcceptedZero(login, f, e.ts);
    assert forall r :: D.IsAccepted(r, f) <==> r.fingerprint == Some(f) && r.eventType == "accepted_publickey";
    CooldownRule(cfg, alerts, "new_key:" + f, clock);
  }

  /** Other events, and failures without an address, raise nothing. */
  lemma OtherEvents(cfg: Config, login: seq<D.LoginRow>, alerts: seq<D.AlertRow>, e: D.LoginRow, clock: Clock)
    requires e.eventType == "accepted_publickey" ==> e.fingerprint.None?
    requires IsFailedType(e.eventType) ==> e.sourceIp.None?
    ensures OnEvent(cfg, login, alerts, e, clock) == alerts
  {
  }

  /** A disk at or over the threshold raises an alert for it, after those of the disks before. */
  lemma DiskRule(cfg: Config, alerts: seq<D.AlertRow>, disks: seq<Disk>, clocks: seq<Clock>, d: Disk, clock: Clock)
    requires |clocks| == |disks|
    ensures var before := OnDisks(cfg, alerts, disks, clocks);
         OnDisks(cfg, alerts, disks + [d], clocks + [clock])
         == if && cfg.enabled && d.percent >= cfg.diskThreshold
               && CooledDown(cfg, before, "disk_usage:" + d.mountpoint, clock.check)
            then before + [D.AlertRow(clock.fire, "disk_usage:" + d.mountpoint)] else before
  {
    assert (disks + [d])[..|disks|] == disks && (clocks + [clock])[..|clocks|] == clocks;
    var before := OnDisks(cfg, alerts, disks, clocks);
    CooldownRule(cfg, before, "disk_usage:" + d.mountpoint, clock);
  }

  // -- what the run would be without cleanup -------------------------------------------------

  function WithoutCleanup(steps: seq<Step>): (r: seq<Step>)
    ensures IsRun(steps) ==> IsRun(r)
  {
    if steps == [] then []
    else
      var before, last := WithoutCleanup(steps[..|steps| - 1]), steps[|steps| - 1];
      assert IsRun(steps) ==> IsRun(steps[..|steps| - 1]) && last in steps;
      if last.Cleanup? then before else before + [last]
  }

  /** `all` and `allAlerts` are the tables of the run that leaves out the cleanups. */
  lemma {:induction false} AllIsWithoutCleanup(cfg: Config, steps: seq<Step>)
    requires IsRun(steps)
    ensures var s, t := After(cfg, steps), After(cfg, WithoutCleanup(steps));
      s.all == t.login && s.allAlerts == t.alerts
    decreases |steps|
  {
    if steps != [] {
      RunPrefix(steps);
      var init, last := steps[..|steps| - 1], steps[|steps| - 1];
      AllIsWithoutCleanup(cfg, init);
      if !last.Cleanup? {
        assert WithoutCleanup(steps)[..|WithoutCleanup(init)|] == WithoutCleanup(init);
      }
    }
  }

  // -- from the messages of sshd to the alerts -------------------------------------------------

  /** The row that the ingest writes for a message, if it is one of sshd's. */
  function RowFor(ts: int, message: string): Option<D.LoginRow> {
    match ParseSshdMessage(message)
    case None => None
    case Some(event) => Some(D.LoginRow(ts, event.eventType, event.sourceIp, event.fingerprint))
  }

  /** The step in which a message is ingested as sshd printed it. */
  ghost predicate Logs(step: Step, m: Message) {
    IsMessage(m) && step.Ingest? && RowFor(step.event.ts, Print(m)) == Some(step.event)
  }

  /** A failed login with a public key, or one as an unknown user, from this address. */
  predicate IsAttack(m: Message, ip: string) {
    m.ip == ip && (m.form.InvalidUser? || (m.form.Failed? && m.form.how == PublicKey))
  }

  /** The messages that are ingested at some of the steps. */
  ghost predicate Logged(steps: seq<Step>, messages: map<nat, Message>) {
    && (forall i :: i in messages ==> i < |steps| && steps[i].Ingest?)
    && (forall i {:trigger Logs(steps[i], messages[i])} :: i in messages && i < |steps| ==> Logs(steps[i], messages[i]))
  }

  /** The attacks from an address among them, at `since` or later. */
  function Attacks(steps: seq<Step>, messages: map<nat, Message>, ip: string, since: int): set<nat>
    requires Logged(steps, messages)
  {
    set i | i in messages && IsAttack(messages[i], ip) && steps[i].event.ts >= since
  }

  lemma AttackCounts(steps: seq<Step>, messages: map<nat, Message>, ip: string, since: int, i: nat)
    requires Logged(steps, messages) && i in Attacks(steps, messages, ip, since)
    ensures D.IsCountedFailure(steps[i].event, ip, since)
  {
    assert Logs(steps[i], messages[i]);
    ParsePrint(messages[i]);
  }

  lemma FailureStarts(steps: seq<Step>, messages: map<nat, Message>, i: nat)
    requires Logged(steps, messages) && i in messages && (messages[i].form.Failed? || messages[i].form.InvalidUser?)
    ensures IsFailure(steps[i].event.eventType) && steps[i].event.sourceIp == Some(messages[i].ip)
      && messages[i].ip != ""
  {
    assert Logs(steps[i], messages[i]);
    ParsePrint(messages[i]);
  }

  predicate AreCounted(steps: seq<Step>, at: set<nat>, ip: string, since: int) {
    forall i :: i in at ==> i < |steps| && steps[i].Ingest? && D.IsCountedFailure(steps[i].event, ip, since)
  }

  lemma CountedEarlier(steps: seq<Step>, at: set<nat>, n: nat, ip: string, since: int)
    requires AreCounted(steps, at, ip, since) && |steps| == n + 1
    ensures AreCounted(steps[..n], at - {n}, ip, since)
  {
    forall i | i in at - {n} ensures i < n && steps[..n][i] == steps[i] {
    }
  }

  lemma {:induction false} CountedAtLeast(steps: seq<Step>, at: set<nat>, ip: string, since: int)
    requires AreCounted(steps, at, ip, since)
    ensures D.CountFailed(Logins(steps), ip, since) >= |at|
    decreases |steps|
  {
    if steps == [] {
      assert at == {};
    } else {
      var n := |steps| - 1;
      CountedEarlier(steps, at, n, ip, since);
      CountedAtLeast(steps[..n], at - {n}, ip, since);
      if steps[n].Ingest? {
        D.CountFailedPush(Logins(steps[..n]), steps[n].event, ip, since);
      }
      assert n in at ==> at == at - {n} + {n};
      assert n !in at ==> at == at - {n};
    }
  }

  lemma AttacksCount(steps: seq<Step>, messages: map<nat, Message>, ip: string, since: int)
    requires Logged(steps, messages)
    ensures D.CountFailed(Logins(steps), ip, since) >= |Attacks(steps, messages, ip, since)|
  {
    var at := Attacks(steps, messages, ip, since);
    forall i | i in at ensures D.IsCountedFailure(steps[i].event, ip, since) {
      AttackCounts(steps, messages, ip, since, i);
    }
    CountedAtLeast(steps, at, ip, since);
  }

  lemma AttackIsLastStraw(cfg: Config, steps: seq<Step>, messages: map<nat, Message>, last: nat)
    requires |steps| == last + 1 && Logged(steps, messages) && last in messages
    requires messages[last].form.Failed? || messages[last].form.InvalidUser?
    requires var since := steps[last].event.ts - cfg.windowMinutes * 60;
      |Attacks(steps, messages, messages[last].ip, since)| >= cfg.threshold
    ensures IsLastStraw(cfg, steps, steps[last].event, messages[last].ip)
  {
    AttacksCount(steps, messages, messages[last].ip, steps[last].event.ts - cfg.windowMinutes * 60);
    FailureStarts(steps, messages, last);
  }

  /**
   * sshd prints a failure of any kind from an address, and in the window up to it as many
   * public-key failures and unknown users from there as the threshold asks for. Whatever else
   * is logged and deleted, there is an alert for the address, and it is fresh.
   */
  lemma AttackIsReported(cfg: Config, steps: seq<Step>, messages: map<nat, Message>, last: nat)
    requires IsRun(steps) && Timely(cfg, steps) && cfg.enabled && |steps| == last + 1
    requires Logged(steps, messages) && last in messages && steps[last].clock.check <= steps[last].clock.fire
    requires messages[last].form.Failed? || messages[last].form.InvalidUser?
    requires var since := steps[last].event.ts - cfg.windowMinutes * 60;
      |Attacks(steps, messages, messages[last].ip, since)| >= cfg.threshold
    ensures FreshAlert(cfg, After(cfg, steps).alerts, "failed_login:" + messages[last].ip, steps[last].clock)
  {
    AttackIsLastStraw(cfg, steps, messages, last);
    LastStrawIsReported(cfg, steps, steps[last].event, steps[last].clock, messages[last].ip);
  }
}
