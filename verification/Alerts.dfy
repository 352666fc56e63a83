/** `AlertManager`: which events raise which alerts, and the cooldown for each alert key. */
module Alerts {
  import opened Common
  import D = Database

  /** The `[alerts]` section of the configuration. */
  datatype Config = Config(
    enabled: bool,
    threshold: int,
    windowMinutes: int,
    diskThreshold: int,
    alertOnNewKey: bool,
    cooldownMinutes: int)

  function Window(cfg: Config): int { cfg.windowMinutes * 60 }

  function Cooldown(cfg: Config): int { cfg.cooldownMinutes * 60 }

  predicate IsFailure(eventType: string) {
    eventType == "failed_publickey" || eventType == "invalid_user" || eventType == "failed_other"
  }

  const FAILED_LOGIN := "failed_login:"
  const NEW_KEY := "new_key:"
  const DISK_USAGE := "disk_usage:"

  datatype Disk = Disk(mountpoint: string, percent: int)

  /** The clock as `_should_fire` reads it and as `_fire` reads it a little later. */
  datatype Clock = Clock(check: int, fire: int)

  // -- the rules as functions of the tables ------------------------------------------------

  predicate ShouldFire(cfg: Config, alerts: seq<D.AlertRow>, key: string, now: int) {
    var last := D.LastAlert(alerts, key);
    last.None? || now - last.value >= Cooldown(cfg)
  }

  /** A check that has met its condition. */
  function Raised(cfg: Config, alerts: seq<D.AlertRow>, key: string, clock: Clock): seq<D.AlertRow> {
    if ShouldFire(cfg, alerts, key, clock.check) then alerts + [D.AlertRow(clock.fire, key)] else alerts
  }

  predicate Present(text: Option<string>) { text.Some? && text.value != "" }

  /** Whether an event meets the condition of a rule, and the key of that rule's alert. */
  function Triggered(cfg: Config, login: seq<D.LoginRow>, e: D.LoginRow): Option<string> {
    if !cfg.enabled then None
    else if IsFailure(e.eventType) then
      if Present(e.sourceIp) && D.CountFailed(login, e.sourceIp.value, e.ts - Window(cfg)) >= cfg.threshold
      then Some(FAILED_LOGIN + e.sourceIp.value) else None
    else if e.eventType == "accepted_publickey" && cfg.alertOnNewKey then
      if Present(e.fingerprint) && D.CountAccepted(login, e.fingerprint.value, e.ts) == 0
      then Some(NEW_KEY + e.fingerprint.value) else None
    else None
  }

  function OnEvent(cfg: Config, login: seq<D.LoginRow>, alerts: seq<D.AlertRow>, e: D.LoginRow, clock: Clock):
    seq<D.AlertRow>
  {
    match Triggered(cfg, login, e)
    case None => alerts
    case Some(key) => Raised(cfg, alerts, key, clock)
  }

  function OnDisks(cfg: Config, alerts: seq<D.AlertRow>, disks: seq<Disk>, clocks: seq<Clock>): seq<D.AlertRow>
    requires |clocks| == |disks|
    decreases |disks|
  {
    if disks == [] || !cfg.enabled then alerts
    else
      var n := |disks| - 1;
      var before := OnDisks(cfg, alerts, disks[..n], clocks[..n]);
      if disks[n].percent < cfg.diskThreshold then before
      else Raised(cfg, before, DISK_USAGE + disks[n].mountpoint, clocks[n])
  }

  class AlertManager {
    const cfg: Config
    const db: D.Database

    constructor (cfg: Config, db: D.Database)
      ensures this.cfg == cfg && this.db == db
    {
      this.cfg, this.db := cfg, db;
    }

    /** `_should_fire` and, if it says so, `_fire`. */
    method Raise(key: string, clock: Clock)
      modifies db`alertLog
      ensures db.alertLog == Raised(cfg, old(db.alertLog), key, clock)
    {
      var last := db.LastAlertTs(key);
      if last.None? || clock.check - last.value >= cfg.cooldownMinutes * 60 {
        db.InsertAlert(D.AlertRow(clock.fire, key));
      }
    }

    method CheckFailedLogin(e: D.LoginRow, clock: Clock)
      requires cfg.enabled && IsFailure(e.eventType)
      modifies db`alertLog
      ensures db.alertLog == OnEvent(cfg, db.loginEvents, old(db.alertLog), e, clock)
    {
      if e.sourceIp.None? || e.sourceIp.value == "" {
        return;
      }
      var count := db.CountFailedLoginsSince(e.sourceIp.value, e.ts - cfg.windowMinutes * 60);
      if count < cfg.threshold {
        return;
      }
      Raise(FAILED_LOGIN + e.sourceIp.value, clock);
    }

    method CheckNewKey(e: D.LoginRow, clock: Clock)
      requires cfg.enabled && cfg.alertOnNewKey && e.eventType == "accepted_publickey"
      modifies db`alertLog
      ensures db.alertLog == OnEvent(cfg, db.loginEvents, old(db.alertLog), e, clock)
    {
      if e.fingerprint.None? || e.fingerprint.value == "" {
        return;
      }
      var prior := db.CountAcceptedWithKeyBefore(e.fingerprint.value, e.ts);
      if prior > 0 {
        return;
      }
      Raise(NEW_KEY + e.fingerprint.value, clock);
    }

    method OnSshEvent(e: D.LoginRow, clock: Clock)
      modifies db`alertLog
      ensures db.alertLog == OnEvent(cfg, db.loginEvents, old(db.alertLog), e, clock)
    {
      if !cfg.enabled {
        return;
      }
      if IsFailure(e.eventType) {
        CheckFailedLogin(e, clock);
      } else if e.eventType == "accepted_publickey" && cfg.alertOnNewKey {
        CheckNewKey(e, clock);
      }
    }

    /** `clocks` are the times read for each disk, whether they are used or not. */
    method OnMetricsSnapshot(disks: seq<Disk>, clocks: seq<Clock>)
      requires |clocks| == |disks|
      modifies db`alertLog
      ensures db.alertLog == OnDisks(cfg, old(db.alertLog), disks, clocks)
    {
      if !cfg.enabled {
        return;
      }
      for i := 0 to |disks|
        invariant db.alertLog == OnDisks(cfg, old(db.alertLog), disks[..i], clocks[..i])
      {
        assert disks[..i + 1][..i] == disks[..i] && clocks[..i + 1][..i] == clocks[..i];
        if disks[i].percent >= cfg.diskThreshold {
          Raise(DISK_USAGE + disks[i].mountpoint, clocks[i]);
        }
      }
      assert disks[..|disks|] == disks && clocks[..|disks|] == clocks;
    }
  }
}
