/**
 * Alerts over whole runs: logins are inserted and checked, disks are checked, and retention
 * cleanup deletes old logins, in any order. Beside the table the run keeps every login ever
 * inserted, and beside the alerts those that the unpruned table would have raised.
 */
module AlertRuns {
  import opened Common
  import D = Database
  import opened Alerts

  datatype Step =
    | Ingest(event: D.LoginRow, clock: Clock)
    | Metrics(disks: seq<Disk>, clocks: seq<Clock>)
    | Cleanup(now: int, days: int)

  /**
   * `login` and `alerts` are the tables. `all` and `allAlerts` are what they would be without
   * cleanup; `cutoff` is the latest cutoff of a cleanup so far.
   */
  datatype State = State(
    login: seq<D.LoginRow>,
    alerts: seq<D.AlertRow>,
    all: seq<D.LoginRow>,
    allAlerts: seq<D.AlertRow>,
    cutoff: Option<int>)

  predicate WellFormed(step: Step) { step.Metrics? ==> |step.clocks| == |step.disks| }

  function CutoffOf(step: Step): int
    requires step.Cleanup?
  {
    step.now - step.days * D.SECONDS_PER_DAY
  }

  function Later(a: Option<int>, b: int): int { if a.Some? && a.value > b then a.value else b }

  function Next(cfg: Config, s: State, step: Step): State
    requires WellFormed(step)
  {
    match step
    case Ingest(e, clock) =>
      s.(login := s.login + [e], alerts := OnEvent(cfg, s.login + [e], s.alerts, e, clock),
         all := s.all + [e], allAlerts := OnEvent(cfg, s.all + [e], s.allAlerts, e, clock))
    case Metrics(disks, clocks) =>
      s.(alerts := OnDisks(cfg, s.alerts, disks, clocks), allAlerts := OnDisks(cfg, s.allAlerts, disks, clocks))
    case Cleanup(_, _) =>
      s.(login := D.Pruned(s.login, CutoffOf(step)), cutoff := Some(Later(s.cutoff, CutoffOf(step))))
  }

  const EMPTY := State([], [], [], [], None)

  function After(cfg: Config, steps: seq<Step>): State
    requires forall st :: st in steps ==> WellFormed(st)
    decreases |steps|
  {
    if steps == [] then EMPTY
    else
      assert steps[|steps| - 1] in steps;
      assert forall st :: st in steps[..|steps| - 1] ==> st in steps;
      Next(cfg, After(cfg, steps[..|steps| - 1]), steps[|steps| - 1])
  }

  /** The daemon's objects do with their tables what a step does with the two that are in use. */
  method Perform(m: AlertManager, step: Step, snapshotDays: int)
    requires WellFormed(step)
    modifies m.db`loginEvents, m.db`alertLog, m.db`snapshotTimes
    ensures var next := Next(m.cfg, EMPTY.(login := old(m.db.loginEvents), alerts := old(m.db.alertLog)), step);
      m.db.loginEvents == next.login && m.db.alertLog == next.alerts
  {
    match step {
      case Ingest(e, clock) =>
        m.db.InsertLoginEvent(e);
        m.OnSshEvent(e, clock);
      case Metrics(disks, clocks) => m.OnMetricsSnapshot(disks, clocks);
      case Cleanup(now, days) => m.db.CleanupRetention(now, days, snapshotDays);
    }
  }

  // -- the keys of the rules -------------------------------------------------------------

  predicate HasPrefix(s: string, prefix: string) { |prefix| <= |s| && s[..|prefix|] == prefix }

  predicate IsFailedKey(key: string) { HasPrefix(key, FAILED_LOGIN) }

  lemma PrefixHead(s: string, prefix: string)
    requires prefix != ""
    ensures HasPrefix(s, prefix) ==> s != "" && s[0] == prefix[0]
  {
    if HasPrefix(s, prefix) {
      assert s[..|prefix|][0] == s[0];
    }
  }

  lemma PrefixKept(prefix: string, x: string, y: string)
    ensures HasPrefix(prefix + x, prefix)
    ensures prefix + x == prefix + y ==> x == y
  {
    assert (prefix + x)[..|prefix|] == prefix;
    assert (prefix + x)[|prefix|..] == x && (prefix + y)[|prefix|..] == y;
  }

  lemma HeadsApart(p: string, x: string, q: string, y: string)
    requires p != "" && q != "" && p[0] != q[0]
    ensures p + x != q + y && !HasPrefix(q + y, p)
  {
    PrefixHead(q + y, p);
    assert (p + x)[0] == p[0] && (q + y)[0] == q[0];
  }

  /** The keys of different rules, or of different addresses, keys or disks, are different. */
  lemma KeysApart(x: string, y: string)
    ensures IsFailedKey(FAILED_LOGIN + x)
    ensures !IsFailedKey(NEW_KEY + y) && !IsFailedKey(DISK_USAGE + y)
    ensures NEW_KEY + x != DISK_USAGE + y && FAILED_LOGIN + x != NEW_KEY + y && FAILED_LOGIN + x != DISK_USAGE + y
    ensures FAILED_LOGIN + x == FAILED_LOGIN + y ==> x == y
    ensures NEW_KEY + x == NEW_KEY + y ==> x == y
    ensures DISK_USAGE + x == DISK_USAGE + y ==> x == y
  {
    PrefixKept(FAILED_LOGIN, x, y);
    PrefixKept(NEW_KEY, x, y);
    PrefixKept(DISK_USAGE, x, y);
    HeadsApart(FAILED_LOGIN, x, NEW_KEY, y);
    HeadsApart(FAILED_LOGIN, x, DISK_USAGE, y);
    HeadsApart(NEW_KEY, x, DISK_USAGE, y);
  }

  // -- the cooldown ------------------------------------------------------------------------

  /** Two alerts with one key are at least the cooldown apart. */
  predicate Spaced(cfg: Config, alerts: seq<D.AlertRow>) {
    forall i, j :: 0 <= i < j < |alerts| && alerts[i].key == alerts[j].key
      ==> alerts[j].ts - alerts[i].ts >= Cooldown(cfg)
  }

  predicate NotAfter(alerts: seq<D.AlertRow>, now: int) { forall r :: r in alerts ==> r.ts <= now }

  lemma RaisedSpaced(cfg: Config, alerts: seq<D.AlertRow>, key: string, clock: Clock)
    requires Spaced(cfg, alerts) && NotAfter(alerts, clock.check) && clock.check <= clock.fire
    ensures Spaced(cfg, Raised(cfg, alerts, key, clock)) && NotAfter(Raised(cfg, alerts, key, clock), clock.fire)
  {
    D.LastAlertIsGreatest(alerts, key);
    if ShouldFire(cfg, alerts, key, clock.check) {
      forall i | 0 <= i < |alerts| && alerts[i].key == key ensures clock.fire - alerts[i].ts >= Cooldown(cfg) {
        assert alerts[i] in alerts;
      }
    }
  }

  /** The clock never runs backwards over these readings. */
  predicate ClocksFrom(clocks: seq<Clock>, start: int) {
    && (forall i :: 0 <= i < |clocks| ==> start <= clocks[i].check <= clocks[i].fire)
    && (forall i, j :: 0 <= i < j < |clocks| ==> clocks[i].fire <= clocks[j].check)
  }

  function LastReading(clocks: seq<Clock>, start: int): int {
    if clocks == [] then start else clocks[|clocks| - 1].fire
  }

  lemma {:induction false} DisksSpaced(cfg: Config, alerts: seq<D.AlertRow>, disks: seq<Disk>, clocks: seq<Clock>,
                                       start: int)
    requires |clocks| == |disks| && ClocksFrom(clocks, start) && Spaced(cfg, alerts) && NotAfter(alerts, start)
    ensures var r := OnDisks(cfg, alerts, disks, clocks); Spaced(cfg, r) && NotAfter(r, LastReading(clocks, start))
    decreases |disks|
  {
    if disks != [] && cfg.enabled {
      var n := |disks| - 1;
      DisksSpaced(cfg, alerts, disks[..n], clocks[..n], start);
      var before := OnDisks(cfg, alerts, disks[..n], clocks[..n]);
      assert NotAfter(before, clocks[n].check);
      RaisedSpaced(cfg, before, DISK_USAGE + disks[n].mountpoint, clocks[n]);
    }
  }

  /** The readings of the clock that a step makes for its checks. */
  function ClocksOf(step: Step): seq<Clock> {
    match step
    case Ingest(_, clock) => [clock]
    case Metrics(_, clocks) => clocks
    case Cleanup(_, _) => []
  }

  /** The latest reading of a run that starts at `start`. */
  function Reading(steps: seq<Step>, start: int): int
    decreases |steps|
  {
    if steps == [] then start
    else LastReading(ClocksOf(steps[|steps| - 1]), Reading(steps[..|steps| - 1], start))
  }

  predicate MonotoneClock(steps: seq<Step>, start: int)
    decreases |steps|
  {
    steps == [] ||
    (MonotoneClock(steps[..|steps| - 1], start)
     && ClocksFrom(ClocksOf(steps[|steps| - 1]), Reading(steps[..|steps| - 1], start)))
  }

  predicate IsRun(steps: seq<Step>) { forall st :: st in steps ==> WellFormed(st) }

  lemma RunPrefix(steps: seq<Step>)
    requires IsRun(steps) && steps != []
    ensures IsRun(steps[..|steps| - 1]) && WellFormed(steps[|steps| - 1])
  {
    assert steps[|steps| - 1] in steps;
  }

  /** Over every run with a clock that does not go back, equal keys are the cooldown apart. */
  lemma {:induction false} CooldownHolds(cfg: Config, steps: seq<Step>, start: int)
    requires IsRun(steps) && MonotoneClock(steps, start)
    ensures Spaced(cfg, After(cfg, steps).alerts)
    ensures NotAfter(After(cfg, steps).alerts, Reading(steps, start))
    decreases |steps|
  {
    if steps != [] {
      RunPrefix(steps);
      var init, last := steps[..|steps| - 1], steps[|steps| - 1];
      CooldownHolds(cfg, init, start);
      var s, now := After(cfg, init), Reading(init, start);
      match last
      case Ingest(e, clock) =>
        assert ClocksOf(last)[0] == clock;
        match Triggered(cfg, s.login + [e], e) {
          case None =>
          case Some(key) =>
            assert NotAfter(s.alerts, clock.check);
            RaisedSpaced(cfg, s.alerts, key, clock);
        }
      case Metrics(disks, clocks) => DisksSpaced(cfg, s.alerts, disks, clocks, now);
      case Cleanup(_, _) =>
    }
  }

  /** The alerts with one key in a span of time. */
  function InSpan(alerts: seq<D.AlertRow>, key: string, from: int, to: int): seq<int> {
    if alerts == [] then []
    else
      var r, rest := alerts[|alerts| - 1], InSpan(alerts[..|alerts| - 1], key, from, to);
      if r.key == key && from <= r.ts <= to then rest + [r.ts] else rest
  }

  lemma SpacedPrefix(cfg: Config, alerts: seq<D.AlertRow>)
    requires Spaced(cfg, alerts) && alerts != []
    ensures Spaced(cfg, alerts[..|alerts| - 1])
    ensures forall r :: r in alerts[..|alerts| - 1] && r.key == alerts[|alerts| - 1].key
              ==> alerts[|alerts| - 1].ts - r.ts >= Cooldown(cfg)
  {
    var init, last := alerts[..|alerts| - 1], alerts[|alerts| - 1];
    assert forall i :: 0 <= i < |init| ==> init[i] == alerts[i];
    forall r | r in init && r.key == last.key ensures last.ts - r.ts >= Cooldown(cfg) {
      var k :| 0 <= k < |init| && init[k] == r;
      assert alerts[k] == r;
    }
  }

  predicate AreTimes(ts: seq<int>, alerts: seq<D.AlertRow>, key: string, from: int, to: int) {
    forall i :: 0 <= i < |ts| ==> from <= ts[i] <= to && D.AlertRow(ts[i], key) in alerts
  }

  predicate Apart(ts: seq<int>, gap: int) { forall i, j :: 0 <= i < j < |ts| ==> ts[j] - ts[i] >= gap }

  lemma {:induction false} InSpanTimes(alerts: seq<D.AlertRow>, key: string, from: int, to: int)
    ensures AreTimes(InSpan(alerts, key, from, to), alerts, key, from, to)
  {
    if alerts != [] {
      var init, r := alerts[..|alerts| - 1], alerts[|alerts| - 1];
      InSpanTimes(init, key, from, to);
      assert alerts == init + [r] && r == D.AlertRow(r.ts, r.key);
    }
  }

  lemma {:induction false} InSpanApart(cfg: Config, alerts: seq<D.AlertRow>, key: string, from: int, to: int)
    requires Spaced(cfg, alerts)
    ensures Apart(InSpan(alerts, key, from, to), Cooldown(cfg))
  {
    if alerts != [] {
      var init, r := alerts[..|alerts| - 1], alerts[|alerts| - 1];
      SpacedPrefix(cfg, alerts);
      InSpanApart(cfg, init, key, from, to);
      InSpanTimes(init, key, from, to);
      var ts := InSpan(init, key, from, to);
      forall i | 0 <= i < |ts| && r.key == key ensures r.ts - ts[i] >= Cooldown(cfg) {
        assert D.AlertRow(ts[i], key) in init;
      }
      assert Apart(ts, Cooldown(cfg));
      assert InSpan(alerts, key, from, to) == ts || (r.key == key && InSpan(alerts, key, from, to) == ts + [r.ts]);
    }
  }

  lemma {:induction false} SpreadOut(ts: seq<int>, gap: int)
    requires ts != [] && Apart(ts, gap)
    ensures ts[|ts| - 1] - ts[0] >= (|ts| - 1) * gap
  {
    if |ts| > 1 {
      var init := ts[..|ts| - 1];
      SpreadOut(init, gap);
      assert ts[|ts| - 1] - ts[|ts| - 2] >= gap;
      assert (|ts| - 1) * gap == (|init| - 1) * gap + gap;
    }
  }

  lemma MulMonotone(a: int, b: int, gap: int)
    requires a <= b && gap >= 0
    ensures a * gap <= b * gap
  {
  }

  lemma FitsIn(n: int, gap: int, span: int)
    requires gap > 0 && n * gap <= span
    ensures n <= span / gap
  {
    var q := span / gap;
    if n > q {
      MulMonotone(q + 1, n, gap);
    }
  }

  /** A span of length `L` holds at most `L / cooldown + 1` alerts with one key. */
  lemma AtMostOnePerCooldown(cfg: Config, steps: seq<Step>, start: int, key: string, from: int, to: int)
    requires IsRun(steps) && MonotoneClock(steps, start) && from <= to && cfg.cooldownMinutes > 0
    ensures |InSpan(After(cfg, steps).alerts, key, from, to)| <= (to - from) / Cooldown(cfg) + 1
  {
    CooldownHolds(cfg, steps, start);
    var alerts := After(cfg, steps).alerts;
    InSpanTimes(alerts, key, from, to);
    InSpanApart(cfg, alerts, key, from, to);
    var ts := InSpan(alerts, key, from, to);
    FitsIn(0, Cooldown(cfg), to - from);
    if ts != [] {
      SpreadOut(ts, Cooldown(cfg));
      FitsIn(|ts| - 1, Cooldown(cfg), to - from);
    }
  }

  /** A check that meets its condition leaves an alert with its key younger than the cooldown. */
  lemma AlertIsFresh(cfg: Config, alerts: seq<D.AlertRow>, key: string, clock: Clock)
    requires clock.check <= clock.fire
    ensures exists r :: r in Raised(cfg, alerts, key, clock) && r.key == key
              && (r.ts == clock.fire || clock.check - r.ts < Cooldown(cfg))
  {
    D.LastAlertIsGreatest(alerts, key);
    if ShouldFire(cfg, alerts, key, clock.check) {
      assert D.AlertRow(clock.fire, key) in Raised(cfg, alerts, key, clock);
    } else {
      assert D.AlertRow(D.LastAlert(alerts, key).value, key) in alerts;
    }
  }

  function WithKey(alerts: seq<D.AlertRow>, key: string): seq<D.AlertRow> {
    if alerts == [] then []
    else
      var r, rest := alerts[|alerts| - 1], WithKey(alerts[..|alerts| - 1], key);
      if r.key == key then rest + [r] else rest
  }

  lemma {:induction false} LastAlertWithKey(alerts: seq<D.AlertRow>, key: string)
    ensures D.LastAlert(alerts, key) == D.LastAlert(WithKey(alerts, key), key)
  {
    if alerts != [] {
      LastAlertWithKey(alerts[..|alerts| - 1], key);
      if alerts[|alerts| - 1].key == key {
        D.LastAlertPush(WithKey(alerts[..|alerts| - 1], key), alerts[|alerts| - 1], key);
      }
    }
  }

  lemma WithKeyPush(alerts: seq<D.AlertRow>, r: D.AlertRow, key: string)
    ensures WithKey(alerts + [r], key) == if r.key == key then WithKey(alerts, key) + [r] else WithKey(alerts, key)
  {
    assert (alerts + [r])[..|alerts|] == alerts;
  }

  /** Keys never suppress each other: what a check adds depends on alerts with its own key only. */
  lemma KeysAreIndependent(cfg: Config, a: seq<D.AlertRow>, b: seq<D.AlertRow>, key: string, clock: Clock)
    requires WithKey(a, key) == WithKey(b, key)
    ensures WithKey(Raised(cfg, a, key, clock), key) == WithKey(Raised(cfg, b, key, clock), key)
    ensures forall other :: other != key ==> WithKey(Raised(cfg, a, key, clock), other) == WithKey(a, other)
  {
    LastAlertWithKey(a, key);
    LastAlertWithKey(b, key);
    WithKeyPush(a, D.AlertRow(clock.fire, key), key);
    WithKeyPush(b, D.AlertRow(clock.fire, key), key);
    forall other | other != key ensures WithKey(Raised(cfg, a, key, clock), other) == WithKey(a, other) {
      WithKeyPush(a, D.AlertRow(clock.fire, key), other);
    }
  }

  // -- the alerts with one key, over whole runs --------------------------------------------

  /** The checks with this key in which a disk meets its condition. */
  function DiskChecks(cfg: Config, disks: seq<Disk>, clocks: seq<Clock>, key: string): seq<Clock>
    requires |clocks| == |disks|
    decreases |disks|
  {
    if disks == [] || !cfg.enabled then []
    else
      var n := |disks| - 1;
      var before := DiskChecks(cfg, disks[..n], clocks[..n], key);
      if disks[n].percent >= cfg.diskThreshold && DISK_USAGE + disks[n].mountpoint == key then before + [clocks[n]]
      else before
  }

  /** The checks of a step that meet the condition of an alert with this key. */
  function Checks(cfg: Config, s: State, step: Step, key: string): seq<Clock>
    requires WellFormed(step)
  {
    match step
    case Ingest(e, clock) => if Triggered(cfg, s.login + [e], e) == Some(key) then [clock] else []
    case Metrics(disks, clocks) => DiskChecks(cfg, disks, clocks, key)
    case Cleanup(_, _) => []
  }

  /** All such checks of a run. */
  function Met(cfg: Config, steps: seq<Step>, key: string): seq<Clock>
    requires IsRun(steps)
    decreases |steps|
  {
    if steps == [] then []
    else
      assert steps[|steps| - 1] in steps;
      assert forall st :: st in steps[..|steps| - 1] ==> st in steps;
      var init := steps[..|steps| - 1];
      Met(cfg, init, key) + Checks(cfg, After(cfg, init), steps[|steps| - 1], key)
  }

  /** What these checks leave behind if there are no others. */
  function RaisedBy(cfg: Config, checks: seq<Clock>, key: string): seq<D.AlertRow> {
    if checks == [] then []
    else Raised(cfg, RaisedBy(cfg, checks[..|checks| - 1], key), key, checks[|checks| - 1])
  }

  lemma {:induction false} OnlyThatKey(cfg: Config, checks: seq<Clock>, key: string)
    ensures WithKey(RaisedBy(cfg, checks, key), key) == RaisedBy(cfg, checks, key)
  {
    if checks != [] {
      var n := |checks| - 1;
      OnlyThatKey(cfg, checks[..n], key);
      WithKeyPush(RaisedBy(cfg, checks[..n], key), D.AlertRow(checks[n].fire, key), key);
    }
  }

  lemma OneMoreCheck(cfg: Config, alerts: seq<D.AlertRow>, checks: seq<Clock>, key: string, clock: Clock)
    requires WithKey(alerts, key) == RaisedBy(cfg, checks, key)
    ensures WithKey(Raised(cfg, alerts, key, clock), key) == RaisedBy(cfg, checks + [clock], key)
  {
    assert (checks + [clock])[..|checks|] == checks;
    OnlyThatKey(cfg, checks, key);
    OnlyThatKey(cfg, checks + [clock], key);
    KeysAreIndependent(cfg, alerts, RaisedBy(cfg, checks, key), key, clock);
  }

  lemma {:induction false} DisksRaise(cfg: Config, alerts: seq<D.AlertRow>, checks: seq<Clock>, disks: seq<Disk>,
                                      clocks: seq<Clock>, key: string)
    requires |clocks| == |disks| && WithKey(alerts, key) == RaisedBy(cfg, checks, key)
    ensures WithKey(OnDisks(cfg, alerts, disks, clocks), key)
         == RaisedBy(cfg, checks + DiskChecks(cfg, disks, clocks, key), key)
    decreases |disks|
  {
    if disks == [] || !cfg.enabled {
      assert checks + [] == checks;
    } else {
      var n := |disks| - 1;
      DisksRaise(cfg, alerts, checks, disks[..n], clocks[..n], key);
      var before := DiskChecks(cfg, disks[..n], clocks[..n], key);
      var table := OnDisks(cfg, alerts, disks[..n], clocks[..n]);
      var other := DISK_USAGE + disks[n].mountpoint;
      if disks[n].percent >= cfg.diskThreshold {
        if other == key {
          OneMoreCheck(cfg, table, checks + before, key, clocks[n]);
          assert (checks + before) + [clocks[n]] == checks + (before + [clocks[n]]);
        } else {
          KeysAreIndependent(cfg, table, table, other, clocks[n]);
        }
      }
    }
  }

  lemma EventRaises(cfg: Config, login: seq<D.LoginRow>, alerts: seq<D.AlertRow>, checks: seq<Clock>, e: D.LoginRow,
                    clock: Clock, key: string)
    requires WithKey(alerts, key) == RaisedBy(cfg, checks, key)
    ensures WithKey(OnEvent(cfg, login, alerts, e, clock), key)
         == RaisedBy(cfg, checks + if Triggered(cfg, login, e) == Some(key) then [clock] else [], key)
  {
    if Triggered(cfg, login, e) == Some(key) {
      OneMoreCheck(cfg, alerts, checks, key, clock);
    } else {
      assert checks + [] == checks;
      if Triggered(cfg, login, e).Some? {
        KeysAreIndependent(cfg, alerts, alerts, Triggered(cfg, login, e).value, clock);
      }
    }
  }

  /** In every run the alerts with a key are what its own checks raise, as if there were no others. */
  lemma {:induction false} AlertsOfKey(cfg: Config, steps: seq<Step>, key: string)
    requires IsRun(steps)
    ensures WithKey(After(cfg, steps).alerts, key) == RaisedBy(cfg, Met(cfg, steps, key), key)
    decreases |steps|
  {
    if steps != [] {
      RunPrefix(steps);
      var init, last := steps[..|steps| - 1], steps[|steps| - 1];
      AlertsOfKey(cfg, init, key);
      var s, checks := After(cfg, init), Met(cfg, init, key);
      match last
      case Ingest(e, clock) => EventRaises(cfg, s.login + [e], s.alerts, checks, e, clock, key);
      case Metrics(disks, clocks) => DisksRaise(cfg, s.alerts, checks, disks, clocks, key);
      case Cleanup(_, _) => assert checks + [] == checks;
    }
  }

  /** Two runs that check a key alike have the same alerts with it, whatever else differs. */
  lemma RunsAreIndependent(cfg: Config, a: seq<Step>, b: seq<Step>, key: string)
    requires IsRun(a) && IsRun(b) && Met(cfg, a, key) == Met(cfg, b, key)
    ensures WithKey(After(cfg, a).alerts, key) == WithKey(After(cfg, b).alerts, key)
  {
    AlertsOfKey(cfg, a, key);
    AlertsOfKey(cfg, b, key);
  }
}
