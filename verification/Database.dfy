/** The tables of the daemon's database that the alert rules and the ingest work on. */
module Database {
  import opened Common

  /** A row of `login_events`; times are in seconds. */
  datatype LoginRow = LoginRow(
    ts: int,
    eventType: string,
    sourceIp: Option<string>,
    fingerprint: Option<string>)

  /** A row of `alert_log`; `alert_type` holds the alert key. */
  datatype AlertRow = AlertRow(ts: int, key: string)

  // -- the queries, as functions of a table ---------------------------------------------

  predicate IsCountedFailure(r: LoginRow, ip: string, since: int) {
    r.sourceIp == Some(ip) && r.ts >= since && (r.eventType == "failed_publickey" || r.eventType == "invalid_user")
  }

  function CountFailed(rows: seq<LoginRow>, ip: string, since: int): nat {
    if rows == [] then 0
    else CountFailed(rows[..|rows| - 1], ip, since) + if IsCountedFailure(rows[|rows| - 1], ip, since) then 1 else 0
  }

  predicate IsAccepted(r: LoginRow, fingerprint: string) {
    r.fingerprint == Some(fingerprint) && r.eventType == "accepted_publickey"
  }

  function CountAccepted(rows: seq<LoginRow>, fingerprint: string, before: int): nat {
    if rows == [] then 0
    else
      CountAccepted(rows[..|rows| - 1], fingerprint, before)
      + if IsAccepted(rows[|rows| - 1], fingerprint) && rows[|rows| - 1].ts < before then 1 else 0
  }

  /** The greatest time of an alert with this key: `ORDER BY ts DESC LIMIT 1`. */
  function LastAlert(rows: seq<AlertRow>, key: string): Option<int> {
    if rows == [] then None
    else
      var r, last := rows[|rows| - 1], LastAlert(rows[..|rows| - 1], key);
      if r.key != key then last
      else if last.Some? && last.value > r.ts then last
      else Some(r.ts)
  }

  /** The rows that `DELETE ... WHERE ts < cutoff` leaves. */
  function Pruned(rows: seq<LoginRow>, cutoff: int): seq<LoginRow> {
    if rows == [] then []
    else
      var r, rest := rows[|rows| - 1], Pruned(rows[..|rows| - 1], cutoff);
      if r.ts < cutoff then rest else rest + [r]
  }

  /** The same of the times of resource snapshots. */
  function KeptTimes(times: seq<int>, cutoff: int): seq<int> {
    if times == [] then []
    else
      var t, rest := times[|times| - 1], KeptTimes(times[..|times| - 1], cutoff);
      if t < cutoff then rest else rest + [t]
  }

  const SECONDS_PER_DAY := 86400

  class Database {
    var loginEvents: seq<LoginRow>
    var alertLog: seq<AlertRow>
    var snapshotTimes: seq<int> // of `resource_snapshots`

    constructor ()
      ensures loginEvents == [] && alertLog == [] && snapshotTimes == []
    {
      loginEvents, alertLog, snapshotTimes := [], [], [];
    }

    method InsertLoginEvent(row: LoginRow)
      modifies this`loginEvents
      ensures loginEvents == old(loginEvents) + [row]
    {
      loginEvents := loginEvents + [row];
    }

    method InsertAlert(row: AlertRow)
      modifies this`alertLog
      ensures alertLog == old(alertLog) + [row]
    {
      alertLog := alertLog + [row];
    }

    method CountFailedLoginsSince(ip: string, since: int) returns (n: nat)
      ensures n == CountFailed(loginEvents, ip, since)
    {
      n := 0;
      for i := 0 to |loginEvents|
        invariant n == CountFailed(loginEvents[..i], ip, since)
      {
        assert loginEvents[..i + 1][..i] == loginEvents[..i];
        if IsCountedFailure(loginEvents[i], ip, since) {
          n := n + 1;
        }
      }
      assert loginEvents[..|loginEvents|] == loginEvents;
    }

    method CountAcceptedWithKeyBefore(fingerprint: string, before: int) returns (n: nat)
      ensures n == CountAccepted(loginEvents, fingerprint, before)
    {
      n := 0;
      for i := 0 to |loginEvents|
        invariant n == CountAccepted(loginEvents[..i], fingerprint, before)
      {
        assert loginEvents[..i + 1][..i] == loginEvents[..i];
        if IsAccepted(loginEvents[i], fingerprint) && loginEvents[i].ts < before {
          n := n + 1;
        }
      }
      assert loginEvents[..|loginEvents|] == loginEvents;
    }

    method LastAlertTs(key: string) returns (last: Option<int>)
      ensures last == LastAlert(alertLog, key)
    {
      last := None;
      for i := 0 to |alertLog|
        invariant last == LastAlert(alertLog[..i], key)
      {
        assert alertLog[..i + 1][..i] == alertLog[..i];
        if alertLog[i].key == key && (last.None? || last.value <= alertLog[i].ts) {
          last := Some(alertLog[i].ts);
        }
      }
      assert alertLog[..|alertLog|] == alertLog;
    }

    /** Retention cleanup. */
    method CleanupRetention(now: int, loginEventDays: int, snapshotDays: int)
      modifies this`loginEvents, this`snapshotTimes
      ensures loginEvents == Pruned(old(loginEvents), now - loginEventDays * SECONDS_PER_DAY)
      ensures snapshotTimes == KeptTimes(old(snapshotTimes), now - snapshotDays * SECONDS_PER_DAY)
      ensures forall r :: r in loginEvents <==> r in old(loginEvents) && r.ts >= now - loginEventDays * 24 * 60 * 60
    {
      PrunedRows(loginEvents, now - loginEventDays * 24 * 60 * 60);
      loginEvents := DeleteLogins(loginEvents, now - loginEventDays * SECONDS_PER_DAY);
      snapshotTimes := DeleteTimes(snapshotTimes, now - snapshotDays * SECONDS_PER_DAY);
    }

    static method DeleteLogins(rows: seq<LoginRow>, cutoff: int) returns (kept: seq<LoginRow>)
      ensures kept == Pruned(rows, cutoff)
    {
      kept := [];
      for i := 0 to |rows|
        invariant kept == Pruned(rows[..i], cutoff)
      {
        assert rows[..i + 1][..i] == rows[..i];
        if rows[i].ts >= cutoff {
          kept := kept + [rows[i]];
        }
      }
      assert rows[..|rows|] == rows;
    }

    static method DeleteTimes(times: seq<int>, cutoff: int) returns (kept: seq<int>)
      ensures kept == KeptTimes(times, cutoff)
    {
      kept := [];
      for i := 0 to |times|
        invariant kept == KeptTimes(times[..i], cutoff)
      {
        assert times[..i + 1][..i] == times[..i];
        if times[i] >= cutoff {
          kept := kept + [times[i]];
        }
      }
      assert times[..|times|] == times;
    }
  }

  // -- what the queries say --------------------------------------------------------------

  lemma {:induction false} LastAlertIsGreatest(rows: seq<AlertRow>, key: string)
    ensures LastAlert(rows, key).None? <==> forall r :: r in rows ==> r.key != key
    ensures forall r :: r in rows && r.key == key ==> r.ts <= LastAlert(rows, key).value
    ensures LastAlert(rows, key).Some? ==> AlertRow(LastAlert(rows, key).value, key) in rows
  {
    if rows != [] {
      var init := rows[..|rows| - 1];
      LastAlertIsGreatest(init, key);
      assert rows == init + [rows[|rows| - 1]];
    }
  }

  lemma LastAlertPush(rows: seq<AlertRow>, r: AlertRow, key: string)
    ensures LastAlert(rows + [r], key) ==
      if r.key != key then LastAlert(rows, key)
      else if LastAlert(rows, key).Some? && LastAlert(rows, key).value > r.ts then LastAlert(rows, key)
      else Some(r.ts)
  {
    assert (rows + [r])[..|rows|] == rows;
  }

  lemma CountFailedPush(rows: seq<LoginRow>, r: LoginRow, ip: string, since: int)
    ensures CountFailed(rows + [r], ip, since)
         == CountFailed(rows, ip, since) + if IsCountedFailure(r, ip, since) then 1 else 0
  {
    assert (rows + [r])[..|rows|] == rows;
  }

  /** The rows with failures that count against an address in a window. */
  ghost function FailuresAt(rows: seq<LoginRow>, ip: string, since: int): set<nat> {
    set i: nat | i < |rows| && rows[i].sourceIp == Some(ip) && rows[i].ts >= since
      && (rows[i].eventType == "failed_publickey" || rows[i].eventType == "invalid_user")
  }

  /** `SELECT COUNT(*)`: the count is the number of these rows. */
  lemma {:induction false} CountFailedIsNumber(rows: seq<LoginRow>, ip: string, since: int)
    ensures CountFailed(rows, ip, since) == |FailuresAt(rows, ip, since)|
  {
    if rows != [] {
      var n := |rows| - 1;
      var init := rows[..n];
      CountFailedIsNumber(init, ip, since);
      assert forall i: nat :: i < n ==> init[i] == rows[i];
      var here: set<nat> := if IsCountedFailure(rows[n], ip, since) then {n} else {};
      assert FailuresAt(rows, ip, since) == FailuresAt(init, ip, since) + here;
    }
  }

  lemma {:induction false} CountFailedZero(rows: seq<LoginRow>, ip: string, since: int)
    requires forall r :: r in rows ==> !IsCountedFailure(r, ip, since)
    ensures CountFailed(rows, ip, since) == 0
  {
    if rows != [] {
      assert rows[|rows| - 1] in rows;
      CountFailedZero(rows[..|rows| - 1], ip, since);
    }
  }

  /** Nobody used the key before a time exactly if no such row is in the table. */
  lemma {:induction false} CountAcceptedZero(rows: seq<LoginRow>, fingerprint: string, before: int)
    ensures CountAccepted(rows, fingerprint, before) == 0
       <==> forall r :: r in rows && IsAccepted(r, fingerprint) ==> r.ts >= before
  {
    if rows != [] {
      var init := rows[..|rows| - 1];
      CountAcceptedZero(init, fingerprint, before);
      assert rows == init + [rows[|rows| - 1]];
    }
  }

  lemma {:induction false} PrunedRows(rows: seq<LoginRow>, cutoff: int)
    ensures forall r :: r in Pruned(rows, cutoff) <==> r in rows && r.ts >= cutoff
  {
    if rows != [] {
      var init := rows[..|rows| - 1];
      PrunedRows(init, cutoff);
      assert rows == init + [rows[|rows| - 1]];
    }
  }

  /** Pruning does not touch a count over a window that starts at the cutoff or later. */
  lemma {:induction false} PrunedCount(rows: seq<LoginRow>, cutoff: int, ip: string, since: int)
    requires since >= cutoff
    ensures CountFailed(Pruned(rows, cutoff), ip, since) == CountFailed(rows, ip, since)
  {
    if rows != [] {
      var init, r := rows[..|rows| - 1], rows[|rows| - 1];
      PrunedCount(init, cutoff, ip, since);
      if r.ts >= cutoff {
        CountFailedPush(Pruned(init, cutoff), r, ip, since);
      }
    }
  }
}
