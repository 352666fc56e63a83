/** Since when each banned address is shown as banned. */
module BannedIps {
  import opened Common

  datatype Jail = Jail(name: string, ips: seq<string>)

  datatype BlockedIp = BlockedIp(ip: string, rule: string, bannedAt: int)

  /** What one status report says, and the time at which it is applied. */
  datatype Report = Report(jails: seq<Jail>, now: int)

  predicate Bans(jails: seq<Jail>, ip: string) { exists j :: 0 <= j < |jails| && ip in jails[j].ips }

  /** `setdefault(ip, now)` for each address of a jail. */
  function Noted(since: map<string, int>, ips: seq<string>, now: int): map<string, int> {
    if ips == [] then since
    else
      var before := Noted(since, ips[..|ips| - 1], now);
      if ips[|ips| - 1] in before then before else before[ips[|ips| - 1] := now]
  }

  function NotedAll(since: map<string, int>, jails: seq<Jail>, now: int): map<string, int> {
    if jails == [] then since else Noted(NotedAll(since, jails[..|jails| - 1], now), jails[|jails| - 1].ips, now)
  }

  lemma {:induction false} NotedAt(since: map<string, int>, ips: seq<string>, now: int, ip: string)
    ensures ip in Noted(since, ips, now) <==> ip in since || ip in ips
    ensures ip in Noted(since, ips, now) ==> Noted(since, ips, now)[ip] == if ip in since then since[ip] else now
  {
    if ips != [] {
      NotedAt(since, ips[..|ips| - 1], now, ip);
      assert ips == ips[..|ips| - 1] + [ips[|ips| - 1]];
    }
  }

  lemma BansInit(jails: seq<Jail>, ip: string)
    requires jails != []
    ensures Bans(jails, ip) <==> Bans(jails[..|jails| - 1], ip) || ip in jails[|jails| - 1].ips
  {
    var n := |jails| - 1;
    if Bans(jails[..n], ip) {
      var j :| 0 <= j < n && ip in jails[..n][j].ips;
      assert ip in jails[j].ips;
    }
    if Bans(jails, ip) && ip !in jails[n].ips {
      var j :| 0 <= j < |jails| && ip in jails[j].ips;
      assert ip in jails[..n][j].ips;
    }
  }

  lemma {:induction false} NotedAllAt(since: map<string, int>, jails: seq<Jail>, now: int, ip: string)
    ensures ip in NotedAll(since, jails, now) <==> ip in since || Bans(jails, ip)
    ensures ip in NotedAll(since, jails, now)
      ==> NotedAll(since, jails, now)[ip] == if ip in since then since[ip] else now
  {
    if jails != [] {
      var n := |jails| - 1;
      NotedAllAt(since, jails[..n], now, ip);
      NotedAt(NotedAll(since, jails[..n], now), jails[n].ips, now, ip);
      BansInit(jails, ip);
    }
  }

  /** What is kept of it: the addresses of this report. */
  function SinceAfter(since: map<string, int>, report: Report): map<string, int> {
    var noted := NotedAll(since, report.jails, report.now);
    map ip | ip in noted && Bans(report.jails, ip) :: noted[ip]
  }

  function Named(ips: seq<string>, rule: string): seq<(string, string)> {
    if ips == [] then [] else Named(ips[..|ips| - 1], rule) + [(ips[|ips| - 1], rule)]
  }

  /** Every address of every jail with the name of the jail, in the order of the report. */
  function Listing(jails: seq<Jail>): seq<(string, string)> {
    if jails == [] then []
    else Listing(jails[..|jails| - 1]) + Named(jails[|jails| - 1].ips, jails[|jails| - 1].name)
  }

  /** The rows are the listing, each with the time of its address. */
  predicate Dated(rows: seq<BlockedIp>, listing: seq<(string, string)>, since: map<string, int>) {
    && |rows| == |listing|
    && forall k :: 0 <= k < |rows| ==>
         && rows[k].ip == listing[k].0
         && rows[k].rule == listing[k].1
         && rows[k].ip in since
         && rows[k].bannedAt == since[rows[k].ip]
  }

  /** How many addresses the first `j` jails have. */
  function Offset(jails: seq<Jail>, j: nat): nat
    requires j <= |jails|
  {
    if j == 0 then 0 else Offset(jails, j - 1) + |jails[j - 1].ips|
  }

  /** Row by row the addresses of every jail, with the name of the jail and the time of the address. */
  predicate IsShown(rows: seq<BlockedIp>, jails: seq<Jail>, since: map<string, int>) {
    && |rows| == Offset(jails, |jails|)
    && forall j, k :: 0 <= j < |jails| && 0 <= k < |jails[j].ips| ==>
         IsShownAt(rows, jails[j].ips[k], jails[j].name, since, Offset(jails, j) + k)
  }

  predicate IsShownAt(rows: seq<BlockedIp>, ip: string, rule: string, since: map<string, int>, at: nat) {
    at < |rows| && ip in since && rows[at] == BlockedIp(ip, rule, since[ip])
  }

  lemma {:induction false} NamedAt(ips: seq<string>, rule: string)
    ensures |Named(ips, rule)| == |ips|
    ensures forall k :: 0 <= k < |ips| ==> Named(ips, rule)[k] == (ips[k], rule)
  {
    if ips != [] {
      NamedAt(ips[..|ips| - 1], rule);
    }
  }

  lemma {:induction false} OffsetInit(jails: seq<Jail>, n: nat, j: nat)
    requires j <= n <= |jails|
    ensures Offset(jails[..n], j) == Offset(jails, j)
  {
    if j > 0 {
      OffsetInit(jails, n, j - 1);
    }
  }

  lemma {:induction false} ListingLength(jails: seq<Jail>)
    ensures |Listing(jails)| == Offset(jails, |jails|)
  {
    if jails != [] {
      var n := |jails| - 1;
      ListingLength(jails[..n]);
      OffsetInit(jails, n, n);
      NamedAt(jails[n].ips, jails[n].name);
    }
  }

  predicate IsListedAt(listing: seq<(string, string)>, ip: string, rule: string, at: nat) {
    at < |listing| && listing[at] == (ip, rule)
  }

  /** The listing has each address of each jail at its place. */
  lemma {:induction false} ListedAt(jails: seq<Jail>, j: nat, k: nat)
    requires j < |jails| && k < |jails[j].ips|
    ensures IsListedAt(Listing(jails), jails[j].ips[k], jails[j].name, Offset(jails, j) + k)
    decreases |jails|
  {
    var n := |jails| - 1;
    OffsetInit(jails, n, j);
    if j < n {
      ListedAt(jails[..n], j, k);
    } else {
      ListingLength(jails[..n]);
      NamedAt(jails[n].ips, jails[n].name);
    }
  }

  lemma DatedIsShown(rows: seq<BlockedIp>, jails: seq<Jail>, since: map<string, int>)
    requires Dated(rows, Listing(jails), since)
    ensures IsShown(rows, jails, since)
  {
    ListingLength(jails);
    forall j, k | 0 <= j < |jails| && 0 <= k < |jails[j].ips|
      ensures IsShownAt(rows, jails[j].ips[k], jails[j].name, since, Offset(jails, j) + k)
    {
      ListedAt(jails, j, k);
    }
  }

  /** The inner loop of `_apply_extra_status`: one jail. */
  method NoteJail(since: map<string, int>, jail: Jail, now: int, current: set<string>, blocked: seq<BlockedIp>,
                  ghost listing: seq<(string, string)>)
    returns (since': map<string, int>, current': set<string>, blocked': seq<BlockedIp>)
    requires Dated(blocked, listing, since)
    ensures since' == Noted(since, jail.ips, now)
    ensures forall ip :: ip in current' <==> ip in current || ip in jail.ips
    ensures Dated(blocked', listing + Named(jail.ips, jail.name), since')
  {
    since', current', blocked' := since, current, blocked;
    for i := 0 to |jail.ips|
      invariant since' == Noted(since, jail.ips[..i], now)
      invariant forall ip :: ip in current' <==> ip in current || ip in jail.ips[..i]
      invariant Dated(blocked', listing + Named(jail.ips[..i], jail.name), since')
    {
      var ip := jail.ips[i];
      assert jail.ips[..i + 1] == jail.ips[..i] + [ip];
      current' := current' + {ip};
      if ip !in since' {
        since' := since'[ip := now];
      }
      blocked' := blocked' + [BlockedIp(ip, jail.name, since'[ip])];
    }
    assert jail.ips[..|jail.ips|] == jail.ips;
  }

  /** The client's `_blocked_ip_since` and `blocked_ips`. */
  class BanList {
    var since: map<string, int>
    var blocked: seq<BlockedIp>

    constructor ()
      ensures since == map[] && blocked == []
    {
      since, blocked := map[], [];
    }

    /** The banned-IP part of `_apply_extra_status`; an empty status is not applied. */
    method Apply(status: Option<Report>)
      modifies this
      ensures status.None? ==> since == old(since) && blocked == old(blocked)
      ensures status.Some? ==> since == SinceAfter(old(since), status.value)
      ensures status.Some? ==> IsShown(blocked, status.value.jails, since)
    {
      if status.None? {
        return;
      }
      var jails, now := status.value.jails, status.value.now;
      var noted, current, rows := since, {}, [];
      for j := 0 to |jails|
        invariant since == old(since)
        invariant noted == NotedAll(since, jails[..j], now)
        invariant forall ip :: ip in current <==> Bans(jails[..j], ip)
        invariant Dated(rows, Listing(jails[..j]), noted)
      {
        assert jails[..j + 1][..j] == jails[..j];
        noted, current, rows := NoteJail(noted, jails[j], now, current, rows, Listing(jails[..j]));
        forall ip ensures ip in current <==> Bans(jails[..j + 1], ip) {
          BansInit(jails[..j + 1], ip);
        }
      }
      assert jails[..|jails|] == jails;
      ListedIsBanned(jails);
      since := KeepOnly(noted, current);
      blocked := rows;
      DatedIsShown(blocked, jails, since);
    }
  }

  lemma {:induction false} NamedIn(ips: seq<string>, rule: string)
    ensures forall k :: 0 <= k < |Named(ips, rule)| ==> Named(ips, rule)[k].0 in ips
  {
    if ips != [] {
      NamedIn(ips[..|ips| - 1], rule);
      assert ips == ips[..|ips| - 1] + [ips[|ips| - 1]];
    }
  }

  lemma {:induction false} ListedIsBanned(jails: seq<Jail>)
    ensures forall k :: 0 <= k < |Listing(jails)| ==> Bans(jails, Listing(jails)[k].0)
  {
    if jails != [] {
      var n := |jails| - 1;
      ListedIsBanned(jails[..n]);
      NamedIn(jails[n].ips, jails[n].name);
      forall k | 0 <= k < |Listing(jails)| ensures Bans(jails, Listing(jails)[k].0) {
        BansInit(jails, Listing(jails)[k].0);
      }
    }
  }

  // -- over any sequence of reports --------------------------------------------------------

  function Table(reports: seq<Report>): map<string, int> {
    if reports == [] then map[] else SinceAfter(Table(reports[..|reports| - 1]), reports[|reports| - 1])
  }

  /** The first report of the unbroken run, ending with the last one, that all contain the address. */
  function RunStart(reports: seq<Report>, ip: string): (k: nat)
    requires reports != [] && Bans(reports[|reports| - 1].jails, ip)
    ensures k < |reports|
  {
    var n := |reports| - 1;
    if n > 0 && Bans(reports[n - 1].jails, ip) then RunStart(reports[..n], ip) else n
  }

  lemma {:induction false} RunIsUnbroken(reports: seq<Report>, ip: string)
    requires reports != [] && Bans(reports[|reports| - 1].jails, ip)
    ensures forall i :: RunStart(reports, ip) <= i < |reports| ==> Bans(reports[i].jails, ip)
    ensures RunStart(reports, ip) > 0 ==> !Bans(reports[RunStart(reports, ip) - 1].jails, ip)
  {
    var n := |reports| - 1;
    if n > 0 && Bans(reports[n - 1].jails, ip) {
      RunIsUnbroken(reports[..n], ip);
      assert forall i :: 0 <= i < n ==> reports[..n][i] == reports[i];
    }
  }

  /**
   * After any reports, the addresses are exactly those of the last one, and the time of each
   * is that of the first report of its unbroken run, whatever jails it was in.
   */
  lemma {:induction false} SinceIsStartOfRun(reports: seq<Report>, ip: string)
    requires reports != []
    ensures ip in Table(reports) <==> Bans(reports[|reports| - 1].jails, ip)
    ensures ip in Table(reports) ==> Table(reports)[ip] == reports[RunStart(reports, ip)].now
  {
    var n := |reports| - 1;
    NotedAllAt(Table(reports[..n]), reports[n].jails, reports[n].now, ip);
    if n > 0 {
      SinceIsStartOfRun(reports[..n], ip);
    }
  }
}
