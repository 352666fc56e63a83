/**
 * `parse_syslog_line`: the RFC 3339 pattern, then the BSD pattern of RFC 3164 section 4.1.2,
 * whose timestamps have no year. The year is taken from the clock and set back by one when
 * the result would lie more than a day in the future.
 */
module SyslogLines {
  import opened Common
  import opened Regex
  import opened Calendar
  import S = SshdMessages

  // -- the patterns ----------------------------------------------------------------

  function Digits(name: string, n: nat, next: Re): Re { Run(name, "", Digit, n, Some(n), next) }

  /** ` host proc: message` up to the end of the line. */
  const ORIGIN: Re :=
    Lit(" ", Run("host", "", NonSpace, 1, None,
      Lit(" ", Run("proc", "", NotColon, 1, None,
        Lit(": ", Run("message", "", NotNewline, 0, None, End))))))

  const CLOCK: Re := Digits("hour", 2, Lit(":", Digits("minute", 2, Lit(":", Digits("second", 2, ORIGIN)))))

  const BSD: Re :=
    Run("mon", "", Letters, 3, Some(3),
      Run("gap", "", Space, 1, None, Run("day", "", Digit, 1, Some(2), Lit(" ", CLOCK))))

  const OFFSET: Re :=
    Either(Run("zone", "+", Digit, 2, Some(2), Run("zoneMinute", ":", Digit, 2, Some(2), ORIGIN)),
      Either(Run("zone", "-", Digit, 2, Some(2), Run("zoneMinute", ":", Digit, 2, Some(2), ORIGIN)),
        Run("zone", "Z", Digit, 0, Some(0), ORIGIN)))

  function IsoDate(next: Re): Re {
    Digits("year", 4, Run("month", "-", Digit, 2, Some(2), Run("day", "-", Digit, 2, Some(2), next)))
  }

  function IsoClock(next: Re): Re {
    Run("hour", "T", Digit, 2, Some(2),
      Run("minute", ":", Digit, 2, Some(2), Run("second", ":", Digit, 2, Some(2), next)))
  }

  const FRACTION: Re := Either(Run("fraction", ".", Digit, 1, None, OFFSET), OFFSET)

  const RFC3339: Re := IsoDate(IsoClock(FRACTION))

  // -- the parser --------------------------------------------------------------------

  const MONTHS: seq<string> :=
    ["Jan", "Feb", "Mar", "Apr", "May", "Jun", "Jul", "Aug", "Sep", "Oct", "Nov", "Dec"]

  /** `_MONTHS.get(name)`, counting from one. */
  function MonthNumber(name: string, m: nat): Option<nat>
    requires m <= 12
    decreases 12 - m
  {
    if m == 12 then None else if MONTHS[m] == name then Some(m + 1) else MonthNumber(name, m + 1)
  }

  /** The clock: a civil time and the microseconds behind its second. */
  datatype Now = Now(civil: DateTime, micros: int)

  predicate IsNow(now: Now) { Valid(now.civil) && 0 <= now.micros < 1000000 }

  lemma AnyNow(t: DateTime, micros: int)
    requires Valid(t) && 0 <= micros <= 999999
    ensures IsNow(Now(t, micros))
  {
  }

  /** `dt > now + timedelta(days=1)` */
  predicate AfterTomorrow(t: DateTime, now: Now)
    requires Valid(t) && IsNow(now)
  {
    Seconds(t) * 1000000 > (Seconds(now.civil) + DAY) * 1000000 + now.micros
  }

  /** A constructed `datetime`, or the `ValueError` that constructing or replacing raises. */
  datatype Inferred = Raises | At(t: DateTime)

  /** The year inference; `t` carries the current year. */
  function InferYear(t: DateTime, now: Now): Inferred
    requires IsNow(now)
  {
    if !Valid(t) then Raises
    else if !AfterTomorrow(t, now) then At(t)
    else if Valid(t.(year := t.year - 1)) then At(t.(year := t.year - 1))
    else Raises
  }

  datatype Parsed<T> = NoMatch | Error | Line(stamp: T, proc: string, message: string)

  /** The timestamp of an RFC 3339 line goes to `fromisoformat` as it stands. */
  datatype Stamp = Civil(t: DateTime) | Iso(caps: Captures)

  function Text(caps: Captures, name: string): string { if name in caps then caps[name] else "" }

  function Value(caps: Captures, name: string): int {
    S.DecimalValue(Text(caps, name))
  }

  function ParseSyslogLine(line: string, nowYear: int, now: Now, isIso: Captures -> bool): Parsed<Stamp>
    requires IsNow(now)
  {
    var iso := Match(RFC3339, line, map[]);
    if iso.Some? then
      if isIso(iso.value) then Line(Iso(iso.value), Text(iso.value, "proc"), Text(iso.value, "message")) else NoMatch
    else
      match Match(BSD, line, map[]) {
        case None => NoMatch
        case Some(caps) =>
          match MonthNumber(Text(caps, "mon"), 0) {
            case None => NoMatch
            case Some(month) =>
              var t := DateTime(nowYear, month, Value(caps, "day"),
                                Value(caps, "hour"), Value(caps, "minute"), Value(caps, "second"));
              match InferYear(t, now) {
                case Raises => Error
                case At(t') => Line(Civil(t'), Text(caps, "proc"), Text(caps, "message"))
              }
          }
      }
  }

  // -- year inference -------------------------------------------------------------------

  /** Every accepted time lies after now minus 366 days and at most one day after now. */
  lemma InferredBounds(t: DateTime, now: Now)
    requires IsNow(now) && t.year == now.civil.year && InferYear(t, now).At?
    ensures var r := InferYear(t, now).t;
      && Valid(r)
      && Seconds(r) * 1000000 > (Seconds(now.civil) - 366 * DAY) * 1000000 + now.micros
      && Seconds(r) * 1000000 <= (Seconds(now.civil) + DAY) * 1000000 + now.micros
  {
    var y := t.year;
    WithinYear(now.civil);
    WithinYear(t);
    YearLength(y);
    if AfterTomorrow(t, now) {
      OneYearLater(t.(year := y - 1));
      WithinYear(t.(year := y - 1));
    }
  }

  /**
   * Which year-less times come back: one of this year unless it lies more than a day ahead,
   * and one of last year exactly when its date exists this year too and it is younger than
   * a year less a day, where the year has 366 days if a 29 February lies in it.
   */
  lemma InferExact(t: DateTime, now: Now)
    requires IsNow(now) && Valid(t)
    ensures InferYear(t.(year := now.civil.year), now) == At(t) <==>
      || (t.year == now.civil.year
          && Seconds(t) * 1000000 <= (Seconds(now.civil) + DAY) * 1000000 + now.micros)
      || (t.year == now.civil.year - 1
          && ValidDate(now.civil.year, t.month, t.day)
          && (Seconds(t) + (YearStep(t.year, t.month) - 1) * DAY) * 1000000 > Seconds(now.civil) * 1000000 + now.micros)
  {
    if t.year == now.civil.year - 1 && ValidDate(now.civil.year, t.month, t.day) {
      OneYearLater(t);
    }
  }

  lemma RecentYear(t: DateTime, now: DateTime)
    requires Valid(t) && Valid(now) && Seconds(t) <= Seconds(now) <= Seconds(t) + 364 * DAY
    ensures now.year - 1 <= t.year <= now.year
  {
    WithinYear(t);
    WithinYear(now);
    if t.year > now.year {
      YearsAscend(now.year + 1, t.year);
    }
    if t.year < now.year - 1 {
      YearsAscend(t.year + 1, now.year - 1);
      YearLength(now.year - 1);
    }
  }

  /** Any time of the last 364 days comes back, unless it is on the 29 February of last year. */
  lemma InferRecent(t: DateTime, now: Now)
    requires IsNow(now) && Valid(t)
    requires Seconds(t) <= Seconds(now.civil)
    requires (Seconds(t) + 364 * DAY) * 1000000 > Seconds(now.civil) * 1000000 + now.micros
    requires !(t.year == now.civil.year - 1 && t.month == 2 && t.day == 29)
    ensures InferYear(t.(year := now.civil.year), now) == At(t)
  {
    RecentYear(t, now.civil);
    InferExact(t, now);
  }

  /** The 29 February of last year raises: no valid date can be built from it. */
  lemma LeapDayRaises(t: DateTime, now: Now)
    requires IsNow(now) && Valid(t) && t.year == now.civil.year - 1 && t.month == 2 && t.day == 29
    ensures InferYear(t.(year := now.civil.year), now) == Raises
  {
  }

  // -- printing and parsing a BSD line -----------------------------------------------------

  function TwoDigits(n: int): string
    requires 0 <= n < 100
  {
    [('0' as int + n / 10) as char, ('0' as int + n % 10) as char]
  }

  /** The day of the month, padded with a blank as RFC 3164 asks. */
  function DayText(d: int): string
    requires 1 <= d <= 31
  {
    if d < 10 then [('0' as int + d) as char] else TwoDigits(d)
  }

  function Gap(d: int): string { if d < 10 then "  " else " " }

  function PrintOrigin(host: string, proc: string, message: string): string {
    " " + (host + (" " + (proc + (": " + message))))
  }

  function PrintClock(t: DateTime, tail: string): string
    requires Valid(t)
  {
    TwoDigits(t.hour) + (":" + (TwoDigits(t.minute) + (":" + (TwoDigits(t.second) + tail))))
  }

  function PrintBsd(t: DateTime, host: string, proc: string, message: string): string
    requires Valid(t)
  {
    MONTHS[t.month - 1] +
    (Gap(t.day) + (DayText(t.day) + (" " + PrintClock(t, PrintOrigin(host, proc, message)))))
  }

  predicate IsOrigin(host: string, proc: string, message: string) {
    host != "" && AllIn(host, NonSpace) && proc != "" && AllIn(proc, NotColon) && AllIn(message, NotNewline)
  }

  function OriginCaptures(host: string, proc: string, message: string, caps: Captures): Captures {
    caps["host" := host]["proc" := proc]["message" := message]
  }

  lemma OriginMatches(host: string, proc: string, message: string, caps: Captures)
    requires IsOrigin(host, proc, message)
    ensures Match(ORIGIN, PrintOrigin(host, proc, message), caps)
         == Some(OriginCaptures(host, proc, message, caps))
  {
    var last := Run("message", "", NotNewline, 0, None, End);
    var procRun := Run("proc", "", NotColon, 1, None, Lit(": ", last));
    var hostRun := Run("host", "", NonSpace, 1, None, Lit(" ", procRun));
    var c1 := caps["host" := host];
    var c2 := c1["proc" := proc];
    MessageMatches(message, last, c2);
    MatchLit(": ", last, message, c2);
    MatchRunPlain(procRun, proc, ": " + message, c1);
    MatchLit(" ", procRun, proc + (": " + message), c1);
    MatchRunPlain(hostRun, host, " " + (proc + (": " + message)), caps);
    MatchLit(" ", hostRun, host + (" " + (proc + (": " + message))), caps);
  }

  lemma MessageMatches(message: string, last: Re, caps: Captures)
    requires AllIn(message, NotNewline) && last == Run("message", "", NotNewline, 0, None, End)
    ensures Match(last, message, caps) == Some(caps["message" := message])
  {
    assert message + "" == message;
    MatchRunPlain(last, message, "", caps);
  }

  function ClockCaptures(t: DateTime, caps: Captures): Captures
    requires Valid(t)
  {
    caps["hour" := TwoDigits(t.hour)]["minute" := TwoDigits(t.minute)]["second" := TwoDigits(t.second)]
  }

  lemma ClockMatches(t: DateTime, host: string, proc: string, message: string, caps: Captures)
    requires Valid(t) && IsOrigin(host, proc, message)
    ensures Match(CLOCK, PrintClock(t, PrintOrigin(host, proc, message)), caps)
         == Some(OriginCaptures(host, proc, message, ClockCaptures(t, caps)))
  {
    var tail := PrintOrigin(host, proc, message);
    var second := Digits("second", 2, ORIGIN);
    var minute := Digits("minute", 2, Lit(":", second));
    var c1 := caps["hour" := TwoDigits(t.hour)];
    var c2 := c1["minute" := TwoDigits(t.minute)];
    OriginMatches(host, proc, message, ClockCaptures(t, caps));
    MatchRunPlain(second, TwoDigits(t.second), tail, c2);
    MatchLit(":", second, TwoDigits(t.second) + tail, c2);
    MatchRunPlain(minute, TwoDigits(t.minute), ":" + (TwoDigits(t.second) + tail), c1);
    MatchLit(":", minute, TwoDigits(t.minute) + (":" + (TwoDigits(t.second) + tail)), c1);
    MatchRunPlain(CLOCK, TwoDigits(t.hour), ":" + (TwoDigits(t.minute) + (":" + (TwoDigits(t.second) + tail))), caps);
  }

  function BsdCaptures(t: DateTime, host: string, proc: string, message: string): Captures
    requires Valid(t)
  {
    OriginCaptures(host, proc, message,
      ClockCaptures(t, map["mon" := MONTHS[t.month - 1], "gap" := Gap(t.day), "day" := DayText(t.day)]))
  }

  lemma MonthShape(m: nat)
    requires m < 12
    ensures |MONTHS[m]| == 3 && AllIn(MONTHS[m], Letters) && !IsDigit(MONTHS[m][0])
  {
  }

  lemma MonthsDiffer(i: nat, j: nat)
    requires i < j < 12
    ensures MONTHS[i] != MONTHS[j]
  {
    assert MONTHS[i][1] != MONTHS[j][1] || MONTHS[i][2] != MONTHS[j][2];
  }

  lemma {:induction false} MonthFound(m: nat, k: nat)
    requires k <= m < 12
    ensures MonthNumber(MONTHS[m], k) == Some(m + 1)
    decreases m - k
  {
    if k < m {
      MonthsDiffer(k, m);
      MonthFound(m, k + 1);
    }
  }

  lemma BsdMatches(t: DateTime, host: string, proc: string, message: string)
    requires Valid(t) && IsOrigin(host, proc, message)
    ensures Match(BSD, PrintBsd(t, host, proc, message), map[]) == Some(BsdCaptures(t, host, proc, message))
  {
    var tail := Gap(t.day) + (DayText(t.day) + (" " + PrintClock(t, PrintOrigin(host, proc, message))));
    var mon := MONTHS[t.month - 1];
    MonthShape(t.month - 1);
    DayMatches(t, host, proc, message, map["mon" := mon]);
    assert tail[0] == ' ';
    MatchRunPlain(BSD, mon, tail, map[]);
  }

  lemma DayMatches(t: DateTime, host: string, proc: string, message: string, caps: Captures)
    requires Valid(t) && IsOrigin(host, proc, message)
    ensures
      Match(BSD.next, Gap(t.day) + (DayText(t.day) + (" " + PrintClock(t, PrintOrigin(host, proc, message)))), caps)
      == Some(OriginCaptures(host, proc, message,
                             ClockCaptures(t, caps["gap" := Gap(t.day)]["day" := DayText(t.day)])))
  {
    var clock := PrintClock(t, PrintOrigin(host, proc, message));
    ClockMatches(t, host, proc, message, caps["gap" := Gap(t.day)]["day" := DayText(t.day)]);
    DayShape(t.day);
    GapAndDay(Gap(t.day), DayText(t.day), clock, caps);
  }

  lemma DayShape(d: int)
    requires 1 <= d <= 31
    ensures Gap(d) != "" && AllIn(Gap(d), Space) && 1 <= |DayText(d)| <= 2 && AllIn(DayText(d), Digit)
  {
  }

  lemma DayMatchesRun(day: string, rest: string, next: Re, caps: Captures)
    requires 1 <= |day| <= 2 && AllIn(day, Digit)
    requires Match(next, rest, caps["day" := day]).Some?
    ensures Match(Run("day", "", Digit, 1, Some(2), Lit(" ", next)), day + (" " + rest), caps)
         == Match(next, rest, caps["day" := day])
  {
    MatchLit(" ", next, rest, caps["day" := day]);
    MatchRunPlain(Run("day", "", Digit, 1, Some(2), Lit(" ", next)), day, " " + rest, caps);
  }

  lemma GapAndDay(gap: string, day: string, clock: string, caps: Captures)
    requires gap != "" && AllIn(gap, Space) && 1 <= |day| <= 2 && AllIn(day, Digit)
    requires Match(CLOCK, clock, caps["gap" := gap]["day" := day]).Some?
    ensures Match(BSD.next, gap + (day + (" " + clock)), caps) == Match(CLOCK, clock, caps["gap" := gap]["day" := day])
  {
    DayMatchesRun(day, clock, CLOCK, caps["gap" := gap]);
    assert (day + (" " + clock))[0] == day[0];
    assert !In(day[0], Space);
    MatchRunPlain(BSD.next, gap, day + (" " + clock), caps);
  }

  /** A line that starts with a month is not an RFC 3339 line. */
  lemma NotRfc3339(line: string)
    requires line != "" && !IsDigit(line[0])
    ensures Match(RFC3339, line, map[]).None?
  {
    assert line[0..] == line;
    assert RunLength(line, Digit, Some(4)) == 0;
  }

  lemma TwoDigitsValue(n: int)
    requires 0 <= n < 100
    ensures S.DecimalValue(TwoDigits(n)) == n
  {
    var s := TwoDigits(n);
    assert s[..1] == [s[0]] && [s[0]][..0] == "";
    assert S.DecimalValue([s[0]]) == n / 10;
  }

  lemma DayValue(d: int)
    requires 1 <= d <= 31
    ensures S.DecimalValue(DayText(d)) == d
  {
    if d < 10 {
      assert DayText(d)[..0] == "";
    } else {
      TwoDigitsValue(d);
    }
  }

  /** The fields that are read off a printed line, with the current year. */
  lemma FieldsReadBack(t: DateTime, host: string, proc: string, message: string, nowYear: int)
    requires Valid(t)
    ensures var caps := BsdCaptures(t, host, proc, message);
      && MonthNumber(Text(caps, "mon"), 0) == Some(t.month)
      && DateTime(nowYear, t.month, Value(caps, "day"), Value(caps, "hour"), Value(caps, "minute"),
                  Value(caps, "second"))
         == t.(year := nowYear)
      && Text(caps, "proc") == proc && Text(caps, "message") == message
  {
    MonthFound(t.month - 1, 0);
    DayValue(t.day);
    TwoDigitsValue(t.hour);
    TwoDigitsValue(t.minute);
    TwoDigitsValue(t.second);
    var date := map["mon" := MONTHS[t.month - 1], "gap" := Gap(t.day), "day" := DayText(t.day)];
    DateFields(MONTHS[t.month - 1], Gap(t.day), DayText(t.day));
    ClockFields(t, date);
    OriginFields(host, proc, message, ClockCaptures(t, date));
  }

  lemma DateFields(mon: string, gap: string, day: string)
    ensures var caps := map["mon" := mon, "gap" := gap, "day" := day];
            Text(caps, "mon") == mon && Text(caps, "day") == day
  {
  }

  lemma ClockFields(t: DateTime, caps: Captures)
    requires Valid(t)
    ensures var c := ClockCaptures(t, caps);
      && Text(c, "mon") == Text(caps, "mon") && Text(c, "day") == Text(caps, "day")
      && Text(c, "hour") == TwoDigits(t.hour) && Text(c, "minute") == TwoDigits(t.minute)
      && Text(c, "second") == TwoDigits(t.second)
  {
  }

  lemma OriginFields(host: string, proc: string, message: string, caps: Captures)
    ensures var c := OriginCaptures(host, proc, message, caps);
      && Text(c, "mon") == Text(caps, "mon") && Text(c, "day") == Text(caps, "day")
      && Text(c, "hour") == Text(caps, "hour") && Text(c, "minute") == Text(caps, "minute")
      && Text(c, "second") == Text(caps, "second")
      && Text(c, "proc") == proc && Text(c, "message") == message
  {
  }

  /**
   * A BSD line is split into its parts whatever host, process and message it names, and its
   * time is the one that the year inference makes of the printed date.
   */
  lemma ParsePrintBsd(t: DateTime, host: string, proc: string, message: string, nowYear: int, now: Now,
                      isIso: Captures -> bool)
    requires Valid(t) && IsNow(now) && IsOrigin(host, proc, message)
    ensures ParseSyslogLine(PrintBsd(t, host, proc, message), nowYear, now, isIso)
         == match InferYear(t.(year := nowYear), now)
            case Raises => Error
            case At(t') => Line(Civil(t'), proc, message)
  {
    var line := PrintBsd(t, host, proc, message);
    MonthShape(t.month - 1);
    assert line[0] == MONTHS[t.month - 1][0];
    NotRfc3339(line);
    BsdMatches(t, host, proc, message);
    FieldsReadBack(t, host, proc, message, nowYear);
  }

  /** Year inference undoes BSD formatting for all times of the last 364 days but one leap day. */
  lemma BsdRoundTrip(t: DateTime, host: string, proc: string, message: string, now: Now, isIso: Captures -> bool)
    requires Valid(t) && IsNow(now) && IsOrigin(host, proc, message)
    requires Seconds(t) <= Seconds(now.civil)
    requires (Seconds(t) + 364 * DAY) * 1000000 > Seconds(now.civil) * 1000000 + now.micros
    requires !(t.year == now.civil.year - 1 && t.month == 2 && t.day == 29)
    ensures ParseSyslogLine(PrintBsd(t, host, proc, message), now.civil.year, now, isIso)
         == Line(Civil(t), proc, message)
  {
    ParsePrintBsd(t, host, proc, message, now.civil.year, now, isIso);
    InferRecent(t, now);
  }

  // -- which process wrote the line ------------------------------------------------------------

  /** `proc_field.split("[", 1)[0]` */
  function BeforeBracket(s: string): string {
    if s == "" || s[0] == '[' then "" else [s[0]] + BeforeBracket(s[1..])
  }

  predicate IsSshdProc(proc: string) { BeforeBracket(proc) == "sshd" }

  lemma {:induction false} BeforeBracketOf(name: string, rest: string)
    requires '[' !in name && (rest == "" || rest[0] == '[')
    ensures BeforeBracket(name + rest) == name
  {
    if name == "" {
      assert name + rest == rest;
    } else {
      assert (name + rest)[1..] == name[1..] + rest;
      BeforeBracketOf(name[1..], rest);
    }
  }

  /** With or without a process number, exactly the program `sshd` is recognized. */
  lemma SshdWithAnyPid(name: string, pid: Option<nat>)
    requires '[' !in name
    ensures IsSshdProc(name + if pid.Some? then "[" + S.Decimal(pid.value) + "]" else "") <==> name == "sshd"
  {
    BeforeBracketOf(name, if pid.Some? then "[" + S.Decimal(pid.value) + "]" else "");
  }
}
