/**
 * Exactly which lines `parse_syslog_line` takes apart: the RFC 3339 and the BSD form written
 * out, each of which is taken apart as written, and the proof that no other line is.
 */
module SyslogShape {
  import opened Common
  import opened Regex
  import opened Calendar
  import opened SyslogLines

  predicate AreDigits(s: string, n: nat) { |s| == n && AllIn(s, Digit) }

  // -- one field -----------------------------------------------------------------------------

  lemma FieldMatches(re: Re, w: string, rest: string, caps: Captures)
    requires re.Run? && AllIn(w, re.cls) && re.lo <= |w| && (re.hi.Some? ==> |w| <= re.hi.value)
    requires rest == "" || !In(rest[0], re.cls) || re.hi == Some(|w|)
    requires Match(re.next, rest, caps[re.name := re.prefix + w]).Some?
    ensures Match(re, re.prefix + (w + rest), caps) == Match(re.next, rest, caps[re.name := re.prefix + w])
  {
    MatchRunGreedy(re, w, rest, caps);
    assert re.prefix + (w + rest) == re.prefix + w + rest;
  }

  // -- host, process and message ---------------------------------------------------------------

  lemma PlainSplits(re: Re, s: string, caps: Captures) returns (w: string, rest: string)
    requires re.Run? && re.prefix == "" && Match(re, s, caps).Some?
    ensures s == w + rest && AllIn(w, re.cls) && re.lo <= |w| && (re.hi.Some? ==> |w| <= re.hi.value)
    ensures Match(re, s, caps) == Match(re.next, rest, caps[re.name := w])
  {
    w, rest := RunSplits(re, s, caps);
    assert "" + w == w && "" + (w + rest) == w + rest;
  }

  lemma OriginSplits(s: string, caps: Captures) returns (host: string, proc: string, message: string)
    requires Match(ORIGIN, s, caps).Some?
    ensures IsOrigin(host, proc, message) && s == PrintOrigin(host, proc, message)
    ensures Match(ORIGIN, s, caps) == Some(OriginCaptures(host, proc, message, caps))
  {
    var s1 := LitSplits(ORIGIN, s, caps);
    var s2;
    host, s2 := PlainSplits(ORIGIN.next, s1, caps);
    var s3 := LitSplits(ORIGIN.next.next, s2, caps["host" := host]);
    proc, message := ProcSplits(ORIGIN.next.next.next, s3, caps["host" := host]);
  }

  lemma ProcSplits(re: Re, s: string, caps: Captures) returns (proc: string, message: string)
    requires re == Run("proc", "", NotColon, 1, None, Lit(": ", Run("message", "", NotNewline, 0, None, End)))
    requires Match(re, s, caps).Some?
    ensures proc != "" && AllIn(proc, NotColon) && AllIn(message, NotNewline) && s == proc + (": " + message)
    ensures Match(re, s, caps) == Some(caps["proc" := proc]["message" := message])
  {
    var s1, s3;
    proc, s1 := PlainSplits(re, s, caps);
    var s2 := LitSplits(re.next, s1, caps["proc" := proc]);
    message, s3 := PlainSplits(re.next.next, s2, caps["proc" := proc]);
    assert s3 == "" && message + s3 == message;
  }

  // -- the RFC 3339 form -------------------------------------------------------------------------

  datatype Zone = Zulu | East(hours: string, minutes: string) | West(hours: string, minutes: string)

  datatype IsoTime = IsoTime(
    year: string,
    month: string,
    day: string,
    hour: string,
    minute: string,
    second: string,
    fraction: Option<string>,
    zone: Zone)

  predicate IsZone(z: Zone) { z.Zulu? || (AreDigits(z.hours, 2) && AreDigits(z.minutes, 2)) }

  predicate IsDate(t: IsoTime) { AreDigits(t.year, 4) && AreDigits(t.month, 2) && AreDigits(t.day, 2) }

  predicate IsClock(t: IsoTime) { AreDigits(t.hour, 2) && AreDigits(t.minute, 2) && AreDigits(t.second, 2) }

  predicate IsIsoTime(t: IsoTime) {
    && IsDate(t) && IsClock(t) && IsZone(t.zone)
    && (t.fraction.Some? ==> t.fraction.value != "" && AllIn(t.fraction.value, Digit))
  }

  function DateText(t: IsoTime, rest: string): string { t.year + ("-" + (t.month + ("-" + (t.day + rest)))) }

  function ClockText(t: IsoTime, rest: string): string {
    "T" + (t.hour + (":" + (t.minute + (":" + (t.second + rest)))))
  }

  function FractionText(f: Option<string>, rest: string): string {
    if f.Some? then "." + (f.value + rest) else rest
  }

  function ZoneText(z: Zone, rest: string): string {
    match z
    case Zulu => "Z" + rest
    case East(h, m) => "+" + (h + (":" + (m + rest)))
    case West(h, m) => "-" + (h + (":" + (m + rest)))
  }

  /** The line as it is written. */
  function IsoLine(t: IsoTime, host: string, proc: string, message: string): string {
    DateText(t, ClockText(t, FractionText(t.fraction, ZoneText(t.zone, PrintOrigin(host, proc, message)))))
  }

  function DateCaptures(t: IsoTime, caps: Captures): Captures {
    caps["year" := t.year]["month" := "-" + t.month]["day" := "-" + t.day]
  }

  function HoursCaptures(t: IsoTime, caps: Captures): Captures {
    caps["hour" := "T" + t.hour]["minute" := ":" + t.minute]["second" := ":" + t.second]
  }

  function FractionCaptures(f: Option<string>, caps: Captures): Captures {
    if f.Some? then caps["fraction" := "." + f.value] else caps
  }

  function ZoneCaptures(z: Zone, caps: Captures): Captures {
    match z
    case Zulu => caps["zone" := "Z"]
    case East(h, m) => caps["zone" := "+" + h]["zoneMinute" := ":" + m]
    case West(h, m) => caps["zone" := "-" + h]["zoneMinute" := ":" + m]
  }

  /** What is captured of the timestamp. */
  function StampCaptures(t: IsoTime): Captures {
    ZoneCaptures(t.zone, FractionCaptures(t.fraction, HoursCaptures(t, DateCaptures(t, map[]))))
  }

  lemma DateMatches(t: IsoTime, next: Re, rest: string, caps: Captures)
    requires IsDate(t) && Match(next, rest, DateCaptures(t, caps)).Some?
    ensures Match(IsoDate(next), DateText(t, rest), caps) == Match(next, rest, DateCaptures(t, caps))
  {
    var day := Run("day", "-", Digit, 2, Some(2), next);
    var month := Run("month", "-", Digit, 2, Some(2), day);
    var year := Run("year", "", Digit, 4, Some(4), month);
    var c1 := caps["year" := t.year];
    var c2 := c1["month" := "-" + t.month];
    FieldMatches(day, t.day, rest, c2);
    FieldMatches(month, t.month, "-" + (t.day + rest), c1);
    assert "" + t.year == t.year;
    FieldMatches(year, t.year, "-" + (t.month + ("-" + (t.day + rest))), caps);
    assert "" + DateText(t, rest) == DateText(t, rest);
  }

  lemma ClockTextMatches(t: IsoTime, next: Re, rest: string, caps: Captures)
    requires IsClock(t) && Match(next, rest, HoursCaptures(t, caps)).Some?
    ensures Match(IsoClock(next), ClockText(t, rest), caps) == Match(next, rest, HoursCaptures(t, caps))
  {
    var second := Run("second", ":", Digit, 2, Some(2), next);
    var minute := Run("minute", ":", Digit, 2, Some(2), second);
    var hour := Run("hour", "T", Digit, 2, Some(2), minute);
    var c1 := caps["hour" := "T" + t.hour];
    var c2 := c1["minute" := ":" + t.minute];
    FieldMatches(second, t.second, rest, c2);
    FieldMatches(minute, t.minute, ":" + (t.second + rest), c1);
    FieldMatches(hour, t.hour, ":" + (t.minute + (":" + (t.second + rest))), caps);
  }

  lemma SignedMatches(sign: string, hours: string, minutes: string, next: Re, rest: string, caps: Captures)
    requires AreDigits(hours, 2) && AreDigits(minutes, 2)
    requires Match(next, rest, caps["zone" := sign + hours]["zoneMinute" := ":" + minutes]).Some?
    ensures Match(Run("zone", sign, Digit, 2, Some(2), Run("zoneMinute", ":", Digit, 2, Some(2), next)),
                  sign + (hours + (":" + (minutes + rest))), caps)
         == Match(next, rest, caps["zone" := sign + hours]["zoneMinute" := ":" + minutes])
  {
    var second := Run("zoneMinute", ":", Digit, 2, Some(2), next);
    FieldMatches(second, minutes, rest, caps["zone" := sign + hours]);
    FieldMatches(Run("zone", sign, Digit, 2, Some(2), second), hours, ":" + (minutes + rest), caps);
  }

  /** A text that does not start with the prefix of a run is not matched by it. */
  lemma OtherStart(re: Re, s: string, caps: Captures)
    requires re.Run? && |re.prefix| == 1 && (s == "" || s[0] != re.prefix[0])
    ensures Match(re, s, caps).None?
  {
    assert s != "" ==> s[..1][0] == s[0];
  }

  lemma ZoneMatches(z: Zone, rest: string, caps: Captures)
    requires IsZone(z) && Match(ORIGIN, rest, ZoneCaptures(z, caps)).Some?
    ensures Match(OFFSET, ZoneText(z, rest), caps) == Match(ORIGIN, rest, ZoneCaptures(z, caps))
  {
    var s := ZoneText(z, rest);
    match z {
      case East(h, m) => SignedMatches("+", h, m, ORIGIN, rest, caps);
      case West(h, m) =>
        OtherStart(OFFSET.first, s, caps);
        SignedMatches("-", h, m, ORIGIN, rest, caps);
      case Zulu =>
        OtherStart(OFFSET.first, s, caps);
        OtherStart(OFFSET.second.first, s, caps);
        assert "" + rest == rest && "Z" + "" == "Z";
        FieldMatches(OFFSET.second.second, "", rest, caps);
    }
  }

  lemma ZoneStart(z: Zone, rest: string)
    ensures ZoneText(z, rest) != "" && ZoneText(z, rest)[0] != '.' && !In(ZoneText(z, rest)[0], Digit)
  {
  }

  lemma FractionMatches(f: Option<string>, z: Zone, rest: string, caps: Captures)
    requires f.Some? ==> f.value != "" && AllIn(f.value, Digit)
    requires Match(OFFSET, ZoneText(z, rest), FractionCaptures(f, caps)).Some?
    ensures Match(FRACTION, FractionText(f, ZoneText(z, rest)), caps)
         == Match(OFFSET, ZoneText(z, rest), FractionCaptures(f, caps))
  {
    ZoneStart(z, rest);
    if f.Some? {
      FieldMatches(FRACTION.first, f.value, ZoneText(z, rest), caps);
    } else {
      OtherStart(FRACTION.first, ZoneText(z, rest), caps);
    }
  }

  lemma IsoMatches(t: IsoTime, host: string, proc: string, message: string)
    requires IsIsoTime(t) && IsOrigin(host, proc, message)
    ensures Match(RFC3339, IsoLine(t, host, proc, message), map[])
         == Some(OriginCaptures(host, proc, message, StampCaptures(t)))
  {
    var c1 := DateCaptures(t, map[]);
    var c2 := HoursCaptures(t, c1);
    var c3 := FractionCaptures(t.fraction, c2);
    var origin := PrintOrigin(host, proc, message);
    OriginMatches(host, proc, message, ZoneCaptures(t.zone, c3));
    ZoneMatches(t.zone, origin, c3);
    FractionMatches(t.fraction, t.zone, origin, c2);
    var rest := FractionText(t.fraction, ZoneText(t.zone, origin));
    ClockTextMatches(t, FRACTION, rest, c1);
    DateMatches(t, IsoClock(FRACTION), ClockText(t, rest), map[]);
  }

  /** A line with an RFC 3339 timestamp gives its process and its message, if the timestamp is accepted. */
  lemma ParsePrintIso(t: IsoTime, host: string, proc: string, message: string, nowYear: int, now: Now,
                      isIso: Captures -> bool)
    requires IsIsoTime(t) && IsOrigin(host, proc, message) && IsNow(now)
    ensures var caps := OriginCaptures(host, proc, message, StampCaptures(t));
      ParseSyslogLine(IsoLine(t, host, proc, message), nowYear, now, isIso)
      == if isIso(caps) then Line(Iso(caps), proc, message) else NoMatch
  {
    IsoMatches(t, host, proc, message);
  }

  // -- no other line matches -----------------------------------------------------------------------

  /** A field of `n` digits behind its prefix. */
  lemma FieldSplits(re: Re, n: nat, s: string, caps: Captures) returns (w: string, rest: string)
    requires re.Run? && re.cls == Digit && re.lo == n && re.hi == Some(n) && Match(re, s, caps).Some?
    ensures s == re.prefix + (w + rest) && AreDigits(w, n)
    ensures Match(re, s, caps) == Match(re.next, rest, caps[re.name := re.prefix + w])
  {
    w, rest := RunSplits(re, s, caps);
  }

  /** The timestamp of which these are the fields. */
  function Stamp(date: (string, string, string), clock: (string, string, string), fraction: Option<string>, zone: Zone):
    IsoTime
  {
    IsoTime(date.0, date.1, date.2, clock.0, clock.1, clock.2, fraction, zone)
  }

  lemma DateSplits(next: Re, s: string, caps: Captures) returns (d: (string, string, string), rest: string)
    requires Match(IsoDate(next), s, caps).Some?
    ensures AreDigits(d.0, 4) && AreDigits(d.1, 2) && AreDigits(d.2, 2)
    ensures s == d.0 + ("-" + (d.1 + ("-" + (d.2 + rest))))
    ensures Match(IsoDate(next), s, caps)
         == Match(next, rest, caps["year" := d.0]["month" := "-" + d.1]["day" := "-" + d.2])
  {
    var re := IsoDate(next);
    var y, s1 := FieldSplits(re, 4, s, caps);
    assert "" + y == y && "" + (y + s1) == y + s1;
    var m, s2 := FieldSplits(re.next, 2, s1, caps["year" := y]);
    var day, s3 := FieldSplits(re.next.next, 2, s2, caps["year" := y]["month" := "-" + m]);
    d, rest := (y, m, day), s3;
  }

  lemma ClockSplits(next: Re, s: string, caps: Captures) returns (c: (string, string, string), rest: string)
    requires Match(IsoClock(next), s, caps).Some?
    ensures AreDigits(c.0, 2) && AreDigits(c.1, 2) && AreDigits(c.2, 2)
    ensures s == "T" + (c.0 + (":" + (c.1 + (":" + (c.2 + rest)))))
    ensures Match(IsoClock(next), s, caps)
         == Match(next, rest, caps["hour" := "T" + c.0]["minute" := ":" + c.1]["second" := ":" + c.2])
  {
    var re := IsoClock(next);
    var h, s1 := FieldSplits(re, 2, s, caps);
    var m, s2 := FieldSplits(re.next, 2, s1, caps["hour" := "T" + h]);
    var sec, s3 := FieldSplits(re.next.next, 2, s2, caps["hour" := "T" + h]["minute" := ":" + m]);
    c, rest := (h, m, sec), s3;
  }

  function SignedZone(sign: string): Re {
    Run("zone", sign, Digit, 2, Some(2), Run("zoneMinute", ":", Digit, 2, Some(2), ORIGIN))
  }

  lemma SignedSplits(sign: string, s: string, caps: Captures) returns (h: string, m: string, rest: string)
    requires Match(SignedZone(sign), s, caps).Some?
    ensures AreDigits(h, 2) && AreDigits(m, 2) && s == sign + (h + (":" + (m + rest)))
    ensures Match(SignedZone(sign), s, caps) == Match(ORIGIN, rest, caps["zone" := sign + h]["zoneMinute" := ":" + m])
  {
    var re := SignedZone(sign);
    var s1;
    h, s1 := FieldSplits(re, 2, s, caps);
    m, rest := FieldSplits(re.next, 2, s1, caps["zone" := sign + h]);
  }

  lemma ZoneSplits(s: string, caps: Captures) returns (z: Zone, rest: string)
    requires Match(OFFSET, s, caps).Some?
    ensures IsZone(z) && s == ZoneText(z, rest) && Match(OFFSET, s, caps) == Match(ORIGIN, rest, ZoneCaptures(z, caps))
  {
    var h, m;
    if Match(OFFSET.first, s, caps).Some? {
      h, m, rest := SignedSplits("+", s, caps);
      z := East(h, m);
    } else if Match(OFFSET.second.first, s, caps).Some? {
      h, m, rest := SignedSplits("-", s, caps);
      z := West(h, m);
    } else {
      h, rest := RunSplits(OFFSET.second.second, s, caps);
      z := Zulu;
      assert h == "" && "Z" + h == "Z" && h + rest == rest;
    }
  }

  lemma FractionSplits(s: string, caps: Captures) returns (f: Option<string>, rest: string)
    requires Match(FRACTION, s, caps).Some?
    ensures (f.Some? ==> f.value != "" && AllIn(f.value, Digit)) && s == FractionText(f, rest)
    ensures Match(FRACTION, s, caps) == Match(OFFSET, rest, FractionCaptures(f, caps))
  {
    if Match(FRACTION.first, s, caps).Some? {
      var w;
      w, rest := RunSplits(FRACTION.first, s, caps);
      f := Some(w);
    } else {
      f, rest := None, s;
    }
  }

  /** A line that matches the RFC 3339 pattern is one of these lines, and captured as such. */
  lemma IsoSplits(line: string) returns (t: IsoTime, host: string, proc: string, message: string)
    requires Match(RFC3339, line, map[]).Some?
    ensures IsIsoTime(t) && IsOrigin(host, proc, message) && line == IsoLine(t, host, proc, message)
    ensures Match(RFC3339, line, map[]) == Some(OriginCaptures(host, proc, message, StampCaptures(t)))
  {
    var d, s1 := DateSplits(IsoClock(FRACTION), line, map[]);
    var t1 := Stamp(d, d, None, Zulu);
    var c, s2 := ClockSplits(FRACTION, s1, DateCaptures(t1, map[]));
    var t2 := Stamp(d, c, None, Zulu);
    var f, s3 := FractionSplits(s2, HoursCaptures(t2, DateCaptures(t2, map[])));
    var z, s4 := ZoneSplits(s3, FractionCaptures(f, HoursCaptures(t2, DateCaptures(t2, map[]))));
    t := Stamp(d, c, f, z);
    host, proc, message := OriginSplits(s4, StampCaptures(t));
  }

  // -- the BSD form ----------------------------------------------------------------------------------

  /** The fields of a BSD timestamp as they are written. */
  datatype BsdTime = BsdTime(mon: string, gap: string, day: string, hour: string, minute: string, second: string)

  predicate IsBsdTime(t: BsdTime) {
    && |t.mon| == 3 && AllIn(t.mon, Letters)
    && t.gap != "" && AllIn(t.gap, Space)
    && 1 <= |t.day| <= 2 && AllIn(t.day, Digit)
    && AreDigits(t.hour, 2) && AreDigits(t.minute, 2) && AreDigits(t.second, 2)
  }

  function BsdClockText(h: string, m: string, s: string, rest: string): string { h + (":" + (m + (":" + (s + rest)))) }

  function BsdLine(t: BsdTime, host: string, proc: string, message: string): string {
    t.mon + (t.gap + (t.day + (" " + BsdClockText(t.hour, t.minute, t.second, PrintOrigin(host, proc, message)))))
  }

  lemma BsdClockSplits(s: string, caps: Captures)
    returns (h: string, m: string, sec: string, host: string, proc: string, message: string)
    requires Match(CLOCK, s, caps).Some?
    ensures AreDigits(h, 2) && AreDigits(m, 2) && AreDigits(sec, 2) && IsOrigin(host, proc, message)
    ensures s == BsdClockText(h, m, sec, PrintOrigin(host, proc, message))
    ensures Match(CLOCK, s, caps)
         == Some(OriginCaptures(host, proc, message, caps["hour" := h]["minute" := m]["second" := sec]))
  {
    var s1, s3, s5;
    h, s1 := PlainSplits(CLOCK, s, caps);
    var s2 := LitSplits(CLOCK.next, s1, caps["hour" := h]);
    m, s3 := PlainSplits(CLOCK.next.next, s2, caps["hour" := h]);
    var c2 := caps["hour" := h]["minute" := m];
    var s4 := LitSplits(CLOCK.next.next.next, s3, c2);
    sec, s5 := PlainSplits(CLOCK.next.next.next.next, s4, c2);
    host, proc, message := OriginSplits(s5, c2["second" := sec]);
  }

  /** A line that matches the BSD pattern is one of these lines, and captured as such. */
  lemma BsdSplits(line: string) returns (t: BsdTime, host: string, proc: string, message: string)
    requires Match(BSD, line, map[]).Some?
    ensures IsBsdTime(t) && IsOrigin(host, proc, message) && line == BsdLine(t, host, proc, message)
    ensures Match(BSD, line, map[])
         == Some(OriginCaptures(host, proc, message,
                   map["mon" := t.mon]["gap" := t.gap]["day" := t.day]
                      ["hour" := t.hour]["minute" := t.minute]["second" := t.second]))
  {
    var mon, s1 := PlainSplits(BSD, line, map[]);
    var gap, s2 := PlainSplits(BSD.next, s1, map["mon" := mon]);
    var day, s3 := PlainSplits(BSD.next.next, s2, map["mon" := mon]["gap" := gap]);
    var caps := map["mon" := mon]["gap" := gap]["day" := day];
    var s4 := LitSplits(BSD.next.next.next, s3, caps);
    var h, m, sec;
    h, m, sec, host, proc, message := BsdClockSplits(s4, caps);
    t := BsdTime(mon, gap, day, h, m, sec);
  }

  lemma PlainMatches(re: Re, w: string, rest: string, caps: Captures)
    requires re.Run? && re.prefix == "" && AllIn(w, re.cls) && re.lo <= |w| && (re.hi.Some? ==> |w| <= re.hi.value)
    requires rest == "" || !In(rest[0], re.cls) || re.hi == Some(|w|)
    requires Match(re.next, rest, caps[re.name := w]).Some?
    ensures Match(re, w + rest, caps) == Match(re.next, rest, caps[re.name := w])
  {
    MatchRunPlain(re, w, rest, caps);
  }

  lemma BsdClockMatches(h: string, m: string, sec: string, host: string, proc: string, message: string, caps: Captures)
    requires AreDigits(h, 2) && AreDigits(m, 2) && AreDigits(sec, 2) && IsOrigin(host, proc, message)
    ensures Match(CLOCK, BsdClockText(h, m, sec, PrintOrigin(host, proc, message)), caps)
         == Some(OriginCaptures(host, proc, message, caps["hour" := h]["minute" := m]["second" := sec]))
  {
    var tail, c1 := PrintOrigin(host, proc, message), caps["hour" := h];
    var c2 := c1["minute" := m];
    OriginMatches(host, proc, message, c2["second" := sec]);
    PlainMatches(CLOCK.next.next.next.next, sec, tail, c2);
    MatchLit(":", CLOCK.next.next.next.next, sec + tail, c2);
    PlainMatches(CLOCK.next.next, m, ":" + (sec + tail), c1);
    MatchLit(":", CLOCK.next.next, m + (":" + (sec + tail)), c1);
    PlainMatches(CLOCK, h, ":" + (m + (":" + (sec + tail))), caps);
  }

  /** Every line of the BSD form matches, however many blanks stand before the day. */
  lemma BsdShapeMatches(t: BsdTime, host: string, proc: string, message: string)
    requires IsBsdTime(t) && IsOrigin(host, proc, message)
    ensures Match(BSD, BsdLine(t, host, proc, message), map[])
         == Some(OriginCaptures(host, proc, message,
                   map["mon" := t.mon]["gap" := t.gap]["day" := t.day]
                      ["hour" := t.hour]["minute" := t.minute]["second" := t.second]))
  {
    var clock := BsdClockText(t.hour, t.minute, t.second, PrintOrigin(host, proc, message));
    var caps := map["mon" := t.mon];
    BsdClockMatches(t.hour, t.minute, t.second, host, proc, message, caps["gap" := t.gap]["day" := t.day]);
    GapAndDay(t.gap, t.day, clock, caps);
    PlainMatches(BSD, t.mon, t.gap + (t.day + (" " + clock)), map[]);
  }

  /** How a line is written that is taken apart into this process and this message. */
  ghost predicate IsLineOf(line: string, proc: string, message: string) {
    exists host ::
      && IsOrigin(host, proc, message)
      && ((exists t :: IsIsoTime(t) && line == IsoLine(t, host, proc, message))
          || (exists t :: IsBsdTime(t) && line == BsdLine(t, host, proc, message)))
  }

  lemma OriginTexts(host: string, proc: string, message: string, caps: Captures)
    ensures var c := OriginCaptures(host, proc, message, caps); Text(c, "proc") == proc && Text(c, "message") == message
  {
  }

  /** Whatever line is taken apart, it is written in one of the two forms, with these parts. */
  lemma LineSound(line: string, nowYear: int, now: Now, isIso: Captures -> bool)
    requires IsNow(now) && ParseSyslogLine(line, nowYear, now, isIso).Line?
    ensures var r := ParseSyslogLine(line, nowYear, now, isIso); IsLineOf(line, r.proc, r.message)
  {
    if Match(RFC3339, line, map[]).Some? {
      var t, host, proc, message := IsoSplits(line);
      OriginTexts(host, proc, message, StampCaptures(t));
    } else {
      var t, host, proc, message := BsdSplits(line);
      OriginTexts(host, proc, message, map["mon" := t.mon]["gap" := t.gap]["day" := t.day]
                      ["hour" := t.hour]["minute" := t.minute]["second" := t.second]);
    }
  }
}
