/**
 * Journald ingest: `_stream_journald` saves the cursor of an entry before it hands the entry
 * on, `run_ssh_ingest` inserts a row for it and passes the event on, and starts over from the
 * saved cursor after any failure. A failure can fall between any two of these actions.
 */
module JournaldIngest {
  import opened Common
  import opened SshdMessages

  /** What a line of `journalctl -o json` holds for the ingest. */
  datatype Item =
    | NoMessage // not JSON, or its MESSAGE is not a string
    | Unparsed // a message that is none of the sshd forms
    | Login(event: Event)

  datatype Entry = Entry(ts: int, item: Item)

  /** The entry for a line with this timestamp and this message, if it has one. */
  function Decode(ts: int, message: Option<string>): Entry {
    if message.None? then Entry(ts, NoMessage)
    else
      match ParseSshdMessage(message.value) {
        case None => Entry(ts, Unparsed)
        case Some(event) => Entry(ts, Login(event))
      }
  }

  /** A row of `login_events`, with the position of its entry in the journal. */
  datatype Row = Row(entry: nat, ts: int, event: Event)

  /** The rows for the entries from `p` up to `q`, when nothing fails. */
  function RowsOf(journal: seq<Entry>, p: nat, q: nat): seq<Row>
    requires p <= q <= |journal|
    decreases q - p
  {
    if p == q then []
    else
      var before := RowsOf(journal, p, q - 1);
      var e := journal[q - 1];
      if e.item.Login? then before + [Row(q - 1, e.ts, e.item.event)] else before
  }

  function EventsOf(rows: seq<Row>): seq<Event> { seq(|rows|, i requires 0 <= i < |rows| => rows[i].event) }

  /** The cursor after reading the entries up to `q`: the last one with a message. */
  function CursorAfter(journal: seq<Entry>, cursor: Option<nat>, p: nat, q: nat): Option<nat>
    requires p <= q <= |journal|
    decreases q - p
  {
    if p == q then cursor
    else if !journal[q - 1].item.NoMessage? then Some(q - 1)
    else CursorAfter(journal, cursor, p, q - 1)
  }

  /** Whether any of these entries is yielded. */
  predicate HasMessage(journal: seq<Entry>, p: nat, q: nat)
    requires p <= q <= |journal|
  {
    exists i :: p <= i < q && !journal[i].item.NoMessage?
  }

  /** Where `journalctl` starts: after the cursor, or at the end of the journal on a first run. */
  function StartPosition(journal: seq<Entry>, cursor: Option<nat>): nat {
    if cursor.Some? && cursor.value < |journal| then cursor.value + 1 else |journal|
  }

  const MAX_BACKOFF := 30

  function NextBackoff(b: int): int { if b * 2 < MAX_BACKOFF then b * 2 else MAX_BACKOFF }

  /** The saved cursor, the table and the events passed on. */
  class Ingest {
    var cursor: Option<nat>
    var rows: seq<Row>
    var passedOn: seq<Event>
    var backoff: int

    constructor ()
      ensures cursor == None && rows == [] && passedOn == [] && backoff == 1
    {
      cursor, rows, passedOn, backoff := None, [], [], 1;
    }

    /** One source from its start to the present end of the journal, without a failure. */
    method Follow(journal: seq<Entry>)
      modifies this
      ensures var p := StartPosition(journal, old(cursor));
        && rows == old(rows) + RowsOf(journal, p, |journal|)
        && passedOn == old(passedOn) + EventsOf(RowsOf(journal, p, |journal|))
        && cursor == CursorAfter(journal, old(cursor), p, |journal|)
        && backoff == if HasMessage(journal, p, |journal|) then 1 else old(backoff)
    {
      var p := StartPosition(journal, cursor);
      var i := p;
      while i < |journal|
        invariant p <= i <= |journal|
        invariant rows == old(rows) + RowsOf(journal, p, i)
        invariant passedOn == old(passedOn) + EventsOf(RowsOf(journal, p, i))
        invariant cursor == CursorAfter(journal, old(cursor), p, i)
        invariant backoff == if HasMessage(journal, p, i) then 1 else old(backoff)
      {
        match journal[i].item {
          case NoMessage =>
          case Unparsed =>
            cursor := Some(i);
            backoff := 1;
          case Login(event) =>
            cursor := Some(i);
            backoff := 1;
            rows := rows + [Row(i, journal[i].ts, event)];
            passedOn := passedOn + [event];
        }
        i := i + 1;
      }
    }

    /** The wait after a failed source. */
    method Retry() returns (wait: int)
      requires 1 <= backoff <= MAX_BACKOFF
      modifies this`backoff
      ensures wait == old(backoff) && backoff == NextBackoff(old(backoff))
      ensures 1 <= backoff <= 30 && (backoff == 30 || backoff == 2 * wait)
    {
      wait := backoff;
      backoff := if backoff * 2 < MAX_BACKOFF then backoff * 2 else MAX_BACKOFF;
    }

    /** One round of `run_ssh_ingest`: a source up to its end, which always raises, and the wait. */
    method Round(journal: seq<Entry>) returns (wait: int)
      requires 1 <= backoff <= MAX_BACKOFF
      modifies this
      ensures var p := StartPosition(journal, old(cursor));
        && rows == old(rows) + RowsOf(journal, p, |journal|)
        && passedOn == old(passedOn) + EventsOf(RowsOf(journal, p, |journal|))
        && cursor == CursorAfter(journal, old(cursor), p, |journal|)
        && wait == (if HasMessage(journal, p, |journal|) then 1 else old(backoff))
      ensures backoff == NextBackoff(wait) && 1 <= backoff <= MAX_BACKOFF
    {
      Follow(journal);
      wait := Retry();
    }
  }

  // -- runs with failures at every point ------------------------------------------------

  datatype Pc =
    | Down
    | Streaming(next: nat) // the next entry to be read
    | Saved(entry: nat) // its cursor is saved, its row is not inserted
    | Inserted(entry: nat) // its row is inserted, its event is not passed on

  /**
   * `rows` are the entries with a row in the table, in the order of insertion; the row of an
   * entry is what `RowsOf` makes of it. `first`, `lost` and `failures` only record the run:
   * the first entry whose cursor was saved, the entries that a failure dropped, and the
   * number of failures.
   */
  datatype State = State(
    journal: seq<Entry>,
    cursor: Option<nat>,
    rows: seq<nat>,
    passedOn: seq<nat>,
    pc: Pc,
    backoff: int,
    first: nat,
    lost: seq<nat>,
    failures: nat)

  datatype Step =
    | Append(entry: Entry) // journald logs it
    | Open
    | Read
    | Insert
    | PassOn
    | Fail

  predicate Enabled(s: State, step: Step) {
    match step
    case Append(_) => true
    case Open => s.pc.Down?
    case Read => s.pc.Streaming? && s.pc.next < |s.journal|
    case Insert => s.pc.Saved? && s.pc.entry < |s.journal|
    case PassOn => s.pc.Inserted?
    case Fail => !s.pc.Down?
  }

  predicate Parseable(journal: seq<Entry>, i: nat) { i < |journal| && journal[i].item.Login? }

  function Next(s: State, step: Step): State
    requires Enabled(s, step)
  {
    match step
    case Append(entry) => s.(journal := s.journal + [entry])
    case Open => s.(pc := Streaming(StartPosition(s.journal, s.cursor)))
    case Read =>
      var i := s.pc.next;
      if s.journal[i].item.NoMessage? then s.(pc := Streaming(i + 1))
      else s.(cursor := Some(i), pc := Saved(i), backoff := 1, first := if s.cursor.None? then i else s.first)
    case Insert =>
      var i := s.pc.entry;
      if Parseable(s.journal, i) then s.(rows := s.rows + [i], pc := Inserted(i))
      else s.(pc := Streaming(i + 1))
    case PassOn => s.(passedOn := s.passedOn + [s.pc.entry], pc := Streaming(s.pc.entry + 1))
    case Fail =>
      var dropped := s.pc.Saved? && Parseable(s.journal, s.pc.entry);
      s.(pc := Down, failures := s.failures + 1, backoff := NextBackoff(s.backoff),
         lost := if dropped then s.lost + [s.pc.entry] else s.lost)
  }

  function Init(): State { State([], None, [], [], Down, 1, 0, [], 0) }

  predicate Runs(s: State, steps: seq<Step>)
    decreases |steps|
  {
    steps == [] || (Enabled(s, steps[0]) && Runs(Next(s, steps[0]), steps[1..]))
  }

  function After(s: State, steps: seq<Step>): State
    requires Runs(s, steps)
    decreases |steps|
  {
    if steps == [] then s else After(Next(s, steps[0]), steps[1..])
  }

  predicate Ascending(xs: seq<nat>) { forall i, j :: 0 <= i < j < |xs| ==> xs[i] < xs[j] }

  predicate Below(xs: seq<nat>, n: nat) { forall i :: 0 <= i < |xs| ==> xs[i] < n }

  /** The entries that have been read to the end of their journey, one way or another. */
  predicate Settled(s: State, i: nat) { i in s.rows || i in s.lost }

  /** Entries below this bound have been read. */
  function Horizon(s: State): nat
    requires s.cursor.Some?
  {
    if s.pc.Saved? then s.cursor.value else s.cursor.value + 1
  }

  /** Every parseable entry since the first saved cursor has its row or is lost, none is both. */
  predicate Accounted(s: State)
    requires s.cursor.Some?
  {
    && (forall i :: s.first <= i < Horizon(s) && Parseable(s.journal, i) ==> Settled(s, i))
    && (forall i :: i in s.rows ==> s.first <= i < Horizon(s) && Parseable(s.journal, i) && i !in s.lost)
    && (forall i :: i in s.lost ==> s.first <= i < Horizon(s) && Parseable(s.journal, i))
  }

  /** Where the stream is, relative to the cursor. */
  predicate PcOk(s: State)
    requires s.cursor.Some?
  {
    match s.pc
    case Down => true
    case Streaming(next) =>
      s.cursor.value < next <= |s.journal| && forall i :: s.cursor.value < i < next ==> s.journal[i].item.NoMessage?
    case Saved(entry) => entry == s.cursor.value
    case Inserted(entry) => entry == s.cursor.value && entry in s.rows
  }

  predicate Sorted(s: State) {
    && Ascending(s.rows) && Ascending(s.lost) && Ascending(s.passedOn)
    && (forall i :: i in s.passedOn ==> i in s.rows)
    && (s.pc.Inserted? ==> Below(s.passedOn, s.pc.entry))
    && (s.cursor.Some? ==> Below(s.rows, Horizon(s)) && Below(s.lost, Horizon(s)))
  }

  predicate Inv(s: State) {
    && 1 <= s.backoff <= MAX_BACKOFF
    && |s.lost| <= s.failures
    && Sorted(s)
    && match s.cursor
       case None => s.rows == [] && s.lost == [] && (s.pc.Down? || (s.pc.Streaming? && s.pc.next <= |s.journal|))
       case Some(c) => s.first <= c < |s.journal| && Accounted(s) && PcOk(s)
  }

  lemma AppendKeeps(s: State, entry: Entry)
    requires Inv(s)
    ensures Inv(s.(journal := s.journal + [entry]))
  {
    var s' := s.(journal := s.journal + [entry]);
    assert forall i :: 0 <= i < |s.journal| ==> s'.journal[i] == s.journal[i];
    assert forall i: nat :: i < |s.journal| ==> Parseable(s'.journal, i) == Parseable(s.journal, i);
  }

  lemma ReadKeeps(s: State)
    requires Inv(s) && Enabled(s, Read)
    ensures Inv(Next(s, Read))
  {
    var i := s.pc.next;
    if !s.journal[i].item.NoMessage? && s.cursor.Some? {
      assert forall k :: s.cursor.value < k < i ==> !Parseable(s.journal, k);
    }
  }

  lemma Push(xs: seq<nat>, n: nat)
    requires Ascending(xs) && Below(xs, n)
    ensures Ascending(xs + [n]) && Below(xs + [n], n + 1) && n in xs + [n]
    ensures n !in xs
  {
    assert (xs + [n])[|xs|] == n;
  }

  lemma InsertKeeps(s: State)
    requires Inv(s) && Enabled(s, Insert)
    ensures Inv(Next(s, Insert))
  {
    var i := s.pc.entry;
    var s' := Next(s, Insert);
    if Parseable(s.journal, i) {
      Push(s.rows, i);
      forall k | 0 <= k < |s.passedOn| ensures s.passedOn[k] < i {
        assert s.passedOn[k] in s.rows;
      }
      assert Accounted(s');
    }
  }

  lemma PassOnKeeps(s: State)
    requires Inv(s) && Enabled(s, PassOn)
    ensures Inv(Next(s, PassOn))
  {
  }

  lemma DropKeeps(s: State)
    requires Inv(s) && s.pc.Saved? && Parseable(s.journal, s.pc.entry)
    ensures Inv(Next(s, Fail))
  {
    Push(s.lost, s.pc.entry);
    var s' := Next(s, Fail);
    assert s'.lost == s.lost + [s.pc.entry] && Horizon(s') == s.pc.entry + 1;
    assert s.pc.entry !in s.rows;
    assert Accounted(s');
  }

  lemma FailKeeps(s: State)
    requires Inv(s) && Enabled(s, Fail)
    ensures Inv(Next(s, Fail))
  {
    if s.pc.Saved? && Parseable(s.journal, s.pc.entry) {
      DropKeeps(s);
    }
  }

  lemma StepKeeps(s: State, step: Step)
    requires Inv(s) && Enabled(s, step)
    ensures Inv(Next(s, step))
  {
    match step
    case Append(entry) => AppendKeeps(s, entry);
    case Open =>
    case Read => ReadKeeps(s);
    case Insert => InsertKeeps(s);
    case PassOn => PassOnKeeps(s);
    case Fail => FailKeeps(s);
  }

  lemma {:induction false} EveryRun(s: State, steps: seq<Step>)
    requires Inv(s) && Runs(s, steps)
    ensures Inv(After(s, steps))
    decreases |steps|
  {
    if steps != [] {
      StepKeeps(s, steps[0]);
      EveryRun(Next(s, steps[0]), steps[1..]);
    }
  }

  /** Every parseable entry from the first to the last saved cursor is inserted, dropped or in flight. */
  predicate Covered(s: State) {
    s.cursor.Some? ==> forall i ::
      s.first <= i <= s.cursor.value && Parseable(s.journal, i) ==> i in s.rows || i in s.lost || s.pc == Saved(i)
  }

  /**
   * At most once, with bounded loss: in every run the rows are entries in journal order and
   * none twice; every parseable entry between the first saved cursor and the current one has
   * its row, is the one entry in flight, or was dropped; at most one entry was dropped for
   * each failure; and events are passed on only for rows, in order and never twice.
   */
  lemma AtMostOnce(steps: seq<Step>)
    requires Runs(Init(), steps)
    ensures var s := After(Init(), steps);
      && Ascending(s.rows) && Ascending(s.lost) && Ascending(s.passedOn)
      && |s.lost| <= s.failures
      && (forall i :: i in s.rows ==> Parseable(s.journal, i) && i !in s.lost)
      && (forall i :: i in s.lost ==> Parseable(s.journal, i))
      && (forall i :: i in s.passedOn ==> i in s.rows)
      && Covered(s)
      && 1 <= s.backoff <= MAX_BACKOFF
  {
    EveryRun(Init(), steps);
  }

  /** Without a failure after the entry's cursor was saved, nothing is lost. */
  lemma NoFailureNoLoss(steps: seq<Step>)
    requires Runs(Init(), steps) && Fail !in steps
    ensures After(Init(), steps).lost == [] && Covered(After(Init(), steps))
  {
    EveryRun(Init(), steps);
    CountFailures(Init(), steps);
  }

  lemma {:induction false} CountFailures(s: State, steps: seq<Step>)
    requires Runs(s, steps) && Fail !in steps
    ensures After(s, steps).failures == s.failures
    decreases |steps|
  {
    if steps != [] {
      assert steps[0] in steps;
      assert Fail !in steps[1..];
      CountFailures(Next(s, steps[0]), steps[1..]);
    }
  }

  // -- what the journal holds ----------------------------------------------------------------

  /** The entries that journald has logged in a run. */
  function Logged(steps: seq<Step>): seq<Entry> {
    if steps == [] then []
    else if steps[0].Append? then [steps[0].entry] + Logged(steps[1..])
    else Logged(steps[1..])
  }

  /** These entries are what the reader makes of the lines. */
  predicate AreDecoded(entries: seq<Entry>, lines: seq<(int, Option<string>)>) {
    |entries| == |lines| && forall i :: 0 <= i < |entries| ==> entries[i] == Decode(lines[i].0, lines[i].1)
  }

  lemma {:induction false} JournalIsLogged(s: State, steps: seq<Step>)
    requires Runs(s, steps)
    ensures After(s, steps).journal == s.journal + Logged(steps)
    decreases |steps|
  {
    if steps != [] {
      JournalIsLogged(Next(s, steps[0]), steps[1..]);
      if steps[0].Append? {
        var e, later := steps[0].entry, Logged(steps[1..]);
        assert (s.journal + [e]) + later == s.journal + ([e] + later);
      }
    }
  }

  lemma RowIsLogged(steps: seq<Step>, i: nat)
    requires Runs(Init(), steps) && i in After(Init(), steps).rows
    ensures i < |Logged(steps)| && Logged(steps)[i].item.Login?
    ensures After(Init(), steps).journal == Logged(steps)
  {
    EveryRun(Init(), steps);
    JournalIsLogged(Init(), steps);
    assert [] + Logged(steps) == Logged(steps);
    assert Parseable(After(Init(), steps).journal, i);
  }

  /** Every row is for a logged line that `parse_sshd_message` recognizes, and is what it says. */
  lemma RowsAreParsed(steps: seq<Step>, lines: seq<(int, Option<string>)>, i: nat)
    requires Runs(Init(), steps) && AreDecoded(Logged(steps), lines) && i in After(Init(), steps).rows
    ensures i < |lines| && i < |After(Init(), steps).journal|
    ensures var entry := After(Init(), steps).journal[i];
      && entry.ts == lines[i].0 && lines[i].1.Some?
      && entry.item.Login? && ParseSshdMessage(lines[i].1.value) == Some(entry.item.event)
  {
    RowIsLogged(steps, i);
    DecodedLogin(lines[i].0, lines[i].1);
  }

  lemma DecodedLogin(ts: int, message: Option<string>)
    ensures var e := Decode(ts, message);
      e.ts == ts && (e.item.Login? ==> message.Some? && ParseSshdMessage(message.value) == Some(e.item.event))
  {
  }

  // -- the steps of one source without a failure ------------------------------------------

  /** All that is done with one entry. */
  function StepsFor(e: Entry): seq<Step> {
    match e.item
    case NoMessage => [Read]
    case Unparsed => [Read, Insert]
    case Login(_) => [Read, Insert, PassOn]
  }

  function StepsUpTo(journal: seq<Entry>, p: nat, q: nat): seq<Step>
    requires p <= q <= |journal|
    decreases q - p
  {
    if p == q then [] else StepsUpTo(journal, p, q - 1) + StepsFor(journal[q - 1])
  }

  lemma {:induction false} RunsOn(s: State, a: seq<Step>, b: seq<Step>)
    requires Runs(s, a) && Runs(After(s, a), b)
    ensures Runs(s, a + b) && After(s, a + b) == After(After(s, a), b)
    decreases |a|
  {
    if a == [] {
      assert a + b == b;
    } else {
      assert (a + b)[0] == a[0] && (a + b)[1..] == a[1..] + b;
      RunsOn(Next(s, a[0]), a[1..], b);
    }
  }

  lemma OneStep(s: State, step: Step)
    requires Enabled(s, step)
    ensures Runs(s, [step]) && After(s, [step]) == Next(s, step)
  {
  }

  /** `t` is `s` after one entry. */
  predicate EntryDone(s: State, t: State)
    requires s.pc.Streaming? && s.pc.next < |s.journal|
  {
    var i := s.pc.next;
    var login := s.journal[i].item.Login?;
    && t.pc == Streaming(i + 1) && t.journal == s.journal && t.lost == s.lost && t.failures == s.failures
    && t.rows == (if login then s.rows + [i] else s.rows)
    && t.passedOn == (if login then s.passedOn + [i] else s.passedOn)
    && t.cursor == (if s.journal[i].item.NoMessage? then s.cursor else Some(i))
  }

  lemma EntryIsItsSteps(s: State)
    requires Enabled(s, Read)
    ensures Runs(s, StepsFor(s.journal[s.pc.next])) && EntryDone(s, After(s, StepsFor(s.journal[s.pc.next])))
  {
    var s1 := Next(s, Read);
    OneStep(s, Read);
    if s1.pc.Saved? {
      var s2 := Next(s1, Insert);
      OneStep(s1, Insert);
      RunsOn(s, [Read], [Insert]);
      assert [Read] + [Insert] == [Read, Insert];
      if s2.pc.Inserted? {
        OneStep(s2, PassOn);
        RunsOn(s, [Read, Insert], [PassOn]);
        assert [Read, Insert] + [PassOn] == [Read, Insert, PassOn];
      }
    }
  }

  function EntriesOf(rows: seq<Row>): seq<nat> { seq(|rows|, i requires 0 <= i < |rows| => rows[i].entry) }

  lemma EntriesPush(rows: seq<Row>, r: Row)
    ensures EntriesOf(rows + [r]) == EntriesOf(rows) + [r.entry]
  {
  }

  /** `t` is `s` after the entries up to `q`, with what the method `Follow` makes of them. */
  predicate Followed(s: State, t: State, p: nat, q: nat)
    requires p <= q <= |s.journal|
  {
    && t.pc == Streaming(q) && t.journal == s.journal && t.lost == s.lost && t.failures == s.failures
    && t.rows == s.rows + EntriesOf(RowsOf(s.journal, p, q))
    && t.passedOn == s.passedOn + EntriesOf(RowsOf(s.journal, p, q))
    && t.cursor == CursorAfter(s.journal, s.cursor, p, q)
  }

  lemma OneMoreEntry(s: State, t: State, t': State, p: nat, q: nat)
    requires p <= q < |s.journal| && Followed(s, t, p, q) && EntryDone(t, t')
    ensures Followed(s, t', p, q + 1)
  {
    var e := s.journal[q];
    if e.item.Login? {
      EntriesPush(RowsOf(s.journal, p, q), Row(q, e.ts, e.item.event));
    }
  }

  lemma NoFailIn(e: Entry)
    ensures Fail !in StepsFor(e)
  {
  }

  /** These steps are a run, without a failure, and do what the method `Follow` does. */
  lemma {:induction false} FollowIsItsSteps(s: State, q: nat)
    requires s.pc.Streaming? && s.pc.next <= q <= |s.journal|
    ensures var steps := StepsUpTo(s.journal, s.pc.next, q);
            Runs(s, steps) && Fail !in steps && Followed(s, After(s, steps), s.pc.next, q)
    decreases q
  {
    var p := s.pc.next;
    if q > p {
      FollowIsItsSteps(s, q - 1);
      var before, more := StepsUpTo(s.journal, p, q - 1), StepsFor(s.journal[q - 1]);
      var t := After(s, before);
      EntryIsItsSteps(t);
      RunsOn(s, before, more);
      NoFailIn(s.journal[q - 1]);
      OneMoreEntry(s, t, After(t, more), p, q - 1);
    }
  }

  /** A source that is opened and not interrupted runs as the method `Follow` does, to the end of the journal. */
  lemma SourceIsItsSteps(s: State)
    requires s.pc.Down?
    ensures var p := StartPosition(s.journal, s.cursor);
      var steps := [Open] + StepsUpTo(s.journal, p, |s.journal|);
      Runs(s, steps) && Fail !in steps && Followed(s, After(s, steps), p, |s.journal|)
  {
    var started := Next(s, Open);
    OneStep(s, Open);
    FollowIsItsSteps(started, |s.journal|);
    RunsOn(s, [Open], StepsUpTo(s.journal, started.pc.next, |s.journal|));
  }
}
