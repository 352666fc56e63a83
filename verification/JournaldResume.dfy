/** Where the ingest starts to read the journal, on its first run and after each failure. */
module JournaldResume {
  import opened Common
  import opened JournaldIngest

  /** Everything that the ingest has to do with lies at `n` or later. */
  predicate From(s: State, n: nat) {
    && n <= |s.journal|
    && (forall i :: i in s.rows ==> i >= n)
    && (forall i :: i in s.passedOn ==> i >= n)
    && (s.cursor.Some? ==> s.cursor.value >= n)
    && match s.pc
       case Down => true
       case Streaming(next) => next >= n
       case Saved(entry) => entry >= n
       case Inserted(entry) => entry >= n
  }

  lemma StepStaysFrom(s: State, step: Step, n: nat)
    requires From(s, n) && Enabled(s, step)
    ensures From(Next(s, step), n)
  {
  }

  lemma {:induction false} RunStaysFrom(s: State, steps: seq<Step>, n: nat)
    requires From(s, n) && Runs(s, steps)
    ensures From(After(s, steps), n)
    decreases |steps|
  {
    if steps != [] {
      StepStaysFrom(s, steps[0], n);
      RunStaysFrom(Next(s, steps[0]), steps[1..], n);
    }
  }

  /** A daemon that starts for the first time, with this journal. */
  function FirstStart(journal: seq<Entry>): State { Init().(journal := journal) }

  /** The first run does not replay the journal: nothing logged before it gets a row, ever. */
  lemma HistoryIsSkipped(journal: seq<Entry>, steps: seq<Step>)
    requires Runs(FirstStart(journal), [Open] + steps)
    ensures forall i :: i in After(FirstStart(journal), [Open] + steps).rows ==> i >= |journal|
    ensures forall i :: i in After(FirstStart(journal), [Open] + steps).passedOn ==> i >= |journal|
  {
    assert ([Open] + steps)[0] == Open && ([Open] + steps)[1..] == steps;
    RunStaysFrom(Next(FirstStart(journal), Open), steps, |journal|);
  }

  /** Every later source starts right behind the saved cursor: it neither repeats nor skips. */
  lemma ResumesBehindCursor(s: State)
    requires s.pc.Down?
    ensures Enabled(s, Open)
    ensures s.cursor.None? ==> Next(s, Open) == s.(pc := Streaming(|s.journal|))
    ensures s.cursor.Some? && s.cursor.value < |s.journal| ==> Next(s, Open) == s.(pc := Streaming(s.cursor.value + 1))
  {
  }

  /** The wait doubles up to half a minute, and any message sets it back to one second. */
  lemma WaitOfStep(s: State, step: Step)
    requires Enabled(s, step) && 1 <= s.backoff <= 30
    ensures step == Fail ==> Next(s, step).backoff == if s.backoff <= 15 then 2 * s.backoff else 30
    ensures step == Read ==> Next(s, step).backoff == if Next(s, step).pc.Saved? then 1 else s.backoff
    ensures step != Fail && step != Read ==> Next(s, step).backoff == s.backoff
    ensures Init().backoff == 1
  {
  }

  lemma {:induction false} FailuresAreSteps(s: State, steps: seq<Step>)
    requires Runs(s, steps)
    ensures After(s, steps).failures == s.failures + multiset(steps)[Fail]
    decreases |steps|
  {
    if steps != [] {
      FailuresAreSteps(Next(s, steps[0]), steps[1..]);
      assert steps == [steps[0]] + steps[1..];
    }
  }

  /** However a run goes, it loses no more logins than it has failures. */
  lemma LossIsBounded(steps: seq<Step>)
    requires Runs(Init(), steps)
    ensures |After(Init(), steps).lost| <= multiset(steps)[Fail]
  {
    FailuresAreSteps(Init(), steps);
    AtMostOnce(steps);
  }

  /** The journal may grow at any time, and a source may fail wherever it stands. */
  lemma AnyTime(s: State, entry: Entry)
    ensures Enabled(s, Append(entry)) && (!s.pc.Down? ==> Enabled(s, Fail))
  {
  }
}
