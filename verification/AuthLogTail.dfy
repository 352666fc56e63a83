/**
 * `_tail_auth_log`: following a log file by inode and byte offset through polls, growth,
 * both ways of rotating it, and crashes between any two writes.
 *
 * The saved offset stops before an incomplete last line, and the incomplete line also stays
 * in `buffer`; so the next poll sees it twice. `Input` has a flag for the two readings: as
 * the code is written, and with the buffer emptied at the start of each poll.
 */
module AuthLogTail {
  import opened Common
  import opened Lines

  // -- one poll ------------------------------------------------------------------

  /** The two rows of `ingest_state` that belong to the tail. */
  datatype Saved = Saved(inode: Option<int>, offset: Option<nat>)

  function OffsetOf(saved: Saved): nat { if saved.offset.Some? then saved.offset.value else 0 }

  /** What the tests on the result of `stat` decide on. */
  datatype Situation = FirstRun | OtherFile | Shrunk | SameFile

  function SituationOf(saved: Saved, inode: int, size: nat): Situation {
    if saved.inode.None? then FirstRun
    else if saved.inode.value != inode then OtherFile
    else if size < OffsetOf(saved) then Shrunk
    else SameFile
  }

  /** Where the poll starts to read. */
  function StartOf(saved: Saved, inode: int, size: nat): nat {
    match SituationOf(saved, inode, size)
    case FirstRun => size
    case OtherFile => 0
    case Shrunk => 0
    case SameFile => OffsetOf(saved)
  }

  /** The rows after the part of a poll before the file is opened. */
  function Relocated(saved: Saved, inode: int, size: nat): Saved {
    match SituationOf(saved, inode, size)
    case FirstRun => Saved(Some(inode), Some(size))
    case OtherFile => Saved(Some(inode), Some(0))
    case Shrunk => saved.(offset := Some(0))
    case SameFile => saved
  }

  /** The buffer at that point: a file that is read from its beginning has no leftover. */
  function Kept(saved: Saved, inode: int, size: nat, buffer: string): string {
    if SituationOf(saved, inode, size) in {OtherFile, Shrunk} then "" else buffer
  }

  /** The text that is cut into lines. */
  function Input(reset: bool, buffer: string, chunk: string): string { if reset then chunk else buffer + chunk }

  datatype Outcome = Outcome(saved: Saved, buffer: string, lines: seq<string>)

  /** A whole poll: what is saved, what stays in the buffer and which lines are taken. */
  function Polled(reset: bool, saved: Saved, buffer: string, inode: int, size: nat, content: string): Outcome
    requires size <= |content|
  {
    var offset := StartOf(saved, inode, size);
    var kept := Kept(saved, inode, size, buffer);
    if size > offset then
      var split := SplitLines(Input(reset, kept, content[offset..]));
      Outcome(Saved(Some(inode), Some(offset + |Unlines(split.lines)|)), split.rest, split.lines)
    else
      Outcome(Relocated(saved, inode, size), kept, [])
  }

  /** The tail of one file at one path. */
  class Tail {
    const reset: bool
    var saved: Saved
    var buffer: string

    /** A daemon that starts, with what an earlier one may have saved. */
    constructor (reset: bool, saved: Saved)
      ensures this.reset == reset && this.saved == saved && buffer == ""
    {
      this.reset, this.saved, this.buffer := reset, saved, "";
    }

    /** The part of a poll before the file is opened. */
    method Locate(inode: int, size: nat) returns (offset: nat)
      modifies this
      ensures offset == StartOf(old(saved), inode, size)
      ensures saved == Relocated(old(saved), inode, size)
      ensures buffer == Kept(old(saved), inode, size, old(buffer))
    {
      offset := OffsetOf(saved);
      if saved.inode.None? {
        offset := size;
        saved := saved.(inode := Some(inode));
        saved := saved.(offset := Some(offset));
      } else if saved.inode != Some(inode) {
        offset := 0;
        buffer := "";
        saved := saved.(inode := Some(inode));
        saved := saved.(offset := Some(offset));
      } else if size < offset {
        offset := 0;
        buffer := "";
        saved := saved.(offset := Some(offset));
      }
    }

    /** A whole poll; the file may have grown between `stat` and reading it. */
    method Poll(inode: int, size: nat, content: string) returns (lines: seq<string>)
      requires size <= |content|
      modifies this
      ensures Outcome(saved, buffer, lines) == Polled(reset, old(saved), old(buffer), inode, size, content)
    {
      var offset := Locate(inode, size);
      lines := [];
      if size > offset {
        var chunk := content[offset..];
        buffer := if reset then chunk else buffer + chunk;
        lines, buffer := CutLines(buffer);
        var consumed := Consumed(lines);
        saved := saved.(offset := Some(offset + consumed));
      }
    }
  }

  // -- runs ------------------------------------------------------------------------

  /** One generation of the log: what is at the path between two rotations. */
  datatype File = File(inode: int, content: string)

  /** What has been taken from a generation: its lines from `start` on. */
  datatype Track = Track(start: nat, lines: seq<string>)

  function End(t: Track): nat { t.start + |Unlines(t.lines)| }

  datatype Pc =
    | Idle
    | InodeSaved(size: nat, first: bool) // the new inode is saved, its offset not yet
    | Located(from: nat, size: nat)
    | Handing(gen: nat, next: nat) // lines of that generation from `next` on go to the consumer

  /**
   * `files` are all generations, the last one being at the path. `at` is the generation that
   * the saved rows speak of. `tracks`, `handed`, `lost`, `torn` and `firstFile` only record the
   * run: lines taken, lines handed on and lines that a crash kept from it (generation and
   * number), generations met by a crash between their two writes, and the generation of the
   * very first poll.
   */
  datatype State = State(
    files: seq<File>,
    saved: Saved,
    buffer: string,
    pc: Pc,
    at: nat,
    tracks: map<nat, Track>,
    handed: seq<(nat, nat)>,
    lost: set<(nat, nat)>,
    torn: set<nat>,
    firstFile: nat)

  datatype Step =
    | Grow(more: string)
    | Rotate(inode: int)
    | Truncate
    | Stat
    | WriteOffset
    | Read
    | Hand
    | Crash

  function Current(s: State): File
    requires s.files != []
  {
    s.files[|s.files| - 1]
  }

  predicate Enabled(s: State, step: Step)
    requires s.files != []
  {
    match step
    case Grow(_) => true
    case Rotate(_) => true
    case Truncate => true
    case Stat => s.pc.Idle?
    case WriteOffset => s.pc.InodeSaved?
    case Read => s.pc.Located?
    case Hand => s.pc.Handing?
    case Crash => true
  }

  function TrackAt(s: State, g: nat, start: nat): Track {
    if g in s.tracks then s.tracks[g] else Track(start, [])
  }

  function AfterStat(s: State): State
    requires s.files != []
  {
    var f, g := Current(s), |s.files| - 1;
    var size := |f.content|;
    match SituationOf(s.saved, f.inode, size)
    case FirstRun =>
      s.(saved := s.saved.(inode := Some(f.inode)), pc := InodeSaved(size, true), at := g, firstFile := g)
    case OtherFile =>
      s.(saved := s.saved.(inode := Some(f.inode)), buffer := "", pc := InodeSaved(size, false), at := g)
    case Shrunk =>
      s.(saved := s.saved.(offset := Some(0)), buffer := "", pc := Located(0, size), at := g)
    case SameFile => s.(pc := Located(OffsetOf(s.saved), size), at := g)
  }

  /** What the next read returns: nothing if the file at the path has become too short. */
  function Chunk(s: State): string
    requires s.files != [] && s.pc.Located?
  {
    if s.pc.from <= |Current(s).content| then Current(s).content[s.pc.from..] else ""
  }

  /** A file with the saved inode that is read from its beginning: the saved rows then speak of it. */
  predicate Rejoins(s: State)
    requires s.files != [] && s.pc.Located?
  {
    s.pc.from == 0 && s.saved.inode == Some(Current(s).inode)
  }

  /**
   * The file is opened by its path, so this may be another generation than the one that the
   * saved rows speak of. The offset is saved all the same.
   */
  function AfterRead(s: State, reset: bool): State
    requires s.files != [] && s.pc.Located?
  {
    var g, o := |s.files| - 1, s.pc.from;
    if s.pc.size > o then
      var split := SplitLines(Input(reset, s.buffer, Chunk(s)));
      var t := TrackAt(s, g, o);
      var at := if Rejoins(s) then g else s.at;
      s.(saved := s.saved.(offset := Some(o + |Unlines(split.lines)|)), buffer := split.rest, at := at,
         tracks := if g == at || split.lines != [] then s.tracks[g := t.(lines := t.lines + split.lines)] else s.tracks,
         pc := Handing(g, |t.lines|))
    else s.(pc := Idle)
  }

  /** The lines that are still to be handed on. */
  function InFlight(s: State): set<(nat, nat)> {
    if s.pc.Handing? && s.pc.gen in s.tracks
    then set k: nat | s.pc.next <= k < |s.tracks[s.pc.gen].lines| :: (s.pc.gen, k)
    else {}
  }

  function Next(s: State, step: Step, reset: bool): State
    requires s.files != [] && Enabled(s, step)
  {
    var last := |s.files| - 1;
    match step
    case Grow(more) => s.(files := s.files[last := Current(s).(content := Current(s).content + more)])
    case Rotate(inode) => s.(files := s.files + [File(inode, "")])
    case Truncate => s.(files := s.files + [File(Current(s).inode, "")])
    case Stat => AfterStat(s)
    case WriteOffset =>
      var o := if s.pc.first then s.pc.size else 0;
      s.(saved := s.saved.(offset := Some(o)), pc := Located(o, s.pc.size))
    case Read => AfterRead(s, reset)
    case Hand =>
      if s.pc.gen in s.tracks && s.pc.next < |s.tracks[s.pc.gen].lines| then
        s.(handed := s.handed + [(s.pc.gen, s.pc.next)], pc := Handing(s.pc.gen, s.pc.next + 1))
      else s.(pc := Idle)
    case Crash =>
      s.(buffer := "", pc := Idle, lost := s.lost + InFlight(s),
         torn := if s.pc.InodeSaved? then s.torn + {s.at} else s.torn)
  }

  function Init(f: File): State { State([f], Saved(None, None), "", Idle, 0, map[], [], {}, {}, 0) }

  /** The states that a sequence of steps goes through, if each is enabled in its turn. */
  predicate Runs(s: State, steps: seq<Step>, reset: bool)
    requires s.files != []
    decreases |steps|
  {
    steps == [] || (Enabled(s, steps[0]) && Runs(Next(s, steps[0], reset), steps[1..], reset))
  }

  function After(s: State, steps: seq<Step>, reset: bool): (r: State)
    requires s.files != [] && Runs(s, steps, reset)
    ensures r.files != []
    decreases |steps|
  {
    if steps == [] then s else After(Next(s, steps[0], reset), steps[1..], reset)
  }

  // -- what every run keeps ---------------------------------------------------------

  /** The lines taken are the text of the file from the start offset on. */
  predicate Faithful(content: string, t: Track) {
    && End(t) <= |content|
    && content[t.start..End(t)] == Unlines(t.lines)
  }

  predicate Before(a: (nat, nat), b: (nat, nat)) { a.0 < b.0 || (a.0 == b.0 && a.1 < b.1) }

  predicate TracksOk(s: State) {
    forall g :: g in s.tracks ==>
      && g <= s.at && g < |s.files|
      && Faithful(s.files[g].content, s.tracks[g])
      && AreLines(s.tracks[g].lines)
  }

  /** The saved offset is where the lines taken from the current generation end. */
  predicate SavedOk(s: State)
    requires s.files != []
  {
    && s.at < |s.files|
    && (s.saved.inode.Some? ==> s.saved.inode.value == s.files[s.at].inode)
    && (s.saved.inode.None? ==> s.tracks == map[] && s.pc.Idle? && s.saved.offset.None?)
    && (s.at in s.tracks ==> OffsetOf(s.saved) == End(s.tracks[s.at]) && !s.pc.InodeSaved?)
    && (s.pc.InodeSaved? || s.pc.Located? ==> s.pc.size <= |s.files[s.at].content|)
    && (s.pc.InodeSaved? && s.pc.first ==> s.saved.offset.None? && s.at == s.firstFile)
    && (s.pc.Located? ==> s.pc.from == OffsetOf(s.saved) && s.pc.from <= s.pc.size)
  }

  predicate TracksStart(s: State) {
    forall g :: g in s.tracks && g != s.firstFile && g !in s.torn ==> s.tracks[g].start == 0
  }

  predicate NextStarts(s: State) {
    (s.saved.inode.Some? && s.at !in s.tracks && s.at != s.firstFile && s.at !in s.torn && !s.pc.InodeSaved?)
    ==> OffsetOf(s.saved) == 0
  }

  /** A generation is read from its beginning, save the first and those met by a crash. */
  predicate StartsOk(s: State) { TracksStart(s) && NextStarts(s) }

  predicate RecordsOk(s: State) { s.firstFile <= s.at && forall g :: g in s.torn ==> g <= s.at }

  predicate Inv(s: State) {
    s.files != [] && TracksOk(s) && SavedOk(s) && StartsOk(s) && RecordsOk(s) && NoNewline(s.buffer)
  }

  lemma FaithfulGrows(content: string, more: string, t: Track)
    requires Faithful(content, t)
    ensures Faithful(content + more, t)
  {
    assert (content + more)[t.start..End(t)] == content[t.start..End(t)];
  }

  lemma FaithfulMore(content: string, t: Track, lines: seq<string>, rest: string)
    requires Faithful(content, t) && Unlines(lines) + rest == content[End(t)..]
    ensures Faithful(content, t.(lines := t.lines + lines))
    ensures End(t.(lines := t.lines + lines)) == End(t) + |Unlines(lines)|
  {
    UnlinesAppend(t.lines, lines);
    SliceMore(content, t.start, End(t), Unlines(lines), rest);
  }

  lemma SliceMore(s: string, a: nat, b: nat, u: string, rest: string)
    requires a <= b <= |s| && u + rest == s[b..]
    ensures b + |u| <= |s| && s[a..b + |u|] == s[a..b] + u
  {
    assert |s[b..]| == |u| + |rest|;
    forall i | b <= i < b + |u| ensures s[i] == u[i - b] {
      assert s[i] == s[b..][i - b] == (u + rest)[i - b];
    }
  }

  lemma GrowKeeps(s: State, more: string, reset: bool)
    requires Inv(s)
    ensures Inv(Next(s, Grow(more), reset))
  {
    var s' := Next(s, Grow(more), reset);
    forall g | g in s'.tracks ensures g <= s'.at && g < |s'.files| && Faithful(s'.files[g].content, s'.tracks[g]) {
      if g == |s.files| - 1 {
        FaithfulGrows(s.files[g].content, more, s.tracks[g]);
      }
    }
  }

  lemma NewFileKeeps(s: State, step: Step, reset: bool)
    requires Inv(s) && (step.Rotate? || step.Truncate?) && Enabled(s, step)
    ensures Inv(Next(s, step, reset))
  {
    var s' := Next(s, step, reset);
    forall g | g in s'.tracks ensures g <= s'.at && g < |s'.files| && Faithful(s'.files[g].content, s'.tracks[g]) {
      assert s'.files[g] == s.files[g];
    }
  }

  /** A new file with the saved inode is recognized as new, or nothing was read of the old one. */
  predicate SteadyStat(s: State)
    requires s.files != []
  {
    || s.saved.inode != Some(Current(s).inode)
    || s.at == |s.files| - 1
    || |Current(s).content| < OffsetOf(s.saved)
    || OffsetOf(s.saved) == 0
  }

  lemma StatSaved(s: State)
    requires Inv(s) && Enabled(s, Stat) && SteadyStat(s)
    ensures SavedOk(AfterStat(s))
  {
    var g := |s.files| - 1;
    if g in s.tracks {
      assert s.at == g;
      assert Faithful(s.files[g].content, s.tracks[g]);
    }
  }

  lemma StatTracksStart(s: State)
    requires Inv(s) && Enabled(s, Stat)
    ensures TracksStart(AfterStat(s))
  {
    var s' := AfterStat(s);
    assert s'.tracks == s.tracks && s'.torn == s.torn;
    assert s'.firstFile == s.firstFile || s.tracks == map[];
  }

  lemma StatNextStarts(s: State)
    requires Inv(s) && Enabled(s, Stat) && SteadyStat(s)
    ensures NextStarts(AfterStat(s))
  {
    if SituationOf(s.saved, Current(s).inode, |Current(s).content|) == SameFile && s.at == |s.files| - 1 {
      assert AfterStat(s) == s.(pc := AfterStat(s).pc);
    }
  }

  lemma StatKeeps(s: State, reset: bool)
    requires Inv(s) && Enabled(s, Stat) && SteadyStat(s)
    ensures Inv(Next(s, Stat, reset))
  {
    StatSaved(s);
    StatTracksStart(s);
    StatNextStarts(s);
    var s' := AfterStat(s);
    assert s'.tracks == s.tracks && s'.files == s.files && s.at <= s'.at;
  }

  lemma WriteKeeps(s: State, reset: bool)
    requires Inv(s) && Enabled(s, WriteOffset)
    ensures Inv(Next(s, WriteOffset, reset))
  {
  }

  lemma HandKeeps(s: State, reset: bool)
    requires Inv(s) && Enabled(s, Hand)
    ensures Inv(Next(s, Hand, reset))
  {
  }

  lemma CrashKeeps(s: State, reset: bool)
    requires Inv(s)
    ensures Inv(Next(s, Crash, reset))
  {
  }

  /** A read that does not cut lines out of text it has seen before. */
  predicate CleanRead(s: State, reset: bool)
    requires s.files != [] && s.pc.Located?
  {
    s.pc.size > s.pc.from && !reset ==> s.buffer == "" || NoNewline(Chunk(s))
  }

  /** What is read is the generation that the saved rows speak of, or will be. */
  predicate Here(s: State)
    requires s.files != [] && s.pc.Located?
  {
    s.at == |s.files| - 1 || Rejoins(s)
  }

  /** A read of the generation that the poll located, or of a truncated one at 0, or one that takes no line. */
  predicate SteadyRead(s: State)
    requires s.files != [] && s.pc.Located?
  {
    s.pc.size > s.pc.from ==> Here(s) || NoNewline(Chunk(s))
  }

  /** What a read adds to the track of its file. */
  lemma ReadIsFaithful(s: State, reset: bool)
    requires Inv(s) && Enabled(s, Read) && CleanRead(s, reset) && s.pc.size > s.pc.from && Here(s)
    ensures var split := SplitLines(Input(reset, s.buffer, Chunk(s)));
      var t := TrackAt(s, |s.files| - 1, s.pc.from);
      var t' := t.(lines := t.lines + split.lines);
      && Faithful(Current(s).content, t') && AreLines(t'.lines)
      && End(t') == s.pc.from + |Unlines(split.lines)|
      && NoNewline(split.rest)
  {
    var t := TrackAt(s, |s.files| - 1, s.pc.from);
    var input := Input(reset, s.buffer, Chunk(s));
    TrackHere(s);
    if reset || s.buffer == "" {
      assert input == Chunk(s);
    } else {
      JoinNoNewline(s.buffer, Chunk(s));
    }
    MoreIsFaithful(Current(s).content, t, input);
  }

  lemma JoinNoNewline(a: string, b: string)
    requires NoNewline(a) && NoNewline(b)
    ensures NoNewline(a + b)
  {
  }

  /** The lines of an input that is the rest of the file, or has no newline, can be added. */
  lemma MoreIsFaithful(content: string, t: Track, input: string)
    requires Faithful(content, t) && AreLines(t.lines) && (input == content[End(t)..] || NoNewline(input))
    ensures var split := SplitLines(input);
      var t' := t.(lines := t.lines + split.lines);
      && Faithful(content, t') && AreLines(t'.lines) && End(t') == End(t) + |Unlines(split.lines)|
      && NoNewline(split.rest)
  {
    SplitLinesCorrect(input);
    if NoNewline(input) {
      SplitNothing(input);
      assert t.lines + [] == t.lines;
    } else {
      FaithfulMore(content, t, SplitLines(input).lines, SplitLines(input).rest);
    }
  }

  /** What has been taken of the file ends where the read starts. */
  lemma TrackHere(s: State)
    requires Inv(s) && s.pc.Located? && Here(s)
    ensures var content, t := Current(s).content, TrackAt(s, |s.files| - 1, s.pc.from);
      && Faithful(content, t) && AreLines(t.lines) && End(t) == s.pc.from <= |content| && Chunk(s) == content[End(t)..]
  {
    var g := |s.files| - 1;
    if g in s.tracks {
      assert s.at == g && Faithful(s.files[g].content, s.tracks[g]);
    }
  }

  /** What a read of that file does. */
  lemma ReadTakes(s: State, reset: bool)
    requires s.files != [] && s.pc.Located? && s.pc.size > s.pc.from && Here(s)
    ensures var split := SplitLines(Input(reset, s.buffer, Chunk(s)));
      var g := |s.files| - 1;
      var t := TrackAt(s, g, s.pc.from);
      Next(s, Read, reset) ==
        s.(saved := s.saved.(offset := Some(s.pc.from + |Unlines(split.lines)|)), buffer := split.rest, at := g,
           tracks := s.tracks[g := t.(lines := t.lines + split.lines)], pc := Handing(g, |t.lines|))
  {
  }

  lemma ReadKeeps(s: State, reset: bool)
    requires Inv(s) && Enabled(s, Read) && CleanRead(s, reset) && SteadyRead(s)
    ensures Inv(Next(s, Read, reset))
  {
    if s.pc.size > s.pc.from {
      if Here(s) {
        ReadIsFaithful(s, reset);
        ReadTakes(s, reset);
        var split := SplitLines(Input(reset, s.buffer, Chunk(s)));
        TakenKeeps(s, Next(s, Read, reset), TrackAt(s, |s.files| - 1, s.pc.from), split.lines);
      } else {
        EmptyReadKeeps(s, reset);
      }
    }
  }

  /** A read of a file that has taken the place of the located one, without a newline in it. */
  lemma EmptyReadKeeps(s: State, reset: bool)
    requires Inv(s) && Enabled(s, Read) && s.pc.size > s.pc.from && !Here(s) && NoNewline(Chunk(s))
    ensures Inv(Next(s, Read, reset))
  {
    SplitNothing(Input(reset, s.buffer, Chunk(s)));
    assert Unlines([]) == "";
  }

  /** The rest of the invariant when lines are added to the track of the last generation. */
  lemma TakenKeeps(s: State, s': State, t: Track, lines: seq<string>)
    requires Inv(s) && s.pc.Located? && Here(s) && t == TrackAt(s, |s.files| - 1, s.pc.from)
    requires var g, t' := |s.files| - 1, t.(lines := t.lines + lines);
      && Faithful(Current(s).content, t') && AreLines(t'.lines) && NoNewline(s'.buffer)
      && s' == s.(saved := s.saved.(offset := Some(End(t'))), buffer := s'.buffer, at := g,
                  tracks := s.tracks[g := t'], pc := Handing(g, |t.lines|))
    ensures Inv(s')
  {
  }

  lemma StepKeeps(s: State, step: Step, reset: bool)
    requires Inv(s) && Enabled(s, step) && SteadyStep(s, step)
    requires step.Read? ==> CleanRead(s, reset)
    ensures Inv(Next(s, step, reset))
  {
    match step
    case Grow(more) => GrowKeeps(s, more, reset);
    case Rotate(_) => NewFileKeeps(s, step, reset);
    case Truncate => NewFileKeeps(s, step, reset);
    case Stat => StatKeeps(s, reset);
    case WriteOffset => WriteKeeps(s, reset);
    case Read => ReadKeeps(s, reset);
    case Hand => HandKeeps(s, reset);
    case Crash => CrashKeeps(s, reset);
  }

  predicate SteadyStep(s: State, step: Step)
    requires s.files != [] && Enabled(s, step)
  {
    (step.Stat? ==> SteadyStat(s)) && (step.Read? ==> SteadyRead(s))
  }

  /**
   * A run in which each new file is seen to be new: no poll takes one with the saved inode for
   * the old file, and no read takes lines of a file that came to the path after `stat`.
   */
  predicate SteadyRun(s: State, steps: seq<Step>, reset: bool)
    requires s.files != [] && Runs(s, steps, reset)
    decreases |steps|
  {
    steps != [] ==>
      && SteadyStep(s, steps[0])
      && SteadyRun(Next(s, steps[0], reset), steps[1..], reset)
  }

  /** With the buffer emptied at each poll, every such run from the first start on keeps the invariant. */
  lemma {:induction false} EveryRun(s: State, steps: seq<Step>)
    requires Inv(s) && Runs(s, steps, true) && SteadyRun(s, steps, true)
    ensures Inv(After(s, steps, true))
    decreases |steps|
  {
    if steps != [] {
      StepKeeps(s, steps[0], true);
      EveryRun(Next(s, steps[0], true), steps[1..]);
    }
  }

  lemma InitOk(f: File)
    ensures Inv(Init(f))
  {
  }

  // -- what is handed on ---------------------------------------------------------------------

  /** Line `h.1` of generation `h.0` has been taken. */
  predicate Taken(s: State, h: (nat, nat)) { h.0 in s.tracks && h.1 < |s.tracks[h.0].lines| }

  predicate InOrder(handed: seq<(nat, nat)>) { forall i, j :: 0 <= i < j < |handed| ==> Before(handed[i], handed[j]) }

  /** It has been taken, and is not waiting to be handed on. */
  predicate Done(s: State, h: (nat, nat)) { Taken(s, h) && (s.pc.Handing? ==> Before(h, (s.pc.gen, s.pc.next))) }

  /** Every line taken is handed on, lost or in flight. */
  ghost predicate AllAccounted(s: State) {
    forall h: (nat, nat) :: Taken(s, h) ==> h in s.handed || h in s.lost || h in InFlight(s)
  }

  ghost predicate Delivery(s: State) {
    && s.files != []
    && (forall g :: g in s.tracks ==> g < |s.files|)
    && InOrder(s.handed)
    && (forall h :: h in s.handed ==> Done(s, h))
    && (forall h :: h in s.lost ==> Done(s, h) && h !in s.handed)
    && AllAccounted(s)
  }

  /** A step that takes nothing, hands nothing on and loses nothing. */
  lemma QuietDelivers(s: State, s': State)
    requires Delivery(s) && s'.tracks == s.tracks && s'.handed == s.handed && s'.lost == s.lost
    requires s'.pc == s.pc || (!s.pc.Handing? && !s'.pc.Handing?)
    requires |s.files| <= |s'.files|
    ensures Delivery(s')
  {
    assert InFlight(s') == InFlight(s);
    forall h: (nat, nat) | Taken(s', h) ensures h in s'.handed || h in s'.lost || h in InFlight(s') {
      assert Taken(s, h);
    }
  }

  lemma CrashDelivers(s: State, reset: bool)
    requires Delivery(s)
    ensures Delivery(Next(s, Crash, reset))
  {
    var s' := Next(s, Crash, reset);
    forall h: (nat, nat) | Taken(s', h) ensures h in s'.handed || h in s'.lost || h in InFlight(s') {
      assert Taken(s, h);
    }
  }

  lemma HandedMore(handed: seq<(nat, nat)>, gen: nat, next: nat)
    requires InOrder(handed) && forall h :: h in handed ==> Before(h, (gen, next))
    ensures InOrder(handed + [(gen, next)])
  {
  }

  lemma HandDelivers(s: State, reset: bool)
    requires Delivery(s) && Enabled(s, Hand)
    ensures Delivery(Next(s, Hand, reset))
  {
    var s' := Next(s, Hand, reset);
    if s'.pc.Handing? {
      HandedMore(s.handed, s.pc.gen, s.pc.next);
    }
    forall h: (nat, nat) | Taken(s', h) ensures h in s'.handed || h in s'.lost || h in InFlight(s') {
      assert Taken(s, h);
    }
  }

  /** Lines of the last generation are taken, and are now to be handed on. */
  lemma BatchDelivers(s: State, s': State, g: nat, t: Track, lines: seq<string>)
    requires Delivery(s) && !s.pc.Handing? && |s.files| == g + 1 && (g in s.tracks ==> t == s.tracks[g])
    requires s'.files == s.files && s'.handed == s.handed && s'.lost == s.lost && s'.pc == Handing(g, |t.lines|)
    requires s'.tracks == s.tracks[g := t.(lines := t.lines + lines)] && (g !in s.tracks ==> t.lines == [])
    ensures Delivery(s')
  {
    forall h: (nat, nat) | Taken(s', h) ensures h in s'.handed || h in s'.lost || h in InFlight(s') {
      assert Taken(s, h) || h in InFlight(s');
    }
    forall h: (nat, nat) | Done(s, h) ensures Done(s', h) {
      assert h.0 in s.tracks;
    }
  }

  /** Nothing is taken of a generation, nor was before. */
  lemma EmptyBatchDelivers(s: State, s': State, g: nat)
    requires Delivery(s) && !s.pc.Handing? && |s.files| == g + 1 && g !in s.tracks
    requires s'.files == s.files && s'.handed == s.handed && s'.lost == s.lost && s'.pc == Handing(g, 0)
    requires s'.tracks == s.tracks
    ensures Delivery(s')
  {
    forall h: (nat, nat) | Taken(s', h) ensures h in s'.handed || h in s'.lost {
      assert Taken(s, h);
    }
    forall h: (nat, nat) | Done(s, h) ensures Done(s', h) {
      assert h.0 in s.tracks;
    }
  }

  lemma SameTrack(tracks: map<nat, Track>, g: nat, lines: seq<string>)
    ensures g in tracks && lines == [] ==> tracks == tracks[g := tracks[g].(lines := tracks[g].lines + lines)]
  {
    if g in tracks && lines == [] {
      assert tracks[g].lines + lines == tracks[g].lines;
    }
  }

  lemma ReadDelivers(s: State, reset: bool)
    requires Delivery(s) && Enabled(s, Read)
    ensures Delivery(Next(s, Read, reset))
  {
    var s', g := Next(s, Read, reset), |s.files| - 1;
    var lines := SplitLines(Input(reset, s.buffer, Chunk(s))).lines;
    if s.pc.size <= s.pc.from {
      QuietDelivers(s, s');
    } else if g in s'.tracks {
      SameTrack(s.tracks, g, lines);
      BatchDelivers(s, s', g, TrackAt(s, g, s.pc.from), lines);
    } else {
      EmptyBatchDelivers(s, s', g);
    }
  }

  lemma StepDelivers(s: State, step: Step, reset: bool)
    requires Delivery(s) && Enabled(s, step)
    ensures Delivery(Next(s, step, reset))
  {
    match step
    case Read => ReadDelivers(s, reset);
    case Hand => HandDelivers(s, reset);
    case Crash => CrashDelivers(s, reset);
    case _ => QuietDelivers(s, Next(s, step, reset));
  }

  lemma {:induction false} EveryDelivery(s: State, steps: seq<Step>, reset: bool)
    requires Delivery(s) && Runs(s, steps, reset)
    ensures Delivery(After(s, steps, reset))
    decreases |steps|
  {
    if steps != [] {
      StepDelivers(s, steps[0], reset);
      EveryDelivery(Next(s, steps[0], reset), steps[1..], reset);
    }
  }

  lemma {:induction false} NoCrashNoLoss(s: State, steps: seq<Step>, reset: bool)
    requires s.files != [] && Runs(s, steps, reset) && Crash !in steps
    ensures After(s, steps, reset).lost == s.lost
    decreases |steps|
  {
    if steps != [] {
      assert steps[0] in steps && Crash !in steps[1..];
      NoCrashNoLoss(Next(s, steps[0], reset), steps[1..], reset);
    }
  }

  /** Lines go to the consumer in order and never twice, and none is left out but by a crash. */
  ghost predicate HandedRight(s: State) {
    && InOrder(s.handed)
    && (forall h: (nat, nat) :: Taken(s, h) <==> h in s.handed || h in s.lost || h in InFlight(s))
    && (forall h :: h in s.handed ==> h !in s.lost && h !in InFlight(s))
    && s.lost !! InFlight(s)
  }

  lemma DeliveryRight(s: State)
    requires Delivery(s)
    ensures HandedRight(s)
  {
    forall h: (nat, nat) ensures Taken(s, h) <==> h in s.handed || h in s.lost || h in InFlight(s) {
      if h in s.handed || h in s.lost {
        assert Done(s, h);
      }
    }
  }

  /**
   * In every run at all, of the code as written too: each line taken is handed on once and in
   * order, or a crash fell while its batch was being handed on, or it is still in flight.
   */
  lemma EveryLineHanded(f: File, steps: seq<Step>, reset: bool)
    requires Runs(Init(f), steps, reset)
    ensures HandedRight(After(Init(f), steps, reset))
    ensures Crash !in steps ==> After(Init(f), steps, reset).lost == {}
  {
    EveryDelivery(Init(f), steps, reset);
    DeliveryRight(After(Init(f), steps, reset));
    if Crash !in steps {
      NoCrashNoLoss(Init(f), steps, reset);
    }
  }

  // -- the theorem, read off the invariants ----------------------------------------------

  /**
   * What has been taken from a generation is its text from the start offset on, cut at its
   * newlines; and every generation after the first is read from its beginning, unless a crash
   * fell between its two writes.
   */
  predicate LinesRight(s: State) {
    forall g :: g in s.tracks ==>
      && g < |s.files| && AreLinesFrom(s.files[g].content, s.tracks[g])
      && (g != s.firstFile && g !in s.torn ==> s.tracks[g].start == 0)
  }

  /** The saved offset of the current generation is its start or just behind a newline. */
  predicate OffsetRight(s: State) {
    s.at in s.tracks ==>
      var o := OffsetOf(s.saved);
      && s.at < |s.files|
      && (o == s.tracks[s.at].start || (0 < o <= |s.files[s.at].content| && s.files[s.at].content[o - 1] == NL))
  }

  /** The promise, across any growth, rotations, truncations, polls and crashes. */
  ghost predicate Tailed(s: State) { LinesRight(s) && OffsetRight(s) && HandedRight(s) }

  /** The text from the start offset begins with exactly these lines. */
  predicate AreLinesFrom(content: string, t: Track) {
    && AreLines(t.lines)
    && t.start <= |content| && |Unlines(t.lines)| <= |content| - t.start
    && content[t.start..t.start + |Unlines(t.lines)|] == Unlines(t.lines)
  }

  lemma EndsBehindNewline(content: string, t: Track)
    requires Faithful(content, t) && t.lines != []
    ensures 0 < End(t) <= |content| && content[End(t) - 1] == NL
  {
    UnlinesEnd(t.lines);
    assert content[t.start..End(t)][|Unlines(t.lines)| - 1] == content[End(t) - 1];
  }

  lemma InvTailed(s: State)
    requires Inv(s)
    ensures LinesRight(s) && OffsetRight(s)
  {
    if s.at in s.tracks && s.tracks[s.at].lines != [] {
      EndsBehindNewline(s.files[s.at].content, s.tracks[s.at]);
    }
  }

  /** On the intended variant, which starts each poll with an empty buffer, for all reads. */
  lemma TailingIsFaithful(f: File, steps: seq<Step>)
    requires Runs(Init(f), steps, true) && SteadyRun(Init(f), steps, true)
    ensures Tailed(After(Init(f), steps, true))
  {
    InitOk(f);
    EveryRun(Init(f), steps);
    InvTailed(After(Init(f), steps, true));
    EveryLineHanded(f, steps, true);
  }

  lemma {:induction false} UnlinesEnd(lines: seq<string>)
    ensures lines != [] ==> Unlines(lines) != "" && Unlines(lines)[|Unlines(lines)| - 1] == NL
  {
    if |lines| > 1 {
      UnlinesEnd(lines[1..]);
    } else if lines != [] {
      assert lines[1..] == [];
    }
  }

  // -- the code as written -----------------------------------------------------------------

  /** A run of the code as written in which no read meets its own leftover and a newline. */
  predicate CleanRun(s: State, steps: seq<Step>)
    requires s.files != [] && Runs(s, steps, false)
    decreases |steps|
  {
    steps != [] ==>
      && (steps[0].Read? ==> CleanRead(s, false))
      && CleanRun(Next(s, steps[0], false), steps[1..])
  }

  lemma {:induction false} EveryCleanRun(s: State, steps: seq<Step>)
    requires Inv(s) && Runs(s, steps, false) && SteadyRun(s, steps, false) && CleanRun(s, steps)
    ensures Inv(After(s, steps, false))
    decreases |steps|
  {
    if steps != [] {
      StepKeeps(s, steps[0], false);
      EveryCleanRun(Next(s, steps[0], false), steps[1..]);
    }
  }

  /** What this read returns, if it reads at all, is nothing or ends at a newline. */
  predicate EndsAtNewline(s: State)
    requires s.files != [] && s.pc.Located?
  {
    s.pc.size > s.pc.from && Chunk(s) != "" ==> Chunk(s)[|Chunk(s)| - 1] == NL
  }

  predicate ReadsEndAtNewline(s: State, steps: seq<Step>)
    requires s.files != [] && Runs(s, steps, false)
    decreases |steps|
  {
    steps != [] ==>
      && (steps[0].Read? ==> EndsAtNewline(s))
      && ReadsEndAtNewline(Next(s, steps[0], false), steps[1..])
  }

  lemma {:induction false} NewlineLeavesNothing(s: string)
    requires s != "" && s[|s| - 1] == NL
    ensures SplitLines(s).rest == ""
  {
    if |s| > 1 {
      NewlineLeavesNothing(s[1..]);
      NewlineMeansLine(s[1..]);
      assert s[1..][|s| - 2] == NL;
    } else {
      assert s[1..] == "";
    }
  }

  lemma BufferStaysEmpty(s: State, step: Step)
    requires Inv(s) && s.buffer == "" && Enabled(s, step)
    requires step.Read? ==> EndsAtNewline(s)
    ensures Next(s, step, false).buffer == ""
  {
    if step.Read? && s.pc.size > s.pc.from {
      assert Input(false, s.buffer, Chunk(s)) == Chunk(s);
      if Chunk(s) != "" {
        NewlineLeavesNothing(Chunk(s));
      }
    }
  }

  /** If every read ends at a newline, the code as written keeps the invariant too. */
  lemma {:induction false} AsWritten(s: State, steps: seq<Step>)
    requires Inv(s) && s.buffer == "" && Runs(s, steps, false)
    requires SteadyRun(s, steps, false) && ReadsEndAtNewline(s, steps)
    ensures Inv(After(s, steps, false))
    decreases |steps|
  {
    if steps != [] {
      BufferStaysEmpty(s, steps[0]);
      StepKeeps(s, steps[0], false);
      AsWritten(Next(s, steps[0], false), steps[1..]);
    }
  }

  /** As the code is written, the same holds of every such run whose reads end at newlines. */
  lemma TailingAsWritten(f: File, steps: seq<Step>)
    requires Runs(Init(f), steps, false) && SteadyRun(Init(f), steps, false) && ReadsEndAtNewline(Init(f), steps)
    ensures Tailed(After(Init(f), steps, false))
  {
    InitOk(f);
    AsWritten(Init(f), steps);
    InvTailed(After(Init(f), steps, false));
    EveryLineHanded(f, steps, false);
  }

  /**
   * Exactly when a read goes wrong. What is taken stays right if and only if no incomplete line
   * of before meets a newline, and the file is the one that was located, or is read from its
   * beginning, or the chunk has no newline. It can be built upon, that is the invariant holds,
   * if and only if moreover a file read from its beginning has the saved inode: `TakenAgain`.
   */
  lemma ReadExact(s: State, reset: bool)
    requires Inv(s) && Enabled(s, Read)
    ensures LinesRight(Next(s, Read, reset)) <==> CleanRead(s, reset) && (SteadyRead(s) || s.pc.from == 0)
    ensures Inv(Next(s, Read, reset)) <==> CleanRead(s, reset) && SteadyRead(s)
  {
    if CleanRead(s, reset) && SteadyRead(s) {
      ReadKeeps(s, reset);
      InvTailed(Next(s, Read, reset));
    } else {
      if Here(s) {
        DirtyIsWrong(s);
      } else {
        RacingRead(s, reset);
      }
    }
  }

  lemma FaithfulIsLines(content: string, t: Track)
    ensures AreLinesFrom(content, t) <==> AreLines(t.lines) && Faithful(content, t)
  {
  }

  lemma DirtyIsWrong(s: State)
    requires Inv(s) && Enabled(s, Read) && s.pc.size > s.pc.from && Here(s)
    requires s.buffer != "" && !NoNewline(Chunk(s))
    ensures !TracksOk(Next(s, Read, false)) && !LinesRight(Next(s, Read, false))
  {
    DirtyRead(s);
    ReadTakes(s, false);
    WrongTrack(Next(s, Read, false), |s.files| - 1);
  }

  lemma WrongTrack(s: State, g: nat)
    requires g in s.tracks && g < |s.files| && !Faithful(s.files[g].content, s.tracks[g])
    ensures !TracksOk(s) && !LinesRight(s)
  {
    FaithfulIsLines(s.files[g].content, s.tracks[g]);
  }

  /** A read of a file that was not located, and that has not the saved inode or is not read from its beginning. */
  lemma RacingRead(s: State, reset: bool)
    requires Inv(s) && Enabled(s, Read) && s.pc.size > s.pc.from && !Here(s) && !NoNewline(Chunk(s))
    ensures !TracksOk(Next(s, Read, reset))
    ensures LinesRight(Next(s, Read, reset)) <==> CleanRead(s, reset) && s.pc.from == 0
  {
    var s', g := Next(s, Read, reset), |s.files| - 1;
    RacingTakes(s, reset);
    assert g in s'.tracks;
    if s.pc.from == 0 {
      FromTheBeginning(s, reset);
      InvTailed(s);
      OtherTracks(s, s', g);
    }
  }

  lemma InputHasLine(s: State, reset: bool)
    requires s.files != [] && s.pc.Located? && !NoNewline(Chunk(s))
    ensures SplitLines(Input(reset, s.buffer, Chunk(s))).lines != []
  {
    NewlineMeansLine(Input(reset, s.buffer, Chunk(s)));
    LaterNewline(s.buffer, Chunk(s));
  }

  lemma NothingBefore(lines: seq<string>)
    ensures [] + lines == lines
  {
  }

  /** Where it starts, and what it takes. */
  lemma RacingTakes(s: State, reset: bool)
    requires Inv(s) && Enabled(s, Read) && s.pc.size > s.pc.from && !Here(s) && !NoNewline(Chunk(s))
    ensures var g, split := |s.files| - 1, SplitLines(Input(reset, s.buffer, Chunk(s)));
      && g > s.at && g !in s.tracks && g != s.firstFile && g !in s.torn && split.lines != []
      && Next(s, Read, reset) ==
           s.(saved := s.saved.(offset := Some(s.pc.from + |Unlines(split.lines)|)), buffer := split.rest,
              tracks := s.tracks[g := Track(s.pc.from, split.lines)], pc := Handing(g, 0))
  {
    InputHasLine(s, reset);
    NothingBefore(SplitLines(Input(reset, s.buffer, Chunk(s))).lines);
    assert |s.files| - 1 > s.at;
  }

  lemma FromTheBeginning(s: State, reset: bool)
    requires Inv(s) && s.pc.Located? && s.pc.from == 0 && s.pc.size > 0 && !NoNewline(Chunk(s))
    ensures AreLinesFrom(Current(s).content, Track(0, SplitLines(Input(reset, s.buffer, Chunk(s))).lines))
       <==> CleanRead(s, reset)
  {
    var content := Current(s).content;
    assert Chunk(s) == content;
    var input := Input(reset, s.buffer, content);
    var t := Track(0, SplitLines(input).lines);
    FaithfulIsLines(content, t);
    SplitLinesCorrect(input);
    if CleanRead(s, reset) {
      assert input == content;
    } else {
      DirtyLines(content, Track(0, []), s.buffer, content);
      assert [] + t.lines == t.lines;
    }
  }

  lemma OtherTracks(s: State, s': State, g: nat)
    requires LinesRight(s) && s'.files == s.files && s'.firstFile == s.firstFile && s'.torn == s.torn
    requires g < |s.files| && g !in s.tracks && g in s'.tracks && s'.tracks == s.tracks[g := s'.tracks[g]]
    requires s'.tracks[g].start == 0
    ensures LinesRight(s') <==> AreLinesFrom(s.files[g].content, s'.tracks[g])
  {
  }

  lemma LaterNewline(p: string, chunk: string)
    ensures NoNewline(p + chunk) ==> NoNewline(chunk)
  {
    assert forall i :: 0 <= i < |chunk| ==> chunk[i] == (p + chunk)[|p| + i];
  }

  /** Of the located file it takes what the file says if and only if it is clean. */
  lemma LinesExact(s: State)
    requires Inv(s) && Enabled(s, Read) && s.pc.size > s.pc.from && Here(s)
    ensures var t := TrackAt(s, |s.files| - 1, s.pc.from);
      var split := SplitLines(Input(false, s.buffer, Chunk(s)));
      Faithful(Current(s).content, t.(lines := t.lines + split.lines)) <==> CleanRead(s, false)
  {
    if CleanRead(s, false) {
      ReadIsFaithful(s, false);
    } else {
      DirtyRead(s);
    }
  }

  lemma DirtyRead(s: State)
    requires Inv(s) && Enabled(s, Read) && s.pc.size > s.pc.from && Here(s)
    requires s.buffer != "" && !NoNewline(Chunk(s))
    ensures var t := TrackAt(s, |s.files| - 1, s.pc.from);
      var split := SplitLines(s.buffer + Chunk(s));
      !Faithful(Current(s).content, t.(lines := t.lines + split.lines))
  {
    TrackHere(s);
    DirtyLines(Current(s).content, TrackAt(s, |s.files| - 1, s.pc.from), s.buffer, Chunk(s));
  }

  lemma DirtyLines(content: string, t: Track, buffer: string, chunk: string)
    requires Faithful(content, t) && chunk == content[End(t)..]
    requires buffer != "" && NoNewline(buffer) && !NoNewline(chunk)
    ensures !Faithful(content, t.(lines := t.lines + SplitLines(buffer + chunk).lines))
  {
    LateNewline(buffer, chunk);
    WrongLines(content, t, SplitLines(buffer + chunk).lines);
  }

  /** Two texts of which one has a newline where the other has none. */
  predicate Differ(u: string, chunk: string) {
    exists i :: 0 <= i < |u| && i < |chunk| && u[i] != NL && chunk[i] == NL
  }

  lemma {:induction false} FirstNewline(s: string) returns (i: nat)
    requires !NoNewline(s)
    ensures i < |s| && s[i] == NL && forall j :: 0 <= j < i ==> s[j] != NL
  {
    if s[0] == NL {
      i := 0;
    } else {
      assert !NoNewline(s[1..]) by {
        var k :| 0 <= k < |s| && s[k] == NL;
        assert s[1..][k - 1] == NL;
      }
      i := FirstNewline(s[1..]);
      i := i + 1;
    }
  }

  lemma LateNewline(p: string, chunk: string)
    requires p != "" && NoNewline(p) && !NoNewline(chunk)
    ensures Differ(Unlines(SplitLines(p + chunk).lines), chunk)
  {
    var a := SplitLines(p + chunk);
    var u := Unlines(a.lines);
    SplitLinesCorrect(p + chunk);
    var i := FirstNewline(chunk);
    assert (u + a.rest)[|p| + i] == NL;
    assert |p| + i < |u|;
    assert u[i] == (u + a.rest)[i] == (p + chunk)[i];
  }

  lemma FaithfulAt(content: string, t: Track, k: nat)
    requires Faithful(content, t) && k < |Unlines(t.lines)|
    ensures content[t.start + k] == Unlines(t.lines)[k]
  {
    assert content[t.start..End(t)][k] == Unlines(t.lines)[k];
  }

  lemma WrongLines(content: string, t: Track, lines: seq<string>)
    requires Faithful(content, t) && Differ(Unlines(lines), content[End(t)..])
    ensures !Faithful(content, t.(lines := t.lines + lines))
  {
    var u, chunk := Unlines(lines), content[End(t)..];
    var i :| 0 <= i < |u| && i < |chunk| && u[i] != NL && chunk[i] == NL;
    UnlinesAppend(t.lines, lines);
    var t' := t.(lines := t.lines + lines);
    var k := |Unlines(t.lines)| + i;
    assert Unlines(t'.lines)[k] == u[i] && content[End(t) + i] == chunk[i];
    if Faithful(content, t') {
      FaithfulAt(content, t', k);
    }
  }

  // -- when a new file is not seen to be new --------------------------------------------------

  lemma BehindTheLines(content: string, t: Track, split: Split)
    requires Unlines(split.lines) + split.rest == content && NoNewline(split.rest)
    requires t.lines != [] && End(t) > |Unlines(split.lines)|
    ensures !Faithful(content, t)
  {
    if End(t) <= |content| {
      RestAt(Unlines(split.lines), split.rest, End(t) - 1);
      if Faithful(content, t) {
        EndsBehindNewline(content, t);
      }
    }
  }

  lemma RestAt(a: string, b: string, k: nat)
    requires |a| <= k < |a + b|
    ensures (a + b)[k] == b[k - |a|]
  {
  }

  /** Lines taken of a text and then all its lines are more than the text has. */
  lemma TwiceIsWrong(content: string, first: seq<string>)
    requires first != []
    ensures !Faithful(content, Track(0, first + SplitLines(content).lines))
  {
    var split := SplitLines(content);
    var t := Track(0, first + split.lines);
    SplitLinesCorrect(content);
    UnlinesAppend(first, split.lines);
    UnlinesEnd(first);
    BehindTheLines(content, t, split);
  }

  /**
   * After a racing read of a renamed file from its beginning the saved inode is still the old
   * one. So the next poll, whatever became of the lines meanwhile, takes them again.
   */
  lemma TakenAgain(s: State, t: State, more: string, reset: bool)
    requires Inv(s) && Enabled(s, Read) && !SteadyRead(s) && s.pc.from == 0
    requires t == Next(s, Read, reset).(pc := Idle, buffer := t.buffer, handed := t.handed, lost := t.lost)
    ensures Runs(t, [Grow(more), Stat, WriteOffset, Read], reset)
    ensures !LinesRight(After(t, [Grow(more), Stat, WriteOffset, Read], reset))
  {
    RacingTakes(s, reset);
    var g, content := |s.files| - 1, Current(s).content + more;
    var u1 := Next(t, Grow(more), reset);
    assert Current(u1).content == content && u1.saved.inode != Some(Current(u1).inode);
    var u2 := Next(u1, Stat, reset);
    assert u2.pc == InodeSaved(|content|, false);
    var u3 := Next(u2, WriteOffset, reset);
    assert u3.pc == Located(0, |content|) && u3.at == g && u3.buffer == "";
    var u4 := Next(u3, Read, reset);
    ThreeSteps(u1, Stat, WriteOffset, Read, reset);
    MoreSteps(t, Grow(more), [Stat, WriteOffset, Read], reset);
    assert [Grow(more)] + [Stat, WriteOffset, Read] == [Grow(more), Stat, WriteOffset, Read];
    AgainIsWrong(u3, u4, reset);
  }

  lemma AgainIsWrong(s: State, s': State, reset: bool)
    requires s.files != [] && s.pc.Located? && s.pc.from == 0 && s.pc.size > 0 && s.at == |s.files| - 1
    requires s.buffer == "" && s' == Next(s, Read, reset)
    requires s.at in s.tracks && s.tracks[s.at].start == 0 && s.tracks[s.at].lines != []
    ensures !LinesRight(s')
  {
    ReadTakes(s, reset);
    assert Input(reset, s.buffer, Chunk(s)) == Current(s).content;
    TwiceIsWrong(Current(s).content, s.tracks[s.at].lines);
    WrongTrack(s', s.at);
  }

  lemma OneStep(s: State, step: Step, reset: bool)
    requires s.files != [] && Enabled(s, step)
    ensures Runs(s, [step], reset) && After(s, [step], reset) == Next(s, step, reset)
  {
  }

  lemma MoreSteps(s: State, step: Step, steps: seq<Step>, reset: bool)
    requires s.files != [] && Enabled(s, step) && Runs(Next(s, step, reset), steps, reset)
    ensures Runs(s, [step] + steps, reset)
    ensures After(s, [step] + steps, reset) == After(Next(s, step, reset), steps, reset)
  {
    assert ([step] + steps)[1..] == steps;
  }

  lemma TwoSteps(s: State, a: Step, b: Step, reset: bool)
    requires s.files != [] && Enabled(s, a) && Enabled(Next(s, a, reset), b)
    ensures Runs(s, [a, b], reset) && After(s, [a, b], reset) == Next(Next(s, a, reset), b, reset)
  {
    OneStep(Next(s, a, reset), b, reset);
    MoreSteps(s, a, [b], reset);
    assert [a] + [b] == [a, b];
  }

  lemma ThreeSteps(s: State, a: Step, b: Step, c: Step, reset: bool)
    requires s.files != [] && Enabled(s, a) && Enabled(Next(s, a, reset), b)
    requires Enabled(Next(Next(s, a, reset), b, reset), c)
    ensures Runs(s, [a, b, c], reset)
    ensures After(s, [a, b, c], reset) == Next(Next(Next(s, a, reset), b, reset), c, reset)
  {
    TwoSteps(Next(s, a, reset), b, c, reset);
    MoreSteps(s, a, [b, c], reset);
    assert [a] + [b, c] == [a, b, c];
  }

  lemma FrontSkipped(s: State, more: string, reset: bool)
    requires Inv(s) && Enabled(s, Stat) && !SteadyStat(s) && more != ""
    ensures Runs(s, [Grow(more), Stat, Read], reset)
    ensures !LinesRight(After(s, [Grow(more), Stat, Read], reset))
  {
    var g, u1 := |s.files| - 1, Next(s, Grow(more), reset);
    var u2 := Next(u1, Stat, reset);
    assert u2 == u1.(pc := Located(OffsetOf(s.saved), |Current(u1).content|), at := g);
    ThreeSteps(s, Grow(more), Stat, Read, reset);
    ReadTakes(u2, reset);
    LateStart(Next(u2, Read, reset), g);
  }

  lemma LateStart(s: State, g: nat)
    requires g in s.tracks && g != s.firstFile && g !in s.torn && s.tracks[g].start != 0
    ensures !LinesRight(s)
  {
  }

  /**
   * Exactly when a poll goes wrong at `stat`: a new file has the inode of the old one and is
   * no shorter than what was read of that. Its front is then skipped, at the latest by the next
   * poll that finds text in it.
   */
  lemma StatExact(s: State, more: string, reset: bool)
    requires Inv(s) && Enabled(s, Stat)
    ensures Inv(Next(s, Stat, reset)) <==> SteadyStat(s)
    ensures !SteadyStat(s) && more != "" ==>
      && Runs(s, [Grow(more), Stat, Read], reset)
      && !LinesRight(After(s, [Grow(more), Stat, Read], reset))
  {
    if SteadyStat(s) {
      StatKeeps(s, reset);
    } else {
      assert |s.files| - 1 !in s.tracks;
      if more != "" {
        FrontSkipped(s, more, reset);
      }
    }
  }

  // -- a poll as a sequence of steps ----------------------------------------------------------

  /** After `stat` and the writes that its result calls for. */
  function BeforeRead(s: State): State
    requires s.files != [] && Enabled(s, Stat)
  {
    var s1 := AfterStat(s);
    if s1.pc.InodeSaved? then Next(s1, WriteOffset, false) else s1
  }

  lemma LocatedBeforeRead(s: State)
    requires s.files != [] && Enabled(s, Stat)
    ensures var f, s2 := Current(s), BeforeRead(s);
      && s2.files == s.files && s2.at == |s.files| - 1
      && s2.saved == Relocated(s.saved, f.inode, |f.content|)
      && s2.buffer == Kept(s.saved, f.inode, |f.content|, s.buffer)
      && s2.pc == Located(StartOf(s.saved, f.inode, |f.content|), |f.content|)
  {
  }

  /** A poll that nothing interrupts is the method `Poll`: its steps save, keep and take the same. */
  lemma PollIsItsSteps(s: State, reset: bool)
    requires s.files != [] && Enabled(s, Stat)
    ensures BeforeRead(s).pc.Located? && BeforeRead(s).files == s.files
    ensures var f, s' := Current(s), AfterRead(BeforeRead(s), reset);
      var o := Polled(reset, s.saved, s.buffer, f.inode, |f.content|, f.content);
      && s'.saved == o.saved && s'.buffer == o.buffer
      && (if s'.pc.Handing? then
            && s'.pc.gen == s'.at && s'.at in s'.tracks && s'.pc.next <= |s'.tracks[s'.at].lines|
            && s'.tracks[s'.at].lines[s'.pc.next..] == o.lines
          else o.lines == [])
  {
    LocatedBeforeRead(s);
  }

  /**
   * Where a daemon reads that starts again after a crash between the two writes of a rotation:
   * at the offset of the old file, unless the new one is still shorter than that.
   */
  lemma TornStart(s: State, more: string, reset: bool)
    requires Inv(s) && s.pc.Idle? && s.saved.inode.Some? && s.saved.inode.value != Current(s).inode
    ensures var torn := Next(Next(s, Stat, reset), Crash, reset);
      var later := Next(torn, Grow(more), reset);
      && later.torn == s.torn + {|s.files| - 1}
      && Enabled(later, Stat)
      && var size := |Current(s).content| + |more|;
         Next(later, Stat, reset).pc == Located(if size < OffsetOf(s.saved) then 0 else OffsetOf(s.saved), size)
  {
  }
}
