/**
 * Runs of the auth.log reader from its first start in which it does not take what the file
 * says, or does not hand on what it takes: a line read twice in part, a rotation torn by a
 * crash, a truncation that has grown over, a crash among the lines, a rotation during a poll.
 */
module AuthLogRuns {
  import opened Common
  import opened Lines
  import opened AuthLogTail

  // -- putting runs together -----------------------------------------------------------------

  lemma {:induction false} RunsOn(s: State, a: seq<Step>, b: seq<Step>, reset: bool)
    requires s.files != [] && Runs(s, a, reset) && Runs(After(s, a, reset), b, reset)
    ensures Runs(s, a + b, reset) && After(s, a + b, reset) == After(After(s, a, reset), b, reset)
    decreases |a|
  {
    if a == [] {
      assert a + b == b;
    } else {
      assert (a + b)[0] == a[0] && (a + b)[1..] == a[1..] + b;
      RunsOn(Next(s, a[0], reset), a[1..], b, reset);
    }
  }

  // -- the pieces of the runs ----------------------------------------------------------------

  const FIRST_POLL: seq<Step> := [Stat, WriteOffset, Read]

  /** The file grows and the next poll reads it. */
  function GrowAndPoll(more: string): seq<Step> { [Grow(more), Stat, Read] }

  /** The consumer takes `n` lines and then asks in vain. */
  function Hands(n: nat): seq<Step> { seq(n + 1, _ => Hand) }

  /** Between polls of the first file, from which `lines` have been taken. */
  predicate Between(s: State, inode: int, content: string, offset: nat, buffer: string, lines: seq<string>) {
    && s.files == [File(inode, content)] && s.saved == Saved(Some(inode), Some(offset)) && offset <= |content|
    && s.buffer == buffer && s.pc.Idle? && s.at == 0 && s.firstFile == 0 && s.torn == {}
    && s.tracks == (if lines == [] then map[] else map[0 := Track(0, lines)])
    && (lines == [] ==> offset == 0)
  }

  lemma FirstPoll(inode: int, reset: bool)
    ensures Runs(Init(File(inode, "")), FIRST_POLL, reset)
    ensures Between(After(Init(File(inode, "")), FIRST_POLL, reset), inode, "", 0, "", [])
  {
    ThreeSteps(Init(File(inode, "")), Stat, WriteOffset, Read, reset);
  }

  /** After a read of the first file: `taken` are all its lines so far, the last of them still to be handed on. */
  predicate HasRead(s: State, inode: int, content: string, offset: nat, buffer: string, lines: seq<string>, next: nat) {
    && s.files == [File(inode, content)] && s.saved == Saved(Some(inode), Some(offset))
    && s.buffer == buffer && s.pc == Handing(0, next) && s.at == 0 && s.firstFile == 0 && s.torn == {}
    && s.tracks == map[0 := Track(0, lines)]
  }

  /** The located file is about to be read. */
  predicate Found(s: State, inode: int, content: string, offset: nat, buffer: string, lines: seq<string>) {
    && s.files == [File(inode, content)] && s.saved == Saved(Some(inode), Some(offset)) && offset < |content|
    && s.buffer == buffer && s.pc == Located(offset, |content|) && s.at == 0 && s.firstFile == 0 && s.torn == {}
    && s.tracks == (if lines == [] then map[] else map[0 := Track(0, lines)])
    && (lines == [] ==> offset == 0)
  }

  lemma GrownAndFound(s: State, inode: int, content: string, offset: nat, buffer: string, lines: seq<string>,
                      more: string, reset: bool)
    requires Between(s, inode, content, offset, buffer, lines) && more != ""
    ensures Enabled(Next(s, Grow(more), reset), Stat)
    ensures Found(Next(Next(s, Grow(more), reset), Stat, reset), inode, content + more, offset, buffer, lines)
  {
    assert Next(s, Grow(more), reset).files == [File(inode, content + more)];
  }

  lemma FoundAndRead(s: State, inode: int, content: string, offset: nat, buffer: string, lines: seq<string>,
                     reset: bool)
    requires Found(s, inode, content, offset, buffer, lines)
    ensures var split := SplitLines(Input(reset, buffer, content[offset..]));
      HasRead(Next(s, Read, reset), inode, content, offset + |Unlines(split.lines)|, split.rest, lines + split.lines,
              |lines|)
  {
    assert TrackAt(s, 0, offset) == Track(0, lines);
  }

  lemma Polled(s: State, inode: int, content: string, offset: nat, buffer: string, lines: seq<string>, more: string,
               reset: bool)
    requires Between(s, inode, content, offset, buffer, lines) && more != ""
    ensures var all := content + more;
      var split := SplitLines(Input(reset, buffer, all[offset..]));
      && Runs(s, GrowAndPoll(more), reset)
      && HasRead(After(s, GrowAndPoll(more), reset), inode, all, offset + |Unlines(split.lines)|, split.rest,
                 lines + split.lines, |lines|)
  {
    GrownAndFound(s, inode, content, offset, buffer, lines, more, reset);
    FoundAndRead(Next(Next(s, Grow(more), reset), Stat, reset), inode, content + more, offset, buffer, lines, reset);
    ThreeSteps(s, Grow(more), Stat, Read, reset);
  }

  /** The consumer takes what is left of a generation. */
  lemma {:induction false} HandAll(s: State, n: nat, reset: bool)
    requires s.files != [] && s.pc.Handing? && s.pc.gen in s.tracks && s.pc.next + n == |s.tracks[s.pc.gen].lines|
    ensures Runs(s, Hands(n), reset)
    ensures var t := After(s, Hands(n), reset); t == s.(pc := Idle, handed := t.handed)
    decreases n
  {
    var t := Next(s, Hand, reset);
    OneStep(s, Hand, reset);
    if n == 0 {
      assert Hands(0) == [Hand];
    } else {
      HandAll(t, n - 1, reset);
      RunsOn(s, [Hand], Hands(n - 1), reset);
      assert [Hand] + Hands(n - 1) == Hands(n);
    }
  }

  /** A poll and what the consumer does with its lines. */
  function GrowAndTake(more: string, n: nat): seq<Step> { GrowAndPoll(more) + Hands(n) }

  lemma PolledAndTaken(s: State, inode: int, content: string, offset: nat, buffer: string, lines: seq<string>,
                       more: string, split: Split, reset: bool)
    requires Between(s, inode, content, offset, buffer, lines) && more != ""
    requires split == SplitLines(Input(reset, buffer, (content + more)[offset..])) && split.lines != []
    requires offset + |Unlines(split.lines)| <= |content + more|
    ensures var steps := GrowAndTake(more, |split.lines|);
      && Runs(s, steps, reset)
      && Between(After(s, steps, reset), inode, content + more, offset + |Unlines(split.lines)|, split.rest,
                 lines + split.lines)
  {
    Polled(s, inode, content, offset, buffer, lines, more, reset);
    var t := After(s, GrowAndPoll(more), reset);
    HandAll(t, |split.lines|, reset);
    RunsOn(s, GrowAndPoll(more), Hands(|split.lines|), reset);
  }

  // -- a partial line is read twice -----------------------------------------------------------

  lemma OneLine(line: string, rest: string)
    requires NoNewline(line) && NoNewline(rest)
    ensures SplitLines(line + ([NL] + rest)) == Split([line], rest) && |Unlines([line])| == |line| + 1
  {
    FirstLine(line, rest);
    SplitNothing(rest);
    assert [line] + [] == [line];
    assert Unlines([line]) == line + [NL] + Unlines([]);
  }

  /** A complete line and a part of the next are read, and then the newline arrives. */
  function PartialLineRun(line: string, part: string): seq<Step> {
    FIRST_POLL + GrowAndTake(line + ([NL] + part), 1) + GrowAndPoll([NL])
  }

  /** The run up to the newline. */
  lemma PartialLine(inode: int, line: string, part: string)
    requires NoNewline(line) && NoNewline(part)
    ensures var run := FIRST_POLL + GrowAndTake(line + ([NL] + part), 1);
      && Runs(Init(File(inode, "")), run, false)
      && Between(After(Init(File(inode, "")), run, false), inode, line + ([NL] + part), |line| + 1, part, [line])
  {
    var f, text := File(inode, ""), line + ([NL] + part);
    FirstPoll(inode, false);
    var s1 := After(Init(f), FIRST_POLL, false);
    OneLine(line, part);
    assert "" + text == text && text[0..] == text && [] + [line] == [line];
    PolledAndTaken(s1, inode, "", 0, "", [], text, Split([line], part), false);
    RunsOn(Init(f), FIRST_POLL, GrowAndTake(text, 1), false);
  }

  /**
   * The code as written takes the part twice, and saves an offset beyond the end of the file;
   * the next poll takes the file for one that was cut short, and reads all of it again. With
   * `abc` and `de` the line comes out as `dede`, and the offset is 9 in a file of 7 bytes.
   */
  lemma PartialLineTwice(inode: int, line: string, part: string)
    requires NoNewline(line) && NoNewline(part) && part != ""
    ensures var f, run := File(inode, ""), PartialLineRun(line, part);
      && Runs(Init(f), run, false)
      && var s := After(Init(f), run, false);
         && s.files == [File(inode, line + ([NL] + part) + [NL])]
         && s.tracks == map[0 := Track(0, [line, part + part])]
         && s.saved == Saved(Some(inode), Some(|s.files[0].content| + |part|))
         && !Tailed(s)
         && SituationOf(s.saved, inode, |s.files[0].content|) == Shrunk
  {
    var f, run := File(inode, ""), FIRST_POLL + GrowAndTake(line + ([NL] + part), 1);
    PartialLine(inode, line, part);
    PartTwice(After(Init(f), run, false), inode, line, part);
    RunsOn(Init(f), run, GrowAndPoll([NL]), false);
  }

  lemma PartJoined(line: string, part: string)
    requires NoNewline(part)
    ensures (line + ([NL] + part) + [NL])[|line| + 1..] == part + [NL]
    ensures SplitLines(part + (part + [NL])) == Split([part + part], "")
    ensures |Unlines([part + part])| == 2 * |part| + 1
  {
    JoinNoNewline(part, part);
    OneLine(part + part, "");
    assert part + (part + [NL]) == (part + part) + ([NL] + "");
  }

  /** More lines than the file has text for. */
  lemma TooMuchTaken(s: State, inode: int, content: string, line: string, part: string)
    requires s.files == [File(inode, content)] && s.tracks == map[0 := Track(0, [line, part + part])]
    requires |content| < |line| + 2 * |part| + 2
    ensures !Tailed(s)
  {
    assert [line, part + part][1..] == [part + part];
    assert Unlines([line, part + part]) == line + [NL] + Unlines([part + part]);
    assert Unlines([part + part]) == (part + part) + [NL] + Unlines([]);
    assert 0 in s.tracks;
  }

  lemma PartTwice(s: State, inode: int, line: string, part: string)
    requires NoNewline(line) && NoNewline(part) && part != ""
    requires Between(s, inode, line + ([NL] + part), |line| + 1, part, [line])
    ensures Runs(s, GrowAndPoll([NL]), false)
    ensures var t := After(s, GrowAndPoll([NL]), false);
      && t.files == [File(inode, line + ([NL] + part) + [NL])]
      && t.tracks == map[0 := Track(0, [line, part + part])]
      && t.saved == Saved(Some(inode), Some(|t.files[0].content| + |part|))
      && !Tailed(t)
  {
    var content := line + ([NL] + part);
    PartJoined(line, part);
    assert [line] + [part + part] == [line, part + part];
    Polled(s, inode, content, |line| + 1, part, [line], [NL], false);
    TooMuchTaken(After(s, GrowAndPoll([NL]), false), inode, content + [NL], line, part);
  }

  // -- a crash inside a rotation -----------------------------------------------------------------

  lemma LineTaken(inode: int, line: string, reset: bool)
    requires NoNewline(line)
    ensures var run := FIRST_POLL + GrowAndTake(line + [NL], 1);
      && Runs(Init(File(inode, "")), run, reset)
      && Between(After(Init(File(inode, "")), run, reset), inode, line + [NL], |line| + 1, "", [line])
  {
    var f, text := File(inode, ""), line + [NL];
    FirstPoll(inode, reset);
    var s1 := After(Init(f), FIRST_POLL, reset);
    OneLine(line, "");
    assert text == line + ([NL] + "") && "" + text == text && text[0..] == text && [] + [line] == [line];
    PolledAndTaken(s1, inode, "", 0, "", [], text, Split([line], ""), reset);
    RunsOn(Init(f), FIRST_POLL, GrowAndTake(text, 1), reset);
  }

  /** A rotation whose new inode is saved, but not its offset, before the daemon starts again. */
  function TornRun(line: string, inode: int, text: string): seq<Step> {
    FIRST_POLL + GrowAndTake(line + [NL], 1) + [Rotate(inode), Stat, Crash] + GrowAndPoll(text)
  }

  lemma Torn(s: State, inode: int, content: string, offset: nat, lines: seq<string>, other: int, reset: bool)
    requires Between(s, inode, content, offset, "", lines) && other != inode
    ensures var steps := [Rotate(other), Stat, Crash];
      && Runs(s, steps, reset)
      && var t := After(s, steps, reset);
         && t.files == [File(inode, content), File(other, "")] && t.saved == Saved(Some(other), Some(offset))
         && t.buffer == "" && t.pc.Idle? && t.at == 1 && t.firstFile == 0 && t.torn == {1} && t.tracks == s.tracks
  {
    var rotated := Next(s, Rotate(other), reset);
    assert rotated.files == [File(inode, content), File(other, "")];
    ThreeSteps(s, Rotate(other), Stat, Crash, reset);
  }

  lemma TornPoll(s: State, old': File, inode: int, offset: nat, tracks: map<nat, Track>, text: string, reset: bool)
    requires s.files == [old', File(inode, "")] && s.saved == Saved(Some(inode), Some(offset)) && 0 < offset < |text|
    requires s.buffer == "" && s.pc.Idle? && s.tracks == tracks && 1 !in tracks
    ensures Runs(s, GrowAndPoll(text), reset)
    ensures var t := After(s, GrowAndPoll(text), reset);
      && t.files == [old', File(inode, text)] && t.firstFile == s.firstFile && t.torn == s.torn
      && t.tracks == tracks[1 := Track(offset, SplitLines(text[offset..]).lines)]
  {
    var grown := Next(s, Grow(text), reset);
    assert "" + text == text;
    assert grown.files == [old', File(inode, text)];
    var located := Next(grown, Stat, reset);
    assert located.pc == Located(offset, |text|) && located.at == 1;
    assert "" + text[offset..] == text[offset..];
    ThreeSteps(s, Grow(text), Stat, Read, reset);
    assert [] + SplitLines(text[offset..]).lines == SplitLines(text[offset..]).lines;
  }

  /** The new file is read from the offset of the old one: what stands before it is skipped. */
  lemma TornRotationSkips(inode: int, line: string, other: int, text: string, reset: bool)
    requires NoNewline(line) && other != inode && |line| + 1 < |text|
    ensures var f, run := File(inode, ""), TornRun(line, other, text);
      && Runs(Init(f), run, reset)
      && var s := After(Init(f), run, reset);
         && s.files == [File(inode, line + [NL]), File(other, text)]
         && 1 in s.tracks && s.tracks[1] == Track(|line| + 1, SplitLines(text[|line| + 1..]).lines)
  {
    var f, first := File(inode, ""), FIRST_POLL + GrowAndTake(line + [NL], 1);
    LineTaken(inode, line, reset);
    var s1 := After(Init(f), first, reset);
    Torn(s1, inode, line + [NL], |line| + 1, [line], other, reset);
    var s2 := After(s1, [Rotate(other), Stat, Crash], reset);
    RunsOn(Init(f), first, [Rotate(other), Stat, Crash], reset);
    TornPoll(s2, File(inode, line + [NL]), other, |line| + 1, s2.tracks, text, reset);
    RunsOn(Init(f), first + [Rotate(other), Stat, Crash], GrowAndPoll(text), reset);
  }

  // -- a truncation that has grown over ------------------------------------------------------------

  /** The file is truncated and has grown longer than it was before the next poll. */
  function RegrownRun(line: string, text: string): seq<Step> {
    FIRST_POLL + GrowAndTake(line + [NL], 1) + [Truncate] + GrowAndPoll(text)
  }

  /** Then it is taken for the old file, and read from the old offset; likewise if a new file has the old inode. */
  lemma RegrownFileSkips(inode: int, line: string, text: string, reset: bool)
    requires NoNewline(line) && |line| + 1 < |text|
    ensures var f, run := File(inode, ""), RegrownRun(line, text);
      && Runs(Init(f), run, reset)
      && var s := After(Init(f), run, reset);
         && s.files == [File(inode, line + [NL]), File(inode, text)]
         && 1 in s.tracks && s.tracks[1] == Track(|line| + 1, SplitLines(text[|line| + 1..]).lines)
         && !LinesRight(s)
  {
    var f, first, n := File(inode, ""), FIRST_POLL + GrowAndTake(line + [NL], 1), |line| + 1;
    LineTaken(inode, line, reset);
    var s1 := After(Init(f), first, reset);
    var s2 := Next(s1, Truncate, reset);
    OneStep(s1, Truncate, reset);
    assert s2 == s1.(files := [File(inode, line + [NL]), File(inode, "")]);
    RunsOn(Init(f), first, [Truncate], reset);
    TornPoll(s2, File(inode, line + [NL]), inode, n, s2.tracks, text, reset);
    RunsOn(Init(f), first + [Truncate], GrowAndPoll(text), reset);
    LateStart(After(Init(f), RegrownRun(line, text), reset), 1);
  }

  // -- a crash while lines are handed on -------------------------------------------------------------

  /** A line is taken, its offset is saved, and the daemon stops before it hands the line on. */
  function LosingRun(line: string): seq<Step> { FIRST_POLL + GrowAndPoll(line + [NL]) + [Crash] }

  lemma CrashLosesLine(inode: int, line: string, reset: bool)
    requires NoNewline(line)
    ensures var f, run := File(inode, ""), LosingRun(line);
      && Runs(Init(f), run, reset)
      && var s := After(Init(f), run, reset);
         && s.tracks == map[0 := Track(0, [line])] && s.saved == Saved(Some(inode), Some(|s.files[0].content|))
         && (0, 0) in s.lost && (0, 0) !in s.handed
  {
    var f, text := File(inode, ""), line + [NL];
    FirstPoll(inode, reset);
    var s1 := After(Init(f), FIRST_POLL, reset);
    OneLine(line, "");
    assert text == line + ([NL] + "") && "" + text == text && text[0..] == text && [] + [line] == [line];
    Polled(s1, inode, "", 0, "", [], text, reset);
    RunsOn(Init(f), FIRST_POLL, GrowAndPoll(text), reset);
    var s2 := After(s1, GrowAndPoll(text), reset);
    assert (0, 0) in InFlight(s2);
    OneStep(s2, Crash, reset);
    RunsOn(Init(f), FIRST_POLL + GrowAndPoll(text), [Crash], reset);
    EveryLineHanded(f, LosingRun(line), reset);
  }

  // -- a rotation between stat and open ----------------------------------------------------------

  /** The log is renamed after `stat`, the new file is read from the old offset, and then again. */
  function RacingRun(line: string, more: string, inode: int, text: string, n: nat): seq<Step> {
    FIRST_POLL + GrowAndTake(line + [NL], 1) + [Grow(more), Stat, Rotate(inode)] + [Grow(text), Read] + Hands(n)
    + [Stat, WriteOffset, Read]
  }

  lemma Renamed(s: State, inode: int, content: string, offset: nat, lines: seq<string>, more: string, other: int,
                reset: bool)
    requires Between(s, inode, content, offset, "", lines) && other != inode && more != ""
    ensures var steps := [Grow(more), Stat, Rotate(other)];
      && Runs(s, steps, reset)
      && var t := After(s, steps, reset);
         && t.files == [File(inode, content + more), File(other, "")] && t.saved == Saved(Some(inode), Some(offset))
         && t.buffer == "" && t.pc == Located(offset, |content + more|) && t.at == 0 && t.firstFile == 0
         && t.torn == {} && t.tracks == s.tracks
  {
    var grown := Next(s, Grow(more), reset);
    assert grown.files == [File(inode, content + more)];
    var located := Next(grown, Stat, reset);
    assert located.pc == Located(offset, |content + more|);
    assert located.files + [File(other, "")] == [File(inode, content + more), File(other, "")];
    ThreeSteps(s, Grow(more), Stat, Rotate(other), reset);
  }

  /** The new generation has been read from `offset`. */
  predicate ReadRacing(s: State, old': File, inode: int, text: string, offset: nat, lines: seq<string>,
                       tracks: map<nat, Track>) {
    && s.files == [old', File(inode, text)] && s.saved.inode == Some(old'.inode) && old'.inode != inode
    && s.pc == Handing(1, 0) && s.at == 0 && s.firstFile == 0 && s.torn == {}
    && s.tracks == tracks[1 := Track(offset, lines)]
  }

  lemma ReadsOther(s: State, old': File, inode: int, offset: nat, tracks: map<nat, Track>, text: string, reset: bool)
    requires s.files == [old', File(inode, "")] && s.saved == Saved(Some(old'.inode), Some(offset))
    requires old'.inode != inode && s.buffer == "" && s.pc == Located(offset, |old'.content|)
    requires offset < |old'.content| && offset <= |text| && SplitLines(text[offset..]).lines != []
    requires s.at == 0 && s.firstFile == 0 && s.torn == {} && s.tracks == tracks && 1 !in tracks
    ensures Runs(s, [Grow(text), Read], reset)
    ensures ReadRacing(After(s, [Grow(text), Read], reset), old', inode, text, offset,
                       SplitLines(text[offset..]).lines, tracks)
  {
    var grown := Next(s, Grow(text), reset);
    assert "" + text == text && "" + text[offset..] == text[offset..];
    assert grown.files == [old', File(inode, text)];
    TwoSteps(s, Grow(text), Read, reset);
    assert [] + SplitLines(text[offset..]).lines == SplitLines(text[offset..]).lines;
  }

  /** A file is read as a whole. */
  lemma WholeRead(s: State, text: string, g: nat, reset: bool)
    requires |s.files| == g + 1 && s.files[g].content == text && s.at == g && s.pc == Located(0, |text|)
    requires text != "" && s.buffer == ""
    ensures var t, u := TrackAt(s, g, 0), Next(s, Read, reset);
      && u.files == s.files && u.firstFile == s.firstFile && u.torn == s.torn
      && u.tracks == s.tracks[g := t.(lines := t.lines + SplitLines(text).lines)]
  {
    assert text[0..] == text && "" + text == text;
  }

  lemma LocatedAgain(s: State, text: string, reset: bool)
    requires s.pc.Idle? && |s.files| == 2 && s.files[1].content == text && text != ""
    requires s.saved.inode.Some? && s.saved.inode != Some(s.files[1].inode)
    ensures var a := Next(s, Stat, reset);
      && Enabled(a, WriteOffset)
      && var b := Next(a, WriteOffset, reset);
         && b.pc == Located(0, |text|) && b.buffer == "" && b.at == 1
         && b.files == s.files && b.tracks == s.tracks && b.firstFile == s.firstFile && b.torn == s.torn
  {
  }

  lemma ReadsAgain(s: State, old': File, inode: int, text: string, offset: nat, lines: seq<string>,
                   tracks: map<nat, Track>, reset: bool)
    requires s.pc.Idle? && ReadRacing(s.(pc := Handing(1, 0)), old', inode, text, offset, lines, tracks) && text != ""
    ensures Runs(s, [Stat, WriteOffset, Read], reset)
    ensures var t := After(s, [Stat, WriteOffset, Read], reset);
      && t.files == s.files && t.firstFile == 0 && t.torn == {}
      && t.tracks == tracks[1 := Track(offset, lines + SplitLines(text).lines)]
  {
    LocatedAgain(s, text, reset);
    WholeRead(Next(Next(s, Stat, reset), WriteOffset, reset), text, 1, reset);
    ThreeSteps(s, Stat, WriteOffset, Read, reset);
  }

  /**
   * Every complete line behind the old offset is taken of the new file twice, and the start is
   * that offset. With `a` and newline before, offset 2, and `xy` and `z` with newlines in the
   * new file, its lines come out as an empty one, `z`, `xy`, `z`.
   */
  lemma RotatedDuringPoll(inode: int, line: string, more: string, other: int, text: string, reset: bool)
    requires NoNewline(line) && other != inode && more != ""
    requires |line| + 1 <= |text| && SplitLines(text[|line| + 1..]).lines != []
    ensures var behind := SplitLines(text[|line| + 1..]).lines;
      var f, run := File(inode, ""), RacingRun(line, more, other, text, |behind|);
      && Runs(Init(f), run, reset)
      && var s := After(Init(f), run, reset);
         && s.files == [File(inode, line + [NL] + more), File(other, text)]
         && 1 in s.tracks && s.tracks[1] == Track(|line| + 1, behind + SplitLines(text).lines)
         && !Tailed(s)
  {
    var f, n, behind := File(inode, ""), |line| + 1, SplitLines(text[|line| + 1..]).lines;
    var run1 := FIRST_POLL + GrowAndTake(line + [NL], 1);
    LineTaken(inode, line, reset);
    var s1 := After(Init(f), run1, reset);
    var run2 := run1 + [Grow(more), Stat, Rotate(other)];
    Renamed(s1, inode, line + [NL], n, [line], more, other, reset);
    RunsOn(Init(f), run1, [Grow(more), Stat, Rotate(other)], reset);
    var s2 := After(Init(f), run2, reset);
    var was := File(inode, line + [NL] + more);
    ReadsOther(s2, was, other, n, s2.tracks, text, reset);
    var run3 := run2 + [Grow(text), Read];
    RunsOn(Init(f), run2, [Grow(text), Read], reset);
    var s3 := After(Init(f), run3, reset);
    HandAll(s3, |behind|, reset);
    RunsOn(Init(f), run3, Hands(|behind|), reset);
    var s4 := After(Init(f), run3 + Hands(|behind|), reset);
    ReadsAgain(s4, was, other, text, n, behind, s2.tracks, reset);
    RunsOn(Init(f), run3 + Hands(|behind|), [Stat, WriteOffset, Read], reset);
  }
}
