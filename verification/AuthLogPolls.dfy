/** What one poll of the log takes in each situation, and what a crash leaves to the next one. */
module AuthLogPolls {
  import opened Common
  import opened Lines
  import opened AuthLogTail
  import R = AuthLogRuns

  /** What is saved, kept and taken when a text is cut into lines from an offset on. */
  function Taken(inode: int, from: nat, text: string): Outcome {
    var split := SplitLines(text);
    Outcome(Saved(Some(inode), Some(from + |Unlines(split.lines)|)), split.rest, split.lines)
  }

  /** The first poll ever takes nothing: it starts at the end of the file. */
  lemma FirstPoll(reset: bool, offset: Option<nat>, buffer: string, inode: int, size: nat, content: string)
    requires size <= |content|
    ensures Polled(reset, Saved(None, offset), buffer, inode, size, content)
         == Outcome(Saved(Some(inode), Some(size)), buffer, [])
  {
  }

  /** A file with another inode, or shorter than the saved offset, is read whole, with nothing left over. */
  lemma NewFilePoll(reset: bool, saved: Saved, buffer: string, inode: int, size: nat, content: string)
    requires 0 < size <= |content| && saved.inode.Some?
    requires saved.inode != Some(inode) || (saved.offset.Some? && size < saved.offset.value)
    ensures Polled(reset, saved, buffer, inode, size, content) == Taken(inode, 0, content)
  {
    assert content[0..] == content && "" + content == content;
  }

  /** An empty new file is noted, and the leftover of the old one dropped. */
  lemma EmptyFilePoll(reset: bool, saved: Saved, buffer: string, inode: int, content: string)
    requires saved.inode.Some?
    requires saved.inode != Some(inode) || (saved.offset.Some? && 0 < saved.offset.value)
    ensures Polled(reset, saved, buffer, inode, 0, content) == Outcome(Saved(Some(inode), Some(0)), "", [])
  {
  }

  /** A file that has grown is read from the saved offset on, behind the leftover of the poll before. */
  lemma GrownFilePoll(reset: bool, o: nat, buffer: string, inode: int, size: nat, content: string)
    requires o < size <= |content|
    ensures Polled(reset, Saved(Some(inode), Some(o)), buffer, inode, size, content)
         == Taken(inode, o, if reset then content[o..] else buffer + content[o..])
  {
  }

  lemma SameFilePoll(reset: bool, o: nat, buffer: string, inode: int, content: string)
    requires o <= |content|
    ensures Polled(reset, Saved(Some(inode), Some(o)), buffer, inode, o, content)
         == Outcome(Saved(Some(inode), Some(o)), buffer, [])
  {
  }

  // -- crashes -------------------------------------------------------------------------------

  /** A crash loses what is in memory and nothing that is saved. */
  lemma CrashForgets(s: State, reset: bool)
    requires s.files != []
    ensures Enabled(s, Crash)
    ensures var t := Next(s, Crash, reset);
      && t.files == s.files && t.saved == s.saved && t.tracks == s.tracks && t.handed == s.handed
      && t.buffer == "" && t.pc == Idle
      && t.torn == if s.pc.InodeSaved? then s.torn + {s.at} else s.torn
  {
  }

  /** The daemon that finds an inode without an offset, about to read the file from its start. */
  function AfterTornStart(inode: int, content: string): State {
    Init(File(inode, content)).(saved := Saved(Some(inode), None), pc := Located(0, |content|), torn := {0})
  }

  lemma TornStartSteps(inode: int, content: string, reset: bool)
    requires content != ""
    ensures var s := Init(File(inode, content));
      Runs(s, [Stat, Crash, Stat], reset) && After(s, [Stat, Crash, Stat], reset) == AfterTornStart(inode, content)
  {
    var s := Init(File(inode, content));
    ThreeSteps(s, Stat, Crash, Stat, reset);
  }

  lemma WholeFileRead(inode: int, content: string, reset: bool)
    requires content != ""
    ensures var t := Next(AfterTornStart(inode, content), Read, reset);
      && t.pc == Handing(0, 0) && t.torn == {0}
      && t.tracks == map[0 := Track(0, SplitLines(content).lines)]
      && t.saved == Saved(Some(inode), Some(|Unlines(SplitLines(content).lines)|))
  {
    assert content[0..] == content && "" + content == content;
    assert [] + SplitLines(content).lines == SplitLines(content).lines;
  }

  /**
   * A crash between the two writes of the very first poll: the next daemon finds an inode and
   * no offset, and reads the whole file, which the first poll would have skipped.
   */
  lemma TornFirstPoll(inode: int, content: string, reset: bool)
    requires content != ""
    ensures var s, run := Init(File(inode, content)), [Stat, Crash, Stat] + [Read];
      && Runs(s, run, reset)
      && var t := After(s, run, reset);
         && t.pc == Handing(0, 0) && t.torn == {0}
         && t.tracks == map[0 := Track(0, SplitLines(content).lines)]
         && t.saved == Saved(Some(inode), Some(|Unlines(SplitLines(content).lines)|))
  {
    TornStartSteps(inode, content, reset);
    OneStep(AfterTornStart(inode, content), Read, reset);
    R.RunsOn(Init(File(inode, content)), [Stat, Crash, Stat], [Read], reset);
    WholeFileRead(inode, content, reset);
  }

  /** A file that has become too short for the offset yields nothing, and nothing is taken. */
  lemma ShortRead(s: State)
    requires s.files != [] && s.pc.Located? && |Current(s).content| < s.pc.from < s.pc.size
    ensures var t := Next(s, Read, true);
      t.saved == s.saved.(offset := Some(s.pc.from)) && t.buffer == "" && t.handed == s.handed
  {
  }

  /** The file may grow, be rotated either way and meet a crash at any time. */
  lemma AnyTime(s: State, more: string, inode: int)
    requires s.files != []
    ensures Enabled(s, Grow(more)) && Enabled(s, Rotate(inode)) && Enabled(s, Truncate) && Enabled(s, Crash)
  {
  }
}
