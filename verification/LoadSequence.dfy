/**
 * The load of a new connection: its requests in their order, each sent only after the one
 * before was granted, and the end of the connection when one is not.
 */
module LoadSequence {
  import opened Protocol
  import opened Requests
  import opened LoginFeed

  /** What `_connect_and_run` and `_load_initial_state` ask for, in this order. */
  const LOAD: seq<Command> :=
    [Subscribe, GetSnapshot, GetLoginHistory, GetKeys, GetSpeedtestHistory, GetExtraStatus, GetAlerts]

  /** Request `j` of the connection is this command, and message `l`, which was read, grants it. */
  predicate GrantedAt(conn: Connection, cmd: Command, j: nat, l: nat) {
    && j < |conn.up| && conn.up[j].cmd == cmd
    && l < conn.read <= |conn.down| && conn.down[l].Reply? && conn.down[l].nth == j && conn.down[l].id == conn.up[j].id
    && conn.down[l].body != Refused
  }

  ghost predicate Got(conn: Connection, cmd: Command) { exists j: nat, l: nat :: GrantedAt(conn, cmd, j, l) }

  /** The first `n` requests of the load were granted. */
  ghost predicate GotFirst(conn: Connection, n: nat) { forall k :: 0 <= k < n && k < |LOAD| ==> Got(conn, LOAD[k]) }

  /** How far the load has come on the connection in use. */
  ghost predicate Sequence(s: State) {
    match s.client.main
    case Away => true
    case Asking(stage, id) =>
      && s.conns != [] && stage < |LOAD| && GotFirst(s.conns[|s.conns| - 1], stage)
      && id in s.client.futures && s.client.futures[id].conn == |s.conns| - 1
      && s.client.futures[id].cmd == LOAD[stage]
    case Loaded => s.conns != [] && GotFirst(s.conns[|s.conns| - 1], |LOAD|)
  }

  predicate KeepsRequests(conn: Connection, conn': Connection) {
    |conn.up| <= |conn'.up| && forall j :: 0 <= j < |conn.up| ==> conn'.up[j] == conn.up[j]
  }

  lemma GotGrows(conn: Connection, conn': Connection, n: nat)
    requires GotFirst(conn, n) && Grows(conn, conn') && KeepsRequests(conn, conn')
    ensures GotFirst(conn', n)
  {
    forall k | 0 <= k < n && k < |LOAD| ensures Got(conn', LOAD[k]) {
      var j: nat, l: nat :| GrantedAt(conn, LOAD[k], j, l);
      assert GrantedAt(conn', LOAD[k], j, l);
    }
  }

  /** A change that keeps what the load waits for, and lets the connection grow. */
  lemma SequenceGrows(s: State, t: State)
    requires Sequence(s) && s.conns != [] && |t.conns| == |s.conns| && t.client.main == s.client.main
    requires Grows(s.conns[|s.conns| - 1], t.conns[|s.conns| - 1])
    requires KeepsRequests(s.conns[|s.conns| - 1], t.conns[|s.conns| - 1])
    requires Settles(s.client.futures, t.client.futures)
    ensures Sequence(t)
  {
    var conn, conn' := s.conns[|s.conns| - 1], t.conns[|s.conns| - 1];
    match s.client.main
    case Away =>
    case Asking(stage, _) => GotGrows(conn, conn', stage);
    case Loaded => GotGrows(conn, conn', |LOAD|);
  }

  lemma Commands(stage: nat)
    requires stage < |LOAD|
    ensures LoadCommand(stage) == LOAD[stage] && LOAD_STEPS == |LOAD|
  {
  }

  /** The future has no answer, or the answer is an error. */
  predicate Fails(s: State, id: nat) {
    && id in s.client.futures
    && var f := s.client.futures[id];
       match f.outcome
       case Waiting => false
       case TimedOut => true
       case Lost => true
       case Replied(at) => f.conn < |s.conns| && at < |s.conns[f.conn].down| && s.conns[f.conn].down[at].Reply?
                           && s.conns[f.conn].down[at].body == Refused
  }

  predicate Succeeds(s: State, id: nat) {
    && id in s.client.futures
    && var f := s.client.futures[id];
       && f.outcome.Replied? && f.conn < |s.conns| && f.outcome.at < |s.conns[f.conn].down|
       && s.conns[f.conn].down[f.outcome.at].Reply? && s.conns[f.conn].down[f.outcome.at].body != Refused
  }

  /** Any request of the load that fails ends the connection, whatever its stage. */
  lemma FailureEnds(s: State)
    requires s.client.main.Asking? && s.conns != [] && Fails(s, s.client.main.id)
    ensures Next(s, Resume).client.main == Away && Next(s, Resume).client.pending == {}
    ensures Next(s, Resume).conns == s.conns
  {
  }

  /** One that succeeds is followed by the next, and after the last the client is loaded. */
  lemma SuccessGoesOn(s: State)
    requires s.client.main.Asking? && s.conns != [] && Succeeds(s, s.client.main.id)
    ensures var t, stage, id := Next(s, Resume), s.client.main.stage, s.client.nextId;
      if stage + 1 < |LOAD| then
        && t.client.main == Asking(stage + 1, id) && id in t.client.pending
        && id in t.client.futures && t.client.futures[id] == Future(|s.conns| - 1, LOAD[stage + 1], Waiting)
        && t.conns == s.conns[|s.conns| - 1 := s.conns[|s.conns| - 1].(up := t.conns[|s.conns| - 1].up)]
        && t.conns[|s.conns| - 1].up == s.conns[|s.conns| - 1].up + [Request(id, LOAD[stage + 1])]
      else t.client.main == Loaded && t.conns == s.conns
  {
    if s.client.main.stage + 1 < |LOAD| {
      Commands(s.client.main.stage + 1);
    }
  }

  /** A granted request is one more that was granted. */
  lemma OneMoreGranted(s: State)
    requires Wired(s) && Sequence(s) && s.client.main.Asking? && Granted(s)
    ensures GotFirst(s.conns[|s.conns| - 1], s.client.main.stage + 1)
  {
    var id, c := s.client.main.id, |s.conns| - 1;
    var f := s.client.futures[id];
    var conn := s.conns[c];
    assert RepliedOn(s.conns, id, f);
    assert ConnOk(conn) && SentOn(conn, c, s.client.futures) && Answers(conn.down[f.outcome.at], conn);
    assert GrantedAt(conn, LOAD[s.client.main.stage], conn.down[f.outcome.at].nth, f.outcome.at);
  }

  lemma ResumeSequence(s: State)
    requires Wired(s) && Ids(s.client) && Sequence(s) && Enabled(s, Resume)
    ensures Sequence(Next(s, Resume))
  {
    if s.client.main.Loaded? {
      assert Next(s, Resume).client.main == Away;
    } else if Granted(s) {
      OneMoreGranted(s);
      SuccessGoesOn(s);
      if s.client.main.stage + 1 < |LOAD| {
        SentNext(s.conns[|s.conns| - 1], Next(s, Resume).conns[|s.conns| - 1], s.client.main.stage + 1);
      }
    }
  }

  /** Another request on the connection, and nothing else. */
  lemma SentNext(conn: Connection, conn': Connection, n: nat)
    requires GotFirst(conn, n) && conn' == conn.(up := conn'.up) && conn.read <= |conn.down|
    requires |conn'.up| == |conn.up| + 1 && conn'.up[..|conn.up|] == conn.up
    ensures GotFirst(conn', n)
  {
    assert forall j :: 0 <= j < |conn.up| ==> conn'.up[j] == conn'.up[..|conn.up|][j];
    GotGrows(conn, conn', n);
  }

  lemma DaemonSequence(s: State, step: Step)
    requires Wired(s) && Sequence(s) && Enabled(s, step) && IsDaemonStep(step)
    ensures Sequence(Next(s, step))
  {
    if s.conns != [] {
      var c := |s.conns| - 1;
      assert ConnOk(s.conns[c]);
      DaemonGrows(s, step, c);
      SequenceGrows(s, Next(s, step));
    }
  }

  lemma NextSequence(s: State, step: Step)
    requires Wired(s) && Ids(s.client) && Sequence(s)
    ensures Sequence(Next(s, step))
  {
    if Enabled(s, step) {
      if IsDaemonStep(step) {
        DaemonSequence(s, step);
      } else if step.Resume? {
        ResumeSequence(s);
      } else if step.Connect? {
        Commands(0);
      } else if !step.GiveUp? {
        NextSettles(s, step);
        if s.conns != [] {
          assert ConnOk(s.conns[|s.conns| - 1]);
          SequenceGrows(s, Next(s, step));
        }
      }
    }
  }

  /**
   * In every run: a loaded client has had each request of the load granted on this connection,
   * and one that waits for a request of the load has had all earlier ones granted.
   */
  lemma {:induction false} LoadedInSequence(steps: seq<Step>)
    ensures Sequence(After(steps))
    decreases |steps|
  {
    if steps != [] {
      var init := steps[..|steps| - 1];
      LoadedInSequence(init);
      AlwaysWired(init);
      IdsAreConserved(init);
      NextSequence(After(init), steps[|steps| - 1]);
    }
  }
}
