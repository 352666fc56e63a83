/**
 * Requests and replies over every run of the protocol: where each id is, that a future is
 * completed once, and that its reply is the daemon's answer to that very request.
 */
module Requests {
  import opened Common
  import opened Protocol

  // -- where each id is --------------------------------------------------------------------

  predicate Partition(k: Client) {
    && k.pending + k.answered + k.cleared == k.futures.Keys
    && k.pending !! k.answered && k.pending !! k.cleared && k.answered !! k.cleared
  }

  predicate OutcomeFits(k: Client, id: nat)
    requires id in k.futures
  {
    match k.futures[id].outcome
    case Waiting => id in k.pending
    case Replied(_) => id in k.answered
    case TimedOut => true
    case Lost => id in k.cleared
  }

  ghost predicate Ids(k: Client) {
    && 1 <= k.nextId
    && (forall id: nat :: id in k.futures <==> 1 <= id < k.nextId)
    && Partition(k)
    && (forall id :: id in k.futures ==> OutcomeFits(k, id))
  }

  lemma IssueIds(k: Client, conn: nat, cmd: Command)
    requires Ids(k)
    ensures Ids(Issue(k, conn, cmd))
  {
    var k' := Issue(k, conn, cmd);
    assert k'.futures.Keys == k.futures.Keys + {k.nextId};
    assert k.nextId !in k.futures.Keys;
    forall id | id in k'.futures ensures OutcomeFits(k', id) {
      assert id != k.nextId ==> OutcomeFits(k, id);
    }
  }

  lemma ReceiveIds(k: Client, m: Message, at: nat)
    requires Ids(k)
    ensures Ids(Receive(k, m, at))
  {
    var k' := Receive(k, m, at);
    assert k'.futures.Keys == k.futures.Keys;
    forall id | id in k'.futures ensures OutcomeFits(k', id) {
      assert OutcomeFits(k, id);
    }
  }

  lemma DisconnectIds(k: Client)
    requires Ids(k)
    ensures Ids(Disconnect(k))
  {
    var k' := Disconnect(k);
    assert k'.futures.Keys == k.futures.Keys;
    forall id | id in k'.futures ensures OutcomeFits(k', id) {
      assert OutcomeFits(k, id);
    }
  }

  lemma TimeOutIds(k: Client, id: nat)
    requires Ids(k) && id in k.futures && k.futures[id].outcome == Waiting
    ensures Ids(k.(futures := Complete(k.futures, id, TimedOut)))
  {
    var k' := k.(futures := Complete(k.futures, id, TimedOut));
    assert k'.futures.Keys == k.futures.Keys;
    forall j | j in k'.futures ensures OutcomeFits(k', j) {
      assert OutcomeFits(k, j);
    }
  }

  /** Only these fields matter to `Ids`. */
  lemma SameIds(k: Client, k': Client)
    requires Ids(k) && k'.nextId == k.nextId && k'.futures == k.futures
    requires k'.pending == k.pending && k'.answered == k.answered && k'.cleared == k.cleared
    ensures Ids(k')
  {
    forall id | id in k'.futures ensures OutcomeFits(k', id) {
      assert OutcomeFits(k, id);
    }
  }

  lemma SendLoadIds(s: State, stage: nat)
    requires s.conns != [] && stage < LOAD_STEPS && Ids(s.client)
    ensures Ids(SendLoad(s, stage).client)
  {
    IssueIds(s.client, Current(s), LoadCommand(stage));
    SameIds(Issue(s.client, Current(s), LoadCommand(stage)), SendLoad(s, stage).client);
  }

  lemma AdvanceIds(s: State, stage: nat)
    requires s.conns != [] && Ids(s.client)
    ensures Ids(Advance(s, stage).client)
  {
    if stage + 1 < LOAD_STEPS {
      SendLoadIds(s, stage + 1);
    } else {
      SameIds(s.client, Advance(s, stage).client);
    }
  }

  lemma ContinueIds(s: State)
    requires s.conns != [] && Ids(s.client)
    ensures Ids(Continue(s).client)
  {
    if Granted(s) {
      var t := ApplyReply(s, s.client.main.id);
      SameIds(s.client, t.client);
      AdvanceIds(t, s.client.main.stage);
    } else {
      DisconnectIds(s.client);
    }
  }

  lemma NextIds(s: State, step: Step)
    requires Ids(s.client)
    ensures Ids(Next(s, step).client)
  {
    if Enabled(s, step) {
      match step
      case Connect =>
        var t := s.(conns := s.conns + [Connection([], 0, [], 0, Dialled, false)],
                    client := s.client.(reading := true, loaded := None));
        SameIds(s.client, t.client);
        SendLoadIds(t, 0);
      case Read => ReceiveIds(s.client, s.conns[Current(s)].down[s.conns[Current(s)].read], s.conns[Current(s)].read);
      case TimeOut(id) => TimeOutIds(s.client, id);
      case Resume => ContinueIds(s);
      case Ask(cmd) => IssueIds(s.client, Current(s), cmd);
      case ReaderDies => SameIds(s.client, Next(s, step).client);
      case GiveUp => DisconnectIds(s.client);
      case _ =>
    }
  }

  /** Without a connection no request is pending, so a new connection starts with an empty map. */
  lemma NextIdle(s: State, step: Step)
    requires s.client.main.Away? ==> s.client.pending == {}
    ensures Next(s, step).client.main.Away? ==> Next(s, step).client.pending == {}
  {
  }

  /**
   * At all times the ids issued so far are exactly those pending, those a reply took out and
   * those a disconnect cleared, each in one place; while there is no connection none is pending.
   */
  lemma {:induction false} IdsAreConserved(steps: seq<Step>)
    ensures Ids(After(steps).client)
    ensures After(steps).client.main.Away? ==> After(steps).client.pending == {}
    decreases |steps|
  {
    if steps != [] {
      IdsAreConserved(steps[..|steps| - 1]);
      NextIds(After(steps[..|steps| - 1]), steps[|steps| - 1]);
      NextIdle(After(steps[..|steps| - 1]), steps[|steps| - 1]);
    }
  }

  /** On a new connection nothing is pending but its own first request. */
  lemma ConnectStartsEmpty(steps: seq<Step>)
    requires Enabled(After(steps), Connect)
    ensures var k := Next(After(steps), Connect).client;
      k.pending == {k.nextId - 1} && k.main == Asking(0, k.nextId - 1)
  {
    IdsAreConserved(steps);
  }

  // -- a future is completed once ----------------------------------------------------------

  /** What has an outcome keeps it. */
  ghost predicate Settles(before: map<nat, Future>, after: map<nat, Future>) {
    forall id :: id in before ==>
      && id in after
      && after[id].conn == before[id].conn && after[id].cmd == before[id].cmd
      && (before[id].outcome != Waiting ==> after[id] == before[id])
  }

  lemma IssueSettles(k: Client, conn: nat, cmd: Command)
    requires Ids(k)
    ensures Settles(k.futures, Issue(k, conn, cmd).futures)
  {
  }

  lemma ReceiveSettles(k: Client, m: Message, at: nat)
    ensures Settles(k.futures, Receive(k, m, at).futures)
  {
  }

  lemma DisconnectSettles(k: Client)
    ensures Settles(k.futures, Disconnect(k).futures)
  {
  }

  lemma ContinueSettles(s: State)
    requires s.conns != [] && Ids(s.client)
    ensures Settles(s.client.futures, Continue(s).client.futures)
  {
    if Granted(s) {
      var t := ApplyReply(s, s.client.main.id);
      SameIds(s.client, t.client);
      if s.client.main.stage + 1 < LOAD_STEPS {
        IssueSettles(t.client, Current(t), LoadCommand(s.client.main.stage + 1));
      }
    } else {
      DisconnectSettles(s.client);
    }
  }

  lemma NextSettles(s: State, step: Step)
    requires Ids(s.client)
    ensures Settles(s.client.futures, Next(s, step).client.futures)
  {
    if Enabled(s, step) {
      match step
      case Connect => IssueSettles(s.client, |s.conns|, Subscribe);
      case Read =>
        var conn := s.conns[Current(s)];
        ReceiveSettles(s.client, conn.down[conn.read], conn.read);
      case Resume => ContinueSettles(s);
      case Ask(cmd) => IssueSettles(s.client, Current(s), cmd);
      case GiveUp => DisconnectSettles(s.client);
      case _ =>
    }
  }

  /** In every run, an outcome that a future once has is its outcome for ever. */
  lemma {:induction false} CompletedOnce(steps: seq<Step>, n: nat)
    requires n <= |steps|
    ensures Settles(After(steps[..n]).client.futures, After(steps).client.futures)
    decreases |steps|
  {
    if n == |steps| {
      assert steps[..n] == steps;
    } else {
      var init := steps[..|steps| - 1];
      assert init[..n] == steps[..n];
      CompletedOnce(init, n);
      IdsAreConserved(init);
      NextSettles(After(init), steps[|steps| - 1]);
    }
  }

  // -- replies and the requests they answer ----------------------------------------------

  predicate Fits(cmd: Command, body: Body) {
    && (cmd == Subscribe ==> body == Plain)
    && (cmd == GetLoginHistory <== body.Events?)
    && (cmd == GetLoginHistory ==> body != Plain)
  }

  /** The message answers the request it names, which the daemon has taken. */
  predicate Answers(m: Message, conn: Connection) {
    m.Reply? ==>
      && m.nth < conn.handled <= |conn.up|
      && conn.up[m.nth].id == m.id
      && Fits(conn.up[m.nth].cmd, m.body)
  }

  predicate ConnOk(conn: Connection) {
    && conn.handled <= |conn.up|
    && conn.read <= |conn.down|
    && (forall i, j :: 0 <= i < j < |conn.up| ==> conn.up[i].id < conn.up[j].id)
    && (conn.up != [] ==> conn.up[0].cmd == Subscribe)
    && (conn.handled > 0 ==> conn.subscribed)
    && (forall k :: 0 <= k < |conn.down| ==> Answers(conn.down[k], conn))
    && (forall k, l :: 0 <= k < l < |conn.down| && conn.down[k].Reply? && conn.down[l].Reply?
          ==> conn.down[k].nth < conn.down[l].nth)
  }

  /** Its requests are those that the client's futures wait for. */
  predicate SentOn(conn: Connection, c: nat, futures: map<nat, Future>) {
    forall j :: 0 <= j < |conn.up| ==>
      && conn.up[j].id in futures
      && futures[conn.up[j].id].conn == c
      && futures[conn.up[j].id].cmd == conn.up[j].cmd
  }

  predicate RepliedOn(conns: seq<Connection>, id: nat, f: Future) {
    && f.conn < |conns|
    && (f.outcome.Replied? ==>
          && f.outcome.at < conns[f.conn].read <= |conns[f.conn].down|
          && conns[f.conn].down[f.outcome.at].Reply?
          && conns[f.conn].down[f.outcome.at].id == id)
  }

  ghost predicate ConnsOk(conns: seq<Connection>, futures: map<nat, Future>) {
    forall c :: 0 <= c < |conns| ==> ConnOk(conns[c]) && SentOn(conns[c], c, futures)
  }

  ghost predicate FuturesOk(conns: seq<Connection>, futures: map<nat, Future>) {
    forall id :: id in futures ==> RepliedOn(conns, id, futures[id])
  }

  /** What is pending was sent on the connection in use. */
  ghost predicate PendingOk(conns: nat, pending: set<nat>, futures: map<nat, Future>) {
    forall id :: id in pending && id in futures ==> futures[id].conn == conns - 1
  }

  ghost predicate Wired(s: State) {
    && ConnsOk(s.conns, s.client.futures)
    && FuturesOk(s.conns, s.client.futures)
    && PendingOk(|s.conns|, s.client.pending, s.client.futures)
    && (s.client.main.Asking? ==> s.conns != [] && s.client.main.id in s.client.futures)
  }

  /** A connection that only grows keeps the replies read from it. */
  predicate Grows(conn: Connection, conn': Connection) {
    && conn.read <= conn'.read <= |conn'.down|
    && |conn.down| <= |conn'.down|
    && (forall k :: 0 <= k < |conn.down| ==> conn'.down[k] == conn.down[k])
  }

  /** A step of the daemon on one connection. */
  lemma DaemonWired(s: State, c: nat, conn: Connection)
    requires Wired(s) && c < |s.conns| && ConnOk(conn) && conn.up == s.conns[c].up && Grows(s.conns[c], conn)
    ensures Wired(SetConn(s, c, conn))
  {
    var t := SetConn(s, c, conn);
    forall id | id in t.client.futures ensures RepliedOn(t.conns, id, t.client.futures[id]) {
      assert RepliedOn(s.conns, id, s.client.futures[id]);
    }
  }

  /** A change of the client that keeps its futures, but for their outcomes. */
  lemma ClientWired(s: State, k: Client)
    requires Wired(s) && k.futures.Keys == s.client.futures.Keys && k.pending <= s.client.pending
    requires forall id :: id in k.futures ==>
               && k.futures[id].conn == s.client.futures[id].conn
               && k.futures[id].cmd == s.client.futures[id].cmd
               && RepliedOn(s.conns, id, k.futures[id])
    requires k.main.Asking? ==> k.main == s.client.main
    ensures Wired(s.(client := k))
  {
    forall c | 0 <= c < |s.conns| ensures SentOn(s.conns[c], c, k.futures) {
      assert SentOn(s.conns[c], c, s.client.futures);
    }
  }

  lemma AnswerOk(conn: Connection, body: Body, table: seq<int>)
    requires ConnOk(conn) && conn.handled < |conn.up| && MayAnswer(conn.up[conn.handled].cmd, body, table)
    ensures ConnOk(Answer(conn, body)) && Grows(conn, Answer(conn, body))
  {
    var conn' := Answer(conn, body);
    forall k | 0 <= k < |conn'.down| ensures Answers(conn'.down[k], conn') {
      assert k < |conn.down| ==> Answers(conn.down[k], conn);
    }
    forall k | 0 <= k < |conn.down| && conn.down[k].Reply? ensures conn.down[k].nth < conn.handled {
      assert Answers(conn.down[k], conn);
    }
  }

  lemma OfferOk(conn: Connection, row: nat)
    requires ConnOk(conn)
    ensures ConnOk(Offer(conn, row)) && Grows(conn, Offer(conn, row))
  {
    var conn' := Offer(conn, row);
    forall k | 0 <= k < |conn'.down| ensures Answers(conn'.down[k], conn') {
      assert k < |conn.down| ==> Answers(conn.down[k], conn);
    }
  }

  lemma PhaseOk(conn: Connection, phase: Phase)
    requires ConnOk(conn)
    ensures ConnOk(conn.(phase := phase)) && Grows(conn, conn.(phase := phase))
  {
    var conn' := conn.(phase := phase);
    forall k | 0 <= k < |conn'.down| ensures Answers(conn'.down[k], conn') {
      assert Answers(conn.down[k], conn);
    }
  }

  lemma RestartWired(s: State)
    requires Wired(s)
    ensures Wired(Next(s, Restart))
  {
    var t := Next(s, Restart);
    forall c | 0 <= c < |t.conns| ensures ConnOk(t.conns[c]) && SentOn(t.conns[c], c, t.client.futures) {
      PhaseOk(s.conns[c], Reaped);
    }
    forall id | id in t.client.futures ensures RepliedOn(t.conns, id, t.client.futures[id]) {
      assert RepliedOn(s.conns, id, s.client.futures[id]);
    }
  }

  lemma RequestOk(conn: Connection, c: nat, k: Client, cmd: Command)
    requires ConnOk(conn) && SentOn(conn, c, k.futures) && Ids(k) && (conn.up == [] ==> cmd == Subscribe)
    ensures var conn' := conn.(up := conn.up + [Request(k.nextId, cmd)]);
            ConnOk(conn') && SentOn(conn', c, Issue(k, c, cmd).futures)
  {
    var conn' := conn.(up := conn.up + [Request(k.nextId, cmd)]);
    forall k | 0 <= k < |conn'.down| ensures Answers(conn'.down[k], conn') {
      assert Answers(conn.down[k], conn);
    }
    forall i | 0 <= i < |conn.up| ensures conn.up[i].id < k.nextId {
      assert conn.up[i].id in k.futures;
    }
  }

  lemma SendWired(s: State, cmd: Command)
    requires Wired(s) && Ids(s.client) && s.conns != []
    requires s.conns[Current(s)].up == [] ==> cmd == Subscribe
    ensures Wired(Send(s, cmd))
  {
    var t, last := Send(s, cmd), Current(s);
    RequestOk(s.conns[last], last, s.client, cmd);
    forall c | 0 <= c < |t.conns| ensures ConnOk(t.conns[c]) && SentOn(t.conns[c], c, t.client.futures) {
      if c != last {
        assert t.conns[c] == s.conns[c] && SentOn(s.conns[c], c, s.client.futures);
      }
    }
    forall id | id in t.client.futures ensures RepliedOn(t.conns, id, t.client.futures[id]) {
      if id in s.client.futures {
        assert RepliedOn(s.conns, id, s.client.futures[id]);
      }
    }
    assert PendingOk(|t.conns|, t.client.pending, t.client.futures);
  }

  lemma SendLoadWired(s: State, stage: nat)
    requires Wired(s) && Ids(s.client) && s.conns != [] && stage < LOAD_STEPS
    requires s.conns[Current(s)].up == [] ==> stage == 0
    ensures Wired(SendLoad(s, stage))
  {
    SendWired(s, LoadCommand(stage));
  }

  lemma DialWired(s: State)
    requires Wired(s) && Ids(s.client) && s.client.pending == {} && s.client.main.Away?
    ensures Wired(Dial(s))
  {
    var t := s.(conns := s.conns + [Connection([], 0, [], 0, Dialled, false)],
                client := s.client.(reading := true, loaded := None));
    forall c | 0 <= c < |t.conns| ensures ConnOk(t.conns[c]) && SentOn(t.conns[c], c, t.client.futures) {
      assert c < |s.conns| ==> t.conns[c] == s.conns[c];
    }
    forall id | id in t.client.futures ensures RepliedOn(t.conns, id, t.client.futures[id]) {
      assert RepliedOn(s.conns, id, s.client.futures[id]);
    }
    SameIds(s.client, t.client);
    SendLoadWired(t, 0);
  }

  lemma ReadOk(conn: Connection)
    requires ConnOk(conn) && conn.read < |conn.down|
    ensures ConnOk(conn.(read := conn.read + 1)) && Grows(conn, conn.(read := conn.read + 1))
  {
    var conn' := conn.(read := conn.read + 1);
    forall k | 0 <= k < |conn'.down| ensures Answers(conn'.down[k], conn') {
      assert Answers(conn.down[k], conn);
    }
  }

  /** A future that a message completes was sent on the connection of the message. */
  lemma ReceiveReplied(k: Client, conns: seq<Connection>, at: nat, id: nat)
    requires conns != [] && at < conns[|conns| - 1].read <= |conns[|conns| - 1].down|
    requires id in k.futures && RepliedOn(conns, id, k.futures[id])
    requires id in k.pending ==> k.futures[id].conn == |conns| - 1
    ensures var k' := Receive(k, conns[|conns| - 1].down[at], at);
      && k'.futures.Keys == k.futures.Keys
      && k'.futures[id].conn == k.futures[id].conn
      && k'.futures[id].cmd == k.futures[id].cmd
      && RepliedOn(conns, id, k'.futures[id])
  {
  }

  lemma ReceiveWired(s: State, at: nat)
    requires Wired(s) && s.conns != [] && at < s.conns[Current(s)].read <= |s.conns[Current(s)].down|
    ensures Wired(s.(client := Receive(s.client, s.conns[Current(s)].down[at], at)))
  {
    var k := Receive(s.client, s.conns[Current(s)].down[at], at);
    assert k.futures.Keys == s.client.futures.Keys;
    forall id | id in k.futures
      ensures k.futures[id].conn == s.client.futures[id].conn && k.futures[id].cmd == s.client.futures[id].cmd
      ensures RepliedOn(s.conns, id, k.futures[id])
    {
      assert RepliedOn(s.conns, id, s.client.futures[id]);
      ReceiveReplied(s.client, s.conns, at, id);
    }
    ClientWired(s, k);
  }

  lemma ReadWired(s: State)
    requires Wired(s) && Enabled(s, Read)
    ensures Wired(ReadOne(s))
  {
    var c := Current(s);
    var conn := s.conns[c];
    assert ConnOk(conn);
    ReadOk(conn);
    var t := SetConn(s, c, conn.(read := conn.read + 1));
    DaemonWired(s, c, conn.(read := conn.read + 1));
    ReceiveWired(t, conn.read);
  }

  /** Only these fields of the client matter to `Wired`. */
  lemma SameWired(s: State, k: Client)
    requires Wired(s) && k.futures == s.client.futures && k.pending == s.client.pending
    requires k.main.Asking? ==> k.main == s.client.main
    ensures Wired(s.(client := k))
  {
  }

  lemma ApplyWired(s: State, id: nat)
    requires Wired(s) && s.conns != [] && HasReply(s, id)
    ensures Wired(ApplyReply(s, id))
  {
    SameWired(s, ApplyReply(s, id).client);
  }

  lemma AdvanceWired(s: State, stage: nat)
    requires Wired(s) && Ids(s.client) && s.conns != [] && s.conns[Current(s)].up != []
    ensures Wired(Advance(s, stage))
  {
    if stage + 1 < LOAD_STEPS {
      SendLoadWired(s, stage + 1);
      assert Advance(s, stage) == SendLoad(s, stage + 1);
    } else {
      SameWired(s, s.client.(main := Loaded));
    }
  }

  lemma ContinueWired(s: State)
    requires Wired(s) && Ids(s.client) && s.conns != [] && s.conns[Current(s)].up != []
    ensures Wired(Continue(s))
  {
    if Granted(s) {
      var t := ApplyReply(s, s.client.main.id);
      ApplyWired(s, s.client.main.id);
      SameIds(s.client, t.client);
      AdvanceWired(t, s.client.main.stage);
    } else {
      DisconnectWired(s);
    }
  }

  lemma DisconnectWired(s: State)
    requires Wired(s)
    ensures Wired(s.(client := Disconnect(s.client)))
  {
    var k := Disconnect(s.client);
    assert k.futures.Keys == s.client.futures.Keys;
    ClientWired(s, k);
  }

  predicate HasRequests(s: State) { forall c :: 0 <= c < |s.conns| ==> s.conns[c].up != [] }

  lemma NextWired(s: State, step: Step)
    requires Wired(s) && Ids(s.client) && HasRequests(s) && (s.client.main.Away? ==> s.client.pending == {})
    ensures Wired(Next(s, step))
  {
    if Enabled(s, step) {
      match step
      case Insert(_, _) =>
      case Start(_) =>
      case Visit(i, c) =>
        OfferOk(s.conns[c], i);
        DaemonWired(s, c, Offer(s.conns[c], i));
      case Accept(c) =>
        PhaseOk(s.conns[c], Served);
        DaemonWired(s, c, s.conns[c].(phase := Served));
      case Handle(c, body) =>
        AnswerOk(s.conns[c], body, s.table);
        DaemonWired(s, c, Answer(s.conns[c], body));
      case Reap(c) =>
        PhaseOk(s.conns[c], Reaped);
        DaemonWired(s, c, s.conns[c].(phase := Reaped));
      case Restart => RestartWired(s);
      case Connect => DialWired(s);
      case Read => ReadWired(s);
      case TimeOut(id) =>
        var k := s.client.(futures := Complete(s.client.futures, id, TimedOut));
        assert k.futures.Keys == s.client.futures.Keys;
        ClientWired(s, k);
      case Resume => ContinueWired(s);
      case Ask(cmd) => SendWired(s, cmd);
      case ReaderDies => SameWired(s, s.client.(reading := false));
      case GiveUp => DisconnectWired(s);
    }
  }

  lemma NextHasRequests(s: State, step: Step)
    requires HasRequests(s)
    ensures HasRequests(Next(s, step))
  {
  }

  lemma {:induction false} AlwaysWired(steps: seq<Step>)
    ensures Wired(After(steps)) && HasRequests(After(steps))
    decreases |steps|
  {
    if steps != [] {
      var init := steps[..|steps| - 1];
      AlwaysWired(init);
      IdsAreConserved(init);
      NextWired(After(init), steps[|steps| - 1]);
      NextHasRequests(After(init), steps[|steps| - 1]);
    }
  }

  /**
   * In every run, a future that has a reply was sent as a request on one connection, and its
   * reply is what the daemon wrote on that connection when it took that very request.
   */
  lemma ReplyAnswersItsRequest(steps: seq<Step>, id: nat)
    requires id in After(steps).client.futures && After(steps).client.futures[id].outcome.Replied?
    ensures var s := After(steps);
      var f := s.client.futures[id];
      && HasReply(s, id)
      && var conn, m := s.conns[f.conn], s.conns[f.conn].down[f.outcome.at];
         && f.outcome.at < conn.read
         && m.id == id && m.nth < conn.handled <= |conn.up|
         && conn.up[m.nth] == Request(id, f.cmd)
         && Fits(f.cmd, m.body)
  {
    AlwaysWired(steps);
    var s := After(steps);
    var f := s.client.futures[id];
    assert RepliedOn(s.conns, id, f);
    assert ConnOk(s.conns[f.conn]) && Answers(s.conns[f.conn].down[f.outcome.at], s.conns[f.conn]);
    assert SentOn(s.conns[f.conn], f.conn, s.client.futures);
  }

  /** Replies on one connection come in the order of its requests, in strictly increasing id order. */
  lemma RepliesInOrder(steps: seq<Step>, c: nat, k: nat, l: nat)
    requires c < |After(steps).conns| && k < l < |After(steps).conns[c].down|
    requires After(steps).conns[c].down[k].Reply? && After(steps).conns[c].down[l].Reply?
    ensures After(steps).conns[c].down[k].nth < After(steps).conns[c].down[l].nth
    ensures After(steps).conns[c].down[k].id < After(steps).conns[c].down[l].id
  {
    AlwaysWired(steps);
    var conn := After(steps).conns[c];
    assert ConnOk(conn) && Answers(conn.down[k], conn) && Answers(conn.down[l], conn);
  }
}
