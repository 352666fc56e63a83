/**
 * The client's login history against the daemon's table: the history reply, the pushes read
 * while it waits to be applied, and the pushes read after it.
 */
module LoginFeed {
  import opened Common
  import opened Protocol
  import opened Requests

  // -- what the daemon owes a client -----------------------------------------------------

  /** The broadcast of a row will write nothing more to a connection. */
  predicate Gone(task: Task, c: nat) { task.Dropped? || (task.Visiting? && c !in task.left) }

  predicate IsHistory(m: Message) { m.Reply? && m.body.Events? }

  predicate PushedAfter(down: seq<Message>, k: int, row: nat) {
    exists l :: k < l < |down| && 0 <= l && down[l] == Push(row)
  }

  /** No row is pushed twice, and none whose broadcast is still to come. */
  predicate PushesOk(down: seq<Message>, c: nat, tasks: seq<Task>) {
    && (forall k :: 0 <= k < |down| && down[k].Push? ==> down[k].row < |tasks| && Gone(tasks[down[k].row], c))
    && (forall k, l :: 0 <= k < l < |down| && down[k].Push? && down[l].Push? ==> down[k].row != down[l].row)
  }

  predicate HistoryOk(m: Message, table: seq<int>) {
    IsHistory(m) ==> m.body.upTo <= |table| && IsRecent(table[..m.body.upTo], m.body.rows, MAX_LOGIN_HISTORY)
  }

  predicate HistoriesOk(down: seq<Message>, table: seq<int>) {
    forall k :: 0 <= k < |down| ==> HistoryOk(down[k], table)
  }

  /** Every row inserted after a history reply was built is pushed after it, or still to come. */
  ghost predicate Covered(down: seq<Message>, c: nat, tasks: seq<Task>) {
    forall k, i: nat :: 0 <= k < |down| && IsHistory(down[k]) && down[k].body.upTo <= i < |tasks| && Gone(tasks[i], c)
      ==> tasks[i].Dropped? || PushedAfter(down, k, i)
  }

  /** What has been pushed was scheduled. */
  predicate PushesLive(down: seq<Message>, tasks: seq<Task>) {
    forall k :: 0 <= k < |down| && down[k].Push? ==> down[k].row < |tasks| && !tasks[down[k].row].Dropped?
  }

  ghost predicate FeedOk(conn: Connection, c: nat, table: seq<int>, tasks: seq<Task>) {
    && PushesOk(conn.down, c, tasks)
    && HistoriesOk(conn.down, table)
    && (conn.phase == Dialled ==> conn.down == [])
    && (conn.phase == Served ==> Covered(conn.down, c, tasks) && PushesLive(conn.down, tasks))
  }

  ghost predicate Feeds(s: State) {
    && |s.tasks| == |s.table|
    && forall c :: 0 <= c < |s.conns| ==> FeedOk(s.conns[c], c, s.table, s.tasks)
  }

  lemma InsertFeed(conn: Connection, c: nat, table: seq<int>, tasks: seq<Task>, ts: int, task: Task)
    requires FeedOk(conn, c, table, tasks) && |tasks| == |table| && (task.Scheduled? || task.Dropped?)
    ensures FeedOk(conn, c, table + [ts], tasks + [task])
  {
    forall k | 0 <= k < |conn.down| ensures HistoryOk(conn.down[k], table + [ts]) {
      assert HistoryOk(conn.down[k], table);
      if IsHistory(conn.down[k]) {
        assert (table + [ts])[..conn.down[k].body.upTo] == table[..conn.down[k].body.upTo];
      }
    }
  }

  lemma StartFeed(conn: Connection, c: nat, table: seq<int>, tasks: seq<Task>, i: nat, left: set<nat>)
    requires FeedOk(conn, c, table, tasks) && i < |tasks| && tasks[i] == Scheduled
    requires conn.phase == Served ==> c in left
    ensures FeedOk(conn, c, table, tasks[i := Visiting(left)])
  {
  }

  lemma VisitFeed(conn: Connection, c: nat, table: seq<int>, tasks: seq<Task>, i: nat, left: set<nat>)
    requires FeedOk(conn, c, table, tasks) && ConnOk(conn)
    requires i < |tasks| && tasks[i] == Visiting(left) && c in left
    ensures FeedOk(Offer(conn, i), c, table, tasks[i := Visiting(left - {c})])
  {
    var tasks' := tasks[i := Visiting(left - {c})];
    var down' := Offer(conn, i).down;
    forall k | 0 <= k < |conn.down| && IsHistory(conn.down[k]) ensures conn.subscribed {
      assert Answers(conn.down[k], conn);
    }
    forall k, j: nat | conn.phase == Served && 0 <= k < |down'| && IsHistory(down'[k])
      && down'[k].body.upTo <= j < |tasks'| && Gone(tasks'[j], c)
      ensures tasks'[j].Dropped? || PushedAfter(down', k, j)
    {
      if j == i {
        assert down'[|conn.down|] == Push(i);
      } else if !tasks[j].Dropped? {
        assert PushedAfter(conn.down, k, j);
        var l :| k < l < |conn.down| && 0 <= l && conn.down[l] == Push(j);
        assert down'[l] == Push(j);
      }
    }
  }

  /** The broadcast visits another connection. */
  lemma OtherVisitFeed(conn: Connection, c: nat, table: seq<int>, tasks: seq<Task>, i: nat, left: set<nat>, d: nat)
    requires FeedOk(conn, c, table, tasks) && i < |tasks| && tasks[i] == Visiting(left) && d != c
    ensures FeedOk(conn, c, table, tasks[i := Visiting(left - {d})])
  {
    assert Gone(Visiting(left - {d}), c) == Gone(Visiting(left), c);
  }

  lemma AnswerFeed(conn: Connection, c: nat, table: seq<int>, tasks: seq<Task>, body: Body)
    requires FeedOk(conn, c, table, tasks) && |tasks| == |table| && conn.handled < |conn.up|
    requires conn.phase == Served && MayAnswer(conn.up[conn.handled].cmd, body, table)
    ensures FeedOk(Answer(conn, body), c, table, tasks)
  {
    var down' := Answer(conn, body).down;
    assert table[..|table|] == table;
    forall k | 0 <= k < |down'| ensures HistoryOk(down'[k], table) {
      assert k < |conn.down| ==> HistoryOk(conn.down[k], table);
    }
    forall k, j: nat | 0 <= k < |down'| && IsHistory(down'[k])
      && down'[k].body.upTo <= j < |tasks| && Gone(tasks[j], c)
      ensures tasks[j].Dropped? || PushedAfter(down', k, j)
    {
      if !tasks[j].Dropped? {
        assert PushedAfter(conn.down, k, j);
        var l :| k < l < |conn.down| && 0 <= l && conn.down[l] == Push(j);
        assert down'[l] == Push(j);
      }
    }
  }

  lemma RestartFeed(conn: Connection, c: nat, table: seq<int>, tasks: seq<Task>)
    requires FeedOk(conn, c, table, tasks)
    ensures FeedOk(conn.(phase := Reaped), c, table, seq(|tasks|, i => Dropped))
  {
  }

  /** A step that changes one connection, and nothing else of the daemon. */
  lemma OneFeed(s: State, t: State, d: nat)
    requires Feeds(s) && t.table == s.table && t.tasks == s.tasks && |t.conns| == |s.conns| && d < |s.conns|
    requires forall c :: 0 <= c < |s.conns| && c != d ==> t.conns[c] == s.conns[c]
    requires FeedOk(t.conns[d], d, s.table, s.tasks)
    ensures Feeds(t)
  {
    forall c | 0 <= c < |t.conns| ensures FeedOk(t.conns[c], c, t.table, t.tasks) {
      assert FeedOk(s.conns[c], c, s.table, s.tasks);
    }
  }

  /** A step of the client changes at most the requests and the read position of a connection. */
  ghost predicate SameDaemon(s: State, t: State) {
    && t.table == s.table && t.tasks == s.tasks && |t.conns| == |s.conns|
    && forall c :: 0 <= c < |s.conns| ==> t.conns[c].down == s.conns[c].down && t.conns[c].phase == s.conns[c].phase
  }

  lemma ClientFeed(s: State, t: State)
    requires Feeds(s) && SameDaemon(s, t)
    ensures Feeds(t)
  {
    forall c | 0 <= c < |t.conns| ensures FeedOk(t.conns[c], c, t.table, t.tasks) {
      assert FeedOk(s.conns[c], c, s.table, s.tasks);
    }
  }

  lemma ContinueSameDaemon(s: State)
    requires s.conns != []
    ensures SameDaemon(s, Continue(s))
  {
  }

  lemma ClientSameDaemon(s: State, step: Step)
    requires Enabled(s, step)
    requires step.Read? || step.TimeOut? || step.Resume? || step.Ask? || step.ReaderDies? || step.GiveUp?
    ensures SameDaemon(s, Next(s, step))
  {
    if step.Resume? {
      ContinueSameDaemon(s);
    }
  }

  lemma DialFeed(s: State)
    requires Feeds(s)
    ensures Feeds(Dial(s))
  {
    var t := Dial(s);
    forall c | 0 <= c < |t.conns| ensures FeedOk(t.conns[c], c, t.table, t.tasks) {
      if c < |s.conns| {
        assert t.conns[c] == s.conns[c] && FeedOk(s.conns[c], c, s.table, s.tasks);
      }
    }
  }

  lemma TaskFeed(s: State, step: Step)
    requires Feeds(s) && Wired(s) && Enabled(s, step) && (step.Insert? || step.Start? || step.Visit? || step.Restart?)
    ensures Feeds(Next(s, step))
  {
    var t := Next(s, step);
    forall c | 0 <= c < |t.conns| ensures FeedOk(t.conns[c], c, t.table, t.tasks) {
      var conn := s.conns[c];
      assert FeedOk(conn, c, s.table, s.tasks);
      match step
      case Insert(ts, scheduled) =>
        InsertFeed(conn, c, s.table, s.tasks, ts, if scheduled then Scheduled else Dropped);
      case Start(i) => StartFeed(conn, c, s.table, s.tasks, i, Clients(s.conns));
      case Visit(i, d) =>
        if c == d {
          assert ConnOk(conn);
          VisitFeed(conn, c, s.table, s.tasks, i, s.tasks[i].left);
        } else {
          OtherVisitFeed(conn, c, s.table, s.tasks, i, s.tasks[i].left, d);
        }
      case Restart => RestartFeed(conn, c, s.table, s.tasks);
    }
  }

  lemma NextFeeds(s: State, step: Step)
    requires Feeds(s) && Wired(s)
    ensures Feeds(Next(s, step))
  {
    if Enabled(s, step) {
      var t := Next(s, step);
      match step
      case Insert(_, _) => TaskFeed(s, step);
      case Start(_) => TaskFeed(s, step);
      case Visit(_, _) => TaskFeed(s, step);
      case Restart => TaskFeed(s, step);
      case Accept(c) => OneFeed(s, t, c);
      case Reap(c) => OneFeed(s, t, c);
      case Handle(c, body) =>
        AnswerFeed(s.conns[c], c, s.table, s.tasks, body);
        OneFeed(s, t, c);
      case Connect => DialFeed(s);
      case _ =>
        ClientSameDaemon(s, step);
        ClientFeed(s, t);
    }
  }

  lemma {:induction false} AlwaysFeeds(steps: seq<Step>)
    ensures Feeds(After(steps))
    decreases |steps|
  {
    if steps != [] {
      var init := steps[..|steps| - 1];
      AlwaysFeeds(init);
      AlwaysWired(init);
      NextFeeds(After(init), steps[|steps| - 1]);
    }
  }

  // -- who is pushed to --------------------------------------------------------------------

  /** One of the first `k` messages answers a subscription of this connection. */
  predicate SubscribedBefore(conn: Connection, k: nat) {
    exists j :: 0 <= j < k && j < |conn.down| && conn.down[j].Reply?
      && conn.down[j].nth < |conn.up| && conn.up[conn.down[j].nth].cmd == Subscribe
  }

  predicate PushedToSubscriber(conn: Connection) {
    forall k :: 0 <= k < |conn.down| && conn.down[k].Push? ==> SubscribedBefore(conn, k)
  }

  predicate Subscribers(s: State) {
    forall c :: 0 <= c < |s.conns| ==>
      PushedToSubscriber(s.conns[c]) && (s.conns[c].subscribed ==> SubscribedBefore(s.conns[c], |s.conns[c].down|))
  }

  lemma SubscribedGrows(conn: Connection, conn': Connection, k: nat)
    requires SubscribedBefore(conn, k) && |conn.up| <= |conn'.up| && |conn.down| <= |conn'.down|
    requires (forall j :: 0 <= j < |conn.up| ==> conn'.up[j] == conn.up[j])
    requires (forall j :: 0 <= j < |conn.down| ==> conn'.down[j] == conn.down[j])
    ensures SubscribedBefore(conn', k)
  {
  }

  /** More requests, and at most one more message: an answer, or a push to a subscriber. */
  lemma MoreSubscribed(conn: Connection, conn': Connection)
    requires PushedToSubscriber(conn) && (conn.subscribed ==> SubscribedBefore(conn, |conn.down|))
    requires |conn.up| <= |conn'.up| && |conn.down| <= |conn'.down| <= |conn.down| + 1
    requires (forall j :: 0 <= j < |conn.up| ==> conn'.up[j] == conn.up[j])
    requires (forall j :: 0 <= j < |conn.down| ==> conn'.down[j] == conn.down[j])
    requires conn'.subscribed && !conn.subscribed ==> SubscribedBefore(conn', |conn'.down|)
    requires |conn'.down| > |conn.down| && conn'.down[|conn.down|].Push? ==> conn.subscribed
    ensures PushedToSubscriber(conn') && (conn'.subscribed ==> SubscribedBefore(conn', |conn'.down|))
  {
    forall k | 0 <= k < |conn'.down| && conn'.down[k].Push? ensures SubscribedBefore(conn', k) {
      assert k < |conn.down| ==> conn.down[k] == conn'.down[k];
      SubscribedGrows(conn, conn', k);
    }
    if conn.subscribed {
      SubscribedGrows(conn, conn', |conn.down|);
    }
  }

  lemma AnswerSubscribes(conn: Connection, body: Body)
    requires conn.handled < |conn.up| && conn.up[conn.handled].cmd == Subscribe
    ensures SubscribedBefore(Answer(conn, body), |Answer(conn, body).down|)
  {
    var conn' := Answer(conn, body);
    assert conn'.down[|conn.down|].Reply?;
  }

  lemma ConnSubscribers(s: State, step: Step, c: nat)
    requires Subscribers(s) && Enabled(s, step) && c < |s.conns|
    ensures var conn := Next(s, step).conns[c];
            PushedToSubscriber(conn) && (conn.subscribed ==> SubscribedBefore(conn, |conn.down|))
  {
    if step.Handle? && step.conn == c && s.conns[c].up[s.conns[c].handled].cmd == Subscribe {
      AnswerSubscribes(s.conns[c], step.body);
    }
    MoreSubscribed(s.conns[c], Next(s, step).conns[c]);
  }

  lemma NextSubscribers(s: State, step: Step)
    requires Subscribers(s)
    ensures Subscribers(Next(s, step))
  {
    if Enabled(s, step) {
      forall c | 0 <= c < |s.conns|
        ensures var conn := Next(s, step).conns[c];
                PushedToSubscriber(conn) && (conn.subscribed ==> SubscribedBefore(conn, |conn.down|))
      {
        ConnSubscribers(s, step, c);
      }
    }
  }

  /** In every run a connection is pushed to only after its subscription has been answered. */
  lemma {:induction false} PushedToSubscribersOnly(steps: seq<Step>)
    ensures forall c :: 0 <= c < |After(steps).conns| ==> PushedToSubscriber(After(steps).conns[c])
    ensures Subscribers(After(steps))
    decreases |steps|
  {
    if steps != [] {
      PushedToSubscribersOnly(steps[..|steps| - 1]);
      NextSubscribers(After(steps[..|steps| - 1]), steps[|steps| - 1]);
    }
  }

  // -- what the client shows ---------------------------------------------------------------

  /** The rows pushed at the positions from `start` up to `end`, oldest first. */
  function Pushed(down: seq<Message>, start: nat, end: nat): seq<nat>
    requires start <= end <= |down|
    decreases end - start
  {
    if start == end then []
    else if down[end - 1].Push? then Pushed(down, start, end - 1) + [down[end - 1].row]
    else Pushed(down, start, end - 1)
  }

  lemma {:induction false} PushedHas(down: seq<Message>, start: nat, end: nat, row: nat)
    requires start <= end <= |down|
    ensures row in Pushed(down, start, end) <==> (exists k :: start <= k < end && down[k] == Push(row))
    decreases end - start
  {
    if start < end {
      PushedHas(down, start, end - 1, row);
      if down[end - 1].Push? {
        var init := Pushed(down, start, end - 1);
        assert row in init + [down[end - 1].row] <==> row in init || row == down[end - 1].row;
      }
    }
  }

  lemma {:induction false} PushedGrow(down: seq<Message>, down': seq<Message>, start: nat, end: nat)
    requires start <= end <= |down| <= |down'| && forall k :: 0 <= k < |down| ==> down'[k] == down[k]
    ensures Pushed(down', start, end) == Pushed(down, start, end)
    decreases end - start
  {
    if start < end {
      PushedGrow(down, down', start, end - 1);
    }
  }

  lemma {:induction false} ReversePush<T>(s: seq<T>, x: T)
    ensures Reverse(s + [x]) == [x] + Reverse(s)
  {
    if s != [] {
      assert (s + [x])[1..] == s[1..] + [x];
      ReversePush(s[1..], x);
    }
  }

  lemma TakePush<T>(x: T, s: seq<T>, n: nat)
    ensures Take([x] + Take(s, n), n) == Take([x] + s, n)
  {
  }

  /** The history is the pushes since the load, newest first, before the rows of the reply. */
  function Shown(down: seq<Message>, load: Load, read: nat): seq<nat>
    requires load.reply < load.from <= read <= |down| && IsHistory(down[load.reply])
  {
    Take(Reverse(Pushed(down, load.from, read)) + down[load.reply].body.rows, MAX_LOGIN_HISTORY)
  }

  predicate Views(conn: Connection, load: Load, history: seq<nat>) {
    && load.reply < load.from <= conn.read <= |conn.down|
    && IsHistory(conn.down[load.reply])
    && history == Shown(conn.down, load, conn.read)
  }

  /** What the load waits for, and what it has done. */
  predicate LoadOk(s: State) {
    && (s.client.main.Asking? ==>
          && s.conns != []
          && s.client.main.id in s.client.futures
          && s.client.futures[s.client.main.id].conn == |s.conns| - 1
          && s.client.futures[s.client.main.id].cmd == LoadCommand(s.client.main.stage))
    && ((s.client.main.Loaded? || (s.client.main.Asking? && s.client.main.stage > 2)) ==> s.client.loaded.Some?)
    && (s.client.loaded.Some? ==> Connected(s))
  }

  predicate HistoryViews(s: State) {
    s.client.loaded.Some? ==> s.conns != [] && Views(s.conns[|s.conns| - 1], s.client.loaded.value, s.client.history)
  }

  lemma GrowViews(conn: Connection, conn': Connection, load: Load, history: seq<nat>)
    requires Views(conn, load, history) && Grows(conn, conn') && conn'.read == conn.read
    ensures Views(conn', load, history)
  {
    PushedGrow(conn.down, conn'.down, load.from, conn.read);
  }

  lemma ReadViews(conn: Connection, load: Load, k: Client)
    requires Views(conn, load, k.history) && conn.read < |conn.down|
    ensures Views(conn.(read := conn.read + 1), load, Receive(k, conn.down[conn.read], conn.read).history)
  {
    var m := conn.down[conn.read];
    if m.Push? {
      var pushes, rows := Pushed(conn.down, load.from, conn.read), conn.down[load.reply].body.rows;
      ReversePush(pushes, m.row);
      TakePush(m.row, Reverse(pushes) + rows, MAX_LOGIN_HISTORY);
      assert [m.row] + (Reverse(pushes) + rows) == [m.row] + Reverse(pushes) + rows;
    }
  }

  lemma ApplyViews(s: State, id: nat)
    requires Wired(s) && Feeds(s) && HistoryViews(s)
    requires s.conns != [] && HasReply(s, id) && s.client.futures[id].conn == |s.conns| - 1
    ensures HistoryViews(ApplyReply(s, id))
    ensures BodyOf(s, id).Events? ==> ApplyReply(s, id).client.loaded.Some?
  {
    if BodyOf(s, id).Events? {
      var conn, at := s.conns[|s.conns| - 1], s.client.futures[id].outcome.at;
      assert RepliedOn(s.conns, id, s.client.futures[id]);
      assert FeedOk(conn, |s.conns| - 1, s.table, s.tasks) && HistoryOk(conn.down[at], s.table);
      assert Pushed(conn.down, conn.read, conn.read) == [];
    }
  }

  // -- over every run ----------------------------------------------------------------------

  lemma IssueLoad(s: State, cmd: Command)
    requires s.conns != [] && Ids(s.client) && LoadOk(s) && HistoryViews(s) && Connected(s)
    ensures LoadOk(Send(s, cmd)) && HistoryViews(Send(s, cmd))
  {
    if s.client.loaded.Some? {
      GrowViews(s.conns[Current(s)], Send(s, cmd).conns[Current(s)], s.client.loaded.value, s.client.history);
    }
  }

  lemma AdvanceLoad(s: State, stage: nat)
    requires s.conns != [] && Ids(s.client) && HistoryViews(s)
    requires stage >= 2 ==> s.client.loaded.Some?
    ensures LoadOk(Advance(s, stage)) && HistoryViews(Advance(s, stage))
  {
    if stage + 1 < LOAD_STEPS && s.client.loaded.Some? {
      GrowViews(s.conns[Current(s)], Advance(s, stage).conns[Current(s)], s.client.loaded.value, s.client.history);
    }
  }

  /** When the load goes on after its third request, the login history has been applied. */
  lemma GrantedHistory(s: State)
    requires Wired(s) && LoadOk(s) && s.conns != [] && Granted(s)
    ensures s.client.futures[s.client.main.id].conn == |s.conns| - 1
    ensures s.client.main.stage == 2 ==> BodyOf(s, s.client.main.id).Events?
  {
    var id := s.client.main.id;
    var f := s.client.futures[id];
    assert RepliedOn(s.conns, id, f);
    var conn := s.conns[f.conn];
    assert ConnOk(conn) && SentOn(conn, f.conn, s.client.futures) && Answers(conn.down[f.outcome.at], conn);
  }

  lemma ContinueLoad(s: State)
    requires Wired(s) && Feeds(s) && Ids(s.client) && LoadOk(s) && HistoryViews(s) && s.conns != []
    ensures LoadOk(Continue(s)) && HistoryViews(Continue(s))
  {
    if Granted(s) {
      GrantedHistory(s);
      ApplyViews(s, s.client.main.id);
      var t := ApplyReply(s, s.client.main.id);
      SameIds(s.client, t.client);
      AdvanceLoad(t, s.client.main.stage);
    }
  }

  lemma ReadLoad(s: State)
    requires Enabled(s, Read) && Ids(s.client) && LoadOk(s) && HistoryViews(s)
    ensures LoadOk(ReadOne(s)) && HistoryViews(ReadOne(s))
  {
    var conn := s.conns[Current(s)];
    ReceiveSettles(s.client, conn.down[conn.read], conn.read);
    if s.client.loaded.Some? {
      ReadViews(conn, s.client.loaded.value, s.client);
    }
  }

  predicate IsDaemonStep(step: Step) {
    step.Insert? || step.Start? || step.Visit? || step.Accept? || step.Handle? || step.Reap? || step.Restart?
  }

  /** A step of the daemon leaves the client alone, and only adds to its channels. */
  lemma DaemonGrows(s: State, step: Step, c: nat)
    requires Enabled(s, step) && IsDaemonStep(step) && c < |s.conns| && s.conns[c].read <= |s.conns[c].down|
    ensures Next(s, step).client == s.client && |Next(s, step).conns| == |s.conns|
    ensures Next(s, step).conns[c].read == s.conns[c].read && Grows(s.conns[c], Next(s, step).conns[c])
  {
  }

  lemma DaemonLoad(s: State, step: Step)
    requires Enabled(s, step) && IsDaemonStep(step) && Wired(s) && LoadOk(s) && HistoryViews(s)
    ensures LoadOk(Next(s, step)) && HistoryViews(Next(s, step))
  {
    if s.conns != [] {
      var c := |s.conns| - 1;
      assert ConnOk(s.conns[c]);
      DaemonGrows(s, step, c);
      if s.client.loaded.Some? {
        GrowViews(s.conns[c], Next(s, step).conns[c], s.client.loaded.value, s.client.history);
      }
    }
  }

  lemma NextLoad(s: State, step: Step)
    requires Wired(s) && Feeds(s) && Ids(s.client) && LoadOk(s) && HistoryViews(s)
    ensures LoadOk(Next(s, step)) && HistoryViews(Next(s, step))
  {
    if Enabled(s, step) {
      match step
      case Connect =>
      case Read => ReadLoad(s);
      case TimeOut(_) =>
      case Resume => ContinueLoad(s);
      case Ask(cmd) => IssueLoad(s, cmd);
      case ReaderDies =>
      case GiveUp =>
      case _ => DaemonLoad(s, step);
    }
  }

  /**
   * In every run, once the history reply of the present connection is applied, the list is
   * the pushes read since then, newest first, before the rows of the reply, cut at 500.
   */
  lemma {:induction false} HistoryIsPushesOverReply(steps: seq<Step>)
    ensures LoadOk(After(steps)) && HistoryViews(After(steps))
    decreases |steps|
  {
    if steps != [] {
      var init := steps[..|steps| - 1];
      HistoryIsPushesOverReply(init);
      AlwaysWired(init);
      AlwaysFeeds(init);
      IdsAreConserved(init);
      NextLoad(After(init), steps[|steps| - 1]);
    }
  }
}
