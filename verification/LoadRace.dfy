/**
 * A run in which the client loses a row for good: the push of the row is read while the
 * history reply, already read, has not been applied yet.
 */
module LoadRace {
  import opened Common
  import opened Protocol
  import opened LoginFeed
  import opened LoginHistory

  const SUBSCRIBING: seq<Step> := [Connect, Accept(0), Handle(0, Plain)]

  /** A request of the load after the first: its predecessor's reply is read, then it is answered. */
  function Exchange(body: Body): seq<Step> { [Read, Resume, Handle(0, body)] }

  const INSERTING: seq<Step> := [Insert(7, true), Start(0), Visit(0, 0)]

  /** The history reply is read, then the push, and only then does the load go on. */
  const RACE: seq<Step> := ANSWERED + INSERTING + [Read, Read, Resume]

  lemma AfterPush(steps: seq<Step>, step: Step)
    ensures After(steps + [step]) == Next(After(steps), step)
  {
    assert (steps + [step])[..|steps|] == steps;
  }

  lemma AfterTwo(steps: seq<Step>, a: Step, b: Step)
    ensures After(steps + [a, b]) == Next(Next(After(steps), a), b)
  {
    AfterPush(steps, a);
    AfterPush(steps + [a], b);
    Snoc2(steps, a, b);
  }

  lemma AfterThree(steps: seq<Step>, a: Step, b: Step, c: Step)
    ensures After(steps + [a, b, c]) == Next(Next(Next(After(steps), a), b), c)
  {
    AfterTwo(steps, a, b);
    AfterPush(steps + [a, b], c);
    Snoc3(steps, a, b, c);
  }

  /** The last message is the reply `body` to the last request, and it is not read. */
  predicate Unread(k: Connection, id: nat, body: Body) {
    && k.phase == Served && k.subscribed && k.handled == |k.up|
    && |k.down| == k.read + 1
    && k.down[k.read].Reply? && k.down[k.read].id == id && k.down[k.read].body == body
  }

  predicate Asks(k: Client, stage: nat, id: nat) {
    && k.main == Asking(stage, id) && k.reading && k.loaded == None && k.history == []
    && id in k.pending && id in k.futures
    && k.futures[id].outcome == Waiting && k.futures[id].conn == 0
  }

  /** The load waits for the reply `body`. */
  predicate Waits(s: State, stage: nat, id: nat, body: Body) {
    |s.conns| == 1 && Unread(s.conns[0], id, body) && Asks(s.client, stage, id) && s.table == [] && s.tasks == []
  }

  lemma Dialled()
    ensures var s := Next(INITIAL, Connect);
      && |s.conns| == 1 && s.conns[0].up == [Request(1, Subscribe)] && s.conns[0].handled == 0
      && s.conns[0].phase == Phase.Dialled && s.conns[0].down == [] && s.conns[0].read == 0
      && Asks(s.client, 0, 1) && s.table == [] && s.tasks == []
  {
  }

  lemma Subscribed()
    ensures Waits(After(SUBSCRIBING), 0, 1, Plain)
  {
    AfterThree([], Connect, Accept(0), Handle(0, Plain));
    assert [] + SUBSCRIBING == SUBSCRIBING;
    Dialled();
    Answered(Next(Next(INITIAL, Connect), Accept(0)), 0, 1, Subscribe, Plain);
  }

  /** The daemon answers the last request. */
  lemma Answered(s: State, stage: nat, id: nat, cmd: Command, body: Body)
    requires |s.conns| == 1 && s.conns[0].phase == Served && MayAnswer(cmd, body, s.table)
    requires s.conns[0].handled + 1 == |s.conns[0].up| && s.conns[0].read == |s.conns[0].down|
    requires s.conns[0].up[s.conns[0].handled] == Request(id, cmd) && (cmd == Subscribe || s.conns[0].subscribed)
    requires Asks(s.client, stage, id) && s.table == [] && s.tasks == []
    ensures Waits(Next(s, Handle(0, body)), stage, id, body)
  {
  }

  /** Reads the reply that the load waits for. */
  lemma ReplyRead(s: State, stage: nat, id: nat, body: Body)
    requires Waits(s, stage, id, body) && body != Refused
    ensures var t, k := Next(s, Read), s.conns[0];
      && t == s.(conns := [k.(read := k.read + 1)], client := Receive(s.client, k.down[k.read], k.read))
      && Granted(t) && BodyOf(t, id) == body
  {
    var k := s.conns[0];
    assert s.conns[0 := k.(read := k.read + 1)] == [k.(read := k.read + 1)];
  }

  lemma Resumed(s: State, stage: nat, id: nat)
    requires |s.conns| == 1 && Enabled(s, Resume) && Granted(s) && s.client.main == Asking(stage, id)
    requires BodyOf(s, id) == Plain && stage + 1 < LOAD_STEPS
    ensures Next(s, Resume) == SendLoad(s, stage + 1)
  {
  }

  lemma Exchanged(s: State, stage: nat, id: nat, body: Body)
    requires Waits(s, stage, id, Plain) && stage + 1 < LOAD_STEPS
    requires MayAnswer(LoadCommand(stage + 1), body, [])
    ensures Waits(Next(Next(Next(s, Read), Resume), Handle(0, body)), stage + 1, s.client.nextId, body)
  {
    ReplyRead(s, stage, id, Plain);
    var t := Next(s, Read);
    Resumed(t, stage, id);
    var u := Next(t, Resume);
    Requested(t, stage);
    Answered(u, stage + 1, s.client.nextId, LoadCommand(stage + 1), body);
  }

  lemma Requested(s: State, stage: nat)
    requires |s.conns| == 1 && s.client.reading && s.client.loaded == None && s.client.history == []
    requires stage + 1 < LOAD_STEPS
    ensures var u := SendLoad(s, stage + 1);
      && u == s.(conns := u.conns, client := u.client) && |u.conns| == 1
      && u.conns[0] == s.conns[0].(up := s.conns[0].up + [Request(s.client.nextId, LoadCommand(stage + 1))])
      && Asks(u.client, stage + 1, s.client.nextId)
  {
  }

  /** A row is inserted and pushed while the reply is still unread. */
  lemma Inserted(s: State, id: nat)
    requires Waits(s, 2, id, Events([], 0))
    ensures var t := Next(Next(Next(s, Insert(7, true)), Start(0)), Visit(0, 0));
      t == s.(conns := [Write(s.conns[0], Push(0))], table := [7], tasks := [Visiting({})])
  {
    var a := Next(s, Insert(7, true));
    assert s.table + [7] == [7] && s.tasks + [Scheduled] == [Scheduled];
    assert a == s.(table := [7], tasks := [Scheduled]);
    var b := Next(a, Start(0));
    assert Clients(a.conns) == {0};
    assert b == a.(tasks := [Visiting({0})]);
    assert s.conns[0 := Write(s.conns[0], Push(0))] == [Write(s.conns[0], Push(0))];
    var left: set<nat> := {0};
    assert left - {0} == {};
    assert b.tasks[0 := Visiting(left - {0})] == [Visiting({})];
  }

  /** Both are read, and then the empty reply replaces the list. */
  lemma Overwritten(s: State, id: nat)
    requires |s.conns| == 1 && s.conns[0].down != [] && s.conns[0].down[|s.conns[0].down| - 1] == Push(0)
    requires var before := s.conns[0].down[..|s.conns[0].down| - 1];
      Waits(s.(conns := [s.conns[0].(down := before)], table := [], tasks := []), 2, id, Events([], 0))
    ensures var t := Next(Next(Next(s, Read), Read), Resume);
      && |t.conns| == 1 && t.conns[0].phase == Served && t.conns[0].read == |t.conns[0].down| == |s.conns[0].down|
      && t.conns[0].down == s.conns[0].down
      && t.client.history == [] && t.client.loaded == Some(Load(|s.conns[0].down| - 2, |s.conns[0].down|))
      && t.table == s.table && t.tasks == s.tasks
  {
    var k, n := s.conns[0], |s.conns[0].down|;
    assert k.down[n - 2] == k.down[..n - 1][n - 2];
    var a := Next(s, Read);
    assert a.conns[0] == k.(read := n - 1);
    var b := Next(a, Read);
    assert b.conns[0] == k.(read := n);
    assert Granted(b) && BodyOf(b, id) == Events([], 0);
  }

  /** The history reply is written, and the client has not read it. */
  const ANSWERED: seq<Step> := SUBSCRIBING + Exchange(Plain) + Exchange(Events([], 0))

  lemma HistoryAnswered() returns (id: nat)
    ensures Waits(After(ANSWERED), 2, id, Events([], 0))
  {
    Subscribed();
    var s1 := SUBSCRIBING + Exchange(Plain);
    AfterThree(SUBSCRIBING, Read, Resume, Handle(0, Plain));
    Exchanged(After(SUBSCRIBING), 0, 1, Plain);
    AfterThree(s1, Read, Resume, Handle(0, Events([], 0)));
    Exchanged(After(s1), 1, After(SUBSCRIBING).client.nextId, Events([], 0));
    id := After(s1).client.nextId;
  }

  /** Everything is delivered, the table has a row, and the client shows none. */
  lemma RowIsLost()
    ensures var s := After(RACE);
      && s.table == [7] && AllDelivered(s) && s.client.history == []
      && Window(s) == [0] && ReplyRows(s) == []
  {
    var id := HistoryAnswered();
    AfterThree(ANSWERED, Insert(7, true), Start(0), Visit(0, 0));
    Inserted(After(ANSWERED), id);
    AfterThree(ANSWERED + INSERTING, Read, Read, Resume);
    Lost(After(ANSWERED), After(ANSWERED + INSERTING), id);
  }

  lemma Lost(r: State, s: State, id: nat)
    requires Waits(r, 2, id, Events([], 0))
    requires s == r.(conns := [Write(r.conns[0], Push(0))], table := [7], tasks := [Visiting({})])
    ensures var t := Next(Next(Next(s, Read), Read), Resume);
      && t.table == [7] && AllDelivered(t) && t.client.history == []
      && Window(t) == [0] && ReplyRows(t) == []
  {
    var n := |s.conns[0].down|;
    assert s.conns[0].down[..n - 1] == r.conns[0].down;
    assert r == s.(conns := [s.conns[0].(down := s.conns[0].down[..n - 1])], table := [], tasks := []);
    Overwritten(s, id);
    var down := s.conns[0].down;
    assert Pushed(down, n, n) == [] && Pushed(down, n - 1, n - 1) == [];
    assert Pushed(down, n - 1, n) == [0];
  }

  // -- a row that is never pushed ------------------------------------------------------------

  /** The load goes on, and then the alert check for a new row raises before its broadcast. */
  const UNSCHEDULED: seq<Step> := ANSWERED + [Read, Resume, Insert(7, false)]

  lemma Applied(s: State, id: nat)
    requires Waits(s, 2, id, Events([], 0))
    ensures var t := Next(Next(s, Read), Resume);
      && |t.conns| == 1 && t.conns[0].phase == Served && t.conns[0].down == s.conns[0].down
      && t.conns[0].read == |s.conns[0].down|
      && t.client.history == [] && t.client.loaded == Some(Load(|s.conns[0].down| - 1, |s.conns[0].down|))
      && t.table == [] && t.tasks == []
  {
    ReplyRead(s, 2, id, Events([], 0));
  }

  lemma NeverPushed(t: State)
    requires |t.conns| == 1 && t.conns[0].phase == Served && t.conns[0].down != []
    requires t.conns[0].read == |t.conns[0].down| && IsHistory(t.conns[0].down[|t.conns[0].down| - 1])
    requires t.conns[0].down[|t.conns[0].down| - 1].body == Events([], 0)
    requires t.client.history == [] && t.client.loaded == Some(Load(|t.conns[0].down| - 1, |t.conns[0].down|))
    requires t.table == [] && t.tasks == []
    ensures var u := Next(t, Insert(7, false));
      && u.table == [7] && u.tasks == [Dropped] && AllDelivered(u) && u.client.history == []
      && Window(u) == [] && ReplyRows(u) == []
  {
    var n := |t.conns[0].down|;
    assert Pushed(t.conns[0].down, n, n) == [];
  }

  /** Everything is delivered, nothing was read in the window, and the row is missing for good. */
  lemma UnscheduledRowIsMissing()
    ensures var s := After(UNSCHEDULED);
      && s.table == [7] && s.tasks == [Dropped] && AllDelivered(s) && s.client.history == []
      && Window(s) == [] && ReplyRows(s) == []
  {
    var id := HistoryAnswered();
    AfterThree(ANSWERED, Read, Resume, Insert(7, false));
    Applied(After(ANSWERED), id);
    NeverPushed(Next(Next(After(ANSWERED), Read), Resume));
  }
}
