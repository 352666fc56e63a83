/**
 * The daemon's socket API and its client as one state machine. Code between two `await`s is
 * one step. Each connection is two FIFO channels, kept whole: `up` and `down` hold every
 * message ever written, `handled` and `read` say how many the other side has taken.
 */
module Protocol {
  import opened Common

  datatype Command =
    | Subscribe
    | GetSnapshot
    | GetLoginHistory
    | GetKeys
    | GetSpeedtestHistory
    | GetExtraStatus
    | GetAlerts
    | Action // run a speed test, restart a service, reboot

  /** The requests of `_connect_and_run` and `_load_initial_state`, in order. */
  function LoadCommand(stage: nat): Command {
    match stage
    case 0 => Subscribe
    case 1 => GetSnapshot
    case 2 => GetLoginHistory
    case 3 => GetKeys
    case 4 => GetSpeedtestHistory
    case 5 => GetExtraStatus
    case _ => GetAlerts
  }

  const LOAD_STEPS := 7

  const MAX_LOGIN_HISTORY: nat := 500

  datatype Request = Request(id: nat, cmd: Command)

  /** `upTo` is how many rows the table had when the reply was built; it is not on the wire. */
  datatype Body = Refused | Plain | Events(rows: seq<nat>, upTo: nat)

  /**
   * A row of the table is known by its number. `nth` is which request of its connection the
   * daemon was answering; it is not on the wire.
   */
  datatype Message = Push(row: nat) | Reply(id: nat, nth: nat, body: Body)

  datatype Phase = Dialled | Served | Reaped

  datatype Connection = Connection(
    up: seq<Request>,
    handled: nat,
    down: seq<Message>,
    read: nat,
    phase: Phase,
    subscribed: bool)

  /** The broadcast of one row: `left` are the clients of its snapshot not yet visited. */
  datatype Task = Dropped | Scheduled | Visiting(left: set<nat>)

  /** `Replied(at)`: with the message at that position of the connection. */
  datatype Outcome = Waiting | Replied(at: nat) | TimedOut | Lost

  datatype Future = Future(conn: nat, cmd: Command, outcome: Outcome)

  /** `_connect_and_run`: not connected, waiting for a reply of the load, or waiting for the reader. */
  datatype Main = Away | Asking(stage: nat, id: nat) | Loaded

  /** The login history of this connection: the position of its reply, and what was read when it was applied. */
  datatype Load = Load(reply: nat, from: nat)

  /**
   * `answered` and `cleared` only record which ids a reply and a disconnect took out of
   * `pending`; a future stays in `futures` when its id leaves `pending`.
   */
  datatype Client = Client(
    main: Main,
    reading: bool,
    nextId: nat,
    pending: set<nat>,
    futures: map<nat, Future>,
    answered: set<nat>,
    cleared: set<nat>,
    history: seq<nat>,
    loaded: Option<Load>)

  /** `table` holds the times of the login rows, in order of insertion. */
  datatype State = State(conns: seq<Connection>, client: Client, table: seq<int>, tasks: seq<Task>)

  const INITIAL := State([], Client(Away, false, 1, {}, map[], {}, {}, [], None), [], [])

  datatype Step =
    | Insert(ts: int, scheduled: bool) // not scheduled: the alert check before it raised
    | Start(row: nat)
    | Visit(row: nat, conn: nat)
    | Accept(conn: nat)
    | Handle(conn: nat, body: Body)
    | Reap(conn: nat)
    | Restart
    | Connect
    | Read
    | TimeOut(id: nat)
    | Resume
    | Ask(cmd: Command) // from another task of the client
    | ReaderDies
    | GiveUp // the wait of `_connect_and_run` raises

  // -- the daemon ---------------------------------------------------------------------------

  /** What `ORDER BY ts DESC LIMIT limit` may return; it does not order equal times. */
  predicate IsRecent(table: seq<int>, rows: seq<nat>, limit: nat) {
    && |rows| == (if |table| < limit then |table| else limit)
    && (forall k :: 0 <= k < |rows| ==> rows[k] < |table|)
    && (forall k, l :: 0 <= k < l < |rows| ==> rows[k] != rows[l] && table[rows[k]] >= table[rows[l]])
    && (forall i, k :: 0 <= i < |table| && i !in rows && 0 <= k < |rows| ==> table[i] <= table[rows[k]])
  }

  predicate MayAnswer(cmd: Command, body: Body, table: seq<int>) {
    match cmd
    case Subscribe => body == Plain
    case GetLoginHistory =>
      body == Refused || (body.Events? && body.upTo == |table| && IsRecent(table, body.rows, MAX_LOGIN_HISTORY))
    case _ => body == Refused || body == Plain
  }

  function Write(conn: Connection, m: Message): Connection { conn.(down := conn.down + [m]) }

  function Clients(conns: seq<Connection>): set<nat> { set c | 0 <= c < |conns| && conns[c].phase == Served }

  function Answer(conn: Connection, body: Body): Connection
    requires conn.handled < |conn.up|
  {
    var request := conn.up[conn.handled];
    conn.(handled := conn.handled + 1,
          subscribed := conn.subscribed || request.cmd == Subscribe,
          down := conn.down + [Reply(request.id, conn.handled, body)])
  }

  function Offer(conn: Connection, row: nat): Connection {
    if conn.phase == Served && conn.subscribed then Write(conn, Push(row)) else conn
  }

  // -- the client ----------------------------------------------------------------------------

  /** The first half of `_send_and_wait`. */
  function Issue(k: Client, conn: nat, cmd: Command): Client {
    k.(nextId := k.nextId + 1,
       pending := k.pending + {k.nextId},
       futures := k.futures[k.nextId := Future(conn, cmd, Waiting)])
  }

  /** A future is completed once only. */
  function Complete(futures: map<nat, Future>, id: nat, outcome: Outcome): map<nat, Future>
    requires id in futures && futures[id].outcome == Waiting
  {
    futures[id := futures[id].(outcome := outcome)]
  }

  function InsertFront(history: seq<nat>, row: nat): seq<nat> { Take([row] + history, MAX_LOGIN_HISTORY) }

  /** One round of `_read_loop`, with the message at position `at`. */
  function Receive(k: Client, m: Message, at: nat): Client {
    match m
    case Push(row) => k.(history := InsertFront(k.history, row))
    case Reply(id, _, _) =>
      if id !in k.pending then k
      else
        var k' := k.(pending := k.pending - {id}, answered := k.answered + {id});
        if id in k.futures && k.futures[id].outcome == Waiting
        then k'.(futures := Complete(k.futures, id, Replied(at))) else k'
  }

  /** The end of `_connect_and_run` and `_fail_pending_requests`. */
  function Disconnect(k: Client): Client {
    k.(main := Away, reading := false, pending := {}, cleared := k.cleared + k.pending, loaded := None,
       futures := map id | id in k.futures ::
         if id in k.pending && k.futures[id].outcome == Waiting then k.futures[id].(outcome := Lost)
         else k.futures[id])
  }

  // -- steps ----------------------------------------------------------------------------------

  predicate Connected(s: State) { s.conns != [] && !s.client.main.Away? }

  /** The connection the client uses. */
  function Current(s: State): nat
    requires s.conns != []
  {
    |s.conns| - 1
  }

  predicate HasReply(s: State, id: nat) {
    && id in s.client.futures
    && s.client.futures[id].outcome.Replied?
    && s.client.futures[id].conn < |s.conns|
    && s.client.futures[id].outcome.at < |s.conns[s.client.futures[id].conn].down|
    && s.conns[s.client.futures[id].conn].down[s.client.futures[id].outcome.at].Reply?
  }

  function BodyOf(s: State, id: nat): Body
    requires HasReply(s, id)
  {
    s.conns[s.client.futures[id].conn].down[s.client.futures[id].outcome.at].body
  }

  predicate Enabled(s: State, step: Step) {
    match step
    case Insert(_, _) => true
    case Start(i) => i < |s.tasks| && s.tasks[i] == Scheduled
    case Visit(i, c) => i < |s.tasks| && s.tasks[i].Visiting? && c in s.tasks[i].left && c < |s.conns|
    case Accept(c) => c < |s.conns| && s.conns[c].phase == Dialled
    case Handle(c, body) =>
      && c < |s.conns| && s.conns[c].phase == Served && s.conns[c].handled < |s.conns[c].up|
      && MayAnswer(s.conns[c].up[s.conns[c].handled].cmd, body, s.table)
    case Reap(c) => c < |s.conns| && s.conns[c].phase == Served
    case Restart => true
    case Connect => s.client.main.Away?
    case Read => Connected(s) && s.client.reading && s.conns[Current(s)].read < |s.conns[Current(s)].down|
    case TimeOut(id) => id in s.client.futures && s.client.futures[id].outcome == Waiting
    case Resume =>
      && Connected(s)
      && match s.client.main {
           case Asking(_, id) => id in s.client.futures && s.client.futures[id].outcome != Waiting
           case Loaded => !s.client.reading
           case Away => false
         }
    case Ask(cmd) => Connected(s) && (cmd == GetSnapshot || cmd == GetExtraStatus || cmd == Action)
    case ReaderDies => Connected(s) && s.client.reading
    case GiveUp => Connected(s)
  }

  function SetConn(s: State, c: nat, conn: Connection): State
    requires c < |s.conns|
  {
    s.(conns := s.conns[c := conn])
  }

  /** Writes a request; its reply is awaited by the task that wrote it. */
  function Send(s: State, cmd: Command): State
    requires s.conns != []
  {
    var c := Current(s);
    SetConn(s, c, s.conns[c].(up := s.conns[c].up + [Request(s.client.nextId, cmd)]))
      .(client := Issue(s.client, c, cmd))
  }

  function SendLoad(s: State, stage: nat): State
    requires s.conns != [] && stage < LOAD_STEPS
  {
    var t := Send(s, LoadCommand(stage));
    t.(client := t.client.(main := Asking(stage, s.client.nextId)))
  }

  function Dial(s: State): State {
    SendLoad(s.(conns := s.conns + [Connection([], 0, [], 0, Dialled, false)],
                client := s.client.(reading := true, loaded := None)), 0)
  }

  function ReadOne(s: State): State
    requires Enabled(s, Read)
  {
    var c := Current(s);
    var conn := s.conns[c];
    SetConn(s, c, conn.(read := conn.read + 1)).(client := Receive(s.client, conn.down[conn.read], conn.read))
  }

  /** `_apply_login_history`, if this is its reply. */
  function ApplyReply(s: State, id: nat): State
    requires s.conns != [] && HasReply(s, id)
  {
    if BodyOf(s, id).Events? then
      s.(client := s.client.(history := BodyOf(s, id).rows,
                             loaded := Some(Load(s.client.futures[id].outcome.at, s.conns[Current(s)].read))))
    else s
  }

  /** The reply that the load waits for is there and is not an error. */
  predicate Granted(s: State) {
    s.client.main.Asking? && HasReply(s, s.client.main.id) && BodyOf(s, s.client.main.id) != Refused
  }

  function Advance(s: State, stage: nat): State
    requires s.conns != []
  {
    if stage + 1 < LOAD_STEPS then SendLoad(s, stage + 1) else s.(client := s.client.(main := Loaded))
  }

  /** `_connect_and_run` goes on, or ends with an exception. */
  function Continue(s: State): State
    requires s.conns != []
  {
    if Granted(s) then Advance(ApplyReply(s, s.client.main.id), s.client.main.stage)
    else s.(client := Disconnect(s.client))
  }

  /** A step that is not enabled does nothing, so every sequence of steps is a run. */
  function Next(s: State, step: Step): State {
    if !Enabled(s, step) then s
    else
      match step
      case Insert(ts, scheduled) =>
        s.(table := s.table + [ts], tasks := s.tasks + [if scheduled then Scheduled else Dropped])
      case Start(i) => s.(tasks := s.tasks[i := Visiting(Clients(s.conns))])
      case Visit(i, c) =>
        SetConn(s.(tasks := s.tasks[i := Visiting(s.tasks[i].left - {c})]), c, Offer(s.conns[c], i))
      case Accept(c) => SetConn(s, c, s.conns[c].(phase := Served))
      case Handle(c, body) => SetConn(s, c, Answer(s.conns[c], body))
      case Reap(c) => SetConn(s, c, s.conns[c].(phase := Reaped))
      case Restart =>
        s.(conns := seq(|s.conns|, c requires 0 <= c < |s.conns| => s.conns[c].(phase := Reaped)),
           tasks := seq(|s.tasks|, i => Dropped))
      case Connect => Dial(s)
      case Read => ReadOne(s)
      case TimeOut(id) => s.(client := s.client.(futures := Complete(s.client.futures, id, TimedOut)))
      case Resume => Continue(s)
      case Ask(cmd) => Send(s, cmd)
      case ReaderDies => s.(client := s.client.(reading := false))
      case GiveUp => s.(client := Disconnect(s.client))
  }

  function After(steps: seq<Step>): State {
    if steps == [] then INITIAL else Next(After(steps[..|steps| - 1]), steps[|steps| - 1])
  }
}
