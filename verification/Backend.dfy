/** The client's object and the daemon's, each method against the steps of the protocol. */
module Backend {
  import opened Common
  import opened Protocol
  import L = LastUsed

  class OmniaBackend {
    /** The rows of the daemon's table by number: what a message carries of them. */
    const table: nat -> L.Row

    var main: Main
    var reading: bool
    var nextReqId: nat
    var pending: set<nat>
    var futures: map<nat, Future>
    var loginHistory: seq<L.LoginEvent>
    var rawKeys: seq<L.RawKey>
    var sshKeys: seq<L.SshKey>

    ghost var answered: set<nat>
    ghost var cleared: set<nat>
    ghost var rows: seq<nat>
    ghost var loaded: Option<Load>

    /** The list shows the rows, and the keys are up to date with the list. */
    ghost predicate Valid()
      reads this
    {
      && |loginHistory| == |rows|
      && (forall i :: 0 <= i < |rows| ==> loginHistory[i] == L.FromRow(table(rows[i])))
      && |sshKeys| == |rawKeys|
      && (forall i :: 0 <= i < |sshKeys| ==> sshKeys[i] == L.ShownKey(loginHistory, rawKeys[i]))
    }

    ghost function View(): Client
      reads this
    {
      Client(main, reading, nextReqId, pending, futures, answered, cleared, rows, loaded)
    }

    constructor (table: nat -> L.Row)
      ensures Valid() && View() == INITIAL.client && this.table == table
    {
      this.table := table;
      main, reading, nextReqId, pending, futures := Away, false, 1, {}, map[];
      loginHistory, rawKeys, sshKeys := [], [], [];
      answered, cleared, rows, loaded := {}, {}, [], None;
    }

    /** The part of `_send_and_wait` before it waits. */
    method SendRequest(conn: nat, cmd: Command) returns (request: Request)
      requires Valid()
      modifies this`nextReqId, this`pending, this`futures
      ensures Valid() && View() == Issue(old(View()), conn, cmd)
      ensures request == Request(old(nextReqId), cmd)
    {
      request := Request(nextReqId, cmd);
      nextReqId := nextReqId + 1;
      pending := pending + {request.id};
      futures := futures[request.id := Future(conn, cmd, Waiting)];
    }

    method RebuildKeys()
      modifies this`sshKeys
      ensures |sshKeys| == |rawKeys|
      ensures forall i :: 0 <= i < |sshKeys| ==> sshKeys[i] == L.ShownKey(loginHistory, rawKeys[i])
    {
      sshKeys := L.Rebuild(loginHistory, rawKeys);
    }

    method ApplyNewLoginEvent(row: nat)
      requires Valid()
      modifies this`loginHistory, this`sshKeys, this`rows
      ensures Valid() && rows == InsertFront(old(rows), row)
      ensures loginHistory
           == if |old(loginHistory)| < 500 then [L.FromRow(table(row))] + old(loginHistory)
              else [L.FromRow(table(row))] + old(loginHistory)[..499]
    {
      loginHistory := [L.FromRow(table(row))] + loginHistory;
      rows := [row] + rows;
      if |loginHistory| > MAX_LOGIN_HISTORY {
        loginHistory := loginHistory[..MAX_LOGIN_HISTORY];
        rows := rows[..MAX_LOGIN_HISTORY];
      }
      RebuildKeys();
    }

    method ApplyLoginHistory(reply: seq<nat>)
      requires Valid()
      modifies this`loginHistory, this`sshKeys, this`rows
      ensures Valid() && rows == reply
      ensures |loginHistory| == |reply|
      ensures forall i :: 0 <= i < |reply| ==> loginHistory[i] == L.FromRow(table(reply[i]))
    {
      loginHistory := [];
      for i := 0 to |reply|
        invariant |loginHistory| == i
        invariant forall j :: 0 <= j < i ==> loginHistory[j] == L.FromRow(table(reply[j]))
      {
        loginHistory := loginHistory + [L.FromRow(table(reply[i]))];
      }
      rows := reply;
      RebuildKeys();
    }

    method ApplyKeys(keys: seq<L.RawKey>)
      requires Valid()
      modifies this`rawKeys, this`sshKeys
      ensures Valid() && rawKeys == keys
    {
      rawKeys := keys;
      RebuildKeys();
    }

    /** One round of `_read_loop`, with the message at position `at` of the connection. */
    method ReceiveMessage(m: Message, at: nat)
      requires Valid()
      modifies this`pending, this`futures, this`answered, this`loginHistory, this`sshKeys, this`rows
      ensures Valid() && View() == Receive(old(View()), m, at)
    {
      match m {
        case Push(row) => ApplyNewLoginEvent(row);
        case Reply(id, _, _) =>
          if id in pending {
            pending := pending - {id};
            answered := answered + {id};
            if id in futures && futures[id].outcome == Waiting {
              futures := futures[id := futures[id].(outcome := Replied(at))];
            }
          }
      }
    }

    /**
     * After any of these, while the list is newest first, each key shows the greatest time of
     * a kept successful login with its label, or none if there is no such login.
     */
    lemma KeysShowLastUse(i: nat)
      requires Valid() && L.NewestFirst(loginHistory) && i < |sshKeys|
      ensures var name := L.DisplayLabel(rawKeys[i]);
        && (sshKeys[i].lastUsed.None? <==> forall e :: e in loginHistory ==> !L.Uses(e, name))
        && (sshKeys[i].lastUsed.Some? ==>
              && (exists e :: e in loginHistory && L.Uses(e, name) && e.ts == sshKeys[i].lastUsed.value)
              && (forall e :: e in loginHistory && L.Uses(e, name) ==> e.ts <= sshKeys[i].lastUsed.value))
    {
      L.FirstTimeIsGreatest(loginHistory, L.DisplayLabel(rawKeys[i]));
    }

    /** `_fail_pending_requests`. */
    method FailPendingRequests()
      modifies this`pending, this`futures, this`cleared
      ensures pending == {} && cleared == old(cleared) + old(pending)
      ensures futures == Disconnect(old(View())).futures
    {
      var rest := pending;
      while rest != {}
        invariant rest <= pending == old(pending) && cleared == old(cleared)
        invariant futures.Keys == old(futures).Keys
        invariant forall id :: id in futures ==>
          futures[id] == if id in pending && id !in rest && old(futures)[id].outcome == Waiting
                         then old(futures)[id].(outcome := Lost) else old(futures)[id]
        decreases |rest|
      {
        var id :| id in rest;
        if id in futures && futures[id].outcome == Waiting {
          futures := futures[id := futures[id].(outcome := Lost)];
        }
        rest := rest - {id};
      }
      cleared := cleared + pending;
      pending := {};
    }

    /** `_connect_and_run` ends, and `run_forever` fails what is pending. */
    method Teardown()
      requires Valid()
      modifies this`main, this`reading, this`loaded, this`pending, this`futures, this`cleared
      ensures Valid() && View() == Disconnect(old(View()))
    {
      main, reading, loaded := Away, false, None;
      FailPendingRequests();
    }
  }

  /** The daemon's connections, with a table of login rows. */
  class OmniaServer {
    var conns: seq<Connection>
    var table: seq<int>

    constructor ()
      ensures conns == [] && table == []
    {
      conns, table := [], [];
    }

    /** `broadcast`, when nothing else runs between its writes. */
    method Broadcast(row: nat)
      modifies this`conns
      ensures |conns| == |old(conns)|
      ensures forall c :: 0 <= c < |conns| && old(conns)[c].phase == Served && old(conns)[c].subscribed ==>
        conns[c] == old(conns)[c].(down := old(conns)[c].down + [Push(row)])
      ensures forall c :: 0 <= c < |conns| && !(old(conns)[c].phase == Served && old(conns)[c].subscribed) ==>
        conns[c] == old(conns)[c]
    {
      var left := Clients(conns);
      while left != {}
        invariant |conns| == |old(conns)| && left <= Clients(old(conns))
        invariant forall c :: 0 <= c < |conns| ==>
          conns[c] == if c !in left && old(conns)[c].phase == Served && old(conns)[c].subscribed
                      then old(conns)[c].(down := old(conns)[c].down + [Push(row)]) else old(conns)[c]
        decreases |left|
      {
        var c :| c in left;
        if conns[c].subscribed {
          conns := conns[c := Write(conns[c], Push(row))];
        }
        left := left - {c};
      }
    }

    /**
     * One round of `_handle_client`: takes the next request and writes its reply. `raises` is
     * whether the handler raised, and `found` what the query for the login history returned.
     */
    method HandleOne(c: nat, raises: bool, found: seq<nat>) returns (body: Body)
      requires c < |conns| && conns[c].handled < |conns[c].up|
      requires conns[c].up[conns[c].handled].cmd == GetLoginHistory && !raises
        ==> IsRecent(table, found, MAX_LOGIN_HISTORY)
      modifies this`conns
      ensures MayAnswer(old(conns)[c].up[old(conns)[c].handled].cmd, body, table)
      ensures old(conns)[c].up[old(conns)[c].handled].cmd != Subscribe ==> (body == Refused <==> raises)
      ensures var conn := old(conns)[c];
        conns == old(conns)[c := conn.(handled := conn.handled + 1,
                                       subscribed := conn.subscribed || conn.up[conn.handled].cmd == Subscribe,
                                       down := conn.down + [Reply(conn.up[conn.handled].id, conn.handled, body)])]
    {
      var conn := conns[c];
      var request := conn.up[conn.handled];
      match request.cmd {
        case Subscribe =>
          conn := conn.(subscribed := true);
          body := Plain;
        case GetLoginHistory => body := if raises then Refused else Events(found, |table|);
        case _ => body := if raises then Refused else Plain;
      }
      conn := Write(conn, Reply(request.id, conn.handled, body));
      conns := conns[c := conn.(handled := conn.handled + 1)];
    }
  }

  /** The steps of one broadcast that nothing interrupts, in the order in which it visits the clients. */
  function Visits(s: State, row: nat, order: seq<nat>): State {
    if order == [] then s else Next(Visits(s, row, order[..|order| - 1]), Visit(row, order[|order| - 1]))
  }

  predicate Subscribed(conn: Connection) { conn.phase == Served && conn.subscribed }

  lemma OneVisit(t: State, row: nat, c: nat)
    requires row < |t.tasks| && t.tasks[row].Visiting? && c in t.tasks[row].left && c < |t.conns|
    ensures var u := Next(t, Visit(row, c));
      && u.conns == (if Subscribed(t.conns[c]) then t.conns[c := t.conns[c].(down := t.conns[c].down + [Push(row)])]
                     else t.conns)
      && u.tasks == t.tasks[row := Visiting(t.tasks[row].left - {c})]
      && u.client == t.client && u.table == t.table
  {
  }

  /** In whatever order the steps visit the clients, they write what `Broadcast` writes. */
  lemma {:induction false} BroadcastIsItsSteps(s: State, row: nat, order: seq<nat>)
    requires row < |s.tasks| && s.tasks[row].Visiting?
    requires forall c :: c in order ==> c in s.tasks[row].left && c < |s.conns|
    requires forall i, j :: 0 <= i < j < |order| ==> order[i] != order[j]
    ensures var t := Visits(s, row, order);
      && |t.conns| == |s.conns| && |t.tasks| == |s.tasks| && t.client == s.client && t.table == s.table
      && t.tasks[row].Visiting?
      && (forall c :: c in t.tasks[row].left <==> c in s.tasks[row].left && c !in order)
      && (forall c :: 0 <= c < |s.conns| ==>
            t.conns[c] == if c in order && Subscribed(s.conns[c])
                          then s.conns[c].(down := s.conns[c].down + [Push(row)]) else s.conns[c])
  {
    if order != [] {
      var n := |order| - 1;
      assert order == order[..n] + [order[n]];
      assert order[n] in order && order[n] !in order[..n];
      assert forall c :: c in order[..n] ==> c in order;
      assert forall i :: 0 <= i < n ==> order[..n][i] == order[i];
      BroadcastIsItsSteps(s, row, order[..n]);
      OneVisit(Visits(s, row, order[..n]), row, order[n]);
    }
  }
}
