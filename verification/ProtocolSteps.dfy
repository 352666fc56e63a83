/**
 * Steps of the protocol outside the load of the client: what a restart of the daemon drops,
 * how a connection ends, what else the client asks, and which replies a query may give.
 */
module ProtocolSteps {
  import opened Common
  import opened Protocol
  import opened LoginFeed
  import H = LoginHistory

  // -- a restart of the daemon ---------------------------------------------------------------

  /** The first `n` rows are pushed to no connection from the `k`th on. */
  predicate Forgotten(s: State, n: nat, k: nat) {
    && n <= |s.tasks| && k <= |s.conns|
    && (forall i :: 0 <= i < n ==> s.tasks[i] == Dropped)
    && (forall c, j :: k <= c < |s.conns| && 0 <= j < |s.conns[c].down| && s.conns[c].down[j].Push?
          ==> s.conns[c].down[j].row >= n)
  }

  lemma StepForgets(s: State, step: Step, n: nat, k: nat)
    requires Forgotten(s, n, k)
    ensures Forgotten(Next(s, step), n, k)
  {
  }

  lemma {:induction false} RunForgets(before: seq<Step>, later: seq<Step>, n: nat, k: nat)
    requires Forgotten(After(before), n, k)
    ensures Forgotten(After(before + later), n, k)
    decreases |later|
  {
    if later == [] {
      assert before + later == before;
    } else {
      var m := |later| - 1;
      assert (before + later)[..|before + later| - 1] == before + later[..m];
      RunForgets(before, later[..m], n, k);
      StepForgets(After(before + later[..m]), later[m], n, k);
    }
  }

  /** What was logged before a restart and not yet pushed is never pushed to a later connection. */
  lemma RestartForgets(before: seq<Step>, later: seq<Step>)
    ensures var s, t := After(before), After(before + [Restart] + later);
      |s.conns| <= |t.conns| &&
      forall c, j :: |s.conns| <= c < |t.conns| && 0 <= j < |t.conns[c].down| && t.conns[c].down[j].Push?
        ==> t.conns[c].down[j].row >= |s.table|
  {
    var s := After(before);
    AlwaysFeeds(before);
    assert (before + [Restart])[..|before|] == before;
    RunForgets(before + [Restart], later, |s.table|, |s.conns|);
  }

  // -- the client ----------------------------------------------------------------------------

  /** A connection that ends leaves the client with nothing pending and nobody waiting on it. */
  lemma GiveUpEnds(s: State)
    requires Enabled(s, GiveUp)
    ensures var t := Next(s, GiveUp);
      && t.conns == s.conns && t.client.main == Away && !t.client.reading && t.client.pending == {}
      && t.client.futures.Keys == s.client.futures.Keys
      && forall id :: id in s.client.futures && id in s.client.pending ==> t.client.futures[id].outcome != Waiting
  {
  }

  /** A reader that died takes no more messages, and ends the connection of a loaded client. */
  lemma ReaderDiesEnds(s: State)
    requires Enabled(s, ReaderDies)
    ensures var t := Next(s, ReaderDies);
      && t == s.(client := s.client.(reading := false)) && !Enabled(t, Read)
      && (s.client.main.Loaded? ==> Enabled(t, Resume) && Next(t, Resume).client.main == Away)
  {
  }

  /** Another task of the client may ask at any time, with a number of its own. */
  lemma AskSends(s: State, cmd: Command)
    requires s.conns != [] && !s.client.main.Away? && cmd in {GetSnapshot, GetExtraStatus, Action}
    ensures Enabled(s, Ask(cmd))
    ensures var t, c, id := Next(s, Ask(cmd)), |s.conns| - 1, s.client.nextId;
      && t.conns == s.conns[c := s.conns[c].(up := s.conns[c].up + [Request(id, cmd)])]
      && t.client == s.client.(nextId := id + 1, pending := s.client.pending + {id},
                               futures := s.client.futures[id := Future(c, cmd, Waiting)])
  {
  }

  /** What the network, the clock and the other side do is possible whenever it makes sense. */
  lemma AnyTime(s: State, ts: int, scheduled: bool, c: nat, id: nat, cmd: Command)
    ensures Enabled(s, Insert(ts, scheduled)) && Enabled(s, Restart) && (s.client.main.Away? <==> Enabled(s, Connect))
    ensures c < |s.conns| ==> (Enabled(s, Accept(c)) <==> s.conns[c].phase == Dialled)
    ensures c < |s.conns| ==> (Enabled(s, Reap(c)) <==> s.conns[c].phase == Served)
    ensures Connected(s) ==> Enabled(s, GiveUp) && (Enabled(s, ReaderDies) <==> s.client.reading)
    ensures Connected(s) ==> (Enabled(s, Ask(cmd)) <==> cmd in {GetSnapshot, GetExtraStatus, Action})
    ensures id in s.client.futures ==> (Enabled(s, TimeOut(id)) <==> s.client.futures[id].outcome == Waiting)
    ensures Connected(s) && s.client.main.Loaded? ==> (Enabled(s, Resume) <==> !s.client.reading)
    ensures Connected(s) && s.client.main.Asking? && s.client.main.id in s.client.futures ==>
      (Enabled(s, Resume) <==> s.client.futures[s.client.main.id].outcome != Waiting)
  {
  }

  // -- the query for the login history -------------------------------------------------------

  /** All rows of the table, newest first. */
  predicate IsOrder(table: seq<int>, order: seq<nat>) {
    && |order| == |table|
    && (forall k :: 0 <= k < |order| ==> order[k] < |table|)
    && (forall k, l :: 0 <= k < l < |order| ==> order[k] != order[l] && table[order[k]] >= table[order[l]])
  }

  /** The query may return the front of any such order. */
  lemma FrontIsRecent(table: seq<int>, order: seq<nat>, limit: nat)
    requires IsOrder(table, order)
    ensures IsRecent(table, Take(order, limit), limit)
  {
    var rows := Take(order, limit);
    forall i, k | 0 <= i < |table| && i !in rows && 0 <= k < |rows| ensures table[i] <= table[rows[k]] {
      H.Pigeonhole(order, |table|, i);
      assert order == rows + order[|rows|..];
      var j :| 0 <= j < |order[|rows|..]| && order[|rows|..][j] == i;
      assert order[|rows| + j] == i && rows[k] == order[k];
    }
  }
}
