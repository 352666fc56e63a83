/**
 * How far the list that the client shows agrees with the table, once everything the daemon
 * writes has arrived: exactly which rows are missing, which appear twice, and when the list is
 * the newest rows, newest first.
 */
module LoginHistory {
  import opened Common
  import opened Protocol
  import opened LoginFeed

  /** The history reply of the present connection is applied. */
  predicate HasLoaded(s: State) {
    s.client.loaded.Some? && s.conns != [] && Views(s.conns[|s.conns| - 1], s.client.loaded.value, s.client.history)
  }

  function Conn(s: State): Connection
    requires HasLoaded(s)
  {
    s.conns[|s.conns| - 1]
  }

  /** The rows of the reply, and how many rows the table had when it was built. */
  function ReplyRows(s: State): seq<nat>
    requires HasLoaded(s)
  {
    Conn(s).down[s.client.loaded.value.reply].body.rows
  }

  function UpTo(s: State): nat
    requires HasLoaded(s)
  {
    Conn(s).down[s.client.loaded.value.reply].body.upTo
  }

  /** The pushes read after the reply, but before `_connect_and_run` woke up and applied it. */
  function Window(s: State): seq<nat>
    requires HasLoaded(s)
  {
    Pushed(Conn(s).down, s.client.loaded.value.reply + 1, s.client.loaded.value.from)
  }

  /** The pushes read since. */
  function Later(s: State): seq<nat>
    requires HasLoaded(s)
  {
    Pushed(Conn(s).down, s.client.loaded.value.from, Conn(s).read)
  }

  /** The daemon serves the client, has nothing more to push, and all it wrote is read. */
  predicate AllDelivered(s: State) {
    && HasLoaded(s)
    && Conn(s).phase == Served
    && Conn(s).read == |Conn(s).down|
    && forall i :: 0 <= i < |s.tasks| ==> Gone(s.tasks[i], |s.conns| - 1)
  }

  predicate Distinct<T(==)>(s: seq<T>) { forall k, l :: 0 <= k < l < |s| ==> s[k] != s[l] }

  // -- small facts -------------------------------------------------------------------------

  function Elements(s: seq<nat>): set<nat> { if s == [] then {} else Elements(s[..|s| - 1]) + {s[|s| - 1]} }

  lemma {:induction false} InElements(s: seq<nat>, x: nat)
    ensures x in Elements(s) <==> x in s
  {
    if s != [] {
      InElements(s[..|s| - 1], x);
      assert s == s[..|s| - 1] + [s[|s| - 1]];
    }
  }

  lemma {:induction false} DistinctSize(s: seq<nat>)
    requires Distinct(s)
    ensures |Elements(s)| == |s|
  {
    if s != [] {
      var init, last := s[..|s| - 1], s[|s| - 1];
      DistinctSize(init);
      InElements(init, last);
      assert last !in init;
    }
  }

  function Below(n: nat): set<nat> { if n == 0 then {} else Below(n - 1) + {n - 1} }

  lemma {:induction false} BelowSize(n: nat, x: nat)
    ensures |Below(n)| == n && (x in Below(n) <==> x < n)
  {
    if n > 0 {
      BelowSize(n - 1, x);
      BelowSize(n - 1, n - 1);
    }
  }

  lemma SubsetOfSameSize(a: set<nat>, b: set<nat>)
    requires a <= b && |a| == |b|
    ensures a == b
  {
    assert b == a + (b - a);
    assert |b| == |a| + |b - a|;
  }

  /** `n` different numbers below `n` are all of them. */
  lemma Pigeonhole(s: seq<nat>, n: nat, i: nat)
    requires Distinct(s) && |s| == n && (forall k :: 0 <= k < |s| ==> s[k] < n) && i < n
    ensures i in s
  {
    DistinctSize(s);
    forall x | x in Elements(s) ensures x in Below(n) {
      InElements(s, x);
      BelowSize(n, x);
    }
    BelowSize(n, i);
    SubsetOfSameSize(Elements(s), Below(n));
    InElements(s, i);
  }

  lemma {:induction false} InReverse<T>(s: seq<T>, x: T)
    ensures x in Reverse(s) <==> x in s
  {
    if s != [] {
      InReverse(s[1..], x);
      assert s == [s[0]] + s[1..];
    }
  }

  lemma PushedDistinct(down: seq<Message>, c: nat, tasks: seq<Task>, start: nat, end: nat)
    requires PushesOk(down, c, tasks) && start <= end <= |down|
    ensures Distinct(Pushed(down, start, end))
    decreases end - start
  {
    if start < end {
      PushedDistinct(down, c, tasks, start, end - 1);
      if down[end - 1].Push? {
        PushedHas(down, start, end - 1, down[end - 1].row);
      }
    }
  }

  // -- which rows are missing --------------------------------------------------------------

  lemma LoadedFacts(steps: seq<Step>)
    requires HasLoaded(After(steps))
    ensures var s := After(steps);
      && |s.tasks| == |s.table|
      && FeedOk(Conn(s), |s.conns| - 1, s.table, s.tasks)
      && UpTo(s) <= |s.table|
      && IsRecent(s.table[..UpTo(s)], ReplyRows(s), MAX_LOGIN_HISTORY)
  {
    AlwaysFeeds(steps);
    var s := After(steps);
    assert FeedOk(Conn(s), |s.conns| - 1, s.table, s.tasks);
    assert HistoryOk(Conn(s).down[s.client.loaded.value.reply], s.table);
  }

  /** A row inserted after the reply was built has been pushed after it. */
  lemma NewRowPushed(s: State, i: nat)
    requires AllDelivered(s) && FeedOk(Conn(s), |s.conns| - 1, s.table, s.tasks)
    requires UpTo(s) <= i < |s.tasks| && !s.tasks[i].Dropped?
    ensures i in Window(s) || i in Later(s)
  {
    var conn, load := Conn(s), s.client.loaded.value;
    assert Gone(s.tasks[i], |s.conns| - 1);
    assert PushedAfter(conn.down, load.reply, i);
    PushedHas(conn.down, load.reply + 1, load.from, i);
    PushedHas(conn.down, load.from, |conn.down|, i);
  }

  lemma WindowAndLater(s: State, i: nat)
    requires HasLoaded(s) && PushesOk(Conn(s).down, |s.conns| - 1, s.tasks)
    ensures !(i in Window(s) && i in Later(s))
  {
    PushedHas(Conn(s).down, s.client.loaded.value.reply + 1, s.client.loaded.value.from, i);
    PushedHas(Conn(s).down, s.client.loaded.value.from, Conn(s).read, i);
  }

  /** The rows pushed since, newest push first, before those of the reply: the list before it is cut. */
  function Uncut(s: State): seq<nat>
    requires HasLoaded(s)
  {
    Reverse(Later(s)) + ReplyRows(s)
  }

  /** The row was in the list, but has 500 others in front of it. */
  predicate PushedOut(s: State, i: nat)
    requires HasLoaded(s)
  {
    i in Uncut(s) && forall k :: 0 <= k < |Uncut(s)| && Uncut(s)[k] == i ==> k >= MAX_LOGIN_HISTORY
  }

  lemma InTake(list: seq<nat>, n: nat, i: nat)
    ensures i in Take(list, n) <==> exists k :: 0 <= k < |list| && k < n && list[k] == i
  {
  }

  lemma ShownRows(s: State, i: nat)
    requires HasLoaded(s)
    ensures i in s.client.history <==> (i in Later(s) || i in ReplyRows(s)) && !PushedOut(s, i)
    ensures i in Uncut(s) <==> i in Later(s) || i in ReplyRows(s)
  {
    InReverse(Later(s), i);
    InTake(Uncut(s), MAX_LOGIN_HISTORY, i);
    assert s.client.history == Take(Uncut(s), MAX_LOGIN_HISTORY);
  }

  /** No push on a served connection is of a row that was never scheduled. */
  lemma DroppedIsNotPushed(s: State, start: nat, end: nat, i: nat)
    requires AllDelivered(s) && PushesLive(Conn(s).down, s.tasks) && start <= end <= |Conn(s).down|
    ensures i in Pushed(Conn(s).down, start, end) ==> i < |s.tasks| && !s.tasks[i].Dropped?
  {
    PushedHas(Conn(s).down, start, end, i);
  }

  /** The row was never delivered: its push fell into the window, or was never scheduled. */
  predicate Undelivered(s: State, i: nat)
    requires HasLoaded(s) && i < |s.tasks|
  {
    (i in Window(s) && i !in ReplyRows(s)) || (UpTo(s) <= i && s.tasks[i].Dropped?)
  }

  /** The row was too old for the reply, and its push was written before it. */
  predicate TooOld(s: State, i: nat)
    requires HasLoaded(s)
  {
    i < UpTo(s) && i !in ReplyRows(s) && i !in Window(s) && i !in Later(s)
  }

  /**
   * A row of the table is missing exactly in four cases: its push was read in the window
   * between the reply and its application, and the reply did not have it; it was inserted
   * after the reply was built and its broadcast was never scheduled, because the alert check
   * before it raised; it was too old for the reply; or 500 others are in front of it.
   */
  lemma MissingExactly(steps: seq<Step>, i: nat)
    requires AllDelivered(After(steps)) && i < |After(steps).tasks|
    ensures var s := After(steps);
      && |s.tasks| == |s.table|
      && (i !in s.client.history <==> Undelivered(s, i) || TooOld(s, i) || PushedOut(s, i))
  {
    var s := After(steps);
    LoadedFacts(steps);
    ShownRows(s, i);
    WindowAndLater(s, i);
    var load := s.client.loaded.value;
    DroppedIsNotPushed(s, load.reply + 1, load.from, i);
    DroppedIsNotPushed(s, load.from, Conn(s).read, i);
    if UpTo(s) <= i && !s.tasks[i].Dropped? {
      NewRowPushed(s, i);
    }
  }

  lemma PushedBelow(down: seq<Message>, c: nat, tasks: seq<Task>, start: nat, end: nat, i: nat)
    requires PushesOk(down, c, tasks) && start <= end <= |down| && i in Pushed(down, start, end)
    ensures i < |tasks|
  {
    PushedHas(down, start, end, i);
  }

  /** Some number below `n` is not among fewer than `n`. */
  lemma {:induction false} OneIsOut(s: seq<nat>, n: nat) returns (i: nat)
    requires |s| < n
    ensures i < n && i !in s
  {
    if forall i :: 0 <= i < n ==> i in s {
      forall x | x in Below(n) ensures x in Elements(s) {
        BelowSize(n, x);
        InElements(s, x);
      }
      BelowSize(n, 0);
      FewElements(s);
      SubsetSize(Below(n), Elements(s));
      assert false;
    } else {
      i :| 0 <= i < n && i !in s;
    }
  }

  lemma SubsetSize(a: set<nat>, b: set<nat>)
    requires a <= b
    ensures |a| <= |b|
  {
    assert b == a + (b - a);
  }

  lemma {:induction false} FewElements(s: seq<nat>)
    ensures |Elements(s)| <= |s|
  {
    if s != [] {
      FewElements(s[..|s| - 1]);
    }
  }

  predicate AllShown(s: State) { forall i: nat :: i < |s.tasks| ==> i in s.client.history }

  lemma ShownMeansFew(s: State)
    requires HasLoaded(s) && AllShown(s)
    ensures |s.tasks| <= MAX_LOGIN_HISTORY
  {
    assert |s.client.history| <= MAX_LOGIN_HISTORY;
    if |s.tasks| > MAX_LOGIN_HISTORY {
      var i := OneIsOut(s.client.history, |s.tasks|);
    }
  }

  lemma ShownMeansDelivered(steps: seq<Step>, i: nat)
    requires AllDelivered(After(steps)) && AllShown(After(steps)) && i < |After(steps).tasks|
    ensures !Undelivered(After(steps), i) && !PushedOut(After(steps), i)
  {
    MissingExactly(steps, i);
  }

  lemma ShownMeansReplied(steps: seq<Step>, i: nat)
    requires AllDelivered(After(steps)) && AllShown(After(steps)) && i in Window(After(steps))
    ensures i in ReplyRows(After(steps))
  {
    LoadedFacts(steps);
    WindowInTable(After(steps), i);
    ShownMeansDelivered(steps, i);
  }

  lemma WindowInTable(s: State, i: nat)
    requires HasLoaded(s) && FeedOk(Conn(s), |s.conns| - 1, s.table, s.tasks) && i in Window(s)
    ensures i < |s.tasks|
  {
    var load := s.client.loaded.value;
    PushedBelow(Conn(s).down, |s.conns| - 1, s.tasks, load.reply + 1, load.from, i);
  }

  lemma ShownMeans(steps: seq<Step>)
    requires AllDelivered(After(steps)) && AllShown(After(steps))
    ensures var s := After(steps);
      && UpTo(s) <= MAX_LOGIN_HISTORY
      && (forall i :: i in Window(s) ==> i in ReplyRows(s))
      && (forall i :: UpTo(s) <= i < |s.tasks| ==> !s.tasks[i].Dropped?)
      && (forall i: nat :: i < |s.tasks| ==> !PushedOut(s, i))
  {
    var s := After(steps);
    LoadedFacts(steps);
    forall i | i in Window(s) ensures i in ReplyRows(s) {
      ShownMeansReplied(steps, i);
    }
    forall i | UpTo(s) <= i < |s.tasks| ensures !s.tasks[i].Dropped? {
      ShownMeansDelivered(steps, i);
    }
    forall i: nat | i < |s.tasks| ensures !PushedOut(s, i) {
      ShownMeansDelivered(steps, i);
    }
    ShownMeansFew(s);
  }

  /**
   * So no row of the table is missing if and only if the table had no more than 500 rows when
   * the reply was built, the reply had every row pushed in the window, every row inserted since
   * was scheduled, and none was pushed out.
   */
  lemma NothingMissingIff(steps: seq<Step>)
    requires AllDelivered(After(steps))
    ensures var s := After(steps);
      AllShown(s) <==>
        && UpTo(s) <= MAX_LOGIN_HISTORY
        && (forall i :: i in Window(s) ==> i in ReplyRows(s))
        && (forall i :: UpTo(s) <= i < |s.tasks| ==> !s.tasks[i].Dropped?)
        && (forall i: nat :: i < |s.tasks| ==> !PushedOut(s, i))
  {
    var s := After(steps);
    if AllShown(s) {
      ShownMeans(steps);
    } else {
      var i: nat :| i < |s.tasks| && i !in s.client.history;
      MissingExactly(steps, i);
      if i < UpTo(s) <= MAX_LOGIN_HISTORY {
        LoadedFacts(steps);
        Pigeonhole(ReplyRows(s), UpTo(s), i);
      }
    }
  }

  // -- which rows appear twice -------------------------------------------------------------

  lemma {:induction false} DistinctCount(s: seq<nat>, x: nat)
    requires Distinct(s)
    ensures multiset(s)[x] == if x in s then 1 else 0
  {
    if s != [] {
      var init := s[..|s| - 1];
      DistinctCount(init, x);
      assert s == init + [s[|s| - 1]];
    }
  }

  lemma {:induction false} ReverseCount(s: seq<nat>, x: nat)
    ensures multiset(Reverse(s))[x] == multiset(s)[x]
  {
    if s != [] {
      ReverseCount(s[1..], x);
      assert s == [s[0]] + s[1..];
    }
  }

  lemma TakeCount(s: seq<nat>, n: nat, x: nat)
    ensures multiset(Take(s, n))[x] <= multiset(s)[x]
  {
    if |s| > n {
      assert s == s[..n] + s[n..];
    }
  }

  lemma CountShown(later: seq<nat>, rows: seq<nat>, i: nat)
    requires Distinct(later) && Distinct(rows)
    ensures multiset(Reverse(later) + rows)[i] == (if i in later then 1 else 0) + if i in rows then 1 else 0
  {
    DistinctCount(later, i);
    DistinctCount(rows, i);
    ReverseCount(later, i);
  }

  /**
   * At any time after the load, a row appears at most twice, and twice only if the reply had
   * it and its push, not yet written when the reply was built, was read since the load.
   */
  lemma TwiceOnlyIfUnwritten(steps: seq<Step>, i: nat)
    requires HasLoaded(After(steps))
    ensures var s := After(steps); multiset(s.client.history)[i] <= 2
    ensures var s := After(steps);
      multiset(s.client.history)[i] == 2 ==> i in ReplyRows(s) && i in Later(s)
    ensures var s := After(steps);
      i in ReplyRows(s) && i in Later(s) ==> i < UpTo(s) && PushedAfter(Conn(s).down, s.client.loaded.value.reply, i)
    ensures var s := After(steps);
      |Later(s)| + |ReplyRows(s)| <= MAX_LOGIN_HISTORY ==>
        (i in ReplyRows(s) && i in Later(s) ==> multiset(s.client.history)[i] == 2)
  {
    var s := After(steps);
    LoadedFacts(steps);
    var later, rows := Later(s), ReplyRows(s);
    PushedDistinct(Conn(s).down, |s.conns| - 1, s.tasks, s.client.loaded.value.from, Conn(s).read);
    assert Distinct(rows);
    CountShown(later, rows, i);
    TakeCount(Reverse(later) + rows, MAX_LOGIN_HISTORY, i);
    PushedHas(Conn(s).down, s.client.loaded.value.from, Conn(s).read, i);
  }

  // -- when the list is the newest rows, newest first --------------------------------------

  function Range(a: nat, b: nat): (r: seq<nat>)
    requires a <= b
    ensures |r| == b - a
    decreases b - a
  {
    if a == b then [] else Range(a, b - 1) + [b - 1]
  }

  /** The newest 500 of the first `n` rows, newest first. */
  function Newest(n: nat): seq<nat> { Take(Reverse(Range(0, n)), MAX_LOGIN_HISTORY) }

  predicate Ascending(s: seq<nat>) { forall i, j :: 0 <= i < j < |s| ==> s[i] < s[j] }

  predicate StrictlyIncreasing(s: seq<int>) { forall i, j :: 0 <= i < j < |s| ==> s[i] < s[j] }

  lemma {:induction false} RangeAt(a: nat, b: nat, k: nat)
    requires a <= b && k < b - a
    ensures Range(a, b)[k] == a + k
    decreases b - a
  {
    if k < b - 1 - a {
      RangeAt(a, b - 1, k);
    }
  }

  lemma NewestAt(n: nat, k: nat)
    requires k < |Newest(n)|
    ensures k < n && Newest(n)[k] == n - 1 - k
  {
    ReverseAt(Range(0, n), k);
    RangeAt(0, n, n - 1 - k);
  }

  lemma LaterIsGreater(table: seq<int>, a: nat, b: nat)
    requires StrictlyIncreasing(table) && a < |table| && b < |table| && a != b && table[a] <= table[b]
    ensures a < b
  {
  }

  /** With strictly increasing times, the query can return one thing only. */
  lemma {:induction false} RecentAt(table: seq<int>, rows: seq<nat>, k: nat)
    requires StrictlyIncreasing(table) && IsRecent(table, rows, MAX_LOGIN_HISTORY) && k < |rows|
    ensures rows[k] == |table| - 1 - k
  {
    var want := |table| - 1 - k;
    if k > 0 {
      RecentAt(table, rows, k - 1);
      LaterIsGreater(table, rows[k], rows[k - 1]);
    }
    if want in rows {
      var m :| 0 <= m < |rows| && rows[m] == want;
      if m < k {
        RecentAt(table, rows, m);
      }
    } else {
      assert table[want] <= table[rows[k]];
    }
  }

  lemma RecentIsNewest(table: seq<int>, rows: seq<nat>)
    requires StrictlyIncreasing(table) && IsRecent(table, rows, MAX_LOGIN_HISTORY)
    ensures rows == Newest(|table|)
  {
    forall k | 0 <= k < |rows| ensures rows[k] == Newest(|table|)[k] {
      RecentAt(table, rows, k);
      NewestAt(|table|, k);
    }
  }

  lemma NoMembers(s: seq<nat>)
    ensures s == [] || exists x :: x in s
  {
    if s != [] {
      assert s[0] in s;
    }
  }

  /** An increasing list of exactly the numbers from `a` up to `b`. */
  lemma {:induction false} IncreasingRange(s: seq<nat>, a: nat, b: nat)
    requires a <= b && Ascending(s)
    requires forall x: nat :: x in s <==> a <= x < b
    ensures s == Range(a, b)
    decreases b - a
  {
    if a == b {
      NoMembers(s);
    } else {
      assert b - 1 in s;
      var k :| 0 <= k < |s| && s[k] == b - 1;
      assert s[|s| - 1] in s;
      var init := s[..|s| - 1];
      assert s == init + [b - 1];
      forall x: nat ensures x in init <==> a <= x < b - 1 {
        assert x in s <==> x in init || x == b - 1;
      }
      IncreasingRange(init, a, b - 1);
    }
  }

  /** Since the reply, rows were pushed in order, and only rows inserted after it was built. */
  predicate PushedInOrder(s: State)
    requires HasLoaded(s)
  {
    && (forall k :: s.client.loaded.value.reply < k < |Conn(s).down| && Conn(s).down[k].Push?
          ==> Conn(s).down[k].row >= UpTo(s))
    && (forall k, l :: s.client.loaded.value.reply < k < l < |Conn(s).down|
                       && Conn(s).down[k].Push? && Conn(s).down[l].Push?
          ==> Conn(s).down[k].row < Conn(s).down[l].row)
  }

  lemma {:induction false} PushedIncreasing(down: seq<Message>, start: nat, end: nat)
    requires start <= end <= |down|
    requires forall k, l :: start <= k < l < |down| && down[k].Push? && down[l].Push? ==> down[k].row < down[l].row
    ensures Ascending(Pushed(down, start, end))
    decreases end - start
  {
    if start < end {
      PushedIncreasing(down, start, end - 1);
      if down[end - 1].Push? {
        var init := Pushed(down, start, end - 1);
        forall i | 0 <= i < |init| ensures init[i] < down[end - 1].row {
          PushedHas(down, start, end - 1, init[i]);
        }
      }
    }
  }

  lemma PushesIncrease(s: State)
    requires HasLoaded(s) && PushedInOrder(s)
    ensures Ascending(Window(s)) && Ascending(Later(s))
  {
    var down, load := Conn(s).down, s.client.loaded.value;
    PushedIncreasing(down, load.reply + 1, load.from);
    PushedIncreasing(down, load.from, Conn(s).read);
  }

  /** Every number is followed by smaller ones only, and all are below `n`. */
  predicate Descending(s: seq<nat>, n: nat) {
    (forall i, j :: 0 <= i < j < |s| ==> s[i] > s[j]) && forall i :: 0 <= i < |s| ==> s[i] < n
  }

  lemma {:induction false} DescendingAt(s: seq<nat>, n: nat, k: nat)
    requires Descending(s, n) && k < |s|
    ensures s[k] + k < n
  {
    if k > 0 {
      DescendingAt(s, n, k - 1);
    }
  }

  /** A descending list that has the newest numbers below `n` begins with them. */
  lemma {:induction false} BeginsWithNewest(s: seq<nat>, n: nat, k: nat)
    requires Descending(s, n) && k < n && k < MAX_LOGIN_HISTORY
    requires forall i: nat :: n - MAX_LOGIN_HISTORY <= i < n ==> i in s
    ensures k < |s| && s[k] == n - 1 - k
  {
    assert n - 1 - k in s;
    var m :| 0 <= m < |s| && s[m] == n - 1 - k;
    DescendingAt(s, n, m);
    if k > 0 {
      BeginsWithNewest(s, n, k - 1);
      assert m >= k;
    }
  }

  lemma NewestSize(n: nat)
    ensures |Newest(n)| == if n < MAX_LOGIN_HISTORY then n else MAX_LOGIN_HISTORY
  {
  }

  lemma IsNewest(s: seq<nat>, n: nat)
    requires Descending(s, n) && |s| <= MAX_LOGIN_HISTORY
    requires forall i: nat :: n - MAX_LOGIN_HISTORY <= i < n ==> i in s
    ensures s == Newest(n)
  {
    NewestSize(n);
    if |s| > |Newest(n)| {
      DescendingAt(s, n, n);
    }
    if n > 0 {
      BeginsWithNewest(s, n, |Newest(n)| - 1);
    }
    forall k | 0 <= k < |s| ensures s[k] == Newest(n)[k] {
      BeginsWithNewest(s, n, k);
      NewestAt(n, k);
    }
  }

  lemma InNewest(n: nat, i: nat)
    ensures i in Newest(n) <==> n - MAX_LOGIN_HISTORY <= i < n
  {
    NewestSize(n);
    if n - MAX_LOGIN_HISTORY <= i < n {
      NewestAt(n, n - 1 - i);
    }
    if i in Newest(n) {
      var k :| 0 <= k < |Newest(n)| && Newest(n)[k] == i;
      NewestAt(n, k);
    }
  }

  lemma NewestDescends(n: nat)
    ensures Descending(Newest(n), n)
  {
    forall k | 0 <= k < |Newest(n)| ensures Newest(n)[k] == n - 1 - k {
      NewestAt(n, k);
    }
  }

  lemma ReverseDescends(later: seq<nat>, n: nat)
    requires Ascending(later) && forall i :: 0 <= i < |later| ==> later[i] < n
    ensures Descending(Reverse(later), n)
  {
    forall k | 0 <= k < |later| ensures Reverse(later)[k] == later[|later| - 1 - k] {
      ReverseAt(later, k);
    }
  }

  lemma DescendingJoin(a: seq<nat>, b: seq<nat>, u: nat, n: nat)
    requires u <= n && Descending(a, n) && Descending(b, u) && forall i :: 0 <= i < |a| ==> u <= a[i]
    ensures Descending(a + b, n)
  {
    forall i, j | 0 <= i < j < |a + b| ensures (a + b)[i] > (a + b)[j] {
      assert j >= |a| ==> (a + b)[j] == b[j - |a|];
      assert i >= |a| ==> (a + b)[i] == b[i - |a|];
    }
  }

  lemma LaterOverNewest(later: seq<nat>, u: nat, n: nat)
    requires u <= n && Ascending(later) && forall i :: 0 <= i < |later| ==> u <= later[i] < n
    ensures Descending(Reverse(later) + Newest(u), n)
  {
    ReverseDescends(later, n);
    NewestDescends(u);
    forall k | 0 <= k < |later| ensures u <= Reverse(later)[k] {
      ReverseAt(later, k);
    }
    DescendingJoin(Reverse(later), Newest(u), u, n);
  }

  /** Everything is delivered, the times strictly increase, and rows were pushed in their order. */
  ghost predicate InOrder(s: State) {
    AllDelivered(s) && StrictlyIncreasing(s.table) && PushedInOrder(s)
  }

  lemma ListDescends(steps: seq<Step>)
    requires InOrder(After(steps))
    ensures var s := After(steps);
      && ReplyRows(s) == Newest(UpTo(s)) && UpTo(s) <= |s.table| == |s.tasks|
      && Descending(Uncut(s), |s.table|)
      && (forall i :: i in Later(s) ==> i >= UpTo(s))
  {
    var s := After(steps);
    LoadedFacts(steps);
    RecentIsNewest(s.table[..UpTo(s)], ReplyRows(s));
    PushesIncrease(s);
    forall i | i in Later(s) ensures UpTo(s) <= i < |s.table| {
      PushedHas(Conn(s).down, s.client.loaded.value.from, Conn(s).read, i);
    }
    forall k | 0 <= k < |Later(s)| ensures UpTo(s) <= Later(s)[k] < |s.table| {
      assert Later(s)[k] in Later(s);
    }
    LaterOverNewest(Later(s), UpTo(s), |s.table|);
  }

  /** In a descending list none of the newest rows is pushed out. */
  lemma NewestStays(s: State, n: nat, i: nat)
    requires HasLoaded(s) && Descending(Uncut(s), n) && n - MAX_LOGIN_HISTORY <= i < n
    ensures !PushedOut(s, i)
  {
    if i in Uncut(s) {
      var k :| 0 <= k < |Uncut(s)| && Uncut(s)[k] == i;
      DescendingAt(Uncut(s), n, k);
    }
  }

  /** However large the table, one of its newest 500 rows is missing exactly if it was not delivered. */
  lemma NewestMissing(steps: seq<Step>, i: nat)
    requires InOrder(After(steps))
    requires |After(steps).table| - MAX_LOGIN_HISTORY <= i < |After(steps).table|
    ensures var s := After(steps);
      && |s.tasks| == |s.table|
      && (i !in s.client.history <==> i in Window(s) || (UpTo(s) <= i && s.tasks[i].Dropped?))
  {
    var s := After(steps);
    ListDescends(steps);
    MissingExactly(steps, i);
    NewestStays(s, |s.table|, i);
    InNewest(UpTo(s), i);
    WindowIsNew(s, i);
  }

  lemma WindowIsNew(s: State, i: nat)
    requires HasLoaded(s) && PushedInOrder(s)
    ensures i in Window(s) ==> i >= UpTo(s)
  {
    var load := s.client.loaded.value;
    PushedHas(Conn(s).down, load.reply + 1, load.from, i);
  }

  /** The list is exactly the newest 500 rows, newest first, if and only if each of them was delivered. */
  lemma ListIsNewest(steps: seq<Step>)
    requires InOrder(After(steps))
    ensures var s := After(steps);
      && |s.tasks| == |s.table|
      && (s.client.history == Newest(|s.table|) <==>
            forall i: nat :: |s.table| - MAX_LOGIN_HISTORY <= i < |s.table|
              ==> i !in Window(s) && !(UpTo(s) <= i && s.tasks[i].Dropped?))
  {
    var s := After(steps);
    var n := |s.table|;
    ListDescends(steps);
    forall i: nat | n - MAX_LOGIN_HISTORY <= i < n
      ensures i !in s.client.history <==> i in Window(s) || (UpTo(s) <= i && s.tasks[i].Dropped?)
    {
      NewestMissing(steps, i);
    }
    TakeDescends(Uncut(s), n);
    if forall i: nat :: n - MAX_LOGIN_HISTORY <= i < n ==> i in s.client.history {
      IsNewest(s.client.history, n);
    } else {
      var i: nat :| n - MAX_LOGIN_HISTORY <= i < n && i !in s.client.history;
      InNewest(n, i);
    }
  }

  lemma TakeDescends(list: seq<nat>, n: nat)
    requires Descending(list, n)
    ensures Descending(Take(list, MAX_LOGIN_HISTORY), n)
  {
  }

  /** Rows read in the window come before all that were read since. */
  lemma WindowBeforeLater(s: State, w: nat, l: nat)
    requires HasLoaded(s) && PushedInOrder(s) && w in Window(s) && l in Later(s)
    ensures w < l
  {
    var load := s.client.loaded.value;
    PushedHas(Conn(s).down, load.reply + 1, load.from, w);
    PushedHas(Conn(s).down, load.from, Conn(s).read, l);
  }

  lemma BehindWindow(s: State, w: nat, i: nat)
    requires InOrder(s) && FeedOk(Conn(s), |s.conns| - 1, s.table, s.tasks) && |s.tasks| == |s.table|
    requires w in Window(s) && UpTo(s) <= w && forall x :: x in Window(s) ==> x <= w
    requires forall j :: UpTo(s) <= j < |s.tasks| ==> !s.tasks[j].Dropped?
    ensures i in Later(s) <==> w + 1 <= i < |s.table|
  {
    if i in Later(s) {
      PushedBelow(Conn(s).down, |s.conns| - 1, s.tasks, s.client.loaded.value.from, Conn(s).read, i);
      WindowBeforeLater(s, w, i);
    } else if w + 1 <= i < |s.table| {
      NewRowPushed(s, i);
    }
  }

  /** The rows after the last one of the window are those pushed later. */
  lemma LaterIsRest(s: State, w: nat)
    requires InOrder(s) && FeedOk(Conn(s), |s.conns| - 1, s.table, s.tasks) && |s.tasks| == |s.table|
    requires w in Window(s) && UpTo(s) <= w < |s.table| && forall x :: x in Window(s) ==> x <= w
    requires forall i :: UpTo(s) <= i < |s.tasks| ==> !s.tasks[i].Dropped?
    ensures |Later(s)| == |s.table| - 1 - w
  {
    PushesIncrease(s);
    forall i: nat ensures i in Later(s) <==> w + 1 <= i < |s.table| {
      BehindWindow(s, w, i);
    }
    IncreasingRange(Later(s), w + 1, |s.table|);
  }

  lemma LastOfWindow(s: State) returns (w: nat)
    requires HasLoaded(s) && PushedInOrder(s) && Window(s) != []
    ensures w in Window(s) && forall x :: x in Window(s) ==> x <= w
  {
    PushesIncrease(s);
    var rows := Window(s);
    w := rows[|rows| - 1];
    forall x | x in rows ensures x <= w {
      var k :| 0 <= k < |rows| && rows[k] == x;
    }
  }

  /**
   * While every row since the reply was scheduled: the list is the newest 500 rows if and only
   * if nothing was read in the window, or 500 pushes have come since and hidden the loss.
   */
  lemma NewestUnlessRaced(steps: seq<Step>)
    requires InOrder(After(steps))
    requires forall i :: UpTo(After(steps)) <= i < |After(steps).tasks| ==> !After(steps).tasks[i].Dropped?
    ensures var s := After(steps);
      s.client.history == Newest(|s.table|) <==> Window(s) == [] || |Later(s)| >= MAX_LOGIN_HISTORY
  {
    var s := After(steps);
    ListIsNewest(steps);
    if Window(s) != [] {
      var w := LastOfWindow(s);
      LoadedFacts(steps);
      WindowIsNew(s, w);
      PushedBelow(Conn(s).down, |s.conns| - 1, s.tasks, s.client.loaded.value.reply + 1, s.client.loaded.value.from, w);
      LaterIsRest(s, w);
      assert |Later(s)| < MAX_LOGIN_HISTORY ==> |s.table| - MAX_LOGIN_HISTORY <= w;
    }
  }
}
