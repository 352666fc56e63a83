/** The processes that use most CPU, and the cache of process handles that measuring them needs. */
module TopProcesses {
  import opened Common

  datatype Item = Item(pid: int, name: string, cpu: real, mem: real)

  /**
   * One process of `psutil.process_iter()`. `handle` tells its object apart from others;
   * `primed` is whether a first reading of it does not raise, and `reading` what the cached
   * handle of its pid yields, unless that raises.
   */
  datatype Listed = Listed(pid: int, handle: nat, primed: bool, reading: Option<Item>)

  /** Every pid is listed once, and a reading is of its own process. */
  predicate IsListing(listed: seq<Listed>) {
    && (forall i, j :: 0 <= i < j < |listed| ==> listed[i].pid != listed[j].pid)
    && (forall i :: 0 <= i < |listed| && listed[i].reading.Some? ==> listed[i].reading.value.pid == listed[i].pid)
  }

  // -- sorting -------------------------------------------------------------------------------

  /** Inserts after everything that uses as much CPU or more. */
  function Insert(items: seq<Item>, x: Item): seq<Item> {
    if items == [] || items[|items| - 1].cpu >= x.cpu then items + [x]
    else Insert(items[..|items| - 1], x) + [items[|items| - 1]]
  }

  /** `results.sort(key=cpu, reverse=True)`, which keeps the order of equal items. */
  function Sorted(items: seq<Item>): seq<Item> {
    if items == [] then [] else Insert(Sorted(items[..|items| - 1]), items[|items| - 1])
  }

  predicate Descending(items: seq<Item>) { forall i, j :: 0 <= i < j < |items| ==> items[i].cpu >= items[j].cpu }

  /** The items with one CPU value, in order. */
  function AtCpu(items: seq<Item>, cpu: real): seq<Item> {
    if items == [] then []
    else if items[|items| - 1].cpu == cpu then AtCpu(items[..|items| - 1], cpu) + [items[|items| - 1]]
    else AtCpu(items[..|items| - 1], cpu)
  }

  lemma InsertSame(items: seq<Item>, x: Item)
    ensures multiset(Insert(items, x)) == multiset(items) + multiset{x}
  {
    if items != [] && items[|items| - 1].cpu < x.cpu {
      InsertSame(items[..|items| - 1], x);
      assert items == items[..|items| - 1] + [items[|items| - 1]];
    }
  }

  lemma {:induction false} InsertDescending(items: seq<Item>, x: Item)
    requires Descending(items)
    ensures Descending(Insert(items, x))
  {
    if items != [] && items[|items| - 1].cpu < x.cpu {
      var init, last := items[..|items| - 1], items[|items| - 1];
      InsertDescending(init, x);
      InsertSame(init, x);
      forall k | 0 <= k < |Insert(init, x)| ensures Insert(init, x)[k].cpu >= last.cpu {
        assert Insert(init, x)[k] in multiset(init) + multiset{x};
        assert Insert(init, x)[k] in init || Insert(init, x)[k] == x;
      }
    }
  }

  lemma {:induction false} InsertStable(items: seq<Item>, x: Item, cpu: real)
    requires Descending(items)
    ensures AtCpu(Insert(items, x), cpu) == if x.cpu == cpu then AtCpu(items, cpu) + [x] else AtCpu(items, cpu)
  {
    if items != [] && items[|items| - 1].cpu < x.cpu {
      var init, last := items[..|items| - 1], items[|items| - 1];
      InsertStable(init, x, cpu);
      assert (Insert(init, x) + [last])[..|Insert(init, x)|] == Insert(init, x);
    } else {
      assert (items + [x])[..|items|] == items;
    }
  }

  /** The sorted list is a permutation, descends, and keeps equal items in their order. */
  lemma {:induction false} SortedCorrect(items: seq<Item>, cpu: real)
    ensures multiset(Sorted(items)) == multiset(items) && |Sorted(items)| == |items|
    ensures Descending(Sorted(items))
    ensures AtCpu(Sorted(items), cpu) == AtCpu(items, cpu)
  {
    if items != [] {
      var init, last := items[..|items| - 1], items[|items| - 1];
      SortedCorrect(init, cpu);
      InsertSame(Sorted(init), last);
      InsertDescending(Sorted(init), last);
      InsertStable(Sorted(init), last, cpu);
      assert items == init + [last];
      assert |Sorted(items)| == |multiset(Sorted(items))|;
    }
  }

  // -- one call ------------------------------------------------------------------------------

  /** What the loop measures: the listed processes with a cached handle that can be read. */
  function Measured(cache: map<int, nat>, listed: seq<Listed>): seq<Item> {
    if listed == [] then []
    else
      var before, p := Measured(cache, listed[..|listed| - 1]), listed[|listed| - 1];
      if p.pid in cache && p.reading.Some? then before + [p.reading.value] else before
  }

  /** Whether a listed process is cached after the call. */
  predicate StaysCached(cache: map<int, nat>, p: Listed) { if p.pid in cache then p.reading.Some? else p.primed }

  class MetricsCollector {
    var processCache: map<int, nat>

    /** `__init__` with `_prime_processes`. */
    constructor (listed: seq<Listed>)
      requires IsListing(listed)
      ensures forall pid :: pid in processCache <==>
        exists i :: 0 <= i < |listed| && listed[i].pid == pid && listed[i].primed
      ensures forall i :: 0 <= i < |listed| && listed[i].primed ==> processCache[listed[i].pid] == listed[i].handle
    {
      processCache := map[];
      new;
      for i := 0 to |listed|
        invariant forall pid :: pid in processCache <==>
          exists j :: 0 <= j < i && listed[j].pid == pid && listed[j].primed
        invariant forall j :: 0 <= j < i && listed[j].primed ==> processCache[listed[j].pid] == listed[j].handle
      {
        if listed[i].primed {
          processCache := processCache[listed[i].pid := listed[i].handle];
        }
      }
    }

    /** `_top_processes`. */
    method Top(listed: seq<Listed>, limit: nat) returns (result: seq<Item>)
      requires IsListing(listed)
      modifies this
      ensures result == Take(Sorted(Measured(old(processCache), listed)), limit)
      ensures forall pid :: pid in processCache <==>
        exists i :: 0 <= i < |listed| && listed[i].pid == pid && StaysCached(old(processCache), listed[i])
      ensures forall i :: 0 <= i < |listed| && listed[i].pid in processCache ==>
        processCache[listed[i].pid] ==
          if listed[i].pid in old(processCache) then old(processCache)[listed[i].pid] else listed[i].handle
    {
      var current: set<int> := {};
      var measured: seq<Item> := [];
      for i := 0 to |listed|
        invariant forall pid :: pid in current <==> exists j :: 0 <= j < i && listed[j].pid == pid
        invariant measured == Measured(old(processCache), listed[..i])
        invariant forall pid :: pid !in current ==>
          (pid in processCache <==> pid in old(processCache))
          && (pid in processCache ==> processCache[pid] == old(processCache)[pid])
        invariant forall j :: 0 <= j < i ==>
          (listed[j].pid in processCache <==> StaysCached(old(processCache), listed[j]))
          && (listed[j].pid in processCache ==>
                processCache[listed[j].pid] ==
                  if listed[j].pid in old(processCache) then old(processCache)[listed[j].pid] else listed[j].handle)
      {
        assert listed[..i + 1][..i] == listed[..i];
        var p := listed[i];
        assert p.pid !in current;
        current := current + {p.pid};
        if p.pid !in processCache {
          if p.primed {
            processCache := processCache[p.pid := p.handle];
          }
        } else if p.reading.Some? {
          measured := measured + [p.reading.value];
        } else {
          processCache := processCache - {p.pid};
        }
      }
      assert listed[..|listed|] == listed;
      processCache := KeepOnly(processCache, current);
      result := Take(Sorted(measured), limit);
    }
  }

  // -- what the result is ---------------------------------------------------------------------

  predicate IsReading(listed: seq<Listed>, x: Item) {
    exists i :: 0 <= i < |listed| && listed[i].reading == Some(x)
  }

  lemma {:induction false} MeasuredItems(cache: map<int, nat>, listed: seq<Listed>)
    requires IsListing(listed)
    ensures forall x :: x in Measured(cache, listed) ==> x.pid in cache && IsReading(listed, x)
  {
    if listed != [] {
      var n := |listed| - 1;
      MeasuredItems(cache, listed[..n]);
      assert listed == listed[..n] + [listed[n]];
      assert forall i :: 0 <= i < n ==> listed[..n][i] == listed[i];
    }
  }

  predicate DistinctPids(items: seq<Item>) { forall i, j :: 0 <= i < j < |items| ==> items[i].pid != items[j].pid }

  lemma {:induction false} MeasuredDistinct(cache: map<int, nat>, listed: seq<Listed>)
    requires IsListing(listed)
    ensures DistinctPids(Measured(cache, listed))
  {
    if listed != [] {
      var n := |listed| - 1;
      MeasuredDistinct(cache, listed[..n]);
      MeasuredItems(cache, listed[..n]);
      var before := Measured(cache, listed[..n]);
      forall k | 0 <= k < |before| ensures before[k].pid != listed[n].pid {
        assert before[k] in before && IsReading(listed[..n], before[k]);
        var i :| 0 <= i < n && listed[..n][i].reading == Some(before[k]);
        assert listed[i].pid == before[k].pid;
      }
    }
  }

  lemma {:induction false} InsertDistinct(items: seq<Item>, x: Item)
    requires DistinctPids(items) && forall y :: y in items ==> y.pid != x.pid
    ensures DistinctPids(Insert(items, x))
    ensures forall y :: y in Insert(items, x) <==> y in items || y == x
  {
    if items != [] && items[|items| - 1].cpu < x.cpu {
      var init, last := items[..|items| - 1], items[|items| - 1];
      assert items == init + [last];
      InsertDistinct(init, x);
      forall k | 0 <= k < |Insert(init, x)| ensures Insert(init, x)[k].pid != last.pid {
        assert Insert(init, x)[k] in Insert(init, x);
      }
    }
  }

  lemma {:induction false} SortedDistinct(items: seq<Item>)
    requires DistinctPids(items)
    ensures DistinctPids(Sorted(items))
    ensures forall y :: y in Sorted(items) <==> y in items
  {
    if items != [] {
      var init, last := items[..|items| - 1], items[|items| - 1];
      assert items == init + [last];
      SortedDistinct(init);
      forall y | y in Sorted(init) ensures y.pid != last.pid {
        var k :| 0 <= k < |init| && init[k] == y;
        assert items[k] == y;
      }
      InsertDistinct(Sorted(init), last);
    }
  }

  lemma LeftOut(all: seq<Item>, limit: nat, x: Item, y: Item)
    requires Descending(all) && x in all && x !in Take(all, limit) && y in Take(all, limit)
    ensures x.cpu <= y.cpu
  {
    var i: nat :| i < |all| && all[i] == x;
    var j :| 0 <= j < |Take(all, limit)| && Take(all, limit)[j] == y;
    assert all[j] == y;
    TakeHas(all, limit, i);
  }

  lemma TakeHas(all: seq<Item>, limit: nat, i: nat)
    requires i < |all|
    ensures i < |Take(all, limit)| ==> all[i] in Take(all, limit)
  {
    if i < |Take(all, limit)| {
      assert Take(all, limit)[i] == all[i];
    }
  }

  lemma TakeOf(all: seq<Item>, limit: nat)
    requires DistinctPids(all) && Descending(all)
    ensures var result := Take(all, limit);
      && |result| == (if |all| < limit then |all| else limit)
      && DistinctPids(result) && Descending(result)
    ensures forall x :: x in Take(all, limit) ==> x in all
  {
  }

  /**
   * The result has different pids, all cached before the call, in descending order, as many as
   * there are up to the limit, and no measured process left out uses more CPU than one in it.
   */
  lemma TopIsTop(cache: map<int, nat>, listed: seq<Listed>, limit: nat)
    requires IsListing(listed)
    ensures var items := Measured(cache, listed);
      var result := Take(Sorted(items), limit);
      && |result| == (if |items| < limit then |items| else limit)
      && DistinctPids(result) && Descending(result)
      && (forall x :: x in result ==> x in items && x.pid in cache)
      && (forall x, y :: x in items && x !in result && y in result ==> x.cpu <= y.cpu)
  {
    var items := Measured(cache, listed);
    var all, result := Sorted(items), Take(Sorted(items), limit);
    MeasuredItems(cache, listed);
    MeasuredDistinct(cache, listed);
    SortedCorrect(items, 0.0);
    SortedDistinct(items);
    TakeOf(all, limit);
    forall x, y | x in items && x !in result && y in result ensures x.cpu <= y.cpu {
      LeftOut(all, limit, x, y);
    }
  }
}
