/**
 The budget gate's in-memory view of one day's spend.

 A prediction hands its row to the run writer and then calls addSpend; the row
 becomes queryable when the writer gets to it, which may be later, or never
 when the queue was full.  Costs are in whole micro-dollars.
 */
module Spend {
  import opened Prelude

  /** What happens to one task's spend, in the order it happens. */
  datatype Event =
    | Landed(run: nat, cost: nat)   // the run's row became queryable
    | Added(run: nat, cost: nat)    // addSpend, after the run completed
    | Refreshed                     // currentSpend asked the database

  type Log = seq<Event>

  /** What the database would answer now. */
  function LandedSum(log: Log): nat {
    if log == [] then 0
    else LandedSum(Front(log)) + (if Last(log).Landed? then Last(log).cost else 0)
  }

  /** What completed predictions have cost so far: the truth. */
  function Completed(log: Log): nat {
    if log == [] then 0
    else Completed(Front(log)) + (if Last(log).Added? then Last(log).cost else 0)
  }

  /** The cached entry after these events. */
  function View(log: Log): Option<nat> {
    if log == [] then None else Step(View(Front(log)), Front(log), Last(log))
  }

  function Step(entry: Option<nat>, log: Log, e: Event): Option<nat> {
    match e
    case Landed(_, _) => entry
    case Refreshed => Some(LandedSum(log))
    case Added(_, cost) => if entry.Some? then Some(entry.value + cost) else None
  }

  // ---- the view against the truth ----------------------------------------------------

  /** After the last refresh the entry is what the database said then, plus what
      was added since: it differs from the truth by exactly what the two
      disagreed on at the refresh, and no later event changes the difference. */
  lemma {:induction false} ViewIsBasePlusAdded(before: Log, since: Log)
    requires Refreshed !in since
    ensures View(before + [Refreshed] + since) == Some(LandedSum(before) + Completed(since))
    ensures Completed(before + [Refreshed] + since) == Completed(before) + Completed(since)
  {
    var log := before + [Refreshed] + since;
    if since == [] {
      assert log == before + [Refreshed];
      FrontOfAppend(before, Refreshed);
    } else {
      assert Front(log) == before + [Refreshed] + Front(since) && Last(log) == Last(since);
      ViewIsBasePlusAdded(before, Front(since));
    }
  }

  lemma {:induction false} NoEntryUntilARefresh(log: Log)
    ensures View(log).None? <==> Refreshed !in log
  {
    if log != [] {
      NoEntryUntilARefresh(Front(log));
      assert log == Front(log) + [Last(log)];
    }
  }

  /** Splits a log at its last refresh. */
  lemma {:induction false} AtTheLastRefresh(log: Log) returns (before: Log, since: Log)
    requires Refreshed in log
    ensures log == before + [Refreshed] + since && Refreshed !in since
  {
    assert log == Front(log) + [Last(log)];
    if Last(log) == Refreshed {
      before, since := Front(log), [];
    } else {
      before, since := AtTheLastRefresh(Front(log));
      since := since + [Last(log)];
    }
  }

  // ---- which runs the difference is made of -------------------------------------------

  function LandedRuns(log: Log): set<nat> {
    if log == [] then {}
    else LandedRuns(Front(log)) + (if Last(log).Landed? then {Last(log).run} else {})
  }

  function AddedRuns(log: Log): set<nat> {
    if log == [] then {}
    else AddedRuns(Front(log)) + (if Last(log).Added? then {Last(log).run} else {})
  }

  /** Of runs 0 to n-1, each with its own cost, each row lands at most once and
      each run is added at most once. */
  ghost predicate Possible(cost: nat -> nat, n: nat, log: Log) {
    log == [] || (Possible(cost, n, Front(log)) && MayFollow(cost, n, Front(log), Last(log)))
  }

  ghost predicate MayFollow(cost: nat -> nat, n: nat, log: Log, e: Event) {
    match e
    case Refreshed => true
    case Landed(run, c) => run < n && c == cost(run) && run !in LandedRuns(log)
    case Added(run, c) => run < n && c == cost(run) && run !in AddedRuns(log)
  }

  lemma {:induction false} SumsOverRuns(cost: nat -> nat, n: nat, log: Log)
    requires Possible(cost, n, log)
    ensures LandedSum(log) == Sum(cost, LandedRuns(log), n)
    ensures Completed(log) == Sum(cost, AddedRuns(log), n)
  {
    if log == [] {
      NothingToSum(cost, n);
    } else {
      SumsOverRuns(cost, n, Front(log));
      assert LandedRuns(Front(log)) + {} == LandedRuns(Front(log))
              && AddedRuns(Front(log)) + {} == AddedRuns(Front(log));
      if Last(log).Landed? { SumWithOneMore(cost, LandedRuns(Front(log)), Last(log).run, n); }
      if Last(log).Added? { SumWithOneMore(cost, AddedRuns(Front(log)), Last(log).run, n); }
    }
  }

  lemma {:induction false} PrefixIsPossible(cost: nat -> nat, n: nat, log: Log, tail: Log)
    requires Possible(cost, n, log + tail)
    ensures Possible(cost, n, log)
  {
    if tail == [] {
      assert log + tail == log;
    } else {
      assert Front(log + tail) == log + Front(tail);
      PrefixIsPossible(cost, n, log, Front(tail));
    }
  }

  /** The entry's error: it misses the runs that were added before the last
      refresh and had not landed by then, and counts too early or twice the
      runs that had landed by then and were not added yet.  Nothing else. */
  lemma ErrorOfTheView(cost: nat -> nat, n: nat, before: Log, since: Log)
    requires Refreshed !in since && Possible(cost, n, before + [Refreshed] + since)
    ensures var log := before + [Refreshed] + since;
            var missing := AddedRuns(before) - LandedRuns(before);
            var early := LandedRuns(before) - AddedRuns(before);
            View(log).Some? && View(log).value + Sum(cost, missing, n) == Completed(log) + Sum(cost, early, n)
  {
    ViewIsBasePlusAdded(before, since);
    assert before + [Refreshed] + since == before + ([Refreshed] + since);
    PrefixIsPossible(cost, n, before, [Refreshed] + since);
    SumsOverRuns(cost, n, before);
    SumsDifferByDifferences(cost, LandedRuns(before), AddedRuns(before), n);
  }

  // ---- the synchronous writer ---------------------------------------------------------

  /** Without the asynchronous writer a row has landed before its run is added. */
  ghost predicate Synchronous(log: Log) {
    log == [] || (Synchronous(Front(log)) && (Last(log).Added? ==> Last(log).run in LandedRuns(Front(log))))
  }

  lemma {:induction false} AddedHaveLanded(log: Log, tail: Log)
    requires Synchronous(log + tail)
    ensures AddedRuns(log) <= LandedRuns(log)
    decreases |log| + |tail|
  {
    if tail != [] {
      assert Front(log + tail) == log + Front(tail);
      AddedHaveLanded(log, Front(tail));
    } else if log != [] {
      assert log + tail == log;
      assert Front(log) + [] == Front(log);
      AddedHaveLanded(Front(log), []);
    }
  }

  /** With the synchronous writer the view never falls short of the truth, so
      a request the budget gate lets through found less than the budget spent. */
  lemma SynchronousNeverUndercounts(cost: nat -> nat, n: nat, log: Log, budget: nat)
    requires Possible(cost, n, log) && Synchronous(log) && View(log).Some?
    ensures Completed(log) <= View(log).value
    ensures View(log).value < budget ==> Completed(log) < budget
  {
    NoEntryUntilARefresh(log);
    var before, since := AtTheLastRefresh(log);
    ErrorOfTheView(cost, n, before, since);
    assert log == before + ([Refreshed] + since);
    AddedHaveLanded(before, [Refreshed] + since);
    assert AddedRuns(before) - LandedRuns(before) == {};
    NothingToSum(cost, n);
  }

  // ---- the asynchronous writer --------------------------------------------------------

  function Always(c: nat): nat -> nat {
    _ => c
  }

  /** n predictions of the same cost, each checked against the database first,
      none of whose rows has landed: the queue is slow, or was full. */
  function Unlanded(c: nat, n: nat): Log {
    if n == 0 then [] else Unlanded(c, n - 1) + [Refreshed, Added(n - 1, c)]
  }

  /** With the asynchronous writer the local increments do not cover the lag: a
      refresh forgets every run whose row has not landed.  Each of n predictions
      here passes a gate that sees nothing spent, however large n is. */
  lemma {:induction false} AsynchronousUndercounts(c: nat, n: nat)
    ensures Possible(Always(c), n, Unlanded(c, n)) && forall i: nat :: i in AddedRuns(Unlanded(c, n)) <==> i < n
    ensures LandedRuns(Unlanded(c, n)) == {}
    ensures View(Unlanded(c, n) + [Refreshed]) == Some(0)
    ensures Completed(Unlanded(c, n) + [Refreshed]) == n * c
  {
    var log := Unlanded(c, n);
    FrontOfAppend(log, Refreshed);
    if n > 0 {
      var earlier := Unlanded(c, n - 1);
      AsynchronousUndercounts(c, n - 1);
      MoreRunsArePossible(Always(c), n - 1, n, earlier);
      FrontOfAppend(earlier, Refreshed);
      FrontOfAppend(earlier + [Refreshed], Added(n - 1, c));
      var asked := earlier + [Refreshed];
      assert log == asked + [Added(n - 1, c)];
      assert AddedRuns(asked) == AddedRuns(earlier) && LandedRuns(asked) == LandedRuns(earlier);
      assert Possible(Always(c), n, asked);
      assert MayFollow(Always(c), n, asked, Added(n - 1, c));
      NothingLands(c, n);
    } else {
      NothingLands(c, n);
    }
  }

  lemma {:induction false} MoreRunsArePossible(cost: nat -> nat, m: nat, n: nat, log: Log)
    requires Possible(cost, m, log) && m <= n
    ensures Possible(cost, n, log)
  {
    if log != [] { MoreRunsArePossible(cost, m, n, Front(log)); }
  }

  lemma {:induction false} NothingLands(c: nat, n: nat)
    ensures LandedSum(Unlanded(c, n)) == 0
  {
    if n > 0 {
      NothingLands(c, n - 1);
      FrontOfAppend(Unlanded(c, n - 1), Refreshed);
      FrontOfAppend(Unlanded(c, n - 1) + [Refreshed], Added(n - 1, c));
      assert Unlanded(c, n) == Unlanded(c, n - 1) + [Refreshed] + [Added(n - 1, c)];
    }
  }

  // ---- the cache itself ---------------------------------------------------------------

  /** spendCacheTTL in nanoseconds. */
  const TTL := 5 * SECOND

  datatype Entry = Entry(spend: nat, refreshed: int)

  /** spendCache; `logs` remembers, per task, what has happened since it was made. */
  class SpendCache {
    var entries: map<string, Entry>
    ghost var logs: map<string, Log>

    ghost function LogOf(task: string): Log
      reads this
    {
      if task in logs then logs[task] else []
    }

    /** Every entry is the view of its task's log. */
    ghost predicate Valid()
      reads this
    {
      forall task :: View(LogOf(task)) == (if task in entries then Some(entries[task].spend) else None)
    }

    constructor ()
      ensures Valid() && logs == map[]
    {
      entries, logs := map[], map[];
    }

    /** A row became queryable; the cache does not notice. */
    ghost method RowLanded(task: string, run: nat, cost: nat)
      requires Valid()
      modifies this`logs
      ensures Valid() && logs == old(logs)[task := old(LogOf(task)) + [Landed(run, cost)]]
    {
      FrontOfAppend(LogOf(task), Landed(run, cost));
      logs := logs[task := LogOf(task) + [Landed(run, cost)]];
    }

    /** `queried` is what the database answers if it is asked. */
    method CurrentSpend(task: string, now: int, queried: nat) returns (spend: nat)
      requires Valid() && queried == LandedSum(LogOf(task))
      modifies this
      ensures Valid() && View(LogOf(task)) == Some(spend)
      ensures var recent := task in old(entries) && now - old(entries)[task].refreshed < TTL;
              if recent then entries == old(entries) && logs == old(logs)
              else
                && logs == old(logs)[task := old(LogOf(task)) + [Refreshed]]
                && entries == old(entries)[task := Entry(queried, now)]
    {
      if task in entries && now - entries[task].refreshed < TTL {
        return entries[task].spend;
      }
      FrontOfAppend(LogOf(task), Refreshed);
      logs := logs[task := LogOf(task) + [Refreshed]];
      entries := entries[task := Entry(queried, now)];
      spend := queried;
    }

    method AddSpend(task: string, ghost run: nat, cost: nat)
      requires Valid()
      modifies this
      ensures Valid() && logs == old(logs)[task := old(LogOf(task)) + [Added(run, cost)]]
      ensures forall other :: other != task ==> (other in entries <==> other in old(entries))
      ensures forall other :: other in entries && other in old(entries) ==>
              entries[other].refreshed == old(entries)[other].refreshed
    {
      FrontOfAppend(LogOf(task), Added(run, cost));
      logs := logs[task := LogOf(task) + [Added(run, cost)]];
      if cost <= 0 {
        return;
      }
      if task in entries {
        entries := entries[task := entries[task].(spend := entries[task].spend + cost)];
      }
    }
  }
}
