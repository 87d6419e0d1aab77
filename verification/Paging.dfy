/** The admin run list: pages of an append-only log, anchored to a snapshot. */
module Paging {
  import opened Prelude

  /** A run row; ids are assigned in increasing order. */
  datatype Row = Row(id: int, task: Option<string>, model: string, email: string, prompt: string, success: bool,
                     isTest: bool)

  /** Zero-value fields are ignored. */
  datatype Filter = Filter(task: string, model: string, email: string, query: string,
                           success: Option<bool>, isTest: Option<bool>, maxID: int, hasTask: Option<bool>)

  /** A substring match, as the database does it. */
  type Like = (string, string) -> bool

  /** The WHERE clause. */
  predicate Where(like: Like, f: Filter, r: Row) {
    && (f.task != "" ==> r.task == Some(f.task))
    && (f.model != "" ==> r.model == f.model)
    && (f.email != "" ==> like(r.email, f.email))
    && (f.query != "" ==> like(r.prompt, f.query))
    && (f.success.Some? ==> r.success == f.success.value)
    && (f.isTest.Some? ==> r.isTest == f.isTest.value)
    && (f.maxID > 0 ==> r.id <= f.maxID)
    && (f.hasTask == Some(true) ==> r.task.Some? && r.task.value != "playground")
  }

  /** No filter at all. */
  const ANY := Filter("", "", "", "", None, None, 0, None)

  /** A filter without settings lists every run, and each setting on its own
      narrows the list to the rows it names. */
  lemma FiltersNarrow(like: Like, f: Filter, r: Row)
    ensures Where(like, ANY, r)
    ensures Where(like, f, r) <==> Where(like, f.(task := ""), r) && (f.task == "" || r.task == Some(f.task))
    ensures Where(like, f, r) <==> Where(like, f.(model := ""), r) && (f.model == "" || r.model == f.model)
    ensures Where(like, f, r) <==> Where(like, f.(email := ""), r) && (f.email == "" || like(r.email, f.email))
    ensures Where(like, f, r) <==> Where(like, f.(query := ""), r) && (f.query == "" || like(r.prompt, f.query))
    ensures Where(like, f, r) <==>
              Where(like, f.(success := None), r) && (f.success.None? || f.success == Some(r.success))
    ensures Where(like, f, r) <==> Where(like, f.(isTest := None), r) && (f.isTest.None? || f.isTest == Some(r.isTest))
    ensures Where(like, f, r) <==> Where(like, f.(maxID := 0), r) && (f.maxID <= 0 || r.id <= f.maxID)
    ensures Where(like, f, r) <==>
              && Where(like, f.(hasTask := None), r)
              && (f.hasTask != Some(true) || (r.task.Some? && r.task != Some("playground")))
  {
  }

  type Log = seq<Row>

  ghost predicate Increasing(log: Log) {
    (forall i, j :: 0 <= i < j < |log| ==> log[i].id < log[j].id) && forall i :: 0 <= i < |log| ==> log[i].id >= 1
  }

  /** The matching rows, newest first. */
  function Matching(like: Like, f: Filter, log: Log): seq<Row> {
    if log == [] then []
    else (if Where(like, f, Last(log)) then [Last(log)] else []) + Matching(like, f, Front(log))
  }

  /** MAX(id), zero when there are no rows. */
  function MaxId(log: Log): int {
    if log == [] then 0 else Max(Last(log).id, MaxId(Front(log)))
  }

  datatype Page = Page(items: seq<Row>, total: nat, anchor: int)

  function Anchored(f: Filter, log: Log): Filter {
    if f.maxID <= 0 then f.(maxID := MaxId(log)) else f
  }

  function Slice<T>(s: seq<T>, from: nat, count: nat): seq<T> {
    if from >= |s| then [] else if from + count >= |s| then s[from..] else s[from..from + count]
  }

  function PageSpec(like: Like, f: Filter, log: Log, page: nat, size: nat): Page
    requires page >= 1
  {
    var g := Anchored(f, log);
    Page(Slice(Matching(like, g, log), (page - 1) * size, size), |Matching(like, g, log)|, g.maxID)
  }

  /** ListAllRuns runs up to three statements: the anchor, the count, the page.
      Rows may be inserted between them (`log`, then `counted`, then `listed`);
      under an anchor that the log has reached, the answer is that of one
      instant, the first. */
  method ListAllRuns(like: Like, f: Filter, log: Log, counted: Log, listed: Log, page: nat, size: nat) returns (r: Page)
    requires page >= 1 && log <= counted <= listed && Increasing(listed)
    ensures r.anchor == (if f.maxID > 0 then f.maxID else MaxId(log))
    ensures r.anchor > 0 && (f.maxID > 0 ==> Extends(log, listed, f.maxID)) ==> r == PageSpec(like, f, log, page, size)
    ensures r.total == |Matching(like, f.(maxID := r.anchor), counted)|
    ensures r.items == Slice(Matching(like, f.(maxID := r.anchor), listed), (page - 1) * size, size)
  {
    var g := f;
    if f.maxID <= 0 {
      assert forall i, j :: 0 <= i < j < |log| ==> log[i] == listed[i] && log[j] == listed[j];
      assert forall i :: 0 <= i < |log| ==> log[i] == listed[i];
      MaxIdIsLast(log);
      g := f.(maxID := MaxId(log));
    }
    if g.maxID > 0 && Extends(log, listed, g.maxID) {
      assert Extends(log, counted, g.maxID);
      ExtensionIsInvisible(like, g, log, counted);
      ExtensionIsInvisible(like, g, log, listed);
    }
    var total := |Matching(like, g, counted)|;
    var rows := Slice(Matching(like, g, listed), (page - 1) * size, size);
    var items := [];
    for i := 0 to |rows|
      invariant items == rows[..i]
    {
      items := items + [rows[i]];
    }
    r := Page(items, total, g.maxID);
  }

  function TotalPages(total: nat, size: int): (n: nat)
    ensures size > 0 ==> (n - 1) * size < total <= n * size || (n == 0 && total == 0)
    ensures size <= 0 ==> n == 0
  {
    if size <= 0 then 0 else (total + size - 1) / size
  }

  // ---- snapshots ---------------------------------------------------------------------

  /** `later` is `log` after more rows, all newer than the anchor. */
  ghost predicate Extends(log: Log, later: Log, anchor: int) {
    log <= later && forall i :: |log| <= i < |later| ==> later[i].id > anchor
  }

  lemma {:induction false} ExtensionIsInvisible(like: Like, f: Filter, log: Log, later: Log)
    requires f.maxID > 0 && Extends(log, later, f.maxID)
    ensures Matching(like, f, later) == Matching(like, f, log)
    decreases |later|
  {
    if |later| == |log| {
      assert later == log;
    } else {
      assert log <= Front(later);
      ExtensionIsInvisible(like, f, log, Front(later));
    }
  }

  /** The pages fetched one after another, each from the log as it then was. */
  function Fetched(like: Like, f: Filter, logs: seq<Log>, size: nat): seq<Row> {
    if logs == [] then [] else Fetched(like, f, Front(logs), size) + PageSpec(like, f, Last(logs), |logs|, size).items
  }

  /** For a fixed anchor, pages 1 to TotalPages are exactly the matching rows of
      the snapshot, newest first, with no gap and no repeat, whatever is
      inserted between the requests; and every page reports the same total. */
  lemma PagesPartitionTheSnapshot(like: Like, f: Filter, log: Log, logs: seq<Log>, size: nat)
    requires f.maxID > 0 && size > 0
    requires forall p :: 0 <= p < |logs| ==> Extends(log, logs[p], f.maxID)
    requires |logs| == TotalPages(|Matching(like, f, log)|, size)
    ensures Fetched(like, f, logs, size) == Matching(like, f, log)
    ensures forall p :: 0 <= p < |logs| ==>
              var r := PageSpec(like, f, logs[p], p + 1, size);
              r.total == |Matching(like, f, log)| && r.anchor == f.maxID
  {
    FetchedIsPrefix(like, f, log, logs, size);
    forall p | 0 <= p < |logs|
      ensures var r := PageSpec(like, f, logs[p], p + 1, size);
              r.total == |Matching(like, f, log)| && r.anchor == f.maxID
    {
      ExtensionIsInvisible(like, f, log, logs[p]);
    }
  }

  lemma {:induction false} FetchedIsPrefix(like: Like, f: Filter, log: Log, logs: seq<Log>, size: nat)
    requires f.maxID > 0 && size > 0
    requires forall p :: 0 <= p < |logs| ==> Extends(log, logs[p], f.maxID)
    ensures Fetched(like, f, logs, size) == Slice(Matching(like, f, log), 0, |logs| * size)
    decreases |logs|
  {
    var all := Matching(like, f, log);
    if logs != [] {
      var n := |logs| - 1;
      FetchedIsPrefix(like, f, log, Front(logs), size);
      ExtensionIsInvisible(like, f, log, Last(logs));
      OnePageMore(n, size);
      assert PageSpec(like, f, Last(logs), |logs|, size).items == Slice(all, n * size, size);
      hide Matching, Slice, PageSpec;
      SlicesJoin(all, n * size, size);
    }
  }

  lemma OnePageMore(n: nat, size: nat)
    ensures (n + 1) * size == n * size + size
  {
  }

  lemma SlicesJoin<T>(s: seq<T>, n: nat, m: nat)
    ensures Slice(s, 0, n) + Slice(s, n, m) == Slice(s, 0, n + m)
  {
  }

  /** What the pages are made of: every matching row of the snapshot once, newest first. */
  lemma {:induction false} MatchingIsNewestFirst(like: Like, f: Filter, log: Log)
    requires Increasing(log)
    ensures forall r :: r in Matching(like, f, log) <==> r in log && Where(like, f, r)
    ensures forall i, j :: 0 <= i < j < |Matching(like, f, log)| ==>
              Matching(like, f, log)[i].id > Matching(like, f, log)[j].id
  {
    if log != [] {
      MatchingIsNewestFirst(like, f, Front(log));
      assert log == Front(log) + [Last(log)];
      forall r | r in Matching(like, f, Front(log)) ensures r.id < Last(log).id {
        var i :| 0 <= i < |Front(log)| && Front(log)[i] == r;
        assert log[i] == r;
      }
    }
  }

  /** A first request without an anchor returns one that pins every later page,
      exactly when there is a row to pin it to: rows inserted afterwards have
      higher ids, but an anchor of zero is no anchor. */
  lemma FirstPageAnchors(like: Like, f: Filter, log: Log, page: nat, size: nat)
    requires f.maxID <= 0 && Increasing(log) && page >= 1
    ensures var anchor := PageSpec(like, f, log, page, size).anchor;
            && (anchor > 0 <==> log != [])
            && (anchor > 0 ==> forall later :: log <= later && Increasing(later) ==> Extends(log, later, anchor))
            && (anchor == 0 ==> forall later ::
                PageSpec(like, f.(maxID := anchor), later, page, size).anchor == MaxId(later))
  {
    MaxIdIsLast(log);
  }

  lemma {:induction false} MaxIdIsLast(log: Log)
    requires Increasing(log)
    ensures log != [] ==> MaxId(log) == Last(log).id >= 1
  {
    if |log| > 1 { MaxIdIsLast(Front(log)); }
  }
}
