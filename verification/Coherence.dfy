/**
 The task store's config cache under its readers/writer lock, step by step.

 Readers (Get) and writers (every edit) run as threads.  `editMu` is the lock;
 each access to the cache map is one step (its own mutex, never held across
 I/O), each database statement is one step.  Whether a cached row is still
 fresh is left open at every look, so nothing proved here depends on the TTL.
 */
module Coherence {
  import opened Prelude

  type Tid = nat

  /** A task row; what is in it does not matter here. */
  type Row = int

  type Table = map<string, Row>

  function Find(t: Table, id: string): Option<Row> {
    if id in t then Some(t[id]) else None
  }

  /** Where a thread is.  `began` is the position in the history of the table at
      which the call was made. */
  datatype Pc =
    | Idle
    // Get(id): waiting for RLock; about to look in the cache; about to query; about to fill; about to RUnlock
    | GetWaiting(id: string, began: nat)
    | GetLooking(id: string, began: nat)
    | GetQuerying(id: string, began: nat)
    | GetFilling(id: string, began: nat, row: Row)
    | GetLeaving(id: string, began: nat, result: Option<Row>)
    // an edit of id: waiting for Lock; getRaw's look, query and fill; about to write;
    // about to invalidate; about to Unlock
    | EditWaiting(id: string)
    | EditLooking(id: string)
    | EditQuerying(id: string)
    | EditFilling(id: string, row: Row)
    | EditReady(id: string)
    | EditDirty(id: string)
    | EditLeaving(id: string)

  predicate HoldsShared(p: Pc) {
    p.GetLooking? || p.GetQuerying? || p.GetFilling? || p.GetLeaving?
  }

  predicate HoldsExclusive(p: Pc) {
    p.EditLooking? || p.EditQuerying? || p.EditFilling? || p.EditReady? || p.EditDirty? || p.EditLeaving?
  }

  /** A completed Get. */
  datatype Answer = Answer(id: string, began: nat, ended: nat, result: Option<Row>)

  /** `history` lists every value the table has had, the current one last. */
  datatype State = State(table: Table, cache: Table, threads: map<Tid, Pc>, history: seq<Table>, answers: seq<Answer>)

  predicate Initial(s: State) {
    s.cache == map[] && s.threads == map[] && s.history == [s.table] && s.answers == []
  }

  function PcOf(s: State, t: Tid): Pc {
    if t in s.threads then s.threads[t] else Idle
  }

  datatype Action =
    | CallGet(t: Tid, id: string)
    | RLock(t: Tid)
    | LookFresh(t: Tid)       // the cached row is within its TTL: use it
    | LookStale(t: Tid)       // nothing cached, or too old
    | Query(t: Tid)           // SELECT
    | Fill(t: Tid)            // store the row in the cache
    | RUnlock(t: Tid)         // and return
    | CallEdit(t: Tid, id: string)
    | Lock(t: Tid, looks: bool)                  // `looks`: the edit starts with getRaw
    | GiveUp(t: Tid)                             // not found, invalid, or nothing to change in the table
    | Write(t: Tid, after: Option<Row>)          // INSERT, UPDATE or DELETE of the task's row
    | Invalidate(t: Tid)
    | Unlock(t: Tid)

  /** Nobody holds the lock in a way that excludes a shared holder. */
  ghost predicate NoWriter(s: State) {
    forall t :: t in s.threads ==> !HoldsExclusive(s.threads[t])
  }

  ghost predicate NoReader(s: State) {
    forall t :: t in s.threads ==> !HoldsShared(s.threads[t])
  }

  ghost predicate Enabled(s: State, a: Action) {
    var p := PcOf(s, a.t);
    match a
    case CallGet(_, _) => p.Idle?
    case RLock(_) => p.GetWaiting? && NoWriter(s)
    case LookFresh(_) => (p.GetLooking? || p.EditLooking?) && p.id in s.cache
    case LookStale(_) => p.GetLooking? || p.EditLooking?
    case Query(_) => p.GetQuerying? || p.EditQuerying?
    case Fill(_) => p.GetFilling? || p.EditFilling?
    case RUnlock(_) => p.GetLeaving?
    case CallEdit(_, _) => p.Idle?
    case Lock(_, _) => p.EditWaiting? && NoWriter(s) && NoReader(s)
    case GiveUp(_) => p.EditReady?
    case Write(_, _) => p.EditReady?
    case Invalidate(_) => p.EditDirty?
    case Unlock(_) => p.EditLeaving?
  }

  function At(s: State, t: Tid, p: Pc): State {
    s.(threads := s.threads[t := p])
  }

  ghost function Apply(s: State, a: Action): State
    requires Enabled(s, a)
  {
    var t, p, now := a.t, PcOf(s, a.t), |s.history|;
    match a
    case CallGet(_, id) => At(s, t, GetWaiting(id, NatOf(now - 1)))
    case RLock(_) => At(s, t, GetLooking(p.id, p.began))
    case LookFresh(_) =>
      if p.GetLooking? then At(s, t, GetLeaving(p.id, p.began, Some(s.cache[p.id]))) else At(s, t, EditReady(p.id))
    case LookStale(_) =>
      if p.GetLooking? then At(s, t, GetQuerying(p.id, p.began)) else At(s, t, EditQuerying(p.id))
    case Query(_) =>
      if p.id in s.table then
        if p.GetQuerying? then At(s, t, GetFilling(p.id, p.began, s.table[p.id]))
        else At(s, t, EditFilling(p.id, s.table[p.id]))
      else if p.GetQuerying? then At(s, t, GetLeaving(p.id, p.began, None))
      else At(s, t, EditLeaving(p.id))
    case Fill(_) =>
      var s' := s.(cache := s.cache[p.id := p.row]);
      if p.GetFilling? then At(s', t, GetLeaving(p.id, p.began, Some(p.row))) else At(s', t, EditReady(p.id))
    case RUnlock(_) =>
      At(s, t, Idle).(answers := s.answers + [Answer(p.id, p.began, NatOf(now - 1), p.result)])
    case CallEdit(_, id) => At(s, t, EditWaiting(id))
    case Lock(_, looks) => At(s, t, if looks then EditLooking(p.id) else EditReady(p.id))
    case GiveUp(_) => At(s, t, EditLeaving(p.id))
    case Write(_, after) =>
      var table := if after.Some? then s.table[p.id := after.value] else s.table - {p.id};
      At(s, t, EditDirty(p.id)).(table := table, history := s.history + [table])
    case Invalidate(_) => At(s, t, EditLeaving(p.id)).(cache := s.cache - {p.id})
    case Unlock(_) => At(s, t, Idle)
  }

  // ---- coherence ---------------------------------------------------------------------

  /** At most one thread holds the lock exclusively, and then nobody shares it. */
  ghost predicate Exclusion(s: State) {
    forall t, u :: t in s.threads && u in s.threads && t != u && HoldsExclusive(s.threads[t]) ==>
      !HoldsExclusive(s.threads[u]) && !HoldsShared(s.threads[u])
  }

  /** No edit of `id` sits between its write and its invalidation. */
  ghost predicate Clean(s: State, id: string) {
    forall t :: t in s.threads ==> s.threads[t] != EditDirty(id)
  }

  /** Every cached task equals its row, unless an edit of it is in between. */
  ghost predicate CacheAgrees(s: State) {
    forall id :: id in s.cache && Clean(s, id) ==> id in s.table && s.cache[id] == s.table[id]
  }

  /** What a thread inside the lock carries is what the table says. */
  ghost predicate CarriesTruth(s: State, p: Pc) {
    match p
    case GetFilling(id, _, row) => Find(s.table, id) == Some(row)
    case EditFilling(id, row) => Find(s.table, id) == Some(row)
    case GetLeaving(id, _, result) => Find(s.table, id) == result
    case _ => true
  }

  predicate InGet(p: Pc) {
    p.GetWaiting? || p.GetLooking? || p.GetQuerying? || p.GetFilling? || p.GetLeaving?
  }

  /** A completed Get returned what the table said at an instant inside the call. */
  ghost predicate Truthful(s: State, a: Answer) {
    a.began <= a.ended < |s.history| && a.result == Find(s.history[a.ended], a.id)
  }

  ghost predicate Inv(s: State) {
    && s.history != [] && Last(s.history) == s.table
    && Exclusion(s) && CacheAgrees(s)
    && (forall t :: t in s.threads ==> CarriesTruth(s, s.threads[t]))
    && (forall t :: t in s.threads && InGet(s.threads[t]) ==> s.threads[t].began < |s.history|)
    && (forall i :: 0 <= i < |s.answers| ==> Truthful(s, s.answers[i]))
  }

  /** A step of one thread that touches neither the table nor the cache. */
  lemma QuietStep(s: State, t: Tid, p: Pc)
    requires Inv(s) && CarriesTruth(s, p) && !p.EditDirty? && !PcOf(s, t).EditDirty?
    requires HoldsExclusive(p) ==> HoldsExclusive(PcOf(s, t)) || (NoWriter(s) && NoReader(s))
    requires HoldsShared(p) ==> HoldsShared(PcOf(s, t)) || NoWriter(s)
    requires InGet(p) ==> p.began < |s.history|
    ensures Inv(At(s, t, p))
  {
    var s' := At(s, t, p);
    forall id | Clean(s', id) ensures Clean(s, id) {
      forall u | u in s.threads ensures s.threads[u] != EditDirty(id) {
        assert u != t ==> s'.threads[u] == s.threads[u];
      }
    }
    forall u | u in s'.threads ensures CarriesTruth(s', s'.threads[u]) {
      assert u != t ==> CarriesTruth(s, s.threads[u]);
    }
    forall i | 0 <= i < |s'.answers| ensures Truthful(s', s'.answers[i]) {
      assert Truthful(s, s.answers[i]);
    }
  }

  /** Nothing is dirty while a thread is inside the lock, unless it is that thread's own edit. */
  lemma InsideIsClean(s: State, t: Tid, id: string)
    requires Inv(s) && t in s.threads && !s.threads[t].EditDirty?
    requires HoldsShared(s.threads[t]) || HoldsExclusive(s.threads[t])
    ensures Clean(s, id)
  {
  }

  lemma FillKeeps(s: State, t: Tid)
    requires Inv(s) && Enabled(s, Fill(t))
    ensures Inv(Apply(s, Fill(t)))
  {
    var p := PcOf(s, t);
    var s1 := s.(cache := s.cache[p.id := p.row]);
    InsideIsClean(s, t, p.id);
    assert CarriesTruth(s, p);
    assert Inv(s1) by {
      forall id | id in s1.cache && Clean(s1, id) ensures id in s1.table && s1.cache[id] == s1.table[id] {
        assert Clean(s, id);
      }
      forall u | u in s1.threads ensures CarriesTruth(s1, s1.threads[u]) { assert CarriesTruth(s, s.threads[u]); }
      forall i | 0 <= i < |s1.answers| ensures Truthful(s1, s1.answers[i]) { assert Truthful(s, s.answers[i]); }
    }
    QuietStep(s1, t, PcOf(Apply(s, Fill(t)), t));
  }

  lemma AnswersStayTruthful(s: State, s': State)
    requires s.history <= s'.history && s'.answers == s.answers
    requires forall i :: 0 <= i < |s.answers| ==> Truthful(s, s.answers[i])
    ensures forall i :: 0 <= i < |s'.answers| ==> Truthful(s', s'.answers[i])
  {
    forall i | 0 <= i < |s'.answers| ensures Truthful(s', s'.answers[i]) {
      assert Truthful(s, s.answers[i]);
      assert s'.history[s.answers[i].ended] == s.history[s.answers[i].ended];
    }
  }

  lemma WriteKeeps(s: State, t: Tid, after: Option<Row>)
    requires Inv(s) && Enabled(s, Write(t, after))
    ensures Inv(Apply(s, Write(t, after)))
  {
    var s', p := Apply(s, Write(t, after)), PcOf(s, t);
    assert forall u :: u in s'.threads && u != t ==> s'.threads[u] == s.threads[u];
    FrontOfAppend(s.history, s'.table);
    AnswersStayTruthful(s, s');
    forall id | id in s'.cache && Clean(s', id) ensures id in s'.table && s'.cache[id] == s'.table[id] {
      assert s'.threads[t] == EditDirty(p.id) && id != p.id;
      InsideIsClean(s, t, id);
    }
    hide Truthful;
    forall u | u in s'.threads ensures CarriesTruth(s', s'.threads[u]) {
      assert u != t ==> !HoldsShared(s.threads[u]) && !HoldsExclusive(s.threads[u]);
    }
  }

  lemma InvalidateKeeps(s: State, t: Tid)
    requires Inv(s) && Enabled(s, Invalidate(t))
    ensures Inv(Apply(s, Invalidate(t)))
  {
    var s', p := Apply(s, Invalidate(t)), PcOf(s, t);
    forall id | id in s'.cache && Clean(s', id) ensures id in s'.table && s'.cache[id] == s'.table[id] {
      forall u | u in s.threads ensures s.threads[u] != EditDirty(id) {
        assert u != t ==> s'.threads[u] == s.threads[u];
      }
      assert Clean(s, id);
    }
    forall u | u in s'.threads ensures CarriesTruth(s', s'.threads[u]) {
      assert u != t ==> CarriesTruth(s, s.threads[u]);
    }
    forall i | 0 <= i < |s'.answers| ensures Truthful(s', s'.answers[i]) { assert Truthful(s, s.answers[i]); }
  }

  lemma ReturnKeeps(s: State, t: Tid)
    requires Inv(s) && Enabled(s, RUnlock(t))
    ensures Inv(Apply(s, RUnlock(t)))
  {
    var p, s1, s' := PcOf(s, t), At(s, t, Idle), Apply(s, RUnlock(t));
    QuietStep(s, t, Idle);
    assert CarriesTruth(s, p);
    forall i | 0 <= i < |s'.answers| ensures Truthful(s', s'.answers[i]) {
      if i < |s.answers| { assert Truthful(s1, s1.answers[i]); }
    }
    forall u | u in s'.threads ensures CarriesTruth(s', s'.threads[u]) { assert CarriesTruth(s1, s1.threads[u]); }
    assert CacheAgrees(s') by {
      forall id | id in s'.cache && Clean(s', id)
        ensures id in s'.table && s'.cache[id] == s'.table[id]
      {
        assert Clean(s1, id);
      }
    }
  }

  lemma ThreadFacts(s: State, t: Tid)
    requires Inv(s)
    ensures s.history != [] && CarriesTruth(s, PcOf(s, t)) && (InGet(PcOf(s, t)) ==> PcOf(s, t).began < |s.history|)
  {
  }

  lemma LookKeeps(s: State, t: Tid)
    requires Inv(s) && Enabled(s, LookFresh(t))
    ensures Inv(Apply(s, LookFresh(t)))
  {
    ThreadFacts(s, t);
    InsideIsClean(s, t, PcOf(s, t).id);
    assert PcOf(s, t).id in s.table && s.cache[PcOf(s, t).id] == s.table[PcOf(s, t).id];
    hide Inv, NoWriter, NoReader;
    QuietStep(s, t, PcOf(Apply(s, LookFresh(t)), t));
  }

  lemma StepKeepsInv(s: State, a: Action)
    requires Inv(s) && Enabled(s, a)
    ensures Inv(Apply(s, a))
  {
    match a
    case Write(t, after) => WriteKeeps(s, t, after);
    case Invalidate(t) => InvalidateKeeps(s, t);
    case Fill(t) => FillKeeps(s, t);
    case RUnlock(t) => ReturnKeeps(s, t);
    case LookFresh(t) => LookKeeps(s, t);
    case _ => QuietKeeps(s, a);
  }

  lemma QuietKeeps(s: State, a: Action)
    requires Inv(s) && Enabled(s, a)
    requires !a.Write? && !a.Invalidate? && !a.Fill? && !a.RUnlock? && !a.LookFresh?
    ensures Inv(Apply(s, a))
  {
    ThreadFacts(s, a.t);
    hide Inv, NoWriter, NoReader;
    QuietStep(s, a.t, PcOf(Apply(s, a), a.t));
  }

  // ---- over every run ------------------------------------------------------------------

  ghost predicate LegalRun(s: State, run: seq<Action>)
    decreases |run|
  {
    run == [] || (Enabled(s, run[0]) && LegalRun(Apply(s, run[0]), run[1..]))
  }

  ghost function Run(s: State, run: seq<Action>): State
    requires LegalRun(s, run)
    decreases |run|
  {
    if run == [] then s else Run(Apply(s, run[0]), run[1..])
  }

  lemma {:induction false} EveryRunKeepsInv(s: State, run: seq<Action>)
    requires Inv(s) && LegalRun(s, run)
    ensures Inv(Run(s, run))
    decreases |run|
  {
    if run != [] {
      StepKeepsInv(s, run[0]);
      hide Inv, Apply, Enabled;
      EveryRunKeepsInv(Apply(s, run[0]), run[1..]);
    }
  }

  /** Coherence: in every interleaving, when no edit holds the lock each cached
      task equals its row; and every Get, cached or not, fresh or not, returned
      what the table said at an instant inside its own call. */
  lemma CacheIsCoherent(s: State, run: seq<Action>)
    requires Initial(s) && LegalRun(s, run)
    ensures var e := Run(s, run);
            && (NoWriter(e) ==> forall id :: id in e.cache ==> id in e.table && e.cache[id] == e.table[id])
            && (forall i :: 0 <= i < |e.answers| ==> Truthful(e, e.answers[i]))
  {
    EveryRunKeepsInv(s, run);
    var e := Run(s, run);
    if NoWriter(e) {
      forall id | id in e.cache ensures id in e.table && e.cache[id] == e.table[id] {
        assert Clean(e, id);
      }
    }
  }

  // ---- nobody is stuck ------------------------------------------------------------------

  /** A thread inside the lock always has a step of its own to take, and the choices
      the code leaves open are open. */
  lemma InsideNeverWaits(s: State, t: Tid) returns (a: Action)
    requires HoldsShared(PcOf(s, t)) || HoldsExclusive(PcOf(s, t))
    ensures Enabled(s, a) && a.t == t
    ensures var p := PcOf(s, t);
            && (p.GetLooking? || p.EditLooking? ==>
                  Enabled(s, LookStale(t)) && (p.id in s.cache ==> Enabled(s, LookFresh(t))))
            && (p.EditReady? ==> Enabled(s, GiveUp(t)) && forall after :: Enabled(s, Write(t, after)))
  {
    a := match PcOf(s, t)
         case GetLooking(_, _) => LookStale(t)
         case GetQuerying(_, _) => Query(t)
         case GetFilling(_, _, _) => Fill(t)
         case GetLeaving(_, _, _) => RUnlock(t)
         case EditLooking(_) => LookStale(t)
         case EditQuerying(_) => Query(t)
         case EditFilling(_, _) => Fill(t)
         case EditReady(_) => GiveUp(t)
         case EditDirty(_) => Invalidate(t)
         case _ => Unlock(t);
  }

  /** As long as a call is out, some thread in a call can take a step. */
  lemma NoDeadlock(s: State, t: Tid) returns (a: Action)
    requires !PcOf(s, t).Idle?
    ensures Enabled(s, a) && !PcOf(s, a.t).Idle?
    ensures NoWriter(s) && NoReader(s) && PcOf(s, t).EditWaiting? ==> forall looks :: Enabled(s, Lock(t, looks))
  {
    if u :| u in s.threads && (HoldsShared(s.threads[u]) || HoldsExclusive(s.threads[u])) {
      a := InsideNeverWaits(s, u);
    } else {
      a := if PcOf(s, t).GetWaiting? then RLock(t) else Lock(t, true);
    }
  }

  // ---- an edit is seen ------------------------------------------------------------------

  /** A Get returns what the table says at the moment it returns. */
  lemma GetReturnsTheTable(s: State, t: Tid)
    requires Inv(s) && Enabled(s, RUnlock(t))
    ensures var s', p := Apply(s, RUnlock(t)), PcOf(s, t);
            && s'.table == s.table && |s'.answers| == |s.answers| + 1 && s.answers <= s'.answers
            && Last(s'.answers).id == p.id && Last(s'.answers).result == Find(s.table, p.id)
            && Last(s'.answers).began == p.began && Last(s'.answers).ended == |s.history| - 1
  {
    ThreadFacts(s, t);
  }

  /** The time a Get carries is that of its call, from the call to its answer. */
  lemma GetsCarryTheirTime(s: State, a: Action, t: Tid)
    requires Inv(s) && Enabled(s, a) && InGet(PcOf(Apply(s, a), t))
    ensures var p, p' := PcOf(s, t), PcOf(Apply(s, a), t);
            if p.Idle? then a == CallGet(t, p'.id) && p'.began == |s.history| - 1
            else InGet(p) && p'.id == p.id && p'.began == p.began
  {
  }

  /** A write leaves exactly its value in its own row, and the other rows alone. */
  lemma WriteReachesTheTable(s: State, t: Tid, after: Option<Row>)
    requires Enabled(s, Write(t, after))
    ensures var s', id := Apply(s, Write(t, after)), PcOf(s, t).id;
            && (id in s'.table <==> after.Some?) && (after.Some? ==> s'.table[id] == after.value)
            && (forall other :: other != id ==> (other in s'.table <==> other in s.table))
            && (forall other :: other != id && other in s.table && other in s'.table ==>
                  s'.table[other] == s.table[other])
  {
  }

  /** No step of the run writes the row of `id`. */
  ghost predicate Untouched(s: State, run: seq<Action>, id: string)
    requires LegalRun(s, run)
    decreases |run|
  {
    run == [] ||
    ((run[0].Write? ==> PcOf(s, run[0].t).id != id) && Untouched(Apply(s, run[0]), run[1..], id))
  }

  lemma OneStepLeavesRow(s: State, a: Action, id: string)
    requires Inv(s) && Enabled(s, a) && (a.Write? ==> PcOf(s, a.t).id != id)
    ensures var s' := Apply(s, a);
            && Find(s'.table, id) == Find(s.table, id) && s.answers <= s'.answers
            && forall i :: |s.answers| <= i < |s'.answers| && s'.answers[i].id == id ==>
                 s'.answers[i].result == Find(s.table, id)
  {
    if a.RUnlock? { GetReturnsTheTable(s, a.t); }
    hide Inv, NoWriter, NoReader;
  }

  lemma {:induction false} AnswersWhileUntouched(s: State, run: seq<Action>, id: string)
    requires Inv(s) && LegalRun(s, run) && Untouched(s, run, id)
    ensures var e := Run(s, run);
            && s.answers <= e.answers
            && forall i :: |s.answers| <= i < |e.answers| && e.answers[i].id == id ==>
                 e.answers[i].result == Find(s.table, id)
    decreases |run|
  {
    hide Inv, Apply, Enabled, Find;
    if run != [] {
      OneStepLeavesRow(s, run[0], id);
      StepKeepsInv(s, run[0]);
      AnswersWhileUntouched(Apply(s, run[0]), run[1..], id);
    }
  }

  /** After an edit has written a task's row, every Get of it that returns, whenever
      it was called, returns what the edit wrote, until another edit writes it. */
  lemma EditsAreSeen(s: State, t: Tid, after: Option<Row>, run: seq<Action>)
    requires Inv(s) && Enabled(s, Write(t, after)) && LegalRun(Apply(s, Write(t, after)), run)
    requires Untouched(Apply(s, Write(t, after)), run, PcOf(s, t).id)
    ensures var e := Run(Apply(s, Write(t, after)), run);
            forall i :: |s.answers| <= i < |e.answers| && e.answers[i].id == PcOf(s, t).id ==>
              e.answers[i].result == after
  {
    var s1, id := Apply(s, Write(t, after)), PcOf(s, t).id;
    StepKeepsInv(s, Write(t, after));
    WriteReachesTheTable(s, t, after);
    assert Find(s1.table, id) == after && s1.answers == s.answers;
    AnswersWhileUntouched(s1, run, id);
  }
}
