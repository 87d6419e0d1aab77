/**
 The ordered fallback walk over a chain of models.

 What the walk sees at one position of the chain is an `Observation`; `Visit`
 is what it does with it.  The observations come from hooks the walk does not
 control (the health gate, the prediction cache, the output validator, the
 providers), so everything proved here holds however other requests interleave.
 */
module Fallback {
  import opened Prelude
  import opened Runner

  datatype Observation =
    | Skipped                                              // the gate refused the model
    | Cached(answer: ModelResult)                          // the lookup hit
    | Called(result: ModelResult, valid: bool, gone: bool) // a live call; `gone`: the context had ended after it

  /** What an outcome tells the health gate. */
  datatype Report = Good | Bad

  datatype Next = Return | Break | Continue

  function SkippedResult(model: string, provider: string): ModelResult {
    ErrResult(model, provider, SkippedUnhealthy).(degraded := true, infraFailure := true, fallbackEligible := true)
  }

  function AttemptFrom(position: nat, r: ModelResult, outcome: Outcome, reason: Option<Failure>): Attempt {
    Attempt(position, r.model, r.provider, outcome, position > 0, reason, r.response, r.error, r.httpStatus,
            r.infraFailure, r.retryCount, r.inputTokens, r.outputTokens, r.totalTokens, r.cost)
  }

  /** Where one turn of the loop leads. */
  function NextAfter(o: Observation): Next {
    match o
    case Skipped => Continue
    case Cached(_) => Return
    case Called(r, valid, gone) =>
      if (r.success && valid) || (!r.success && !r.fallbackEligible) then Return
      else if gone then Break
      else Continue
  }

  /** What it tells the gate. */
  function ReportAfter(o: Observation): Option<Report> {
    match o
    case Called(r, valid, _) =>
      if r.success then Some(if valid then Good else Bad)
      else if r.fallbackEligible then Some(Bad)
      else None
    case _ => None
  }

  /** The result it leaves in hand. */
  function ResultAfter(i: nat, model: string, provider: string, o: Observation): ModelResult {
    match o
    case Skipped => SkippedResult(model, provider).(fallbackUsed := i > 0)
    case Cached(answer) => answer.(fallbackUsed := i > 0, degraded := i > 0)
    case Called(result, valid, _) =>
      var r := result.(fallbackUsed := i > 0, degraded := i > 0);
      if r.success && !valid then r.(fallbackEligible := true, degraded := true) else r
  }

  /** The row it adds to the trace. */
  function AttemptAfter(i: nat, model: string, provider: string, o: Observation): Attempt {
    var r := ResultAfter(i, model, provider, o);
    match o
    case Skipped => AttemptFrom(i, r, SkippedOpen, Some(SkippedUnhealthy))
    case Cached(_) => AttemptFrom(i, r, CacheHit, None)
    case Called(_, valid, _) =>
      if r.success && !valid then AttemptFrom(i, r, SchemaInvalid, Some(InvalidOutput))
      else if r.success then AttemptFrom(i, r, Success, None)
      else AttemptFrom(i, r, Error, if r.fallbackEligible then r.error else None)
  }

  /** A walk in progress.  `seen` is what it has observed so far, `reports` what
      it has told the gate, in order. */
  datatype Walk = Walk(attempts: seq<Attempt>, last: ModelResult, attempted: bool, next: Next,
                       reports: seq<(string, Report)>, seen: seq<Observation>)

  const BLANK := ErrResult("", "", NoModels)
  const START := Walk([], BLANK, false, Continue, [], [])

  function Advance(w: Walk, model: string, provider: string, o: Observation): Walk {
    var i := |w.attempts|;
    Walk(w.attempts + [AttemptAfter(i, model, provider, o)], ResultAfter(i, model, provider, o),
         w.attempted || !o.Skipped?, NextAfter(o),
         w.reports + (if ReportAfter(o).Some? then [(model, ReportAfter(o).value)] else []), w.seen + [o])
  }

  /** What the walk over `chain` answers once it stops. */
  function Conclude(chain: seq<string>, w: Walk): ModelResult {
    if chain == [] then ErrResult("", "", NoModels).(degraded := true)
    else if w.next == Return then w.last.(attempts := w.attempts)
    else if !w.attempted then
      ErrResult("", "", AllUnhealthy(|chain|)).(degraded := true, attempts := w.attempts)
    else
      var r := w.last.(degraded := true, attempts := w.attempts);
      if r.success then r else r.(error := Some(ChainFailed(|chain|, r.error)))
  }

  // ---- reading a trace --------------------------------------------------------------

  /** An attempt the walk may move past: a skip, an invalid answer, or an
      eligible error. */
  predicate Passed(a: Attempt) {
    a.outcome == SkippedOpen || a.outcome == SchemaInvalid || (a.outcome == Error && a.reason.Some?)
  }

  function Retries(t: seq<Attempt>): nat {
    if t == [] then 0 else Retries(Front(t)) + Last(t).retryCount
  }

  function Tokens(t: seq<Attempt>): int {
    if t == [] then 0 else Tokens(Front(t)) + Last(t).totalTokens
  }

  function Cost(t: seq<Attempt>): int {
    if t == [] then 0 else Cost(Front(t)) + Last(t).cost
  }

  /** What an attempt has told the gate about its model. */
  function ReportOf(a: Attempt): Option<Report> {
    match a.outcome
    case Success => Some(Good)
    case SchemaInvalid => Some(Bad)
    case Error => if a.reason.Some? then Some(Bad) else None
    case _ => None
  }

  /** Attempts of one model that were reported one way. */
  function Reported(t: seq<Attempt>, model: string, r: Report): nat {
    if t == [] then 0
    else Reported(Front(t), model, r) + (if Last(t).model == model && ReportOf(Last(t)) == Some(r) then 1 else 0)
  }

  function ReportsOf(rs: seq<(string, Report)>, model: string, r: Report): nat {
    if rs == [] then 0 else ReportsOf(Front(rs), model, r) + (if Last(rs) == (model, r) then 1 else 0)
  }

  // ---- what every walk keeps -----------------------------------------------------------

  /** A cached answer as the gateway's lookup shapes it. */
  function CachedAnswer(model: string, provider: string, response: string): ModelResult {
    ModelResult(model, provider, Some(response), 0, 0, 0, 0, true, None, false, false, [], false, false, 0, 0)
  }

  predicate IsCachedAnswer(model: string, r: ModelResult) {
    r.response.Some? && r == CachedAnswer(model, r.provider, r.response.value)
  }

  predicate Plausible(model: string, o: Observation) {
    match o
    case Skipped => true
    case Cached(r) => IsCachedAnswer(model, r)
    case Called(r, _, _) => IsCallOf(model, r)
  }

  /** Attempt `a` at position i is the record of observation `o`. */
  predicate Records(i: nat, model: string, a: Attempt, o: Observation) {
    Plausible(model, o) && a == AttemptAfter(i, model, a.provider, o)
  }

  ghost predicate Faithful(chain: seq<string>, w: Walk) {
    && |w.attempts| == |w.seen| <= |chain|
    && (forall i :: 0 <= i < |w.attempts| ==> Records(i, chain[i], w.attempts[i], w.seen[i]))
    && (forall i :: 0 <= i < |w.attempts| - 1 ==> NextAfter(w.seen[i]) == Continue)
    && (w.attempts == [] ==> w == START)
    && (w.attempts != [] ==>
          var k := |w.attempts| - 1;
          w.last == ResultAfter(k, chain[k], w.attempts[k].provider, w.seen[k]) && w.next == NextAfter(w.seen[k]))
    && (!w.attempted <==> forall i :: 0 <= i < |w.seen| ==> w.seen[i].Skipped?)
  }

  lemma AdvanceKeepsFaith(chain: seq<string>, w: Walk, provider: string, o: Observation)
    requires Faithful(chain, w) && w.next == Continue && |w.attempts| < |chain|
    requires Plausible(chain[|w.attempts|], o)
    ensures Faithful(chain, Advance(w, chain[|w.attempts|], provider, o))
  {
    var k := |w.attempts|;
    var a := AttemptAfter(k, chain[k], provider, o);
    RecordHasProvider(k, chain[k], provider, o);
    assert Records(k, chain[k], a, o);
    assert ResultAfter(k, chain[k], provider, o) == ResultAfter(k, chain[k], a.provider, o);
    hide AttemptAfter, ResultAfter, Plausible, NextAfter, Records;
    var w' := Advance(w, chain[k], provider, o);
    assert w'.attempts == w.attempts + [a] && w'.seen == w.seen + [o];
  }

  /** The provider written in an attempt is all its record needs. */
  lemma RecordHasProvider(i: nat, model: string, provider: string, o: Observation)
    requires Plausible(model, o)
    ensures var a := AttemptAfter(i, model, provider, o);
            a == AttemptAfter(i, model, a.provider, o)
                && ResultAfter(i, model, provider, o) == ResultAfter(i, model, a.provider, o)
  {
  }

  /** How to read one recorded attempt. */
  lemma ReadRecord(i: nat, model: string, a: Attempt, o: Observation)
    requires Records(i, model, a, o)
    ensures a.position == i && a.model == model && a.fallbackUsed == (i > 0)
    ensures Passed(a) <==> NextAfter(o) != Return
    ensures NextAfter(o) == Break ==> o.Called? && o.gone
    ensures ReportAfter(o) == ReportOf(a)
    ensures o.Skipped? <==> a.outcome == SkippedOpen
    ensures !o.Called? ==> a.totalTokens == 0 && a.cost == 0 && a.retryCount == 0
    ensures a.retryCount <= 3
  {
  }

  /** A walk is over when it stopped or ran out of models. */
  predicate Over(chain: seq<string>, w: Walk) {
    w.next != Continue || |w.attempts| >= |chain|
  }

  /** The trace of a finished walk is a prefix of the chain in order, everything
      before its end was passed, and it ends early only on a definitive answer
      or because the caller has gone. */
  lemma TraceOfAWalk(chain: seq<string>, w: Walk)
    requires chain != [] && Faithful(chain, w) && Over(chain, w)
    ensures 1 <= |w.attempts| <= |chain|
    ensures forall i :: 0 <= i < |w.attempts| ==>
              w.attempts[i].position == i && w.attempts[i].model == chain[i] && w.attempts[i].fallbackUsed == (i > 0)
    ensures forall i :: 0 <= i < |w.attempts| - 1 ==> Passed(w.attempts[i])
    ensures var end := Last(w.attempts);
            !Passed(end) || |w.attempts| == |chain| || (Last(w.seen).Called? && Last(w.seen).gone)
    ensures Conclude(chain, w).attempts == w.attempts
  {
    forall i | 0 <= i < |w.attempts|
      ensures w.attempts[i].position == i && w.attempts[i].model == chain[i] && w.attempts[i].fallbackUsed == (i > 0)
      ensures Passed(w.attempts[i]) <==> NextAfter(w.seen[i]) != Return
      ensures NextAfter(w.seen[i]) == Break ==> w.seen[i].Called? && w.seen[i].gone
    {
      ReadRecord(i, chain[i], w.attempts[i], w.seen[i]);
    }
  }

  /** The answer is read off the end of the trace: a walk that falls through is
      judged by its last attempt alone, whatever the models before it said. */
  lemma AnswerOfAWalk(chain: seq<string>, w: Walk)
    requires chain != [] && Faithful(chain, w) && Over(chain, w)
    ensures w.attempts != []
    ensures var r, end := Conclude(chain, w), Last(w.attempts);
            && (r.success <==> end.outcome in {Success, CacheHit, SchemaInvalid})
            && (r.success <==> r.error.None?)
            && (r.success ==> r.response == end.response && r.model == end.model)
            && (r.degraded <==> |w.attempts| > 1 || Passed(end))
            && r.cost == end.cost && r.totalTokens == end.totalTokens
            && r.fallbackUsed == (w.attempted && |w.attempts| > 1)
  {
    var k := |w.attempts| - 1;
    ReadRecord(k, chain[k], w.attempts[k], w.seen[k]);
  }

  /** "Flagged, not failed" holds of a walk that falls through exactly when its
      last attempt is the flagged one. */
  lemma FlaggedExactlyWhenLast(chain: seq<string>, w: Walk)
    requires chain != [] && Faithful(chain, w) && Over(chain, w) && w.next != Return
    ensures w.attempts != []
    ensures Conclude(chain, w).success <==> Last(w.attempts).outcome == SchemaInvalid
    ensures Last(w.attempts).outcome != SchemaInvalid ==> Conclude(chain, w).response.None?
  {
    var k := |w.attempts| - 1;
    ReadRecord(k, chain[k], w.attempts[k], w.seen[k]);
    if w.seen[k].Called? {
      assert Plausible(chain[k], w.seen[k]);
    }
  }

  /** A first model whose answer fails its schema, before a second one the gate
      refuses: the call fails, although a model did answer. */
  lemma FlaggedAnswerCanBeLost(a: string, b: string, provider: string, r: ModelResult)
    requires IsCallOf(a, r) && r.success
    ensures var w := Advance(Advance(START, a, provider, Called(r, false, false)), b, provider, Skipped);
            && Over([a, b], w) && w.attempts[0].outcome == SchemaInvalid && w.attempts[0].response == r.response
            && !Conclude([a, b], w).success && Conclude([a, b], w).response.None?
  {
  }

  // ---- accounting -----------------------------------------------------------------------

  /** The trace accounts for everything told to the gate, model by model. */
  ghost predicate Accounted(w: Walk) {
    forall m, r :: ReportsOf(w.reports, m, r) == Reported(w.attempts, m, r)
  }

  lemma AdvanceKeepsAccounts(w: Walk, model: string, provider: string, o: Observation)
    requires Accounted(w) && Plausible(model, o)
    ensures Accounted(Advance(w, model, provider, o))
  {
    var w' := Advance(w, model, provider, o);
    var a := AttemptAfter(|w.attempts|, model, provider, o);
    RecordHasProvider(|w.attempts|, model, provider, o);
    ReadRecord(|w.attempts|, model, a, o);
    FrontOfAppend(w.attempts, a);
    forall m, r ensures ReportsOf(w'.reports, m, r) == Reported(w'.attempts, m, r) {
      assert ReportsOf(w.reports, m, r) == Reported(w.attempts, m, r);
      if ReportAfter(o).Some? {
        FrontOfAppend(w.reports, (model, ReportAfter(o).value));
      } else {
        assert w'.reports == w.reports;
      }
    }
  }

  lemma {:induction false} CostIsZero(t: seq<Attempt>)
    requires forall i :: 0 <= i < |t| ==> t[i].cost >= 0
    ensures Cost(t) >= 0
    ensures Cost(t) == 0 <==> forall i :: 0 <= i < |t| ==> t[i].cost == 0
  {
    if t != [] {
      assert forall i :: 0 <= i < |t| - 1 ==> Front(t)[i] == t[i];
      CostIsZero(Front(t));
    }
  }

  /** A row that is not an answer costs nothing. */
  lemma OnlyAnswersCost(i: nat, model: string, a: Attempt, o: Observation)
    requires Records(i, model, a, o) && a.outcome != Success && a.outcome != SchemaInvalid
    ensures a.cost == 0
  {
  }

  /** An attempt that answered, and was paid for, without being used. */
  predicate PaidForNothing(a: Attempt) {
    a.outcome == SchemaInvalid && a.cost != 0
  }

  /** The budget is charged the answer's own cost.  That is what the whole walk
      cost exactly when no model before the last one was paid for an answer that
      failed its schema. */
  lemma BudgetSeesTheLastAttempt(chain: seq<string>, w: Walk)
    requires chain != [] && Faithful(chain, w) && Over(chain, w)
    requires forall i :: 0 <= i < |w.attempts| ==> w.attempts[i].cost >= 0
    ensures Conclude(chain, w).cost == Cost(w.attempts)
            <==> forall i :: 0 <= i < |w.attempts| - 1 ==> !PaidForNothing(w.attempts[i])
  {
    AnswerOfAWalk(chain, w);
    TraceOfAWalk(chain, w);
    var before := Front(w.attempts);
    forall i | 0 <= i < |before|
      ensures before[i] == w.attempts[i] && (before[i].cost == 0 <==> !PaidForNothing(before[i]))
    {
      assert Records(i, chain[i], w.attempts[i], w.seen[i]);
      if !PaidForNothing(w.attempts[i]) && w.attempts[i].outcome != SchemaInvalid {
        OnlyAnswersCost(i, chain[i], w.attempts[i], w.seen[i]);
      }
    }
    hide Faithful, Conclude;
    CostIsZero(before);
  }

  /** A paid answer that failed its schema, then a good one: the charge is short
      by what the first cost. */
  lemma BudgetCanBeShort(a: string, b: string, p: string, first: ModelResult, second: ModelResult)
    requires a != b && IsCallOf(a, first) && first.success && first.cost > 0
    requires IsCallOf(b, second) && second.success
    ensures var w := Advance(Advance(START, a, p, Called(first, false, false)), b, p, Called(second, true, false));
            && Over([a, b], w) && Conclude([a, b], w).success
            && Conclude([a, b], w).cost == Cost(w.attempts) - first.cost
  {
    var w1 := Advance(START, a, p, Called(first, false, false));
    FrontOfAppend(w1.attempts, AttemptAfter(1, b, p, Called(second, true, false)));
    assert w1.attempts == [AttemptAfter(0, a, p, Called(first, false, false))] && Front(w1.attempts) == [];
    assert Cost(w1.attempts) == first.cost;
  }

  /** And with a cached answer in its place nothing is charged at all. */
  lemma HitAfterAPaidAnswer(a: string, b: string, p: string, first: ModelResult, response: string)
    requires a != b && IsCallOf(a, first) && first.success && first.cost > 0
    ensures var hit := Cached(CachedAnswer(b, p, response));
            var w := Advance(Advance(START, a, p, Called(first, false, false)), b, p, hit);
            && Over([a, b], w) && Conclude([a, b], w).success
            && Conclude([a, b], w).cost == 0 && Cost(w.attempts) == first.cost
  {
    var hit := Cached(CachedAnswer(b, p, response));
    var w1 := Advance(START, a, p, Called(first, false, false));
    FrontOfAppend(w1.attempts, AttemptAfter(1, b, p, hit));
    assert w1.attempts == [AttemptAfter(0, a, p, Called(first, false, false))] && Front(w1.attempts) == [];
    assert Cost(w1.attempts) == first.cost;
  }

  // ---- the walk ---------------------------------------------------------------------------

  /** The hooks of one request, by chain position.  A nil gate allows every
      model, a nil lookup always misses, a nil validator accepts everything. */
  datatype Hooks = Hooks(gated: bool, allow: nat -> bool, lookup: nat -> Option<ModelResult>,
                         validate: string -> bool, gone: nat -> bool)

  function Observe(world: World, h: Hooks, model: string, i: nat, calls: nat): Observation {
    if h.gated && !h.allow(i) then Skipped
    else match h.lookup(i)
         case Some(answer) => Cached(answer)
         case None =>
           var r := CallResult(world, model, calls);
           Called(r, r.response.None? || h.validate(r.response.value), h.gone(i))
  }

  /** The next turn; `start` is the number of the walk's first upstream call. */
  function Step(world: World, h: Hooks, chain: seq<string>, start: nat, w: Walk): (r: Walk)
    requires |w.attempts| < |chain|
    ensures |r.attempts| == |w.attempts| + 1
  {
    var i := |w.attempts|;
    Advance(w, chain[i], world.provider(chain[i]), Observe(world, h, chain[i], i, start + Retries(w.attempts)))
  }

  /** The rest of the walk from `w`. */
  function WalkOn(world: World, h: Hooks, chain: seq<string>, start: nat, w: Walk): Walk
    decreases |chain| - |w.attempts|
  {
    if Over(chain, w) then w else WalkOn(world, h, chain, start, Step(world, h, chain, start, w))
  }

  lemma WalkUnfolds(world: World, h: Hooks, chain: seq<string>, start: nat, w: Walk)
    ensures WalkOn(world, h, chain, start, w)
            == if Over(chain, w) then w else WalkOn(world, h, chain, start, Step(world, h, chain, start, w))
  {
    hide Step;
  }

  /** The lookup only ever answers for the model it was asked about. */
  ghost predicate LookupKeepsModel(h: Hooks, chain: seq<string>) {
    forall i :: 0 <= i < |chain| && h.lookup(i).Some? ==> IsCachedAnswer(chain[i], h.lookup(i).value)
  }

  lemma ObservationIsPlausible(world: World, h: Hooks, chain: seq<string>, i: nat, calls: nat)
    requires LookupKeepsModel(h, chain) && i < |chain|
    ensures Plausible(chain[i], Observe(world, h, chain[i], i, calls))
  {
    CallIsClassified(world, chain[i], calls);
  }

  lemma {:induction false} WalkIsFaithful(world: World, h: Hooks, chain: seq<string>, start: nat, w: Walk)
    requires LookupKeepsModel(h, chain) && Faithful(chain, w) && Accounted(w)
    ensures var r := WalkOn(world, h, chain, start, w);
            Faithful(chain, r) && Accounted(r) && Over(chain, r)
    decreases |chain| - |w.attempts|
  {
    WalkUnfolds(world, h, chain, start, w);
    if !Over(chain, w) {
      StepKeepsFaith(world, h, chain, start, w);
      hide WalkOn, Step, Faithful, Accounted, LookupKeepsModel;
      WalkIsFaithful(world, h, chain, start, Step(world, h, chain, start, w));
    } else {
      hide WalkOn, Faithful, Accounted;
    }
  }

  /** Whatever the hooks and providers do, the walk over a chain ends, its trace is
      a faithful record, and the gate was told exactly what the trace says. */
  lemma EveryWalk(world: World, h: Hooks, chain: seq<string>, start: nat)
    requires LookupKeepsModel(h, chain)
    ensures var w := WalkOn(world, h, chain, start, START);
            Faithful(chain, w) && Accounted(w) && Over(chain, w)
  {
    hide WalkOn;
    WalkIsFaithful(world, h, chain, start, START);
  }

  lemma StepKeepsFaith(world: World, h: Hooks, chain: seq<string>, start: nat, w: Walk)
    requires LookupKeepsModel(h, chain) && Faithful(chain, w) && Accounted(w) && !Over(chain, w)
    ensures var r := Step(world, h, chain, start, w);
            Faithful(chain, r) && Accounted(r)
  {
    hide Observe, Advance, Faithful, Accounted, Plausible, LookupKeepsModel, Retries;
    var i, calls := |w.attempts|, start + Retries(w.attempts);
    ObservationIsPlausible(world, h, chain, i, calls);
    AdvanceKeepsFaith(chain, w, world.provider(chain[i]), Observe(world, h, chain[i], i, calls));
    AdvanceKeepsAccounts(w, chain[i], world.provider(chain[i]), Observe(world, h, chain[i], i, calls));
  }

  /** One turn of the loop.  Reports to the gate are made only when there is one. */
  method Turn(up: Upstream, h: Hooks, model: string, i: nat)
    returns (attempt: Attempt, last: ModelResult, called: bool, report: Option<Report>, next: Next)
    requires h.lookup(i).Some? ==> IsCachedAnswer(model, h.lookup(i).value)
    modifies up
    ensures var o, p := Observe(up.world, h, model, i, old(up.calls)), up.world.provider(model);
            && attempt == AttemptAfter(i, model, p, o) && last == ResultAfter(i, model, p, o) && next == NextAfter(o)
            && called == !o.Skipped? && report == if h.gated then ReportAfter(o) else None
    ensures up.calls == old(up.calls) + attempt.retryCount
  {
    called, report, next := true, None, Return;
    if h.gated && !h.allow(i) {
      last := SkippedResult(model, up.world.provider(model));
      last := last.(fallbackUsed := i > 0);
      attempt := AttemptFrom(i, last, SkippedOpen, Some(SkippedUnhealthy));
      called, next := false, Continue;
      return;
    }
    var hit := h.lookup(i);
    if hit.Some? {
      last := hit.value.(fallbackUsed := i > 0, degraded := i > 0);
      attempt := AttemptFrom(i, last, CacheHit, None);
      return;
    }
    last := CallModel(up, model);
    last := last.(fallbackUsed := i > 0, degraded := i > 0);
    if last.success {
      if last.response.Some? && !h.validate(last.response.value) {
        report := if h.gated then Some(Bad) else None;
        last := last.(fallbackEligible := true, degraded := true);
        attempt := AttemptFrom(i, last, SchemaInvalid, Some(InvalidOutput));
        next := if h.gone(i) then Break else Continue;
        return;
      }
      report := if h.gated then Some(Good) else None;
      attempt := AttemptFrom(i, last, Success, None);
      return;
    }
    if !last.fallbackEligible {
      attempt := AttemptFrom(i, last, Error, None);
      return;
    }
    report := if h.gated then Some(Bad) else None;
    attempt := AttemptFrom(i, last, Error, last.error);
    next := if h.gone(i) then Break else Continue;
  }

  /** The loop over the chain. */
  method WalkChain(up: Upstream, chain: seq<string>, h: Hooks)
    returns (attempts: seq<Attempt>, last: ModelResult, attempted: bool, next: Next, reports: seq<(string, Report)>)
    requires LookupKeepsModel(h, chain)
    modifies up
    ensures var w := WalkOn(up.world, h, chain, old(up.calls), START);
            && w.attempts == attempts && w.last == last && w.attempted == attempted && w.next == next
            && reports == if h.gated then w.reports else []
    ensures up.calls == old(up.calls) + Retries(attempts)
  {
    hide AttemptAfter, ResultAfter, NextAfter, ReportAfter, Observe, WalkOn;
    attempts, last, attempted, next, reports := [], BLANK, false, Continue, [];
    ghost var start, w := up.calls, START;
    var i := 0;
    while i < |chain|
      invariant 0 <= i <= |chain| && i == |w.attempts|
      invariant WalkOn(up.world, h, chain, start, START) == WalkOn(up.world, h, chain, start, w)
      invariant w.attempts == attempts && w.last == last && w.attempted == attempted && w.next == next == Continue
      invariant reports == if h.gated then w.reports else []
      invariant up.calls == start + Retries(attempts)
    {
      WalkUnfolds(up.world, h, chain, start, w);
      var attempt, called, report;
      attempt, last, called, report, next := Turn(up, h, chain[i], i);
      FrontOfAppend(attempts, attempt);
      attempted := attempted || called;
      attempts := attempts + [attempt];
      reports := reports + (if report.Some? then [(chain[i], report.value)] else []);
      w := Step(up.world, h, chain, start, w);
      i := i + 1;
      if next != Continue {
        break;
      }
    }
    WalkUnfolds(up.world, h, chain, start, w);
  }

  /** CallWithFallbackOpts.  `reports` lists the RecordSuccess and RecordFailure
      calls made on the gate. */
  method CallWithFallbackOpts(up: Upstream, chain: seq<string>, h: Hooks)
    returns (result: ModelResult, reports: seq<(string, Report)>)
    requires LookupKeepsModel(h, chain)
    modifies up
    ensures var w := WalkOn(up.world, h, chain, old(up.calls), START);
            result == Conclude(chain, w) && reports == if h.gated then w.reports else []
    ensures up.calls == old(up.calls) + Retries(result.attempts)
  {
    reports := [];
    if |chain| == 0 {
      result := ErrResult("", "", NoModels);
      result := result.(degraded := true);
      return;
    }
    var attempts, last, attempted, next;
    attempts, last, attempted, next, reports := WalkChain(up, chain, h);
    if next == Return {
      result := last.(attempts := attempts);
      return;
    }
    if !attempted {
      result := ErrResult("", "", AllUnhealthy(|chain|));
      result := result.(degraded := true, attempts := attempts);
      return;
    }
    result := last.(degraded := true, attempts := attempts);
    if !last.success {
      result := result.(error := Some(ChainFailed(|chain|, last.error)));
    }
  }
}
