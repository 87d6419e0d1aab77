/**
 What a whole walk did, read off its trace in terms of the gate, the cache, the
 output validator, the context and the providers it was given.
 */
module WalkMeaning {
  import opened Prelude
  import opened Runner
  import opened Fallback

  // ---- every row is the record of its own turn ------------------------------------------

  /** The number of the first upstream call of turn `i`. */
  function CallsBefore(start: nat, attempts: seq<Attempt>, i: nat): nat
    requires i <= |attempts|
  {
    start + Retries(attempts[..i])
  }

  ghost predicate Turned(world: World, h: Hooks, chain: seq<string>, start: nat, w: Walk, i: nat)
    requires i < |w.attempts| == |w.seen| <= |chain|
  {
    && w.seen[i] == Observe(world, h, chain[i], i, CallsBefore(start, w.attempts, i))
    && w.attempts[i] == AttemptAfter(i, chain[i], world.provider(chain[i]), w.seen[i])
  }

  /** The reports a trace stands for, in order. */
  function ReportsFor(t: seq<Attempt>): seq<(string, Report)> {
    if t == [] then []
    else
      ReportsFor(Front(t)) +
      (match Last(t).outcome
       case Success => [(Last(t).model, Good)]
       case SchemaInvalid => [(Last(t).model, Bad)]
       case Error => if Last(t).reason.Some? then [(Last(t).model, Bad)] else []
       case _ => [])
  }

  ghost predicate AllTurned(world: World, h: Hooks, chain: seq<string>, start: nat, w: Walk) {
    && |w.attempts| == |w.seen| <= |chain| && w.reports == ReportsFor(w.attempts)
    && forall i :: 0 <= i < |w.attempts| ==> Turned(world, h, chain, start, w, i)
  }

  lemma OneMoreReport(i: nat, model: string, provider: string, o: Observation, t: seq<Attempt>)
    requires Plausible(model, o)
    ensures ReportsFor(t + [AttemptAfter(i, model, provider, o)])
            == ReportsFor(t) + (if ReportAfter(o).Some? then [(model, ReportAfter(o).value)] else [])
  {
    FrontOfAppend(t, AttemptAfter(i, model, provider, o));
  }

  /** The turn a step takes. */
  function Seen(world: World, h: Hooks, chain: seq<string>, start: nat, w: Walk): Observation
    requires |w.attempts| < |chain|
  {
    Observe(world, h, chain[|w.attempts|], |w.attempts|, start + Retries(w.attempts))
  }

  lemma StepTakesATurn(world: World, h: Hooks, chain: seq<string>, start: nat, w: Walk)
    requires |w.attempts| < |chain|
    ensures var k, o, w' := |w.attempts|, Seen(world, h, chain, start, w), Step(world, h, chain, start, w);
            && w'.attempts == w.attempts + [AttemptAfter(k, chain[k], world.provider(chain[k]), o)]
            && w'.seen == w.seen + [o]
            && w'.reports == w.reports + (if ReportAfter(o).Some? then [(chain[k], ReportAfter(o).value)] else [])
  {
    hide Observe, AttemptAfter, ReportAfter, ResultAfter, NextAfter, Retries;
  }

  lemma TurnsStay(world: World, h: Hooks, chain: seq<string>, start: nat, w: Walk, w': Walk, i: nat)
    requires |w.attempts| == |w.seen| && |w'.attempts| == |w'.seen| <= |chain| && i < |w.attempts|
    requires w.attempts <= w'.attempts && w.seen <= w'.seen && Turned(world, h, chain, start, w, i)
    ensures Turned(world, h, chain, start, w', i)
  {
    hide Observe, AttemptAfter, Retries;
    assert w'.attempts[..i] == w.attempts[..i];
  }

  lemma LastTurn(world: World, h: Hooks, chain: seq<string>, start: nat, w: Walk)
    requires |w.attempts| == |w.seen| < |chain|
    ensures var w' := Step(world, h, chain, start, w);
            |w'.attempts| == |w'.seen| == |w.attempts| + 1 && Turned(world, h, chain, start, w', |w.attempts|)
  {
    StepTakesATurn(world, h, chain, start, w);
    hide Observe, AttemptAfter, ReportAfter, Retries, Step;
    assert Step(world, h, chain, start, w).attempts[..|w.attempts|] == w.attempts;
  }

  lemma OneMoreTurn(world: World, h: Hooks, chain: seq<string>, start: nat, w: Walk)
    requires AllTurned(world, h, chain, start, w) && |w.attempts| < |chain| && LookupKeepsModel(h, chain)
    ensures AllTurned(world, h, chain, start, Step(world, h, chain, start, w))
  {
    var k, o := |w.attempts|, Seen(world, h, chain, start, w);
    ObservationIsPlausible(world, h, chain, k, start + Retries(w.attempts));
    OneMoreReport(k, chain[k], world.provider(chain[k]), o, w.attempts);
    StepTakesATurn(world, h, chain, start, w);
    LastTurn(world, h, chain, start, w);
    hide Observe, AttemptAfter, ReportAfter, LookupKeepsModel, Plausible, Retries, Step, ReportsFor, Turned;
    var w' := Step(world, h, chain, start, w);
    forall i | 0 <= i < |w'.attempts| ensures Turned(world, h, chain, start, w', i) {
      if i < k { TurnsStay(world, h, chain, start, w, w', i); }
    }
  }

  lemma {:induction false} RestIsTurned(world: World, h: Hooks, chain: seq<string>, start: nat, w: Walk)
    requires AllTurned(world, h, chain, start, w) && LookupKeepsModel(h, chain)
    ensures AllTurned(world, h, chain, start, WalkOn(world, h, chain, start, w))
    decreases |chain| - |w.attempts|
  {
    hide AllTurned, Step, LookupKeepsModel, WalkOn;
    WalkUnfolds(world, h, chain, start, w);
    if !Over(chain, w) {
      OneMoreTurn(world, h, chain, start, w);
      RestIsTurned(world, h, chain, start, Step(world, h, chain, start, w));
    }
  }

  // ---- what a row says ------------------------------------------------------------------

  /** A model the gate refuses is skipped, and nothing else is. */
  predicate SkipsWhenRefused(h: Hooks, i: nat, a: Attempt) {
    && (a.outcome == SkippedOpen <==> h.gated && !h.allow(i))
    && (a.outcome == SkippedOpen ==>
          && a.reason == Some(SkippedUnhealthy) && a.error == a.reason && a.response.None?
          && a.infraFailure && a.httpStatus == 0
          && a.retryCount == 0 && a.inputTokens == 0 && a.outputTokens == 0 && a.totalTokens == 0 && a.cost == 0)
  }

  /** Otherwise a cached answer is used whenever there is one. */
  predicate UsesTheCache(h: Hooks, i: nat, a: Attempt) {
    && (a.outcome == CacheHit <==> (h.gated ==> h.allow(i)) && h.lookup(i).Some?)
    && (a.outcome == CacheHit ==>
          && a.response == h.lookup(i).value.response && a.reason.None? && a.error.None?
          && a.retryCount == 0 && a.totalTokens == 0 && a.cost == 0)
  }

  /** Otherwise the model is called, and its answer used exactly when it passes the validator. */
  predicate CallsAndValidates(h: Hooks, r: ModelResult, a: Attempt) {
    && a.provider == r.provider && a.response == r.response && a.error == r.error && a.httpStatus == r.httpStatus
    && a.infraFailure == r.infraFailure && a.retryCount == r.retryCount && a.inputTokens == r.inputTokens
    && a.outputTokens == r.outputTokens && a.totalTokens == r.totalTokens && a.cost == r.cost
    && (a.outcome == Success <==> r.response.Some? && h.validate(r.response.value))
    && (a.outcome == SchemaInvalid <==> r.response.Some? && !h.validate(r.response.value))
    && (a.outcome == Error <==> r.response.None?)
    && a.reason == (if a.outcome == SchemaInvalid then Some(InvalidOutput)
                    else if a.outcome == Error && r.fallbackEligible then r.error
                    else None)
  }

  predicate RowMeans(world: World, h: Hooks, chain: seq<string>, start: nat, t: seq<Attempt>, i: nat)
    requires i < |t| <= |chain|
  {
    && t[i].position == i && t[i].model == chain[i] && t[i].fallbackUsed == (i > 0)
    && SkipsWhenRefused(h, i, t[i]) && UsesTheCache(h, i, t[i])
    && ((h.gated ==> h.allow(i)) && h.lookup(i).None? ==>
          CallsAndValidates(h, CallResult(world, chain[i], CallsBefore(start, t, i)), t[i]))
  }

  /** A row nothing after it can change: a used answer, or an error no other model would cure. */
  predicate Definitive(a: Attempt) {
    a.outcome == Success || a.outcome == CacheHit || (a.outcome == Error && a.reason.None?)
  }

  lemma ReadTurn(world: World, h: Hooks, chain: seq<string>, start: nat, w: Walk, i: nat)
    requires |w.attempts| == |w.seen| <= |chain| && i < |w.attempts| && LookupKeepsModel(h, chain)
    requires Turned(world, h, chain, start, w, i)
    ensures RowMeans(world, h, chain, start, w.attempts, i)
    ensures NextAfter(w.seen[i]) == Continue <==>
              !Definitive(w.attempts[i]) && (w.attempts[i].outcome == SkippedOpen || !h.gone(i))
  {
    var calls := CallsBefore(start, w.attempts, i);
    CallIsClassified(world, chain[i], calls);
    hide CallResult, Retries;
  }

  /** The whole walk: what each row is, by the gate, the cache, the provider and the
      validator; that it goes past a row exactly when the row is not definitive and
      the caller still there; and what the gate was told, in order. */
  lemma WalkMeans(world: World, h: Hooks, chain: seq<string>, start: nat)
    requires LookupKeepsModel(h, chain)
    ensures var w := WalkOn(world, h, chain, start, START);
            && |w.attempts| <= |chain| && (w.attempts == [] <==> chain == [])
            && (forall i :: 0 <= i < |w.attempts| ==> RowMeans(world, h, chain, start, w.attempts, i))
            && (forall i :: 0 <= i < |w.attempts| && i < |chain| - 1 ==>
                  (i < |w.attempts| - 1 <==>
                   !Definitive(w.attempts[i]) && (w.attempts[i].outcome == SkippedOpen || !h.gone(i))))
            && w.reports == ReportsFor(w.attempts)
  {
    var w := WalkOn(world, h, chain, start, START);
    EveryWalk(world, h, chain, start);
    RestIsTurned(world, h, chain, start, START);
    hide WalkOn, LookupKeepsModel, RowMeans, Definitive;
    forall i | 0 <= i < |w.attempts|
      ensures RowMeans(world, h, chain, start, w.attempts, i)
      ensures NextAfter(w.seen[i]) == Continue <==>
                !Definitive(w.attempts[i]) && (w.attempts[i].outcome == SkippedOpen || !h.gone(i))
    {
      ReadTurn(world, h, chain, start, w, i);
    }
    hide NextAfter, Turned, Records;
  }

  /** The sums of a trace, row after row. */
  lemma SumsOverTheTrace(t: seq<Attempt>, a: Attempt, model: string)
    ensures Tokens([]) == 0 && Tokens(t + [a]) == Tokens(t) + a.totalTokens
    ensures Cost([]) == 0 && Cost(t + [a]) == Cost(t) + a.cost
    ensures Retries([]) == 0 && Retries(t + [a]) == Retries(t) + a.retryCount
    ensures Reported([], model, Good) == 0
    ensures Reported(t + [a], model, Good)
            == Reported(t, model, Good) + (if a.model == model && a.outcome == Success then 1 else 0)
    ensures var bad := a.outcome == SchemaInvalid || (a.outcome == Error && a.reason.Some?);
            && Reported([], model, Bad) == 0
            && Reported(t + [a], model, Bad) == Reported(t, model, Bad) + (if a.model == model && bad then 1 else 0)
  {
    FrontOfAppend(t, a);
  }

  // ---- what the caller gets --------------------------------------------------------------

  predicate AllSkipped(t: seq<Attempt>) {
    forall i :: 0 <= i < |t| ==> t[i].outcome == SkippedOpen
  }

  lemma SkippedThroughout(chain: seq<string>, w: Walk)
    requires Faithful(chain, w)
    ensures AllSkipped(w.attempts) <==> !w.attempted
  {
    forall i | 0 <= i < |w.attempts| ensures w.seen[i].Skipped? <==> w.attempts[i].outcome == SkippedOpen {
      ReadRecord(i, chain[i], w.attempts[i], w.seen[i]);
    }
    hide Records;
  }

  /** The error of a failed walk: that all models were refused; or the definitive
      error itself; or that the chain failed, with the last row's error. */
  lemma ErrorOfAWalk(chain: seq<string>, w: Walk)
    requires chain != [] && Faithful(chain, w) && Over(chain, w)
    ensures w.attempts != []
    ensures Conclude(chain, w).error
            == (if Last(w.attempts).outcome in {Success, CacheHit, SchemaInvalid} then None
                else if AllSkipped(w.attempts) then Some(AllUnhealthy(|chain|))
                else if Definitive(Last(w.attempts)) then Last(w.attempts).error
                else Some(ChainFailed(|chain|, Last(w.attempts).error)))
  {
    SkippedThroughout(chain, w);
    var k := |w.attempts| - 1;
    ReadRecord(k, chain[k], w.attempts[k], w.seen[k]);
    hide AllSkipped;
  }

  /** A result with the attributes of a row. */
  predicate IsOfRow(r: ModelResult, a: Attempt) {
    && r.model == a.model && r.provider == a.provider && r.response == a.response
    && r.inputTokens == a.inputTokens && r.outputTokens == a.outputTokens && r.totalTokens == a.totalTokens
    && r.cost == a.cost && r.retryCount == a.retryCount && r.httpStatus == a.httpStatus
    && r.infraFailure == a.infraFailure && r.fallbackUsed == (a.position > 0)
  }

  lemma ResultIsOfItsRow(i: nat, model: string, provider: string, o: Observation)
    requires Plausible(model, o)
    ensures var r, a := ResultAfter(i, model, provider, o), AttemptAfter(i, model, provider, o);
            && IsOfRow(r, a) && a.position == i
            && (NextAfter(o) == Return ==> Definitive(a) && r.degraded == (i > 0))
            && (NextAfter(o) != Return ==> !Definitive(a))
  {
  }

  /** Everything else is the last row's, unless every model was refused; a walk
      that moved on or fell through says so. */
  lemma ResultOfAWalk(chain: seq<string>, w: Walk)
    requires chain != [] && Faithful(chain, w) && Over(chain, w)
    ensures w.attempts != []
    ensures var r, end := Conclude(chain, w), Last(w.attempts);
            && r.attempts == w.attempts
            && (AllSkipped(w.attempts) ==>
                  r == ErrResult("", "", AllUnhealthy(|chain|)).(degraded := true, attempts := w.attempts))
            && (!AllSkipped(w.attempts) ==>
                  IsOfRow(r, end) && (r.degraded <==> |w.attempts| > 1 || !Definitive(end)))
  {
    SkippedThroughout(chain, w);
    var k := |w.attempts| - 1;
    ResultIsOfItsRow(k, chain[k], w.attempts[k].provider, w.seen[k]);
    hide AllSkipped, ResultAfter, AttemptAfter, Definitive, Plausible;
  }

  /** Without any model there is nothing to try. */
  lemma NothingToTry(w: Walk)
    ensures Conclude([], w) == ErrResult("", "", NoModels).(degraded := true)
  {
  }
}
