/**
 What each step of the pipeline does, in plain terms: what the breaker's log, the
 cache and the schema check have to say for a model to be skipped, replayed,
 called, used or passed over.
 */
module GatewaySteps {
  import opened Prelude
  import opened Runner
  import opened Fallback
  import opened PredictionCache
  import opened Gateway
  import Breaker
  import Limiter

  /** Production predicts: neither a test run nor a single-model override. */
  predicate Production(j: Job) {
    j.useCache && !j.overrideModel
  }

  predicate Guarded(s: Setup, j: Job) {
    Production(j) && s.breaker.enabled
  }

  /** Enough failures of the pair in a row, and the window of the last one still open. */
  predicate Shut(s: Setup, log: seq<Breaker.Event>, k: Breaker.Key, at: int) {
    var c, n := Breaker.WithDefaults(s.breaker), Breaker.Streak(log, k);
    n >= c.threshold && at < Breaker.LastFailure(log, k) + Breaker.Cooldown(c, n - c.threshold + 1)
  }

  function PairInHand(q: Request): Breaker.Key
    requires |q.walk.attempts| < |q.job.chain|
  {
    Breaker.Key(q.job.base.task, q.job.chain[|q.walk.attempts|])
  }

  /** A production predict with a schema takes only answers that pass it. */
  predicate PassesCheck(s: Setup, j: Job, text: string) {
    Production(j) && j.base.outputSchema != "" ==> s.parse(j.base.outputSchema, text).Some?
  }

  /** The request has moved on by one row, about the model it had in hand. */
  predicate OneRowMore(q: Request, q': Request)
    requires |q.walk.attempts| < |q.job.chain|
  {
    var i := |q.walk.attempts|;
    && q'.job == q.job && q'.grant == q.grant && q'.served == q.served
    && |q'.walk.attempts| == i + 1 && q'.walk.attempts[..i] == q.walk.attempts
    && var row := q'.walk.attempts[i];
       row.position == i && row.model == q.job.chain[i] && row.fallbackUsed == (i > 0)
  }

  /** Waiting for the next model's turn, or at the end of the chain. */
  function NextPhase(q: Request): Phase {
    if |q.walk.attempts| < |q.job.chain| then Asking else Walked
  }

  // ---- asking the breaker -----------------------------------------------------------------

  predicate Blocked(s: Setup, st: State, q: Request, at: int)
    requires |q.walk.attempts| < |q.job.chain|
  {
    Guarded(s, q.job) && Shut(s, st.events, PairInHand(q), at)
  }

  /** The model is skipped when its pair is shut and looked for in the cache
      otherwise; the breaker learns of the question when it is asked one. */
  lemma AskMeans(s: Setup, st: State, r: nat, at: int)
    requires Wired(st) && Legal(s, st, Ask(r, at))
    ensures var q, st' := st.requests[r], Apply(s, st, Ask(r, at));
            var q' := st'.requests[r];
            && st' == st.(requests := st.requests[r := q'], events := st'.events, now := at)
            && st'.events
               == st.events + (if Guarded(s, q.job) then [Breaker.Event(PairInHand(q), Breaker.Ask, at)] else [])
            && (!Blocked(s, st, q, at) ==> q' == q.(phase := Looking))
            && (Blocked(s, st, q, at) ==>
                  && OneRowMore(q, q') && q'.phase == NextPhase(q') && q'.hit == q.hit
                  && var row := Last(q'.walk.attempts);
                     && row.outcome == SkippedOpen && row.reason == Some(SkippedUnhealthy) && row.response.None?
                     && row.provider == s.provider(row.model) && row.error == row.reason && row.infraFailure
                     && row.httpStatus == 0 && row.inputTokens == 0 && row.outputTokens == 0
                     && row.totalTokens == 0 && row.cost == 0 && row.retryCount == 0)
  {
    hide Breaker.Streak, Breaker.LastFailure, Breaker.Cooldown, Wired;
  }

  // ---- looking in the cache ------------------------------------------------------------------

  /** The current cache entry for the model in hand, if the request may use the cache. */
  function FoundFor(st: State, q: Request, at: int): Option<Entry>
    requires |q.walk.attempts| < |q.job.chain|
  {
    var j := q.job;
    if j.useCache && j.cacheEnabled && !j.overrideModel && !j.overrideVersion
    then Current(st.puts, j.base.(model := j.chain[|q.walk.attempts|]), at)
    else None
  }

  /** The walk ends on a stored answer; otherwise the model is called. */
  predicate LookedUp(q: Request, q': Request, found: Option<Entry>)
    requires |q.walk.attempts| < |q.job.chain|
  {
    match found
    case None => q' == q.(phase := Calling)
    case Some(e) =>
      && OneRowMore(q, q') && q'.phase == Walked && q'.hit == found
      && var row := Last(q'.walk.attempts);
         && row.outcome == CacheHit && row.response == Some(e.rawResponse) && row.provider == e.provider
         && row.reason.None? && row.error.None? && !row.infraFailure && row.httpStatus == 0
         && row.inputTokens == 0 && row.outputTokens == 0 && row.totalTokens == 0 && row.cost == 0
         && row.retryCount == 0
  }

  lemma LookMeans(s: Setup, st: State, r: nat, at: int)
    requires Sound(s, st) && Legal(s, st, Look(r, at))
    ensures var q, st' := st.requests[r], Apply(s, st, Look(r, at));
            && st' == st.(requests := st.requests[r := st'.requests[r]], now := at)
            && LookedUp(q, st'.requests[r], FoundFor(st, q, at))
  {
    var q := st.requests[r];
    if FoundFor(st, q, at).Some? { HitIsPlausible(s, st, q, at); }
    hide Current, RequestOk, FromLiveCall;
  }

  // ---- the live answer ------------------------------------------------------------------------

  /** What the breaker is told of a live answer. */
  function Telling(s: Setup, q: Request, row: Attempt, at: int): seq<Breaker.Event>
    requires |q.walk.attempts| < |q.job.chain|
  {
    if !Guarded(s, q.job) then []
    else match row.outcome
         case Success => [Breaker.Event(PairInHand(q), Breaker.Success, at)]
         case SchemaInvalid => [Breaker.Event(PairInHand(q), Breaker.Failure, at)]
         case Error => if row.reason.Some? then [Breaker.Event(PairInHand(q), Breaker.Failure, at)] else []
         case _ => []
  }

  /** Where a live answer takes its request: it is used exactly when it passes the
      schema check; one that does not, and an error another model may cure, send the
      walk on, as long as the caller is there and the chain has more. */
  predicate Answered(s: Setup, q: Request, q': Request, result: ModelResult, gone: bool)
    requires |q.walk.attempts| < |q.job.chain|
  {
    && OneRowMore(q, q') && q'.hit == q.hit
    && var row := Last(q'.walk.attempts);
    && (row.outcome == Success <==> result.response.Some? && PassesCheck(s, q.job, result.response.value))
    && (row.outcome == SchemaInvalid <==> result.response.Some? && !PassesCheck(s, q.job, result.response.value))
    && (row.outcome == Error <==> result.response.None?)
    && row.reason == (if row.outcome == SchemaInvalid then Some(InvalidOutput)
                      else if row.outcome == Error && result.fallbackEligible then result.error else None)
    && row.response == result.response && row.provider == result.provider && row.error == result.error
    && row.infraFailure == result.infraFailure && row.httpStatus == result.httpStatus
    && row.inputTokens == result.inputTokens && row.outputTokens == result.outputTokens
    && row.totalTokens == result.totalTokens && row.cost == result.cost && row.retryCount == result.retryCount
    && q'.phase == (if row.outcome == Success || (row.outcome == Error && row.reason.None?) || gone then Walked
                    else NextPhase(q'))
  }

  lemma WhereAnAnswerLeads(s: Setup, q: Request, result: ModelResult, gone: bool)
    requires MidWalk(q) && IsCallOf(Model(q), result)
    ensures Answered(s, q, Moved(q, result.provider, Seen(s, q, result, gone)), result, gone)
  {
  }

  lemma WhatTheBreakerIsTold(s: Setup, q: Request, result: ModelResult, gone: bool, at: int)
    requires MidWalk(q) && IsCallOf(Model(q), result)
    ensures var o := Seen(s, q, result, gone);
            Told(s, q, o, at) == Telling(s, q, Last(Moved(q, result.provider, o).walk.attempts), at)
  {
  }

  /** The live answer of the model in hand. */
  lemma AnswerMeans(s: Setup, st: State, r: nat, result: ModelResult, gone: bool, at: int)
    requires Wired(st) && Legal(s, st, Action.Answer(r, result, gone, at))
    ensures var q, st' := st.requests[r], Apply(s, st, Action.Answer(r, result, gone, at));
            var q' := st'.requests[r];
            && Answered(s, q, q', result, gone)
            && st' == st.(requests := st.requests[r := q'], now := at,
                          events := st.events + Telling(s, q, Last(q'.walk.attempts), at),
                          lives := st.lives + if result.response.Some?
                                              then [LiveCall(q.job.base.(model := Model(q)), result)] else [])
  {
    WhereAnAnswerLeads(s, st.requests[r], result, gone);
    WhatTheBreakerIsTold(s, st.requests[r], result, gone, at);
    hide Wired, Moved, Seen, Told, Telling, PassesCheck;
  }

  // ---- the ends of a request ---------------------------------------------------------------------

  /** A predict is admitted by the limiter, when it is subject to it, and then
      starts at the head of its chain with its reservation. */
  lemma ArriveMeans(s: Setup, st: State, job: Job, seen: int, at: int)
    requires Wired(st) && Legal(s, st, Arrive(job, seen, at))
    ensures var st', limited := Apply(s, st, Arrive(job, seen, at)), job.enforceLimits && s.limits.enabled;
            var (books, decision) := Limiter.ReserveSpec(s.limits, st.books, job.base.task, job.est, seen, at);
            var grant := if limited then Some(|st.books.grants|) else None;
            && st'.books == (if limited then books else st.books)
            && st'.requests == (if limited && decision.Refused? then st.requests
                                else st.requests + [Request(job, Asking, START, grant, None, None)])
            && st' == st.(requests := st'.requests, books := st'.books, now := at)
  {
    hide Limiter.ReserveSpec, Wired;
  }

  /** The reservation is settled once, with the tokens of the whole trace. */
  lemma SettleMeans(s: Setup, st: State, r: nat, at: int)
    requires Wired(st) && Legal(s, st, Settle(r, at))
    ensures var q, st' := st.requests[r], Apply(s, st, Settle(r, at));
            && st' == st.(requests := st.requests[r := q.(phase := Settled)], books := st'.books, now := at)
            && (q.grant.None? ==> st'.books == st.books)
            && (q.grant.Some? ==>
                  st'.books == Limiter.SettleSpec(s.limits, st.books, q.grant.value, Tokens(q.walk.attempts)))
  {
    hide Limiter.SettleSpec, Tokens;
  }

  /** What a walk without a hit answers with: its last row, if that is an answer. */
  predicate ServedFromTheWalk(s: Setup, q: Request, v: Served)
    requires q.walk.attempts != [] && q.job.chain != []
  {
    var end, schema := Last(q.walk.attempts), q.job.base.outputSchema;
    && !v.cacheHit && v.totalTokens == end.totalTokens && v.cost == end.cost
    && (v.success <==> end.outcome in {Success, SchemaInvalid, CacheHit})
    && (v.success ==> v.response == end.response && end.response.Some? && v.model == end.model)
    && (v.success && schema != "" ==>
          && v.output == s.parse(schema, end.response.value) && v.outputValid == Some(v.output.Some?))
    && (!v.success || schema == "" ==> v.output.None? && v.outputValid.None?)
  }

  predicate ServedFromTheCache(q: Request, v: Served)
    requires q.hit.Some? && q.job.chain != []
  {
    var e := q.hit.value;
    v == Served(e.model, Some(e.rawResponse), true, e.output, e.outputValid, true, e.model != q.job.chain[0], 0, 0)
  }

  /** A clean answer, of a request that may use the cache and did not find it there. */
  predicate IsWorthCaching(q: Request, v: Served) {
    var j := q.job;
    && j.useCache && j.cacheEnabled && !j.overrideModel && !j.overrideVersion
    && q.hit.None? && v.success && (j.base.outputSchema == "" || v.output.Some?)
  }

  /** What it leaves: an entry under its own model, for the task's time to live. */
  function LeftInCache(q: Request, v: Served, at: int): seq<Put<KeyInputs, Entry>>
    requires q.walk.attempts != [] && (v.success && q.hit.None? ==> Last(q.walk.attempts).response.Some?)
  {
    var end := Last(q.walk.attempts);
    if !IsWorthCaching(q, v) then []
    else
      [Put(q.job.base.(model := end.model),
           Entry(end.model, end.provider, end.response.value, v.output, v.outputValid,
                 end.inputTokens, end.outputTokens, end.totalTokens), q.job.ttl, at)]
  }

  lemma ShapeMeans(s: Setup, q: Request, at: int)
    requires q.job.chain != [] && Faithful(q.job.chain, q.walk) && Over(q.job.chain, q.walk)
    ensures q.walk.attempts != []
    ensures q.hit.Some? ==> ServedFromTheCache(q, Shape(s, q))
    ensures q.hit.None? ==> ServedFromTheWalk(s, q, Shape(s, q))
    ensures Fill(s, q, at) == LeftInCache(q, Shape(s, q), at)
  {
    AnswerOfAWalk(q.job.chain, q.walk);
    ReadEnd(q);
    hide Faithful, Conclude;
  }

  /** The request is answered, and a clean answer that may be cached is cached. */
  lemma FinishMeans(s: Setup, st: State, r: nat, at: int)
    requires Sound(s, st) && Legal(s, st, Finish(r, at))
    ensures var q, st' := st.requests[r], Apply(s, st, Finish(r, at));
            var v := st'.requests[r].served;
            && q.walk.attempts != [] && v.Some?
            && (if q.hit.Some? then ServedFromTheCache(q, v.value) else ServedFromTheWalk(s, q, v.value))
            && st' == st.(requests := st.requests[r := q.(phase := Done, served := v)],
                          puts := st.puts + LeftInCache(q, v.value, at), now := at)
  {
    assert RequestOk(s, st.requests[r], st.puts, st.lives);
    ShapeMeans(s, st.requests[r], at);
    hide Faithful, FromLiveCall, Shape, Fill, LeftInCache;
  }

  /** The last row is the result the walk ends with, when that is a success. */
  lemma ReadEnd(q: Request)
    requires q.job.chain != [] && Faithful(q.job.chain, q.walk) && Over(q.job.chain, q.walk)
    ensures q.walk.attempts != []
    ensures var result, end := Conclude(q.job.chain, q.walk), Last(q.walk.attempts);
            && (result.success ==> result.response.Some? && result.provider == end.provider
                                   && result.inputTokens == end.inputTokens && result.outputTokens == end.outputTokens)
            && (!result.success ==> result.response.None?)
  {
    var k := |q.walk.attempts| - 1;
    ReadRecord(k, q.job.chain[k], q.walk.attempts[k], q.walk.seen[k]);
  }

  /** An operator's reset clears a pair the breaker knows, and touches nothing else. */
  lemma ResetMeans(s: Setup, st: State, k: Breaker.Key, at: int)
    requires Wired(st) && Legal(s, st, AdminReset(k, at))
    ensures var st' := Apply(s, st, AdminReset(k, at));
            && st' == st.(events := st'.events, now := at)
            && st'.events
               == (if Breaker.Count(st.events, k, Breaker.Success) + Breaker.Count(st.events, k, Breaker.Failure) > 0
                   then st.events + [Breaker.Event(k, Breaker.Reset, at)] else st.events)
  {
    hide Breaker.Count;
  }

  // ---- getting to the end -----------------------------------------------------------------------

  /** Steps a request still has to take, at most. */
  function StepsLeft(q: Request): int {
    var models := |q.job.chain| - |q.walk.attempts|;
    match q.phase
    case Asking => 3 * models + 2
    case Looking => 3 * models + 1
    case Calling => 3 * models
    case Walked => 2
    case Settled => 1
    case Done => 0
  }

  /** A request that is not done is never stuck, whatever its model answers. */
  lemma NeverStuck(s: Setup, st: State, r: nat, result: ModelResult, gone: bool) returns (a: Action)
    requires Sound(s, st) && r < |st.requests| && st.requests[r].phase != Done
    requires |st.requests[r].walk.attempts| < |st.requests[r].job.chain| ==> IsCallOf(Model(st.requests[r]), result)
    requires result.totalTokens >= 0
    ensures Legal(s, st, a) && !a.Arrive? && !a.AdminReset? && a.r == r
    ensures a.Answer? ==> a.result == result && a.gone == gone
  {
    assert RequestOk(s, st.requests[r], st.puts, st.lives);
    hide RequestOk, FromLiveCall;
    match st.requests[r].phase
    case Asking => a := Ask(r, st.now);
    case Looking => a := Look(r, st.now);
    case Calling => a := Action.Answer(r, result, gone, st.now);
    case Walked => a := Settle(r, st.now);
    case Settled => a := Finish(r, st.now);
  }

  /** One step nearer the end. */
  predicate Nearer(q: Request, q': Request) {
    0 <= StepsLeft(q') < StepsLeft(q)
  }

  lemma AskCounts(s: Setup, st: State, r: nat, at: int)
    requires Wired(st) && Legal(s, st, Ask(r, at))
    ensures Nearer(st.requests[r], Apply(s, st, Ask(r, at)).requests[r])
  {
    AskMeans(s, st, r, at);
    hide Apply, Wired, Blocked;
  }

  lemma LookCounts(s: Setup, st: State, r: nat, at: int)
    requires Sound(s, st) && Legal(s, st, Look(r, at))
    ensures Nearer(st.requests[r], Apply(s, st, Look(r, at)).requests[r])
  {
    LookMeans(s, st, r, at);
    hide Apply, RequestOk, FromLiveCall, FoundFor;
  }

  lemma AnswerCounts(s: Setup, st: State, r: nat, result: ModelResult, gone: bool, at: int)
    requires Wired(st) && Legal(s, st, Action.Answer(r, result, gone, at))
    ensures Nearer(st.requests[r], Apply(s, st, Action.Answer(r, result, gone, at)).requests[r])
  {
    AnswerMeans(s, st, r, result, gone, at);
    hide Apply, Wired, Telling, PassesCheck;
  }

  /** Nor is anyone who comes with a chain kept out, or an operator's reset. */
  lemma AnyoneMayCome(s: Setup, st: State, job: Job, k: Breaker.Key, seen: int, at: int)
    requires job.chain != [] && seen <= at && st.now <= at
    ensures Legal(s, st, Arrive(job, seen, at)) && Legal(s, st, AdminReset(k, at))
  {
  }

  /** And it has finitely many steps to take, three a model and two more. */
  lemma EveryStepCounts(s: Setup, st: State, a: Action)
    requires Sound(s, st) && Legal(s, st, a) && !a.Arrive? && !a.AdminReset?
    ensures Nearer(st.requests[a.r], Apply(s, st, a).requests[a.r])
    ensures StepsLeft(st.requests[a.r]) <= 3 * |st.requests[a.r].job.chain| + 2
  {
    hide RequestOk, Apply, FromLiveCall;
    match a
    case Ask(r, at) => AskCounts(s, st, r, at);
    case Look(r, at) => LookCounts(s, st, r, at);
    case Answer(r, result, gone, at) => AnswerCounts(s, st, r, result, gone, at);
    case Settle(r, at) => SettleMeans(s, st, r, at);
    case Finish(r, at) => FinishMeans(s, st, r, at);
  }
}
