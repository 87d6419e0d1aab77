/** One model call: the bounded retry loop and the classification of its outcome. */
module Runner {
  import opened Prelude

  // ---- failure classification -------------------------------------------------

  /** What a provider call can fail with: the caller went away, a non-2xx
      response, or anything else (network, timeout, undecodable body). */
  datatype CallError = Cancelled | Api(status: int, message: string) | Transport(timedOut: bool)

  predicate IsInfraFailure(e: CallError)
    ensures IsInfraFailure(e) <==> e.Transport? || (e.Api? && (e.status == 429 || e.status >= 500))
  {
    match e
    case Cancelled => false
    case Api(status, _) => status == 429 || status >= 500
    case Transport(_) => true
  }

  /** Which errors move the walk to the next model. */
  predicate ShouldFallback(e: CallError)
    ensures ShouldFallback(e) <==> e.Transport? || (e.Api? && (e.status in {401, 403, 404, 429} || e.status >= 500))
  {
    if IsInfraFailure(e) then true
    else match e
         case Api(status, _) => status == 401 || status == 403 || status == 404
         case _ => false
  }

  predicate IsRetryable(status: int)
    ensures IsRetryable(status) ==> IsInfraFailure(Api(status, ""))
    ensures IsRetryable(status) <==> status in {429, 500, 503}
  {
    status == 429 || status == 500 || status == 503
  }

  // ---- results ------------------------------------------------------------------

  datatype Failure =
    | UnknownModel | NotConfigured | CallFailed(error: CallError) | EmptyResponse | EmptyContent
    | SkippedUnhealthy | InvalidOutput
    | NoModels | AllUnhealthy(chain: nat) | ChainFailed(chain: nat, last: Option<Failure>)

  datatype Outcome = Success | Error | SchemaInvalid | SkippedOpen | CacheHit

  /** One model touched by a walk.  `reason` says why the walk moved past it. */
  datatype Attempt = Attempt(
    position: nat, model: string, provider: string, outcome: Outcome, fallbackUsed: bool, reason: Option<Failure>,
    response: Option<string>, error: Option<Failure>, httpStatus: int, infraFailure: bool, retryCount: nat,
    inputTokens: int, outputTokens: int, totalTokens: int, cost: int)

  /** Costs are whole micro-dollars. */
  datatype ModelResult = ModelResult(
    model: string, provider: string, response: Option<string>, inputTokens: int, outputTokens: int,
    totalTokens: int, cost: int, success: bool, error: Option<Failure>, fallbackUsed: bool, degraded: bool,
    attempts: seq<Attempt>, infraFailure: bool, fallbackEligible: bool, httpStatus: int, retryCount: nat)

  function ErrResult(model: string, provider: string, why: Failure): ModelResult {
    ModelResult(model, provider, None, 0, 0, 0, 0, false, Some(why), false, false, [], false, false, 0, 0)
  }

  // ---- the outside world -----------------------------------------------------------

  datatype Route = Unknown | Unconfigured | Live

  datatype Reply = Answer(choices: seq<string>, inputTokens: int, outputTokens: int) | Failed(error: CallError)

  /** Everything a walk meets outside the program.  `reply(n, m)` is what the
      n-th upstream call returns if it goes to model m; `done(n)` says whether
      the request's context had ended when that call came back. */
  datatype World = World(
    route: string -> Route, provider: string -> string, cost: (string, int, int) -> int,
    reply: (nat, string) -> Reply, done: nat -> bool)

  class Upstream {
    const world: World
    var calls: nat

    constructor (w: World)
      ensures world == w && calls == 0
    {
      world := w;
      calls := 0;
    }

    method Call(model: string) returns (r: Reply)
      modifies this
      ensures calls == old(calls) + 1 && r == world.reply(old(calls), model)
    {
      r := world.reply(calls, model);
      calls := calls + 1;
    }
  }

  // ---- the retry loop ----------------------------------------------------------------

  /** Call number `n` is worth repeating. */
  predicate WorthRetrying(w: World, model: string, n: nat) {
    var r := w.reply(n, model);
    r.Failed? && !w.done(n) && r.error.Api? && IsRetryable(r.error.status)
  }

  /** How many calls a model is given from call number `start`: up to three, all
      but the last of them worth repeating. */
  function Tries(w: World, model: string, start: nat): (t: nat)
    ensures 1 <= t <= 3
    ensures forall j :: start <= j < start + t - 1 ==> WorthRetrying(w, model, j)
    ensures t == 3 || !WorthRetrying(w, model, start + t - 1)
  {
    if !WorthRetrying(w, model, start) then 1
    else if !WorthRetrying(w, model, start + 1) then 2
    else 3
  }

  /** The last HTTP status among calls [start, end); zero when there was none. */
  function LastStatus(w: World, model: string, start: nat, end: nat): int
    requires start <= end
    decreases end - start
  {
    if start == end then 0
    else
      var r := w.reply(end - 1, model);
      if r.Failed? && r.error.Api? then r.error.status else LastStatus(w, model, start, end - 1)
  }

  /** What CallModel returns when its first upstream call is number `start`. */
  function CallResult(w: World, model: string, start: nat): ModelResult {
    match w.route(model)
    case Unknown => ErrResult(model, w.provider(model), UnknownModel)
    case Unconfigured => ErrResult(model, w.provider(model), NotConfigured).(fallbackEligible := true)
    case Live =>
      var t := Tries(w, model, start);
      match w.reply(start + t - 1, model)
      case Failed(e) =>
        ErrResult(model, w.provider(model), CallFailed(e)).(
          infraFailure := IsInfraFailure(e), fallbackEligible := ShouldFallback(e),
          httpStatus := LastStatus(w, model, start, start + t), retryCount := t)
      case Answer(choices, i, o) =>
        if choices == [] then
          ErrResult(model, w.provider(model), EmptyResponse).(httpStatus := 200, retryCount := t)
        else if choices[0] == "" then
          ErrResult(model, w.provider(model), EmptyContent).(httpStatus := 200, retryCount := t)
        else
          ModelResult(model, w.provider(model), Some(choices[0]), i, o, i + o, w.cost(model, i, o), true, None,
                      false, false, [], false, false, 200, t)
  }

  /** What every walk relies on about a live call. */
  predicate IsCallOf(model: string, r: ModelResult) {
    && r.model == model
    && (r.success <==> r.response.Some?) && (r.success <==> r.error.None?)
    && (r.success ==> !r.fallbackEligible)
    && (!r.success ==> r.totalTokens == 0 && r.cost == 0)
    && r.retryCount <= 3 && r.attempts == []
  }

  /** The reply that decided a live call. */
  function FinalReply(w: World, model: string, start: nat): Reply {
    w.reply(start + Tries(w, model, start) - 1, model)
  }

  predicate HasContent(r: Reply) {
    r.Answer? && r.choices != [] && r.choices[0] != ""
  }

  /** A call gives an answer exactly when its last reply carried content; it is
      eligible for fallback exactly when no client is configured or that reply
      was an eligible error. */
  lemma CallIsClassified(w: World, model: string, start: nat)
    ensures IsCallOf(model, CallResult(w, model, start))
    ensures var r, last := CallResult(w, model, start), FinalReply(w, model, start);
            match w.route(model)
            case Unknown => !r.success && !r.fallbackEligible && r.retryCount == 0
            case Unconfigured => !r.success && r.fallbackEligible && r.retryCount == 0
            case Live =>
              && r.retryCount == Tries(w, model, start)
              && (r.success <==> HasContent(last))
              && (r.fallbackEligible <==> last.Failed? && ShouldFallback(last.error))
  {
  }

  /** An answer is the first choice of the last reply, with that reply's tokens;
      a failure keeps the error that ended it. */
  lemma CallCarriesItsReply(w: World, model: string, start: nat)
    requires w.route(model).Live?
    ensures var r, last := CallResult(w, model, start), FinalReply(w, model, start);
            && r.provider == w.provider(model) && !r.fallbackUsed && !r.degraded
            && (r.infraFailure ==> last.Failed?)
            && (last.Answer? && last.choices != [] && last.choices[0] != "" ==>
                  && r.response == Some(last.choices[0]) && r.error.None? && r.httpStatus == 200
                  && r.inputTokens == last.inputTokens && r.outputTokens == last.outputTokens
                  && r.totalTokens == last.inputTokens + last.outputTokens
                  && r.cost == w.cost(model, last.inputTokens, last.outputTokens))
            && (last.Answer? && (last.choices == [] || last.choices[0] == "") ==>
                  && r.error == Some(if last.choices == [] then EmptyResponse else EmptyContent)
                  && r.response.None? && r.httpStatus == 200 && !r.infraFailure)
            && (last.Failed? ==>
                  && r.error == Some(CallFailed(last.error)) && r.response.None?
                  && r.infraFailure == IsInfraFailure(last.error)
                  && (last.error.Api? ==> r.httpStatus == last.error.status))
  {
  }

  /** A reply that is worth another try while there are tries left. */
  predicate Transient(w: World, model: string, n: nat) {
    var r := w.reply(n, model);
    r.Failed? && r.error.Api? && r.error.status in {429, 500, 503} && !w.done(n)
  }

  /** A live model is called again exactly after a transient failure, and three
      times at most. */
  lemma RetriedExactly(w: World, model: string, start: nat)
    requires w.route(model).Live?
    ensures var n := CallResult(w, model, start).retryCount;
            && 1 <= n <= 3
            && (n >= 2 <==> Transient(w, model, start))
            && (n == 3 <==> Transient(w, model, start) && Transient(w, model, start + 1))
  {
  }

  method CallModel(up: Upstream, model: string) returns (r: ModelResult)
    modifies up
    ensures r == CallResult(up.world, model, old(up.calls))
    ensures up.calls == old(up.calls) + r.retryCount
  {
    var provider := up.world.provider(model);
    match up.world.route(model) {
      case Unknown =>
        return ErrResult(model, provider, UnknownModel);
      case Unconfigured =>
        r := ErrResult(model, provider, NotConfigured);
        return r.(fallbackEligible := true);
      case Live =>
    }
    ghost var start := up.calls;
    var tries, lastStatus := 0, 0;
    var reply := Failed(Cancelled);
    var attempt := 0;
    while attempt < 3
      invariant 0 <= attempt <= 3 && tries == attempt && up.calls == start + tries
      invariant forall j :: start <= j < start + tries ==> WorthRetrying(up.world, model, j)
      invariant lastStatus == LastStatus(up.world, model, start, start + tries)
      invariant tries > 0 ==> reply == up.world.reply(start + tries - 1, model)
    {
      tries := tries + 1;
      reply := up.Call(model);
      if reply.Answer? {
        break;
      }
      if reply.error.Api? {
        lastStatus := reply.error.status;
      }
      if up.world.done(up.calls - 1) {
        break;
      }
      if reply.error.Api? && IsRetryable(reply.error.status) {
        attempt := attempt + 1;
        continue;
      }
      break;
    }
    assert tries == Tries(up.world, model, start);
    if reply.Failed? {
      r := ErrResult(model, provider, CallFailed(reply.error));
      r := r.(infraFailure := IsInfraFailure(reply.error));
      r := r.(fallbackEligible := ShouldFallback(reply.error));
      r := r.(httpStatus := lastStatus, retryCount := tries);
      return;
    }
    if |reply.choices| == 0 {
      r := ErrResult(model, provider, EmptyResponse);
      r := r.(httpStatus := 200, retryCount := tries);
      return;
    }
    var text := reply.choices[0];
    if text == "" {
      r := ErrResult(model, provider, EmptyContent);
      r := r.(httpStatus := 200, retryCount := tries);
      return;
    }
    var i, o := reply.inputTokens, reply.outputTokens;
    r := ModelResult(model, provider, Some(text), i, o, i + o, up.world.cost(model, i, o), true, None,
                     false, false, [], false, false, 200, tries);
  }
}
