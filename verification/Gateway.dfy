/**
 The prediction pipeline as interleaved requests.

 Each request reserves tokens, walks its model chain, settles its reservation
 and fills the cache.  The breaker, the limiter and the cache are shared, and
 each is touched in atomic steps (its own lock), so a run is a sequence of such
 steps of any number of requests in any order.  The breaker appears as its log
 (module Breaker proves what the tracker answers from it), the cache as its
 list of Sets (module PredictionCache), the limiter as its books.
 */
module Gateway {
  import opened Prelude
  import opened Runner
  import opened Fallback
  import opened PredictionCache
  import Breaker
  import Limiter

  /** `provider` names a model's backend; `parse(schema, text)` is the parsed
      output when the text passes the schema. */
  datatype Setup = Setup(breaker: Breaker.Config, limits: Limiter.Config, provider: string -> string,
                         parse: (string, string) -> Option<string>)

  /** One prediction as the pipeline starts it.  `base` is the cache key without
      its model; `chain` is the primary followed by the fallbacks. */
  datatype Job = Job(base: KeyInputs, chain: seq<string>, est: nat, ttl: int,
                     useCache: bool, cacheEnabled: bool, overrideModel: bool, overrideVersion: bool,
                     enforceLimits: bool)

  predicate Cacheable(j: Job) {
    j.useCache && j.cacheEnabled && !j.overrideModel && !j.overrideVersion
  }

  /** The breaker's settings as its tracker runs with them. */
  function Tuned(s: Setup): Breaker.Config {
    Breaker.WithDefaults(s.breaker)
  }

  /** Health gating applies to production predicts only. */
  predicate Gated(s: Setup, j: Job) {
    j.useCache && !j.overrideModel && Tuned(s).enabled
  }

  predicate Limited(s: Setup, j: Job) {
    j.enforceLimits && s.limits.enabled
  }

  /** The validator handed to the walk. */
  predicate Usable(s: Setup, j: Job, text: string) {
    (j.useCache && !j.overrideModel && j.base.outputSchema != "") ==> s.parse(j.base.outputSchema, text).Some?
  }

  function KeyFor(j: Job, model: string): KeyInputs {
    j.base.(model := model)
  }

  datatype Phase = Asking | Looking | Calling | Walked | Settled | Done

  /** What the pipeline hands back and writes to the run log. */
  datatype Served = Served(model: string, response: Option<string>, success: bool, output: Option<string>,
                           outputValid: Option<bool>, cacheHit: bool, fallbackUsed: bool, totalTokens: int, cost: int)

  datatype Request = Request(job: Job, phase: Phase, walk: Walk, grant: Option<nat>, hit: Option<Entry>,
                             served: Option<Served>)

  /** A successful live call, with the inputs that determine its output. */
  datatype LiveCall = LiveCall(inputs: KeyInputs, result: ModelResult)

  datatype State = State(events: seq<Breaker.Event>, books: Limiter.Books, puts: seq<Put<KeyInputs, Entry>>,
                         requests: seq<Request>, lives: seq<LiveCall>, now: int)

  const INITIAL := State([], Limiter.EMPTY, [], [], [], 0)

  // ---- the steps ----------------------------------------------------------------------

  datatype Action =
    | Arrive(job: Job, seen: int, at: int)                          // reserve, or be refused
    | Ask(r: nat, at: int)                                          // consult the breaker for the next model
    | Look(r: nat, at: int)                                         // consult the cache for it
    | Answer(r: nat, result: ModelResult, gone: bool, at: int)      // its live call comes back
    | Settle(r: nat, at: int)                                       // reconcile the reservation
    | Finish(r: nat, at: int)                                       // validate, fill the cache, shape the outcome
    | AdminReset(key: Breaker.Key, at: int)

  function Model(q: Request): string
    requires |q.walk.attempts| < |q.job.chain|
  {
    q.job.chain[|q.walk.attempts|]
  }

  predicate MidWalk(q: Request) {
    |q.walk.attempts| < |q.job.chain| && q.walk.next == Continue
  }

  predicate Legal(s: Setup, st: State, a: Action) {
    && a.at >= st.now
    && match a
       case Arrive(job, seen, at) => job.chain != [] && seen <= at
       case Ask(r, _) => r < |st.requests| && st.requests[r].phase == Asking && MidWalk(st.requests[r])
       case Look(r, _) => r < |st.requests| && st.requests[r].phase == Looking && MidWalk(st.requests[r])
       case Answer(r, result, _, _) =>
         && r < |st.requests| && st.requests[r].phase == Calling && MidWalk(st.requests[r])
         && IsCallOf(Model(st.requests[r]), result) && result.totalTokens >= 0
       case Settle(r, _) => r < |st.requests| && st.requests[r].phase == Walked
       case Finish(r, _) => r < |st.requests| && st.requests[r].phase == Settled
       case AdminReset(_, _) => true
  }

  /** The request after observing `o` at its current model. */
  function Moved(q: Request, provider: string, o: Observation): Request
    requires MidWalk(q)
  {
    var w := Advance(q.walk, Model(q), provider, o);
    q.(walk := w, phase := if Over(q.job.chain, w) then Walked else Asking)
  }

  function KindOf(r: Report): Breaker.Kind {
    match r
    case Good => Breaker.Success
    case Bad => Breaker.Failure
  }

  function Shape(s: Setup, q: Request): Served
    requires q.job.chain != []
  {
    var j := q.job;
    match q.hit
    case Some(e) =>
      Served(e.model, Some(e.rawResponse), true, e.output, e.outputValid, true, e.model != j.chain[0], 0, 0)
    case None =>
      var result := Conclude(j.chain, q.walk);
      var checked := result.success && result.response.Some? && j.base.outputSchema != "";
      var parsed := if checked then s.parse(j.base.outputSchema, result.response.value) else None;
      Served(result.model, result.response, result.success, parsed, if checked then Some(parsed.Some?) else None, false,
             result.fallbackUsed, result.totalTokens, result.cost)
  }

  /** The entry a clean success leaves in the cache. */
  function Fill(s: Setup, q: Request, at: int): seq<Put<KeyInputs, Entry>>
    requires q.job.chain != []
  {
    var v, result := Shape(s, q), Conclude(q.job.chain, q.walk);
    if q.hit.None? && Cacheable(q.job) && v.success && v.response.Some? && v.outputValid != Some(false) then
      [Put(KeyFor(q.job, v.model),
           Entry(v.model, result.provider, v.response.value, v.output, v.outputValid,
                 result.inputTokens, result.outputTokens, result.totalTokens), q.job.ttl, at)]
    else []
  }

  function Arriving(s: Setup, st: State, job: Job, seen: int, at: int): State {
    if !Limited(s, job) then
      st.(requests := st.requests + [Request(job, Asking, START, None, None, None)])
    else
      var (books, decision) := Limiter.ReserveSpec(s.limits, st.books, job.base.task, job.est, seen, at);
      if decision.Refused? then st.(books := books)
      else st.(books := books,
               requests := st.requests + [Request(job, Asking, START, Some(|st.books.grants|), None, None)])
  }

  function Asked(s: Setup, q: Request, events: seq<Breaker.Event>, at: int): (Request, seq<Breaker.Event>)
    requires MidWalk(q)
  {
    var k := Breaker.Key(q.job.base.task, Model(q));
    if !Gated(s, q.job) then (q.(phase := Looking), [])
    else (if Breaker.Admits(Tuned(s), events, k, at) then q.(phase := Looking)
          else Moved(q, s.provider(Model(q)), Skipped),
          [Breaker.Event(k, Breaker.Ask, at)])
  }

  function Looked(s: Setup, q: Request, puts: seq<Put<KeyInputs, Entry>>, at: int): Request
    requires MidWalk(q)
  {
    var found := if Cacheable(q.job) then Current(puts, KeyFor(q.job, Model(q)), at) else None;
    if found.None? then q.(phase := Calling)
    else
      var e := found.value;
      Moved(q, s.provider(Model(q)), Cached(CachedAnswer(e.model, e.provider, e.rawResponse))).(hit := Some(e))
  }

  /** What the walk makes of a live result. */
  function Seen(s: Setup, q: Request, result: ModelResult, gone: bool): Observation {
    Called(result, result.response.None? || Usable(s, q.job, result.response.value), gone)
  }

  function Told(s: Setup, q: Request, o: Observation, at: int): seq<Breaker.Event>
    requires MidWalk(q)
  {
    if Gated(s, q.job) && ReportAfter(o).Some? then
      [Breaker.Event(Breaker.Key(q.job.base.task, Model(q)), KindOf(ReportAfter(o).value), at)]
    else []
  }

  function Lived(q: Request, result: ModelResult): seq<LiveCall>
    requires MidWalk(q)
  {
    if result.success then [LiveCall(KeyFor(q.job, Model(q)), result)] else []
  }

  function Settling(s: Setup, q: Request, books: Limiter.Books): Limiter.Books
    requires q.grant.Some? ==> q.grant.value < |books.grants|
  {
    if q.grant.None? then books else Limiter.SettleSpec(s.limits, books, q.grant.value, Tokens(q.walk.attempts))
  }

  /** Every request has a chain, and its reservation is on the books. */
  ghost predicate Wired(st: State) {
    forall r :: 0 <= r < |st.requests| ==>
      && st.requests[r].job.chain != []
      && (st.requests[r].grant.Some? ==> st.requests[r].grant.value < |st.books.grants|)
  }

  ghost function Apply(s: Setup, st: State, a: Action): State
    requires Legal(s, st, a) && Wired(st)
  {
    var st := st.(now := a.at);
    match a
    case Arrive(job, seen, at) => Arriving(s, st, job, seen, at)
    case Ask(r, at) =>
      var (q, events) := Asked(s, st.requests[r], st.events, at);
      st.(requests := st.requests[r := q], events := st.events + events)
    case Look(r, at) => st.(requests := st.requests[r := Looked(s, st.requests[r], st.puts, at)])
    case Answer(r, result, gone, at) =>
      var q, o := st.requests[r], Seen(s, st.requests[r], result, gone);
      st.(requests := st.requests[r := Moved(q, result.provider, o)],
          events := st.events + Told(s, q, o, at), lives := st.lives + Lived(q, result))
    case Settle(r, _) =>
      st.(requests := st.requests[r := st.requests[r].(phase := Settled)],
          books := Settling(s, st.requests[r], st.books))
    case Finish(r, at) =>
      var q := st.requests[r];
      st.(requests := st.requests[r := q.(phase := Done, served := Some(Shape(s, q)))],
          puts := st.puts + Fill(s, q, at))
    case AdminReset(k, at) =>
      if Breaker.Tracked(st.events, k) then st.(events := st.events + [Breaker.Event(k, Breaker.Reset, at)]) else st
  }

  // ---- what every step keeps: requests and cache -----------------------------------------

  /** The entry replays the live call: same inputs, model and response, with an
      output that passed its schema. */
  ghost predicate Replays(s: Setup, p: Put<KeyInputs, Entry>, l: LiveCall) {
    && l.inputs == p.key
    && l.result.success && l.result.model == p.value.model == p.key.model && l.result.provider == p.value.provider
    && l.result.response == Some(p.value.rawResponse)
    && (p.key.outputSchema == "" ==> p.value.output.None? && p.value.outputValid.None?)
    && (p.key.outputSchema != "" ==>
          p.value.output.Some? && p.value.output == s.parse(p.key.outputSchema, p.value.rawResponse)
          && p.value.outputValid == Some(true))
  }

  ghost predicate FromLiveCall(s: Setup, p: Put<KeyInputs, Entry>, lives: seq<LiveCall>) {
    exists l :: l in lives && Replays(s, p, l)
  }

  /** The live success a walk ended on is on record. */
  ghost predicate EndIsLive(q: Request, lives: seq<LiveCall>) {
    var k := |q.walk.seen| - 1;
    0 <= k < |q.job.chain| && q.walk.seen[k].Called? && q.walk.seen[k].result.success ==>
      LiveCall(KeyFor(q.job, q.job.chain[k]), q.walk.seen[k].result) in lives
  }

  ghost predicate HitIsLast(s: Setup, q: Request, puts: seq<Put<KeyInputs, Entry>>) {
    var k := |q.walk.seen| - 1;
    && (q.hit.Some? <==> k >= 0 && q.walk.seen[k].Cached?)
    && (q.hit.Some? && k < |q.job.chain| ==>
          && q.walk.seen[k] == Cached(CachedAnswer(q.hit.value.model, q.hit.value.provider, q.hit.value.rawResponse))
          && exists p :: p in puts && p.key == KeyFor(q.job, q.job.chain[k]) && p.value == q.hit.value)
  }

  ghost predicate RequestOk(s: Setup, q: Request, puts: seq<Put<KeyInputs, Entry>>, lives: seq<LiveCall>) {
    && q.job.chain != [] && Faithful(q.job.chain, q.walk)
    && (q.phase in {Asking, Looking, Calling} <==> MidWalk(q))
    && (forall i :: 0 <= i < |q.walk.attempts| ==> q.walk.attempts[i].totalTokens >= 0)
    && HitIsLast(s, q, puts) && EndIsLive(q, lives)
    && q.served == if q.phase == Done then Some(Shape(s, q)) else None
  }

  ghost predicate Sound(s: Setup, st: State) {
    && Wired(st)
    && (forall r :: 0 <= r < |st.requests| ==> RequestOk(s, st.requests[r], st.puts, st.lives))
    && (forall p :: p in st.puts ==> FromLiveCall(s, p, st.lives))
  }

  /** More Sets and more live calls never hurt a request or an entry. */
  lemma GrowthIsHarmless(s: Setup, st: State, puts: seq<Put<KeyInputs, Entry>>, lives: seq<LiveCall>)
    requires Sound(s, st)
    ensures forall r :: 0 <= r < |st.requests| ==> RequestOk(s, st.requests[r], st.puts + puts, st.lives + lives)
    ensures forall p :: p in st.puts ==> FromLiveCall(s, p, st.lives + lives)
  {
    hide Faithful, Shape, Replays;
    forall r | 0 <= r < |st.requests| ensures RequestOk(s, st.requests[r], st.puts + puts, st.lives + lives) {
      var q := st.requests[r];
      assert RequestOk(s, q, st.puts, st.lives);
      var k := |q.walk.seen| - 1;
      if q.hit.Some? && k < |q.job.chain| {
        var p :| p in st.puts && p.key == KeyFor(q.job, q.job.chain[k]) && p.value == q.hit.value;
        assert p in st.puts + puts;
      }
    }
    forall p | p in st.puts ensures FromLiveCall(s, p, st.lives + lives) {
      var l :| l in st.lives && Replays(s, p, l);
      assert l in st.lives + lives;
    }
  }

  /** Moving on keeps a request in order. */
  lemma MovingKeeps(s: Setup, q: Request, provider: string, o: Observation,
                    puts: seq<Put<KeyInputs, Entry>>, lives: seq<LiveCall>, hit: Option<Entry>)
    requires RequestOk(s, q, puts, lives) && MidWalk(q) && Plausible(Model(q), o)
    requires o.Called? ==> o.result.totalTokens >= 0
    requires o.Called? && o.result.success ==> LiveCall(KeyFor(q.job, Model(q)), o.result) in lives
    requires hit.Some? <==> o.Cached?
    requires hit.Some? ==>
               && o == Cached(CachedAnswer(hit.value.model, hit.value.provider, hit.value.rawResponse))
               && exists p :: p in puts && p.key == KeyFor(q.job, Model(q)) && p.value == hit.value
    ensures RequestOk(s, Moved(q, provider, o).(hit := hit), puts, lives)
  {
    MovedWalk(q, provider, o);
    hide Faithful, Advance, Shape, Plausible, CachedAnswer, KeyFor;
    var w := Advance(q.walk, Model(q), provider, o);
    var moved := Moved(q, provider, o).(hit := hit);
    assert moved.walk == w && w.seen[|w.seen| - 1] == o && moved.job == q.job;
    assert HitIsLast(s, moved, puts);
    assert EndIsLive(moved, lives);
    hide HitIsLast, EndIsLive;
  }

  lemma MovedWalk(q: Request, provider: string, o: Observation)
    requires Faithful(q.job.chain, q.walk) && MidWalk(q) && Plausible(Model(q), o)
    requires o.Called? ==> o.result.totalTokens >= 0
    requires forall i :: 0 <= i < |q.walk.attempts| ==> q.walk.attempts[i].totalTokens >= 0
    ensures var w := Advance(q.walk, Model(q), provider, o);
            && Faithful(q.job.chain, w) && w.seen == q.walk.seen + [o]
            && |w.attempts| == |w.seen| == |q.walk.attempts| + 1
            && forall i :: 0 <= i < |w.attempts| ==> w.attempts[i].totalTokens >= 0
  {
    var k := |q.walk.attempts|;
    FaithfulLengths(q.job.chain, q.walk);
    AdvanceKeepsFaith(q.job.chain, q.walk, provider, o);
    RecordHasProvider(k, Model(q), provider, o);
    ReadRecord(k, Model(q), AttemptAfter(k, Model(q), provider, o), o);
    hide Faithful, NextAfter, ReportAfter, Plausible;
    assert AttemptAfter(k, Model(q), provider, o).totalTokens >= 0;
    hide AttemptAfter, ResultAfter;
  }

  lemma FaithfulLengths(chain: seq<string>, w: Walk)
    requires Faithful(chain, w)
    ensures |w.attempts| == |w.seen| <= |chain|
  {
  }

  /** A cached entry under a model's key is that model's answer. */
  lemma HitIsPlausible(s: Setup, st: State, q: Request, at: int)
    requires Sound(s, st) && MidWalk(q) && Current(st.puts, KeyFor(q.job, Model(q)), at).Some?
    ensures var e := Current(st.puts, KeyFor(q.job, Model(q)), at).value;
            && e.model == Model(q) && Plausible(Model(q), Cached(CachedAnswer(e.model, e.provider, e.rawResponse)))
            && exists p :: p in st.puts && p.key == KeyFor(q.job, Model(q)) && p.value == e
  {
    var p := Latest(st.puts, KeyFor(q.job, Model(q))).value;
    assert FromLiveCall(s, p, st.lives);
  }

  /** A finished walk that was not a cache hit and succeeded ends on its live call. */
  lemma FillIsLive(s: Setup, q: Request, puts: seq<Put<KeyInputs, Entry>>, lives: seq<LiveCall>, at: int)
    requires RequestOk(s, q, puts, lives) && !MidWalk(q)
    ensures forall p :: p in Fill(s, q, at) ==> FromLiveCall(s, p, lives)
  {
    if Fill(s, q, at) != [] {
      var p := Fill(s, q, at)[0];
      AnswerOfAWalk(q.job.chain, q.walk);
      var k := |q.walk.attempts| - 1;
      var l := LiveCall(KeyFor(q.job, q.job.chain[k]), q.walk.seen[k].result);
      EndOfCleanWalk(q.job.chain, q.walk);
      assert l in lives && Replays(s, p, l);
    }
  }

  lemma EndOfCleanWalk(chain: seq<string>, w: Walk)
    requires chain != [] && Faithful(chain, w) && Over(chain, w) && Conclude(chain, w).success
    ensures w.seen != [] && |w.seen| == |w.attempts| <= |chain|
    ensures var o, r := Last(w.seen), Conclude(chain, w);
            o.Called? ==>
              && o.result.success && r.model == o.result.model == chain[|w.seen| - 1]
              && r.provider == o.result.provider
              && r.response == o.result.response && r.response.Some?
    ensures !Last(w.seen).Skipped?
  {
    var k := |w.attempts| - 1;
    AnswerOfAWalk(chain, w);
    ReadRecord(k, chain[k], w.attempts[k], w.seen[k]);
  }

  lemma ReplacingKeeps(s: Setup, st: State, r: nat, q: Request)
    requires Sound(s, st) && r < |st.requests|
    requires RequestOk(s, q, st.puts, st.lives) && (q.grant.Some? ==> q.grant.value < |st.books.grants|)
    ensures Sound(s, st.(requests := st.requests[r := q]))
  {
    hide RequestOk, FromLiveCall;
    assert q.job.chain != [] by { OkHasChain(s, q, st.puts, st.lives); }
  }

  lemma OkHasChain(s: Setup, q: Request, puts: seq<Put<KeyInputs, Entry>>, lives: seq<LiveCall>)
    requires RequestOk(s, q, puts, lives)
    ensures q.job.chain != []
  {
  }

  lemma GrowingKeeps(s: Setup, st: State, puts: seq<Put<KeyInputs, Entry>>, lives: seq<LiveCall>)
    requires Sound(s, st)
    requires forall p :: p in puts ==> FromLiveCall(s, p, st.lives + lives)
    ensures Sound(s, st.(puts := st.puts + puts, lives := st.lives + lives))
  {
    GrowthIsHarmless(s, st, puts, lives);
    hide RequestOk, FromLiveCall;
  }

  lemma ArrivingKeeps(s: Setup, st: State, job: Job, seen: int, at: int)
    requires Sound(s, st) && job.chain != []
    ensures Sound(s, Arriving(s, st, job, seen, at))
  {
    var st' := Arriving(s, st, job, seen, at);
    assert |st'.books.grants| >= |st.books.grants|;
    forall r | 0 <= r < |st'.requests| ensures RequestOk(s, st'.requests[r], st.puts, st.lives) {
      if r < |st.requests| { assert st'.requests[r] == st.requests[r]; }
    }
  }

  lemma LookingKeeps(s: Setup, st: State, r: nat, at: int)
    requires Sound(s, st) && Legal(s, st, Look(r, at))
    ensures RequestOk(s, Looked(s, st.requests[r], st.puts, at), st.puts, st.lives)
  {
    var q := st.requests[r];
    assert RequestOk(s, q, st.puts, st.lives);
    if Cacheable(q.job) && Current(st.puts, KeyFor(q.job, Model(q)), at).Some? {
      var e := Current(st.puts, KeyFor(q.job, Model(q)), at).value;
      HitIsPlausible(s, st, q, at);
      hide RequestOk, Sound, Plausible, Advance;
      MovingKeeps(s, q, s.provider(Model(q)), Cached(CachedAnswer(e.model, e.provider, e.rawResponse)), st.puts,
          st.lives, Some(e));
    }
  }

  lemma NoHitYet(s: Setup, q: Request, puts: seq<Put<KeyInputs, Entry>>, lives: seq<LiveCall>)
    requires RequestOk(s, q, puts, lives) && MidWalk(q)
    ensures q.hit.None?
  {
  }

  lemma AskingKeeps(s: Setup, st: State, r: nat, at: int)
    requires Sound(s, st) && Legal(s, st, Ask(r, at))
    ensures RequestOk(s, Asked(s, st.requests[r], st.events, at).0, st.puts, st.lives)
  {
    var q := st.requests[r];
    assert RequestOk(s, q, st.puts, st.lives);
    NoHitYet(s, q, st.puts, st.lives);
    AskedAhead(s, q, st.puts, st.lives);
    hide RequestOk, Sound, Advance;
    if Asked(s, q, st.events, at).0 != q.(phase := Looking) {
      MovingKeeps(s, q, s.provider(Model(q)), Skipped, st.puts, st.lives, None);
    }
  }

  lemma AskedAhead(s: Setup, q: Request, puts: seq<Put<KeyInputs, Entry>>, lives: seq<LiveCall>)
    requires RequestOk(s, q, puts, lives) && q.phase == Asking
    ensures RequestOk(s, q.(phase := Looking), puts, lives)
  {
    hide Faithful, Shape;
  }

  lemma AnsweringKeeps(s: Setup, st: State, r: nat, result: ModelResult, gone: bool, at: int)
    requires Sound(s, st) && Legal(s, st, Action.Answer(r, result, gone, at))
    ensures var q, o := st.requests[r], Seen(s, st.requests[r], result, gone);
            RequestOk(s, Moved(q, result.provider, o), st.puts, st.lives + Lived(q, result))
  {
    var q, o := st.requests[r], Seen(s, st.requests[r], result, gone);
    GrowthIsHarmless(s, st, [], Lived(q, result));
    assert st.puts + [] == st.puts;
    assert RequestOk(s, q, st.puts, st.lives + Lived(q, result));
    NoHitYet(s, q, st.puts, st.lives + Lived(q, result));
    hide RequestOk, Sound, Advance;
    MovingKeeps(s, q, result.provider, o, st.puts, st.lives + Lived(q, result), None);
  }

  /** The breaker's log, the clock and the settled marks do not matter here. */
  lemma SoundFrame(s: Setup, st: State, st': State)
    requires Sound(s, st) && st'.requests == st.requests && st'.puts == st.puts && st'.lives == st.lives
    requires |st'.books.grants| >= |st.books.grants|
    ensures Sound(s, st')
  {
    hide RequestOk, FromLiveCall;
  }

  lemma AnswerKeepsSound(s: Setup, st: State, r: nat, result: ModelResult, gone: bool, at: int)
    requires Sound(s, st) && Legal(s, st, Action.Answer(r, result, gone, at))
    ensures Sound(s, Apply(s, st, Action.Answer(r, result, gone, at)))
  {
    var q, o := st.requests[r], Seen(s, st.requests[r], result, gone);
    AnsweringKeeps(s, st, r, result, gone, at);
    GrowingKeeps(s, st, [], Lived(q, result));
    assert st.puts + [] == st.puts;
    var grown := st.(lives := st.lives + Lived(q, result));
    assert grown == st.(puts := st.puts + [], lives := st.lives + Lived(q, result));
    hide Sound, RequestOk, Moved, Seen, Lived, Told;
    ReplacingKeeps(s, grown, r, Moved(q, result.provider, o));
    SoundFrame(s, grown.(requests := grown.requests[r := Moved(q, result.provider, o)]),
               Apply(s, st, Action.Answer(r, result, gone, at)));
  }

  lemma DoneIsOk(s: Setup, q: Request, puts: seq<Put<KeyInputs, Entry>>, lives: seq<LiveCall>)
    requires RequestOk(s, q, puts, lives) && q.phase == Settled
    ensures RequestOk(s, q.(phase := Done, served := Some(Shape(s, q))), puts, lives)
  {
    hide Faithful, Conclude;
  }

  lemma FinishKeepsSound(s: Setup, st: State, r: nat, at: int)
    requires Sound(s, st) && Legal(s, st, Finish(r, at))
    ensures Sound(s, Apply(s, st, Finish(r, at)))
  {
    var q := st.requests[r];
    assert RequestOk(s, q, st.puts, st.lives);
    var done := q.(phase := Done, served := Some(Shape(s, q)));
    DoneIsOk(s, q, st.puts, st.lives);
    FillIsLive(s, q, st.puts, st.lives, at);
    assert Wired(st);
    hide RequestOk, Fill, Shape, FromLiveCall;
    ReplacingKeeps(s, st, r, done);
    var next := st.(requests := st.requests[r := done]);
    assert st.lives + [] == st.lives;
    GrowingKeeps(s, next, Fill(s, q, at), []);
    hide Sound;
    SoundFrame(s, next.(puts := next.puts + Fill(s, q, at), lives := next.lives + []), Apply(s, st, Finish(r, at)));
  }

  lemma SettlingKeepsLength(s: Setup, q: Request, books: Limiter.Books)
    requires q.grant.Some? ==> q.grant.value < |books.grants|
    ensures |Settling(s, q, books).grants| == |books.grants|
  {
  }

  lemma SettledIsOk(s: Setup, q: Request, puts: seq<Put<KeyInputs, Entry>>, lives: seq<LiveCall>)
    requires RequestOk(s, q, puts, lives) && q.phase == Walked
    ensures RequestOk(s, q.(phase := Settled), puts, lives)
  {
    hide Faithful, Shape;
  }

  lemma SettleKeepsSound(s: Setup, st: State, r: nat, at: int)
    requires Sound(s, st) && Legal(s, st, Settle(r, at))
    ensures Sound(s, Apply(s, st, Settle(r, at)))
  {
    var q := st.requests[r];
    assert RequestOk(s, q, st.puts, st.lives);
    SettledIsOk(s, q, st.puts, st.lives);
    assert Wired(st);
    SettlingKeepsLength(s, q, st.books);
    hide RequestOk, FromLiveCall, Settling;
    ReplacingKeeps(s, st, r, q.(phase := Settled));
    hide Sound;
    SoundFrame(s, st.(requests := st.requests[r := q.(phase := Settled)]), Apply(s, st, Settle(r, at)));
  }

  /** Requests and cache stay in order at every step. */
  lemma StepKeepsSound(s: Setup, st: State, a: Action)
    requires Sound(s, st) && Legal(s, st, a)
    ensures Sound(s, Apply(s, st, a))
  {
    match a
    case Arrive(job, seen, at) =>
      SoundFrame(s, st, st.(now := at));
      ArrivingKeeps(s, st.(now := at), job, seen, at);
    case Ask(r, at) =>
      AskingKeeps(s, st, r, at);
      hide RequestOk, FromLiveCall, Asked;
      var (q, events) := Asked(s, st.requests[r], st.events, at);
      AskingKeepsGrant(s, st.requests[r], st.events, at);
      ReplacingKeeps(s, st, r, q);
      SoundFrame(s, st.(requests := st.requests[r := q]), Apply(s, st, a));
    case Look(r, at) =>
      LookingKeeps(s, st, r, at);
      hide RequestOk, FromLiveCall;
      var q := Looked(s, st.requests[r], st.puts, at);
      ReplacingKeeps(s, st, r, q);
      hide Looked;
      SoundFrame(s, st.(requests := st.requests[r := q]), Apply(s, st, a));
    case Answer(r, result, gone, at) => AnswerKeepsSound(s, st, r, result, gone, at);
    case Settle(r, at) => SettleKeepsSound(s, st, r, at);
    case Finish(r, at) => FinishKeepsSound(s, st, r, at);
    case AdminReset(_, _) => SoundFrame(s, st, Apply(s, st, a));
  }

  lemma AskingKeepsGrant(s: Setup, q: Request, events: seq<Breaker.Event>, at: int)
    requires MidWalk(q)
    ensures Asked(s, q, events, at).0.grant == q.grant
  {
  }

  // ---- what every step keeps: the breaker's totals ------------------------------------------

  function Contribution(s: Setup, q: Request, k: Breaker.Key, r: Report): nat {
    if Gated(s, q.job) && q.job.base.task == k.task then Reported(q.walk.attempts, k.model, r) else 0
  }

  /** Over all traces of a task's gated requests: how often a model was reported one way. */
  function Traced(s: Setup, qs: seq<Request>, k: Breaker.Key, r: Report): nat {
    if qs == [] then 0 else Traced(s, Front(qs), k, r) + Contribution(s, Last(qs), k, r)
  }

  ghost predicate Tallied(s: Setup, st: State) {
    && Breaker.Chronological(st.events) && Breaker.NotAfter(st.events, st.now)
    && forall k, r :: Breaker.Count(st.events, k, KindOf(r)) == Traced(s, st.requests, k, r)
  }

  lemma {:induction false} TracedUpdate(s: Setup, qs: seq<Request>, i: nat, q: Request, k: Breaker.Key, r: Report)
    requires i < |qs|
    ensures Traced(s, qs[i := q], k, r) == Traced(s, qs, k, r) - Contribution(s, qs[i], k, r) + Contribution(s, q, k, r)
    ensures Traced(s, qs, k, r) >= Contribution(s, qs[i], k, r)
  {
    if i == |qs| - 1 {
      assert Front(qs[i := q]) == Front(qs);
    } else {
      TracedUpdate(s, Front(qs), i, q, k, r);
      assert Front(qs[i := q]) == Front(qs)[i := q];
    }
  }

  /** One observation adds exactly its own report to the trace. */
  lemma MovedReports(s: Setup, q: Request, provider: string, o: Observation, k: Breaker.Key, r: Report)
    requires MidWalk(q) && Plausible(Model(q), o)
    ensures Contribution(s, Moved(q, provider, o), k, r) == Contribution(s, q, k, r) +
              (if Gated(s, q.job) && k == Breaker.Key(q.job.base.task, Model(q)) && ReportAfter(o) == Some(r)
               then 1 else 0)
  {
    var a := AttemptAfter(|q.walk.attempts|, Model(q), provider, o);
    RecordHasProvider(|q.walk.attempts|, Model(q), provider, o);
    ReadRecord(|q.walk.attempts|, Model(q), a, o);
    FrontOfAppend(q.walk.attempts, a);
  }

  lemma CountAppend(events: seq<Breaker.Event>, more: seq<Breaker.Event>, k: Breaker.Key, kind: Breaker.Kind)
    requires |more| <= 1
    ensures Breaker.Count(events + more, k, kind)
            == Breaker.Count(events, k, kind)
                + (if more != [] && more[0].key == k && more[0].kind == kind then 1 else 0)
  {
    if more == [] {
      assert events + more == events;
    } else {
      assert events + more == events + [more[0]];
      FrontOfAppend(events, more[0]);
    }
  }

  /** One request changes and at most one event is logged. */
  lemma TallyStep(s: Setup, st: State, r: nat, q: Request, more: seq<Breaker.Event>, st': State)
    requires Tallied(s, st) && r < |st.requests| && |more| <= 1 && st'.now >= st.now
    requires st'.requests == st.requests[r := q] && st'.events == st.events + more
    requires more != [] ==> more[0].at == st'.now
    requires forall k, rep :: Contribution(s, q, k, rep) == Contribution(s, st.requests[r], k, rep) +
                               (if more != [] && more[0].key == k && more[0].kind == KindOf(rep) then 1 else 0)
    ensures Tallied(s, st')
  {
    hide Contribution;
    forall k, rep ensures Breaker.Count(st'.events, k, KindOf(rep)) == Traced(s, st'.requests, k, rep) {
      TracedUpdate(s, st.requests, r, q, k, rep);
      CountAppend(st.events, more, k, KindOf(rep));
    }
  }

  lemma ArriveKeepsTally(s: Setup, st: State, job: Job, seen: int, at: int)
    requires Tallied(s, st) && at >= st.now
    ensures Tallied(s, Arriving(s, st.(now := at), job, seen, at))
  {
    var st' := Arriving(s, st.(now := at), job, seen, at);
    if st'.requests != st.requests {
      FrontOfAppend(st.requests, Last(st'.requests));
    }
  }

  lemma AskKeepsTally(s: Setup, st: State, r: nat, at: int)
    requires Wired(st) && Legal(s, st, Ask(r, at)) && Tallied(s, st)
    ensures Tallied(s, Apply(s, st, Ask(r, at)))
  {
    var (q, more) := Asked(s, st.requests[r], st.events, at);
    forall k, rep ensures Contribution(s, q, k, rep) == Contribution(s, st.requests[r], k, rep) {
      MovedReports(s, st.requests[r], s.provider(Model(st.requests[r])), Skipped, k, rep);
    }
    hide Moved, Contribution, Tallied;
    TallyStep(s, st, r, q, more, Apply(s, st, Ask(r, at)));
  }

  lemma AnswerKeepsTally(s: Setup, st: State, r: nat, result: ModelResult, gone: bool, at: int)
    requires Wired(st) && Legal(s, st, Action.Answer(r, result, gone, at)) && Tallied(s, st)
    ensures Tallied(s, Apply(s, st, Action.Answer(r, result, gone, at)))
  {
    var q, o := st.requests[r], Seen(s, st.requests[r], result, gone);
    var q', more := Moved(q, result.provider, o), Told(s, q, o, at);
    forall k, rep
      ensures Contribution(s, q', k, rep) == Contribution(s, q, k, rep) +
                (if more != [] && more[0].key == k && more[0].kind == KindOf(rep) then 1 else 0)
    {
      MovedReports(s, q, result.provider, o, k, rep);
    }
    assert |more| <= 1 && (more != [] ==> more[0].at == at);
    hide Moved, Seen, Told, Contribution, Tallied;
    TallyStep(s, st, r, q', more, Apply(s, st, Action.Answer(r, result, gone, at)));
  }

  /** A step that only changes a request's bookkeeping. */
  lemma QuietKeepsTally(s: Setup, st: State, r: nat, q: Request, st': State)
    requires Tallied(s, st) && r < |st.requests| && st'.now >= st.now
    requires st'.requests == st.requests[r := q] && st'.events == st.events
    requires forall k, rep :: Contribution(s, q, k, rep) == Contribution(s, st.requests[r], k, rep)
    ensures Tallied(s, st')
  {
    assert st.events + [] == st.events;
    TallyStep(s, st, r, q, [], st');
  }

  lemma LookKeepsTally(s: Setup, st: State, r: nat, at: int)
    requires Sound(s, st) && Legal(s, st, Look(r, at)) && Tallied(s, st)
    ensures Tallied(s, Apply(s, st, Look(r, at)))
  {
    var q := st.requests[r];
    forall k, rep ensures Contribution(s, Looked(s, q, st.puts, at), k, rep) == Contribution(s, q, k, rep) {
      LookedReportsNothing(s, st, q, at, k, rep);
    }
    hide Contribution, Looked, Tallied, RequestOk;
    QuietKeepsTally(s, st, r, Looked(s, q, st.puts, at), Apply(s, st, Look(r, at)));
  }

  lemma ResetKeepsTally(s: Setup, st: State, key: Breaker.Key, at: int)
    requires Wired(st) && Legal(s, st, AdminReset(key, at)) && Tallied(s, st)
    ensures Tallied(s, Apply(s, st, AdminReset(key, at)))
  {
    forall k, rep: Report
      ensures Breaker.Count(Apply(s, st, AdminReset(key, at)).events, k, KindOf(rep))
              == Breaker.Count(st.events, k, KindOf(rep))
    {
      CountAppend(st.events, [Breaker.Event(key, Breaker.Reset, at)], k, KindOf(rep));
    }
  }

  lemma StepKeepsTally(s: Setup, st: State, a: Action)
    requires Sound(s, st) && Legal(s, st, a) && Tallied(s, st)
    ensures Tallied(s, Apply(s, st, a))
  {
    match a
    case Arrive(job, seen, at) => ArriveKeepsTally(s, st, job, seen, at);
    case Ask(r, at) => AskKeepsTally(s, st, r, at);
    case Look(r, at) => LookKeepsTally(s, st, r, at);
    case Answer(r, result, gone, at) => AnswerKeepsTally(s, st, r, result, gone, at);
    case Settle(r, at) =>
      hide Tallied, RequestOk;
      QuietKeepsTally(s, st, r, st.requests[r].(phase := Settled), Apply(s, st, a));
    case Finish(r, at) =>
      hide Tallied, RequestOk, Shape, Fill;
      var q := st.requests[r];
      QuietKeepsTally(s, st, r, q.(phase := Done, served := Some(Shape(s, q))), Apply(s, st, a));
    case AdminReset(key, at) => ResetKeepsTally(s, st, key, at);
  }

  lemma LookedReportsNothing(s: Setup, st: State, q: Request, at: int, k: Breaker.Key, rep: Report)
    requires Sound(s, st) && MidWalk(q)
    ensures Contribution(s, Looked(s, q, st.puts, at), k, rep) == Contribution(s, q, k, rep)
  {
    if Cacheable(q.job) && Current(st.puts, KeyFor(q.job, Model(q)), at).Some? {
      var e := Current(st.puts, KeyFor(q.job, Model(q)), at).value;
      HitIsPlausible(s, st, q, at);
      MovedReports(s, q, s.provider(Model(q)), Cached(CachedAnswer(e.model, e.provider, e.rawResponse)), k, rep);
    }
  }

  // ---- what every step keeps: the limiter's books -----------------------------------------------

  predicate LimitsOn(s: Setup) {
    s.limits.enabled && s.limits.window > 0
  }

  /** The request's reservation carries its estimate, and once settled the
      tokens of its whole trace. */
  ghost predicate OwnsGrant(q: Request, grants: seq<Limiter.Grant>) {
    q.grant.Some? ==>
      && q.grant.value < |grants|
      && var g := grants[q.grant.value];
         && g.task == q.job.base.task && g.est == q.job.est
         && g.settled == if q.phase in {Settled, Done} then Some(Tokens(q.walk.attempts)) else None
  }

  /** Reservations and limited requests are in one-to-one correspondence. */
  ghost predicate OnePerRequest(qs: seq<Request>, grants: nat) {
    && (forall r, r' :: 0 <= r < r' < |qs| && qs[r].grant.Some? ==> qs[r].grant != qs[r'].grant)
    && (forall id :: 0 <= id < grants ==> exists r :: 0 <= r < |qs| && qs[r].grant == Some(id))
  }

  ghost predicate AllOwned(qs: seq<Request>, grants: seq<Limiter.Grant>) {
    forall r :: 0 <= r < |qs| ==> OwnsGrant(qs[r], grants)
  }

  ghost predicate Charged(s: Setup, st: State) {
    && st.books.now <= st.now && Limiter.Inv(s.limits, st.books)
    && AllOwned(st.requests, st.books.grants) && OnePerRequest(st.requests, |st.books.grants|)
  }

  lemma {:induction false} TokensNonNegative(t: seq<Attempt>)
    requires forall i :: 0 <= i < |t| ==> t[i].totalTokens >= 0
    ensures Tokens(t) >= 0
  {
    if t != [] { TokensNonNegative(Front(t)); }
  }

  lemma ReplacingKeepsPairing(qs: seq<Request>, r: nat, q: Request, grants: nat)
    requires OnePerRequest(qs, grants) && r < |qs| && q.grant == qs[r].grant
    ensures OnePerRequest(qs[r := q], grants)
  {
    var qs' := qs[r := q];
    assert forall i :: 0 <= i < |qs| ==> qs'[i].grant == qs[i].grant;
    forall id | 0 <= id < grants ensures exists i :: 0 <= i < |qs'| && qs'[i].grant == Some(id) {
      var i :| 0 <= i < |qs| && qs[i].grant == Some(id);
      assert qs'[i].grant == Some(id);
    }
  }

  lemma AddingKeepsPairing(qs: seq<Request>, q: Request, grants: nat)
    requires OnePerRequest(qs, grants)
    requires forall r :: 0 <= r < |qs| && qs[r].grant.Some? ==> qs[r].grant.value < grants
    ensures q.grant.None? ==> OnePerRequest(qs + [q], grants)
    ensures q.grant == Some(grants) ==> OnePerRequest(qs + [q], grants + 1)
  {
    var qs' := qs + [q];
    assert forall i :: 0 <= i < |qs| ==> qs'[i] == qs[i];
    forall id | 0 <= id < grants ensures exists i :: 0 <= i < |qs'| && qs'[i].grant == Some(id) {
      var i :| 0 <= i < |qs| && qs[i].grant == Some(id);
      assert qs'[i].grant == Some(id);
    }
    assert qs'[|qs|] == q;
  }

  /** A step that leaves the books, and the request's grant and settled state, alone. */
  lemma ChargeFrame(s: Setup, st: State, r: nat, q: Request, st': State)
    requires Charged(s, st) && r < |st.requests| && st'.now >= st.now && st'.books == st.books
    requires st'.requests == st.requests[r := q] && q.grant == st.requests[r].grant && OwnsGrant(q, st.books.grants)
    ensures Charged(s, st')
  {
    ReplacingKeepsPairing(st.requests, r, q, |st.books.grants|);
    hide OwnsGrant, OnePerRequest, Limiter.Inv;
  }

  /** What a Reserve does to the ledger. */
  lemma ReserveAppends(c: Limiter.Config, b: Limiter.Books, t: string, est: nat, seen: int, at: int)
    requires c.enabled && b.now <= at
    ensures var (b', d) := Limiter.ReserveSpec(c, b, t, est, seen, at);
            && b'.now <= at
            && (d.Refused? ==> b'.grants == b.grants)
            && (d.Allowed? ==> |b'.grants| == |b.grants| + 1 && b.grants <= b'.grants
                               && Last(b'.grants).task == t && Last(b'.grants).est == est
                                   && Last(b'.grants).settled.None?)
  {
  }

  lemma ArriveKeepsCharge(s: Setup, st: State, job: Job, seen: int, at: int)
    requires LimitsOn(s) && Charged(s, st) && at >= st.now && seen <= at
    ensures Charged(s, Arriving(s, st.(now := at), job, seen, at))
  {
    var st' := Arriving(s, st.(now := at), job, seen, at);
    assert forall r :: 0 <= r < |st.requests| ==> OwnsGrant(st.requests[r], st.books.grants);
    var q := Request(job, Asking, START, if Limited(s, job) then Some(|st.books.grants|) else None, None, None);
    AddingKeepsPairing(st.requests, q, |st.books.grants|);
    if Limited(s, job) {
      Limiter.StepKeepsBooks(s.limits, st.books, Limiter.Ask(job.base.task, job.est, seen, at));
      ReserveAppends(s.limits, st.books, job.base.task, job.est, seen, at);
    }
    hide Limiter.Inv, Limiter.ReserveSpec, OnePerRequest;
    forall r | 0 <= r < |st'.requests| ensures OwnsGrant(st'.requests[r], st'.books.grants) {
      if r < |st.requests| {
        assert st'.requests[r] == st.requests[r];
      } else {
        assert st'.requests[r] == q;
      }
    }
  }

  lemma SettledBooks(s: Setup, books: Limiter.Books, id: nat, actual: int)
    requires LimitsOn(s) && Limiter.Inv(s.limits, books) && Limiter.Legal(books, Limiter.Pay(id, actual))
    ensures var r := Limiter.SettleSpec(s.limits, books, id, actual);
            && Limiter.Inv(s.limits, r) && r.now == books.now
            && r.grants == books.grants[id := books.grants[id].(settled := Some(actual))]
  {
    Limiter.SettlingKeeps(s.limits, books, id, actual);
  }

  lemma SettleKeepsOwners(qs: seq<Request>, r: nat, q: Request, grants: seq<Limiter.Grant>, settled: seq<Limiter.Grant>)
    requires AllOwned(qs, grants) && OnePerRequest(qs, |grants|) && r < |qs| && qs[r].grant.Some?
            && qs[r].phase == Walked
    requires q == qs[r].(phase := Settled) && q.grant.value < |grants|
    requires settled == grants[q.grant.value := grants[q.grant.value].(settled := Some(Tokens(q.walk.attempts)))]
    ensures AllOwned(qs[r := q], settled)
  {
    hide Tokens;
    var qs' := qs[r := q];
    forall i | 0 <= i < |qs'| ensures OwnsGrant(qs'[i], settled) {
      assert OwnsGrant(qs[i], grants) && OwnsGrant(qs[r], grants);
      assert i != r && qs[i].grant.Some? ==> qs[i].grant != q.grant;
    }
  }

  lemma SettleKeepsCharge(s: Setup, st: State, r: nat, at: int)
    requires LimitsOn(s) && Charged(s, st) && Wired(st) && Legal(s, st, Settle(r, at)) && st.requests[r].grant.Some?
    requires Tokens(st.requests[r].walk.attempts) >= 0
    ensures Charged(s, Apply(s, st, Settle(r, at)))
  {
    var q := st.requests[r].(phase := Settled);
    assert OwnsGrant(st.requests[r], st.books.grants);
    hide Limiter.Inv, Limiter.SettleSpec, OnePerRequest, AllOwned, Tokens;
    SettledBooks(s, st.books, q.grant.value, Tokens(q.walk.attempts));
    ReplacingKeepsPairing(st.requests, r, q, |st.books.grants|);
    SettleKeepsOwners(st.requests, r, q, st.books.grants, Apply(s, st, Settle(r, at)).books.grants);
  }

  lemma SettleIsLegal(s: Setup, st: State, r: nat, at: int)
    requires Sound(s, st) && Legal(s, st, Settle(r, at))
    ensures Tokens(st.requests[r].walk.attempts) >= 0
  {
    assert RequestOk(s, st.requests[r], st.puts, st.lives);
    TokensNonNegative(st.requests[r].walk.attempts);
  }

  lemma StepKeepsCharge(s: Setup, st: State, a: Action)
    requires LimitsOn(s) && Charged(s, st) && Sound(s, st) && Legal(s, st, a)
    ensures Charged(s, Apply(s, st, a))
  {
    match a
    case Arrive(job, seen, at) => ArriveKeepsCharge(s, st, job, seen, at);
    case Settle(r, at) =>
      SettleIsLegal(s, st, r, at);
      if st.requests[r].grant.Some? {
        SettleKeepsCharge(s, st, r, at);
      } else {
        ChargeFrame(s, st, r, st.requests[r].(phase := Settled), Apply(s, st, a));
      }
    case AdminReset(_, _) =>
      hide Sound, OnePerRequest, Limiter.Inv, AllOwned;
    case Ask(r, at) => StepKeepsGrant(s, st, a, r);
    case Look(r, at) => StepKeepsGrant(s, st, a, r);
    case Answer(r, _, _, _) => StepKeepsGrant(s, st, a, r);
    case Finish(r, at) => StepKeepsGrant(s, st, a, r);
  }

  /** Steps of the walk, and the last step, leave the reservation as it was. */
  lemma StepKeepsGrant(s: Setup, st: State, a: Action, r: nat)
    requires Charged(s, st) && Wired(st) && Legal(s, st, a) && !a.Arrive? && !a.Settle? && !a.AdminReset? && r == a.r
    ensures Charged(s, Apply(s, st, a))
  {
    var q, q' := st.requests[r], Apply(s, st, a).requests[r];
    assert OwnsGrant(q, st.books.grants);
    assert q'.grant == q.grant && q'.job == q.job && (q'.phase in {Settled, Done} <==> q.phase in {Settled, Done})
           && (q.phase in {Settled, Done} ==> q'.walk == q.walk);
    hide Charged, Advance, Tokens, Wired;
    assert Apply(s, st, a).requests == st.requests[r := q'];
    ChargeFrame(s, st, r, q', Apply(s, st, a));
  }

  // ---- over every run --------------------------------------------------------------------------

  ghost predicate Inv(s: Setup, st: State) {
    Sound(s, st) && Tallied(s, st) && (LimitsOn(s) ==> Charged(s, st))
  }

  ghost predicate LegalRun(s: Setup, st: State, run: seq<Action>)
    decreases |run|
  {
    run == [] || (Wired(st) && Legal(s, st, run[0]) && LegalRun(s, Apply(s, st, run[0]), run[1..]))
  }

  ghost function Run(s: Setup, st: State, run: seq<Action>): State
    requires LegalRun(s, st, run)
    decreases |run|
  {
    if run == [] then st else Run(s, Apply(s, st, run[0]), run[1..])
  }

  /** The invariants hold in every reachable state, whatever the interleaving. */
  lemma {:induction false} EveryRunKeeps(s: Setup, st: State, run: seq<Action>)
    requires Inv(s, st) && LegalRun(s, st, run)
    ensures Inv(s, Run(s, st, run))
    decreases |run|
  {
    if run != [] {
      StepKeepsSound(s, st, run[0]);
      StepKeepsTally(s, st, run[0]);
      if LimitsOn(s) { StepKeepsCharge(s, st, run[0]); }
      hide Sound, Tallied, Charged;
      EveryRunKeeps(s, Apply(s, st, run[0]), run[1..]);
    }
  }

  lemma InitiallyTrue(s: Setup)
    ensures Inv(s, INITIAL)
  {
  }

  /** End-to-end token conservation: in every reachable state a window holds
      exactly the weights of its own reservations, each reservation belongs to
      one request, and a settled one weighs the tokens of that request's trace. */
  lemma TokensAreConserved(s: Setup, run: seq<Action>)
    requires s.limits.enabled && s.limits.window > 0 && LegalRun(s, INITIAL, run)
    ensures var st := Run(s, INITIAL, run);
            && Limiter.Conserved(st.books)
            && OnePerRequest(st.requests, |st.books.grants|)
            && AllOwned(st.requests, st.books.grants)
  {
    InitiallyTrue(s);
    EveryRunKeeps(s, INITIAL, run);
    hide Sound, Tallied, OwnsGrant;
  }

  /** The breaker's counters are the gateway trace: for every pair, in every
      reachable state, the tracker's entry counts as successes the attempts that
      served an answer and as failures the invalid answers and eligible errors. */
  lemma BreakerCountsTheTrace(s: Setup, run: seq<Action>, k: Breaker.Key)
    requires LegalRun(s, INITIAL, run)
    ensures var st := Run(s, INITIAL, run);
            var entry := Breaker.ClosedForm(Tuned(s), st.events, k);
            && Breaker.Chronological(st.events)
            && entry.totalSuccesses == Traced(s, st.requests, k, Good)
            && entry.totalFailures == Traced(s, st.requests, k, Bad)
  {
    InitiallyTrue(s);
    EveryRunKeeps(s, INITIAL, run);
    var st := Run(s, INITIAL, run);
    assert Breaker.Count(st.events, k, KindOf(Good)) == Traced(s, st.requests, k, Good);
    assert Breaker.Count(st.events, k, KindOf(Bad)) == Traced(s, st.requests, k, Bad);
  }

  /** Cache agreement: a request served from the cache replays an earlier
      successful live call with the same inputs, to the model its walk had
      reached, with the output that call's schema check gave, and uses no tokens. */
  lemma CacheHitsReplayLiveCalls(s: Setup, run: seq<Action>, r: nat)
    requires LegalRun(s, INITIAL, run)
    requires var st := Run(s, INITIAL, run);
             && r < |st.requests| && st.requests[r].job.chain != []
             && st.requests[r].served.Some? && st.requests[r].served.value.cacheHit
    ensures var st := Run(s, INITIAL, run);
            var q, v := st.requests[r], st.requests[r].served.value;
            && q.walk.attempts != [] && Last(q.walk.attempts).outcome == CacheHit
            && v.model == Last(q.walk.attempts).model && v.fallbackUsed == (v.model != q.job.chain[0])
            && v.success && v.totalTokens == 0 && v.cost == 0 && Last(q.walk.attempts).totalTokens == 0
            && v.outputValid == (if q.job.base.outputSchema == "" then None else Some(true))
            && exists l :: l in st.lives && l.inputs == KeyFor(q.job, v.model) && l.result.model == v.model
                           && l.result.response == v.response && v.response.Some?
                           && v.output == (if q.job.base.outputSchema == "" then None
                                           else s.parse(q.job.base.outputSchema, v.response.value))
  {
    InitiallyTrue(s);
    EveryRunKeeps(s, INITIAL, run);
    var st := Run(s, INITIAL, run);
    var q := st.requests[r];
    hide Run, LegalRun, Apply, Tallied, Charged;
    assert RequestOk(s, q, st.puts, st.lives);
    HitProvenance(s, q, st.puts, st.lives);
  }

  lemma HitProvenance(s: Setup, q: Request, puts: seq<Put<KeyInputs, Entry>>, lives: seq<LiveCall>)
    requires RequestOk(s, q, puts, lives) && q.hit.Some? && forall p :: p in puts ==> FromLiveCall(s, p, lives)
    ensures q.walk.attempts != []
    ensures var e, end := q.hit.value, Last(q.walk.attempts);
            && end.outcome == CacheHit && end.model == e.model && end.totalTokens == 0
            && e.outputValid == (if q.job.base.outputSchema == "" then None else Some(true))
            && exists l :: l in lives && l.inputs == KeyFor(q.job, e.model) && l.result.model == e.model
                           && l.result.response == Some(e.rawResponse)
                           && e.output == (if q.job.base.outputSchema == "" then None
                                           else s.parse(q.job.base.outputSchema, e.rawResponse))
  {
    var k := |q.walk.attempts| - 1;
    ReadRecord(k, q.job.chain[k], q.walk.attempts[k], q.walk.seen[k]);
    var p :| p in puts && p.key == KeyFor(q.job, q.job.chain[k]) && p.value == q.hit.value;
    assert FromLiveCall(s, p, lives);
    var l :| l in lives && Replays(s, p, l);
    assert l.inputs == KeyFor(q.job, q.hit.value.model);
  }
}
