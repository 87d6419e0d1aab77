/**
 What the requests of a run add up to, and what a cache hit goes back to: the
 end-to-end totals over any interleaving of requests.
 */
module GatewayTotals {
  import opened Prelude
  import opened Runner
  import opened Fallback
  import opened PredictionCache
  import opened Gateway
  import Breaker
  import Limiter

  // ---- tokens ---------------------------------------------------------------------------

  /** What a request holds in window `e` of task `t`: the tokens of its trace once
      settled, its estimate before. */
  function Held(q: Request, grants: seq<Limiter.Grant>, t: string, e: nat): int {
    if q.grant.None? || q.grant.value >= |grants| then 0
    else if grants[q.grant.value].task != t || grants[q.grant.value].epoch != e then 0
    else if q.phase in {Settled, Done} then Tokens(q.walk.attempts)
    else q.job.est
  }

  function Load(qs: seq<Request>, grants: seq<Limiter.Grant>, t: string, e: nat): int {
    if qs == [] then 0 else Load(Front(qs), grants, t, e) + Held(Last(qs), grants, t, e)
  }

  /** What reservation `id` weighs in that window. */
  function WeightIn(grants: seq<Limiter.Grant>, t: string, e: nat): nat -> nat {
    (id: nat) => if id < |grants| && grants[id].task == t && grants[id].epoch == e
        then NatOf(Limiter.Weight(grants[id])) else 0
  }

  /** The reservations of these requests. */
  function Ids(qs: seq<Request>): set<nat> {
    if qs == [] then {} else Ids(Front(qs)) + (if Last(qs).grant.Some? then {Last(qs).grant.value} else {})
  }

  lemma {:induction false} IdsAre(qs: seq<Request>, id: nat)
    ensures id in Ids(qs) <==> exists r :: 0 <= r < |qs| && qs[r].grant == Some(id)
  {
    if qs != [] {
      IdsAre(Front(qs), id);
      if r :| 0 <= r < |qs| && qs[r].grant == Some(id) {
        if r < |qs| - 1 { assert Front(qs)[r].grant == Some(id); }
      }
      if id in Ids(Front(qs)) {
        var r :| 0 <= r < |Front(qs)| && Front(qs)[r].grant == Some(id);
        assert qs[r].grant == Some(id);
      }
    }
  }

  /** No two requests share a reservation. */
  ghost predicate Apart(qs: seq<Request>) {
    forall r, r' :: 0 <= r < r' < |qs| && qs[r].grant.Some? ==> qs[r].grant != qs[r'].grant
  }

  ghost predicate NonNegative(grants: seq<Limiter.Grant>) {
    forall i :: 0 <= i < |grants| ==> Limiter.Weight(grants[i]) >= 0
  }

  lemma {:induction false} LoadIsASum(qs: seq<Request>, grants: seq<Limiter.Grant>, t: string, e: nat)
    requires AllOwned(qs, grants) && Apart(qs) && NonNegative(grants)
    ensures Load(qs, grants, t, e) == Sum(WeightIn(grants, t, e), Ids(qs), |grants|)
  {
    if qs == [] {
      NothingToSum(WeightIn(grants, t, e), |grants|);
    } else {
      var rest, q := Front(qs), Last(qs);
      assert forall r :: 0 <= r < |rest| ==> rest[r] == qs[r];
      LoadIsASum(rest, grants, t, e);
      assert OwnsGrant(q, grants);
      if q.grant.Some? {
        IdsAre(rest, q.grant.value);
        SumWithOneMore(WeightIn(grants, t, e), Ids(rest), q.grant.value, |grants|);
      } else {
        assert Ids(qs) == Ids(rest);
      }
    }
  }

  lemma {:induction false} ChargeIsASum(grants: seq<Limiter.Grant>, n: nat, ids: set<nat>, t: string, e: nat)
    requires n <= |grants| && NonNegative(grants) && forall id: nat :: id < n ==> id in ids
    ensures Limiter.Charge(grants[..n], t, e) == Sum(WeightIn(grants, t, e), ids, n)
  {
    if n > 0 {
      assert Front(grants[..n]) == grants[..n - 1] && Last(grants[..n]) == grants[n - 1];
      ChargeIsASum(grants, n - 1, ids, t, e);
    }
  }

  /** End-to-end token conservation: in every reachable state each window holds
      exactly the tokens of the traces of its settled requests plus the
      estimates of its outstanding ones. */
  lemma WindowsHoldTheirRequests(s: Setup, run: seq<Action>)
    requires s.limits.enabled && s.limits.window > 0 && LegalRun(s, INITIAL, run)
    ensures var st := Run(s, INITIAL, run);
            forall t :: t in st.books.windows ==>
              st.books.windows[t].tokens == Load(st.requests, st.books.grants, t, Limiter.EpochOf(st.books, t))
  {
    InitiallyTrue(s);
    EveryRunKeeps(s, INITIAL, run);
    var st := Run(s, INITIAL, run);
    var grants := st.books.grants;
    hide Run, LegalRun, Sound, Tallied;
    forall i | 0 <= i < |grants| ensures Limiter.Weight(grants[i]) >= 0 {
      assert Limiter.GrantFits(s.limits, st.books, grants[i]);
    }
    forall id: nat | id < |grants| ensures id in Ids(st.requests) {
      IdsAre(st.requests, id);
    }
    forall t | t in st.books.windows
      ensures st.books.windows[t].tokens == Load(st.requests, grants, t, Limiter.EpochOf(st.books, t))
    {
      var e := Limiter.EpochOf(st.books, t);
      LoadIsASum(st.requests, grants, t, e);
      assert grants[..|grants|] == grants;
      ChargeIsASum(grants, |grants|, Ids(st.requests), t, e);
    }
  }

  // ---- upstream calls ----------------------------------------------------------------------

  /** The upstream calls behind one action. */
  function CallsOf(a: Action): nat {
    if a.Answer? then a.result.retryCount else 0
  }

  /** The upstream calls of a run: each live answer took the calls it reports. */
  function CallsMade(run: seq<Action>): nat {
    if run == [] then 0 else CallsOf(run[0]) + CallsMade(run[1..])
  }

  /** The retries recorded in all traces. */
  function AllRetries(qs: seq<Request>): nat {
    if qs == [] then 0 else AllRetries(Front(qs)) + Retries(Last(qs).walk.attempts)
  }

  lemma {:induction false} RetriesUpdate(qs: seq<Request>, i: nat, q: Request)
    requires i < |qs|
    ensures AllRetries(qs[i := q]) == AllRetries(qs) - Retries(qs[i].walk.attempts) + Retries(q.walk.attempts)
  {
    if i == |qs| - 1 {
      assert Front(qs[i := q]) == Front(qs);
    } else {
      RetriesUpdate(Front(qs), i, q);
      assert Front(qs[i := q]) == Front(qs)[i := q];
    }
  }

  /** One observation records exactly its own calls. */
  lemma MovedRetries(q: Request, provider: string, o: Observation)
    requires MidWalk(q) && Plausible(Model(q), o)
    ensures Retries(Moved(q, provider, o).walk.attempts)
            == Retries(q.walk.attempts) + (if o.Called? then o.result.retryCount else 0)
  {
    FrontOfAppend(q.walk.attempts, AttemptAfter(|q.walk.attempts|, Model(q), provider, o));
  }

  lemma LookedRetries(s: Setup, st: State, q: Request, at: int)
    requires Sound(s, st) && MidWalk(q)
    ensures Retries(Looked(s, q, st.puts, at).walk.attempts) == Retries(q.walk.attempts)
  {
    if Cacheable(q.job) && Current(st.puts, KeyFor(q.job, Model(q)), at).Some? {
      var e := Current(st.puts, KeyFor(q.job, Model(q)), at).value;
      HitIsPlausible(s, st, q, at);
      MovedRetries(q, s.provider(Model(q)), Cached(CachedAnswer(e.model, e.provider, e.rawResponse)));
    }
  }

  lemma AskedRetries(s: Setup, q: Request, events: seq<Breaker.Event>, at: int)
    requires MidWalk(q)
    ensures Retries(Asked(s, q, events, at).0.walk.attempts) == Retries(q.walk.attempts)
  {
    MovedRetries(q, s.provider(Model(q)), Skipped);
    hide Moved;
  }

  lemma AskCalls(s: Setup, st: State, r: nat, at: int)
    requires Sound(s, st) && Legal(s, st, Ask(r, at))
    ensures AllRetries(Apply(s, st, Ask(r, at)).requests) == AllRetries(st.requests) + CallsOf(Ask(r, at))
  {
    AskedRetries(s, st.requests[r], st.events, at);
    hide Asked, Sound;
    RetriesUpdate(st.requests, r, Asked(s, st.requests[r], st.events, at).0);
  }

  lemma LookCalls(s: Setup, st: State, r: nat, at: int)
    requires Sound(s, st) && Legal(s, st, Look(r, at))
    ensures AllRetries(Apply(s, st, Look(r, at)).requests) == AllRetries(st.requests) + CallsOf(Look(r, at))
  {
    LookedRetries(s, st, st.requests[r], at);
    hide Looked, Sound;
    RetriesUpdate(st.requests, r, Looked(s, st.requests[r], st.puts, at));
  }

  lemma AnswerCalls(s: Setup, st: State, r: nat, result: ModelResult, gone: bool, at: int)
    requires Sound(s, st) && Legal(s, st, Action.Answer(r, result, gone, at))
    ensures AllRetries(Apply(s, st, Action.Answer(r, result, gone, at)).requests)
            == AllRetries(st.requests) + CallsOf(Action.Answer(r, result, gone, at))
  {
    var q, o := st.requests[r], Seen(s, st.requests[r], result, gone);
    MovedRetries(q, result.provider, o);
    hide Moved, Sound, IsCallOf;
    RetriesUpdate(st.requests, r, Moved(q, result.provider, o));
  }

  lemma FinishCalls(s: Setup, st: State, r: nat, at: int)
    requires Sound(s, st) && Legal(s, st, Finish(r, at))
    ensures AllRetries(Apply(s, st, Finish(r, at)).requests) == AllRetries(st.requests) + CallsOf(Finish(r, at))
  {
    var q := st.requests[r];
    assert q.job.chain != [];
    hide Sound, Shape, Fill;
    RetriesUpdate(st.requests, r, q.(phase := Done, served := Some(Shape(s, q))));
  }

  lemma ArriveCalls(s: Setup, st: State, job: Job, seen: int, at: int)
    requires Sound(s, st) && Legal(s, st, Arrive(job, seen, at))
    ensures AllRetries(Apply(s, st, Arrive(job, seen, at)).requests) == AllRetries(st.requests)
  {
    var st' := Apply(s, st, Arrive(job, seen, at));
    hide Sound, Limiter.ReserveSpec;
    if st'.requests != st.requests { FrontOfAppend(st.requests, Last(st'.requests)); }
  }

  lemma SettleCalls(s: Setup, st: State, r: nat, at: int)
    requires Sound(s, st) && Legal(s, st, Settle(r, at))
    ensures AllRetries(Apply(s, st, Settle(r, at)).requests) == AllRetries(st.requests)
  {
    hide Sound, Settling;
    RetriesUpdate(st.requests, r, st.requests[r].(phase := Settled));
  }

  lemma StepCountsCalls(s: Setup, st: State, a: Action)
    requires Sound(s, st) && Legal(s, st, a)
    ensures AllRetries(Apply(s, st, a).requests) == AllRetries(st.requests) + CallsOf(a)
  {
    match a
    case Arrive(job, seen, at) => ArriveCalls(s, st, job, seen, at);
    case Ask(r, at) => AskCalls(s, st, r, at);
    case Look(r, at) => LookCalls(s, st, r, at);
    case Answer(r, result, gone, at) => AnswerCalls(s, st, r, result, gone, at);
    case Settle(r, at) => SettleCalls(s, st, r, at);
    case Finish(r, at) => FinishCalls(s, st, r, at);
    case AdminReset(_, _) =>
      hide Sound;
  }

  lemma {:induction false} RunCountsCalls(s: Setup, st: State, run: seq<Action>)
    requires Gateway.Inv(s, st) && LegalRun(s, st, run)
    ensures AllRetries(Run(s, st, run).requests) == AllRetries(st.requests) + CallsMade(run)
    decreases |run|
  {
    if run != [] {
      StepCountsCalls(s, st, run[0]);
      EveryRunKeeps(s, st, [run[0]]);
      assert LegalRun(s, Apply(s, st, run[0]), []);
      assert Run(s, st, [run[0]]) == Apply(s, st, run[0]);
      hide Gateway.Inv, Apply, Legal, Wired;
      RunCountsCalls(s, Apply(s, st, run[0]), run[1..]);
    }
  }

  /** Over any interleaving, the retries recorded in all traces add up to the
      upstream calls made, at most three to each model touched. */
  lemma TracesCountEveryCall(s: Setup, run: seq<Action>)
    requires LegalRun(s, INITIAL, run)
    ensures AllRetries(Run(s, INITIAL, run).requests) == CallsMade(run)
  {
    InitiallyTrue(s);
    RunCountsCalls(s, INITIAL, run);
  }
}
