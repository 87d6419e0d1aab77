/**
 Cache hits over whole runs: the live call a hit replays was on record before
 the lookup that found it, and where the two meanings of `fallbackUsed` part.
 */
module GatewayHits {
  import opened Prelude
  import opened Runner
  import opened Fallback
  import opened PredictionCache
  import opened Gateway
  import Breaker
  import Limiter

  // ---- runs, one more step at a time --------------------------------------------------

  lemma {:induction false} RunThen(s: Setup, st: State, run: seq<Action>, a: Action)
    requires LegalRun(s, st, run) && Wired(Run(s, st, run)) && Legal(s, Run(s, st, run), a)
    ensures LegalRun(s, st, run + [a]) && Run(s, st, run + [a]) == Apply(s, Run(s, st, run), a)
    decreases |run|
  {
    hide Legal, Wired, Apply;
    if run == [] {
      assert run + [a] == [a] && [a][1..] == [];
    } else {
      assert (run + [a])[0] == run[0] && (run + [a])[1..] == run[1..] + [a];
      RunThen(s, Apply(s, st, run[0]), run[1..], a);
    }
  }

  /** The last step of a run, and the run before it. */
  lemma {:induction false} BeforeTheLast(s: Setup, st: State, run: seq<Action>)
    requires run != [] && LegalRun(s, st, run)
    ensures LegalRun(s, st, Front(run))
    ensures var before := Run(s, st, Front(run));
            Wired(before) && Legal(s, before, Last(run)) && Run(s, st, run) == Apply(s, before, Last(run))
    decreases |run|
  {
    hide Legal, Wired, Apply;
    if |run| == 1 {
      assert run[1..] == [] && Front(run) == [];
    } else {
      assert Front(run)[0] == run[0] && Front(run)[1..] == Front(run[1..]) && Last(run) == Last(run[1..]);
      BeforeTheLast(s, Apply(s, st, run[0]), run[1..]);
    }
  }

  /** States some run leads to. */
  ghost predicate Reachable(s: Setup, st: State) {
    exists run :: LegalRun(s, INITIAL, run) && Run(s, INITIAL, run) == st
  }

  lemma Onward(s: Setup, st: State, a: Action) returns (st': State)
    requires Reachable(s, st) && Legal(s, st, a)
    ensures Wired(st) && st' == Apply(s, st, a) && Reachable(s, st')
  {
    var run :| LegalRun(s, INITIAL, run) && Run(s, INITIAL, run) == st;
    InitiallyTrue(s);
    EveryRunKeeps(s, INITIAL, run);
    RunThen(s, INITIAL, run, a);
    st' := Apply(s, st, a);
  }

  // ---- the call a hit replays ------------------------------------------------------------

  /** Before the Look that hits, the live call it replays is on record. */
  lemma LookFindsAnEarlierCall(s: Setup, st: State, r: nat, at: int)
    requires Sound(s, st) && Legal(s, st, Look(r, at))
    requires Looked(s, st.requests[r], st.puts, at).hit.Some? && st.requests[r].hit.None?
    ensures var q, e := st.requests[r], Looked(s, st.requests[r], st.puts, at).hit.value;
            Replayed(s, q.job, e, st.lives)
  {
    var q := st.requests[r];
    var p := Latest(st.puts, KeyFor(q.job, Model(q))).value;
    assert p in st.puts && FromLiveCall(s, p, st.lives);
    var l :| l in st.lives && Replays(s, p, l);
    assert l.inputs == KeyFor(q.job, p.value.model);
  }

  /** The entry is a recorded live call of the job's inputs to the entry's model,
      with the output its schema check gave. */
  ghost predicate Replayed(s: Setup, j: Job, e: Entry, lives: seq<LiveCall>) {
    && (exists l :: l in lives && l.inputs == KeyFor(j, e.model) && l.result.success && l.result.model == e.model
                    && l.result.response == Some(e.rawResponse))
    && e.output == (if j.base.outputSchema == "" then None else s.parse(j.base.outputSchema, e.rawResponse))
    && e.outputValid == (if j.base.outputSchema == "" then None else Some(true))
  }

  /** A step of the walk finds a hit only by looking, and a settled one keeps it. */
  lemma HitOfAMove(s: Setup, st: State, a: Action)
    requires Wired(st) && Legal(s, st, a) && (a.Ask? || a.Answer? || a.Settle? || a.Finish?)
    ensures var q' := Apply(s, st, a).requests[a.r];
            q'.hit == st.requests[a.r].hit && q'.job == st.requests[a.r].job
    ensures Apply(s, st, a).requests == st.requests[a.r := Apply(s, st, a).requests[a.r]]
  {
    hide Advance, Shape, Fill, Settling, Wired;
  }

  lemma HitOfAnArrival(s: Setup, st: State, a: Action)
    requires Wired(st) && Legal(s, st, a) && (a.Arrive? || a.AdminReset?)
    ensures st.requests <= Apply(s, st, a).requests
    ensures forall r :: |st.requests| <= r < |Apply(s, st, a).requests| ==> Apply(s, st, a).requests[r].hit.None?
  {
    hide Limiter.ReserveSpec, Wired;
  }

  /** A request's hit comes from a Look of its own and never changes. */
  lemma HitComesFromALook(s: Setup, st: State, a: Action, r: nat)
    requires Sound(s, st) && Legal(s, st, a) && r < |Apply(s, st, a).requests| && Apply(s, st, a).requests[r].hit.Some?
    ensures r < |st.requests| && Apply(s, st, a).requests[r].job == st.requests[r].job
    ensures || Apply(s, st, a).requests[r].hit == st.requests[r].hit
            || (a.Look? && a.r == r && st.requests[r].hit.None?
                && Apply(s, st, a).requests[r] == Looked(s, st.requests[r], st.puts, a.at))
  {
    hide RequestOk, Advance, FromLiveCall;
    if a.Look? {
      assert RequestOk(s, st.requests[a.r], st.puts, st.lives);
      NoHitYet(s, st.requests[a.r], st.puts, st.lives);
    } else if a.Arrive? || a.AdminReset? {
      HitOfAnArrival(s, st, a);
      hide Apply;
    } else {
      HitOfAMove(s, st, a);
      hide Apply;
    }
  }

  /** Step i of the run is a Look of request r, and what it replays was on record
      before it. */
  ghost predicate HitAt(s: Setup, run: seq<Action>, i: nat, r: nat, j: Job, e: Entry) {
    && i < |run| && run[i].Look? && run[i].r == r
    && LegalRun(s, INITIAL, run[..i]) && Replayed(s, j, e, Run(s, INITIAL, run[..i]).lives)
  }

  /** Cache agreement, in order: whatever hit a request carries was found by one of
      its Looks, and replays a live call made before that Look. */
  lemma {:induction false} HitsReplayEarlierCalls(s: Setup, run: seq<Action>, r: nat)
    requires LegalRun(s, INITIAL, run)
    requires r < |Run(s, INITIAL, run).requests| && Run(s, INITIAL, run).requests[r].hit.Some?
    ensures var q := Run(s, INITIAL, run).requests[r];
            exists i: nat :: HitAt(s, run, i, r, q.job, q.hit.value)
    decreases |run|
  {
    if run != [] {
      BeforeTheLast(s, INITIAL, run);
      var st, a := Run(s, INITIAL, Front(run)), Last(run);
      InitiallyTrue(s);
      EveryRunKeeps(s, INITIAL, Front(run));
      HitComesFromALook(s, st, a, r);
      var q, q' := st.requests[r], Run(s, INITIAL, run).requests[r];
      if q'.hit == q.hit {
        HitsReplayEarlierCalls(s, Front(run), r);
        var i: nat :| HitAt(s, Front(run), i, r, q.job, q.hit.value);
        assert Front(run)[..i] == run[..i];
        assert HitAt(s, run, i, r, q'.job, q'.hit.value);
      } else {
        LookFindsAnEarlierCall(s, st, r, a.at);
        assert run[..|run| - 1] == Front(run);
        assert HitAt(s, run, |run| - 1, r, q'.job, q'.hit.value);
      }
    }
  }

  // ---- two meanings of fallbackUsed --------------------------------------------------------

  /** The last row of the trace and the served answer say the same. */
  predicate FlagsAgree(q: Request)
    requires q.walk.attempts != [] && q.served.Some?
  {
    Last(q.walk.attempts).fallbackUsed == q.served.value.fallbackUsed
  }

  lemma FlagsOfAHit(s: Setup, q: Request, puts: seq<Put<KeyInputs, Entry>>, lives: seq<LiveCall>)
    requires RequestOk(s, q, puts, lives) && q.served.Some? && q.hit.Some?
    ensures 1 <= |q.walk.attempts| <= |q.job.chain|
    ensures FlagsAgree(q) <==> |q.walk.attempts| == 1 || q.job.chain[|q.walk.attempts| - 1] != q.job.chain[0]
  {
    var k := |q.walk.attempts| - 1;
    ReadRecord(k, q.job.chain[k], q.walk.attempts[k], q.walk.seen[k]);
    assert q.hit.value.model == q.job.chain[k];
  }

  /** The trace marks every attempt but the first; a served hit compares model
      names.  They agree exactly when the hit came first or its model is not the
      primary's again. */
  lemma FlagsAgreeExactly(s: Setup, run: seq<Action>, r: nat)
    requires LegalRun(s, INITIAL, run)
    requires var st := Run(s, INITIAL, run);
             r < |st.requests| && st.requests[r].served.Some? && st.requests[r].hit.Some?
    ensures var q := Run(s, INITIAL, run).requests[r];
            && 1 <= |q.walk.attempts| <= |q.job.chain|
            && (FlagsAgree(q) <==> |q.walk.attempts| == 1 || q.job.chain[|q.walk.attempts| - 1] != q.job.chain[0])
  {
    hide Run, LegalRun, FlagsAgree, Sound, Tallied, Charged;
    InitiallyTrue(s);
    EveryRunKeeps(s, INITIAL, run);
    var st := Run(s, INITIAL, run);
    FlagsOfARequest(s, st, r);
  }

  lemma FlagsOfARequest(s: Setup, st: State, r: nat)
    requires Sound(s, st) && r < |st.requests| && st.requests[r].served.Some? && st.requests[r].hit.Some?
    ensures var q := st.requests[r];
            && 1 <= |q.walk.attempts| <= |q.job.chain|
            && (FlagsAgree(q) <==> |q.walk.attempts| == 1 || q.job.chain[|q.walk.attempts| - 1] != q.job.chain[0])
  {
    assert RequestOk(s, st.requests[r], st.puts, st.lives);
    hide RequestOk, FlagsAgree;
    FlagsOfAHit(s, st.requests[r], st.puts, st.lives);
  }

  // ---- a run in which they differ ------------------------------------------------------------

  /** Neither breaker nor limiter, one provider. */
  function Bare(): Setup {
    Setup(Breaker.Config(false, 1, 1, 1, 2), Limiter.Config(false, 1, 0, 0, 0), _ => "p", (_, _) => None)
  }

  /** A cacheable job whose fallback is its primary again. */
  function Twice(): Job {
    Job(KeyInputs("t", 1, "", "", "", 0, 0, "", []), ["a", "a"], 0, 0, true, true, false, false, false)
  }

  function GoodResult(): ModelResult {
    ModelResult("a", "p", Some("x"), 0, 0, 0, 0, true, None, false, false, [], false, false, 200, 1)
  }

  function DownResult(): ModelResult {
    ErrResult("a", "p", CallFailed(Transport(true))).(infraFailure := true, fallbackEligible := true, retryCount := 1)
  }

  function New(): Request {
    Request(Twice(), Asking, START, None, None, None)
  }

  lemma Arrives(st: State) returns (st': State)
    requires Reachable(Bare(), st) && st.now == 0
    ensures Reachable(Bare(), st') && st' == st.(requests := st.requests + [New()])
  {
    st' := Onward(Bare(), st, Arrive(Twice(), 0, 0));
  }

  /** Ask and Look, with nothing cached. */
  lemma Misses(st: State, r: nat, q: Request) returns (st': State)
    requires Reachable(Bare(), st) && st.now == 0 && st.puts == []
    requires r < |st.requests| && q == st.requests[r] && q.phase == Asking && MidWalk(q) && q.job == Twice()
    ensures Reachable(Bare(), st') && st' == st.(requests := st.requests[r := q.(phase := Calling)])
  {
    var st1 := Onward(Bare(), st, Ask(r, 0));
    assert st1 == st.(requests := st.requests[r := q.(phase := Looking)]);
    hide Reachable;
    st' := Onward(Bare(), st1, Look(r, 0));
    assert st1.requests[r := q.(phase := Calling)] == st.requests[r := q.(phase := Calling)];
  }

  /** The live answer of the model in hand. */
  lemma Answers(st: State, r: nat, q: Request, result: ModelResult) returns (st': State)
    requires Reachable(Bare(), st) && st.now == 0 && (result == GoodResult() || result == DownResult())
    requires r < |st.requests| && q == st.requests[r] && q.phase == Calling && MidWalk(q) && q.job == Twice()
    ensures Reachable(Bare(), st')
    ensures st' == st.(requests := st.requests[r := Moved(q, "p", Called(result, true, false))],
                       lives := st.lives + Lived(q, result))
  {
    assert Model(q) == "a";
    assert IsCallOf("a", result);
    assert Seen(Bare(), q, result, false) == Called(result, true, false);
    assert Told(Bare(), q, Called(result, true, false), 0) == [];
    hide Moved, Reachable, Lived, Advance;
    st' := Onward(Bare(), st, Action.Answer(r, result, false, 0));
    assert st.events + [] == st.events;
  }

  /** The served request settles and fills the cache. */
  lemma Finishes(st: State, r: nat, q: Request) returns (st': State)
    requires Reachable(Bare(), st) && st.now == 0
    requires r < |st.requests| && q == st.requests[r] && q.phase == Walked && q.grant.None? && q.job == Twice()
    ensures Reachable(Bare(), st')
    ensures var done := q.(phase := Done, served := Some(Shape(Bare(), q)));
            st' == st.(requests := st.requests[r := done], puts := st.puts + Fill(Bare(), q, 0))
  {
    hide Reachable;
    var st1 := Onward(Bare(), st, Settle(r, 0));
    var q1 := q.(phase := Settled);
    assert st1 == st.(requests := st.requests[r := q1]);
    assert Shape(Bare(), q1) == Shape(Bare(), q) && Fill(Bare(), q1, 0) == Fill(Bare(), q, 0);
    hide Shape, Fill;
    st' := Onward(Bare(), st1, Finish(r, 0));
    var done := q.(phase := Done, served := Some(Shape(Bare(), q)));
    assert st1.requests[r := done] == st.requests[r := done];
  }

  /** Ask and Look, finding an entry. */
  lemma Hits(st: State, r: nat, q: Request, e: Entry) returns (st': State)
    requires Reachable(Bare(), st) && st.now == 0 && Current(st.puts, KeyFor(Twice(), "a"), 0) == Some(e)
    requires r < |st.requests| && q == st.requests[r] && q.phase == Asking && MidWalk(q) && q.job == Twice()
    ensures Reachable(Bare(), st')
    ensures var o := Cached(CachedAnswer(e.model, e.provider, e.rawResponse));
            st' == st.(requests := st.requests[r := Moved(q, "p", o).(hit := Some(e))])
  {
    var q1 := q.(phase := Looking);
    hide Current;
    var st1 := Onward(Bare(), st, Ask(r, 0));
    assert st1 == st.(requests := st.requests[r := q1]);
    hide Reachable, Advance;
    st' := Onward(Bare(), st1, Look(r, 0));
    var moved := Moved(q, "p", Cached(CachedAnswer(e.model, e.provider, e.rawResponse))).(hit := Some(e));
    assert st1.requests[r := moved] == st.requests[r := moved];
  }

  /** What the other request's live answer leaves in the cache. */
  lemma FilledEntry() returns (e: Entry)
    ensures var q := Moved(New().(phase := Calling), "p", Called(GoodResult(), true, false));
            && q.phase == Walked && q.job == Twice() && q.grant.None?
            && Current(Fill(Bare(), q, 0), KeyFor(Twice(), "a"), 0) == Some(e)
    ensures e.model == "a"
  {
    var q := Moved(New().(phase := Calling), "p", Called(GoodResult(), true, false));
    assert q.walk.next == Return && q.walk.last.response == Some("x");
    var fill := Fill(Bare(), q, 0);
    assert |fill| == 1 && fill[0].key == KeyFor(Twice(), "a");
    e := fill[0].value;
    assert Latest(fill, KeyFor(Twice(), "a")) == Some(fill[0]);
  }

  /** The first request finds its primary down, while the second is answered. */
  lemma DownThenFilled(failed: Request, answered: Request) returns (st: State)
    requires failed == Moved(New().(phase := Calling), "p", Called(DownResult(), true, false))
    requires answered == Moved(New().(phase := Calling), "p", Called(GoodResult(), true, false))
    requires answered.phase == Walked && answered.job == Twice() && answered.grant.None?
    ensures Reachable(Bare(), st) && st.now == 0 && |st.requests| == 2
    ensures st.requests[0] == failed && st.puts == Fill(Bare(), answered, 0)
  {
    var calling := New().(phase := Calling);
    assert MidWalk(New()) && MidWalk(calling);
    assert LegalRun(Bare(), INITIAL, []) && Reachable(Bare(), INITIAL);
    hide Moved, Reachable, Fill, Shape, Lived, MidWalk, GoodResult, DownResult, LegalRun;
    st := Arrives(INITIAL);
    assert st.requests == [New()];
    st := Misses(st, 0, New());
    st := Arrives(st);
    assert st.requests == [calling, New()];
    st := Misses(st, 1, New());
    assert st.requests == [calling, calling];
    st := Answers(st, 1, calling, GoodResult());
    st := Finishes(st, 1, answered);
    st := Answers(st, 0, calling, DownResult());
  }

  /** Two requests with the chain "a", "a" and the same inputs.  The first one's
      primary is down; meanwhile the second one is answered and fills the cache;
      the first then hits on its fallback.  Its trace says a fallback was used, its
      answer says it was not. */
  lemma FlagsCanDiffer() returns (st: State)
    ensures Reachable(Bare(), st) && |st.requests| == 2
    ensures var q := st.requests[0];
            && q.job == Twice() && q.served.Some? && q.served.value.cacheHit && |q.walk.attempts| == 2
            && Last(q.walk.attempts).fallbackUsed && !q.served.value.fallbackUsed
  {
    var e := FilledEntry();
    var failed := Moved(New().(phase := Calling), "p", Called(DownResult(), true, false));
    var answered := Moved(New().(phase := Calling), "p", Called(GoodResult(), true, false));
    assert MidWalk(failed) && failed.phase == Asking && failed.job == Twice();
    var o := Cached(CachedAnswer(e.model, e.provider, e.rawResponse));
    var hit := Moved(failed, "p", o).(hit := Some(e));
    assert hit.phase == Walked && hit.job == Twice() && hit.grant.None?;
    FlagsOfTheWitness(failed, hit, e);
    hide Moved, Reachable, Current, Fill, Shape, MidWalk, GoodResult, DownResult;
    st := DownThenFilled(failed, answered);
    st := Hits(st, 0, failed, e);
    st := Finishes(st, 0, hit);
  }

  lemma FlagsOfTheWitness(failed: Request, hit: Request, e: Entry)
    requires failed == Moved(New().(phase := Calling), "p", Called(DownResult(), true, false)) && MidWalk(failed)
    requires hit == Moved(failed, "p", Cached(CachedAnswer(e.model, e.provider, e.rawResponse))).(hit := Some(e))
            && e.model == "a"
    ensures |hit.walk.attempts| == 2 && Last(hit.walk.attempts).fallbackUsed
    ensures Shape(Bare(), hit).cacheHit && !Shape(Bare(), hit).fallbackUsed
  {
  }
}
