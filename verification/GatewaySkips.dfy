/**
 The breaker and the schema check over whole runs: which models are skipped, which
 are called, and which answers are used, whatever the interleaving.
 */
module GatewaySkips {
  import opened Prelude
  import opened Runner
  import opened Fallback
  import opened PredictionCache
  import opened Gateway
  import opened GatewayHits
  import opened GatewaySteps
  import Breaker
  import Limiter

  // ---- one step, seen from any request ---------------------------------------------------

  /** The request has been cleared by the breaker for the model in hand. */
  predicate Cleared(q: Request) {
    q.phase == Looking || q.phase == Calling
  }

  /** An answer in the trace was checked, and is in the row it belongs to. */
  predicate IsChecked(s: Setup, j: Job, row: Attempt) {
    && (row.outcome in {Success, SchemaInvalid} ==> row.response.Some?)
    && (row.outcome == Success ==> PassesCheck(s, j, row.response.value))
    && (row.outcome == SchemaInvalid ==> !PassesCheck(s, j, row.response.value))
  }

  predicate Quiet(q: Request, q': Request) {
    q'.job == q.job && q'.walk.attempts == q.walk.attempts && (Cleared(q') <==> Cleared(q))
  }

  /** What any step does to any request that was there before it. */
  predicate Follows(s: Setup, st: State, a: Action, r: nat, q: Request, q': Request) {
    if a.Ask? && a.r == r then
      && !Cleared(q) && |q.walk.attempts| < |q.job.chain|
      && if Blocked(s, st, q, a.at)
         then OneRowMore(q, q') && Last(q'.walk.attempts).outcome == SkippedOpen && !Cleared(q')
         else q'.job == q.job && q'.walk.attempts == q.walk.attempts && Cleared(q')
    else
      || Quiet(q, q')
      || (Cleared(q) && !Cleared(q') && |q.walk.attempts| < |q.job.chain| && OneRowMore(q, q')
          && Last(q'.walk.attempts).outcome != SkippedOpen && IsChecked(s, q.job, Last(q'.walk.attempts)))
  }

  ghost predicate Followed(s: Setup, st: State, a: Action, r: nat)
    requires Legal(s, st, a) && Wired(st) && r < |st.requests|
  {
    var st' := Apply(s, st, a);
    |st'.requests| >= |st.requests| && Follows(s, st, a, r, st.requests[r], st'.requests[r])
  }

  lemma AskFollows(s: Setup, st: State, a: Action, r: nat)
    requires Wired(st) && Legal(s, st, a) && r < |st.requests| && a.Ask?
    ensures Followed(s, st, a, r)
  {
    AskMeans(s, st, a.r, a.at);
    hide Apply, Wired, Blocked;
  }

  lemma OneRowOfAHit(q: Request, q': Request, found: Option<Entry>)
    requires |q.walk.attempts| < |q.job.chain| && LookedUp(q, q', found) && q.phase == Looking
    ensures found.None? ==> Quiet(q, q')
    ensures found.Some? ==> OneRowMore(q, q') && !Cleared(q') && Last(q'.walk.attempts).outcome == CacheHit
  {
  }

  lemma LookFollows(s: Setup, st: State, a: Action, r: nat)
    requires Sound(s, st) && Legal(s, st, a) && r < |st.requests| && a.Look?
    ensures Followed(s, st, a, r)
  {
    hide Apply, RequestOk, FromLiveCall, FoundFor, Blocked, PassesCheck, OneRowMore;
    LookMeans(s, st, a.r, a.at);
    OneRowOfAHit(st.requests[a.r], Apply(s, st, a).requests[a.r], FoundFor(st, st.requests[a.r], a.at));
    hide LookedUp;
  }

  lemma AnswerFollows(s: Setup, st: State, a: Action, r: nat)
    requires Wired(st) && Legal(s, st, a) && r < |st.requests| && a.Answer?
    ensures Followed(s, st, a, r)
  {
    AnswerMeans(s, st, a.r, a.result, a.gone, a.at);
    hide Apply, Wired, Telling, PassesCheck, Blocked;
  }

  lemma OthersAreQuiet(s: Setup, st: State, a: Action, r: nat)
    requires Sound(s, st) && Legal(s, st, a) && r < |st.requests| && !a.Ask? && !a.Look? && !a.Answer?
    ensures |Apply(s, st, a).requests| >= |st.requests|
    ensures Quiet(st.requests[r], Apply(s, st, a).requests[r])
  {
    hide RequestOk, FromLiveCall, LeftInCache, ServedFromTheWalk, ServedFromTheCache, Tokens,
         Limiter.ReserveSpec, Limiter.SettleSpec, Shape, Fill, Settling;
  }

  lemma OthersFollow(s: Setup, st: State, a: Action, r: nat)
    requires Sound(s, st) && Legal(s, st, a) && r < |st.requests| && !a.Ask? && !a.Look? && !a.Answer?
    ensures Followed(s, st, a, r)
  {
    OthersAreQuiet(s, st, a, r);
    hide Apply, Legal, RequestOk, FromLiveCall, Quiet;
  }

  lemma StepOfARequest(s: Setup, st: State, a: Action, r: nat)
    requires Sound(s, st) && Legal(s, st, a) && r < |st.requests|
    ensures Followed(s, st, a, r)
  {
    hide Followed, RequestOk, FromLiveCall;
    match a
    case Ask(_, _) => AskFollows(s, st, a, r);
    case Look(_, _) => LookFollows(s, st, a, r);
    case Answer(_, _, _, _) => AnswerFollows(s, st, a, r);
    case _ => OthersFollow(s, st, a, r);
  }

  lemma NewRequests(s: Setup, st: State, a: Action, r: nat)
    requires Sound(s, st) && Legal(s, st, a) && |st.requests| <= r < |Apply(s, st, a).requests|
    ensures Apply(s, st, a).requests[r].walk.attempts == [] && !Cleared(Apply(s, st, a).requests[r])
  {
    assert Wired(st);
    hide Sound, Wired, RequestOk, Apply, Blocked, PassesCheck, FoundFor, Telling, LeftInCache,
         ServedFromTheWalk, ServedFromTheCache, Tokens, Limiter.ReserveSpec, Limiter.SettleSpec;
    match a
    case Arrive(job, seen, at) => ArriveMeans(s, st, job, seen, at);
    case Ask(i, at) => AskMeans(s, st, i, at);
    case Look(i, at) => LookMeans(s, st, i, at);
    case Answer(i, result, gone, at) => AnswerMeans(s, st, i, result, gone, at);
    case Settle(i, at) => SettleMeans(s, st, i, at);
    case Finish(i, at) => FinishMeans(s, st, i, at);
    case AdminReset(k, at) => ResetMeans(s, st, k, at);
  }

  // ---- over every run ----------------------------------------------------------------------

  /** The state before step `n` of a run. */
  ghost function Before(s: Setup, run: seq<Action>, n: nat): State
    requires n <= |run| && LegalRun(s, INITIAL, run[..n])
  {
    Run(s, INITIAL, run[..n])
  }

  /** Step `n` asks the breaker about model `i` of request `r`. */
  ghost predicate AskedAt(s: Setup, run: seq<Action>, n: nat, r: nat, i: nat) {
    && n < |run| && run[n].Ask? && run[n].r == r
    && LegalRun(s, INITIAL, run[..n])
    && var st := Before(s, run, n);
       && r < |st.requests| && |st.requests[r].walk.attempts| == i < |st.requests[r].job.chain|
  }

  /** And is told that the pair is shut. */
  ghost predicate BlockedAt(s: Setup, run: seq<Action>, n: nat, r: nat, i: nat)
    requires AskedAt(s, run, n, r, i)
  {
    var st := Before(s, run, n);
    Blocked(s, st, st.requests[r], run[n].at)
  }

  /** What the answer to that question has meant for the request since. */
  ghost predicate Heeded(s: Setup, run: seq<Action>, n: nat, r: nat, i: nat, q: Request)
    requires AskedAt(s, run, n, r, i)
  {
    && Before(s, run, n).requests[r].job == q.job
    && if i < |q.walk.attempts|
       then q.walk.attempts[i].outcome == SkippedOpen <==> BlockedAt(s, run, n, r, i)
       else i == |q.walk.attempts| && Cleared(q) && !BlockedAt(s, run, n, r, i)
  }

  ghost predicate WasAsked(s: Setup, run: seq<Action>, r: nat, i: nat) {
    exists n: nat :: AskedAt(s, run, n, r, i)
  }

  /** Every question so far was heeded, and every row and every clearance had one. */
  ghost predicate Decided(s: Setup, run: seq<Action>, r: nat, q: Request) {
    && (forall n: nat, i: nat :: AskedAt(s, run, n, r, i) ==> Heeded(s, run, n, r, i, q))
    && forall i: nat :: i < |q.walk.attempts| + (if Cleared(q) then 1 else 0) ==> WasAsked(s, run, r, i)
  }

  ghost predicate AllDecided(s: Setup, run: seq<Action>, st: State) {
    && (forall r :: 0 <= r < |st.requests| ==> Decided(s, run, r, st.requests[r]))
    && forall n: nat, r: nat, i: nat :: AskedAt(s, run, n, r, i) ==> r < |st.requests|
  }

  /** Questions of a longer run: those before, and its last step if it is one. */
  lemma AskedEarlier(s: Setup, run: seq<Action>, n: nat, r: nat, i: nat)
    requires run != [] && n < |run| - 1
    ensures AskedAt(s, run, n, r, i) <==> AskedAt(s, Front(run), n, r, i)
    ensures AskedAt(s, run, n, r, i) ==>
              Before(s, run, n) == Before(s, Front(run), n) && run[n] == Front(run)[n]
  {
    assert Front(run)[..n] == run[..n];
  }

  /** A request that did not ask carries what was decided along. */
  lemma OtherStepsDecide(s: Setup, run: seq<Action>, st: State, r: nat, q: Request, q': Request)
    requires run != [] && Decided(s, Front(run), r, q) && Follows(s, st, Last(run), r, q, q')
    requires !(Last(run).Ask? && Last(run).r == r)
    ensures Decided(s, run, r, q')
  {
    hide AskedAt, Before, BlockedAt, Blocked, IsChecked;
    forall n: nat, i: nat | AskedAt(s, run, n, r, i) ensures Heeded(s, run, n, r, i, q') {
      StepsOfARun(s, run, n, r, i);
      AskedEarlier(s, run, n, r, i);
      SameQuestion(s, run, n, r, i, q);
    }
    forall i: nat | i < |q'.walk.attempts| + (if Cleared(q') then 1 else 0)
      ensures WasAsked(s, run, r, i)
    {
      assert WasAsked(s, Front(run), r, i);
      var n: nat :| AskedAt(s, Front(run), n, r, i);
      StepsOfARun(s, Front(run), n, r, i);
      AskedEarlier(s, run, n, r, i);
    }
  }

  lemma StepsOfARun(s: Setup, run: seq<Action>, n: nat, r: nat, i: nat)
    requires AskedAt(s, run, n, r, i)
    ensures n < |run| && run[n].Ask? && run[n].r == r
  {
  }

  lemma SameQuestion(s: Setup, run: seq<Action>, n: nat, r: nat, i: nat, q: Request)
    requires run != [] && n < |run| - 1 && AskedAt(s, run, n, r, i)
    ensures AskedAt(s, Front(run), n, r, i)
    ensures BlockedAt(s, run, n, r, i) <==> BlockedAt(s, Front(run), n, r, i)
    ensures Heeded(s, run, n, r, i, q) <==> Heeded(s, Front(run), n, r, i, q)
  {
    AskedEarlier(s, run, n, r, i);
    hide Before, Blocked;
  }

  /** The request that asked: its question is the run's last step. */
  lemma AskDecides(s: Setup, run: seq<Action>, st: State, r: nat, q: Request, q': Request)
    requires run != [] && Decided(s, Front(run), r, q) && Follows(s, st, Last(run), r, q, q')
    requires Last(run).Ask? && Last(run).r == r
    requires LegalRun(s, INITIAL, Front(run)) && st == Run(s, INITIAL, Front(run))
    requires r < |st.requests| && st.requests[r] == q
    ensures Decided(s, run, r, q')
  {
    var m := |run| - 1;
    assert run[..m] == Front(run);
    assert AskedAt(s, run, m, r, |q.walk.attempts|);
    assert BlockedAt(s, run, m, r, |q.walk.attempts|) <==> Blocked(s, st, q, run[m].at);
    assert Before(s, run, m) == st;
    forall n: nat, i: nat | AskedAt(s, run, n, r, i) ensures Heeded(s, run, n, r, i, q') {
      if n < m {
        AskedEarlier(s, run, n, r, i);
        SameQuestion(s, run, n, r, i, q);
        assert Heeded(s, run, n, r, i, q);
      } else {
        assert n == m;
      }
    }
    hide Before, BlockedAt, Blocked, IsChecked, LegalRun, Run;
    forall i: nat | i < |q'.walk.attempts| + (if Cleared(q') then 1 else 0)
      ensures WasAsked(s, run, r, i)
    {
      if i < |q.walk.attempts| {
        assert WasAsked(s, Front(run), r, i);
        var n: nat :| AskedAt(s, Front(run), n, r, i);
        AskedEarlier(s, run, n, r, i);
      }
    }
  }

  lemma StepDecides(s: Setup, run: seq<Action>, st: State, r: nat)
    requires run != [] && LegalRun(s, INITIAL, Front(run)) && st == Run(s, INITIAL, Front(run))
    requires Sound(s, st) && Legal(s, st, Last(run)) && AllDecided(s, Front(run), st)
    requires r < |Apply(s, st, Last(run)).requests|
    ensures Decided(s, run, r, Apply(s, st, Last(run)).requests[r])
  {
    var q' := Apply(s, st, Last(run)).requests[r];
    if r < |st.requests| {
      StepOfARequest(s, st, Last(run), r);
      hide Apply, Sound, Follows, Decided, LegalRun, Run, Legal;
      if Last(run).Ask? && Last(run).r == r {
        AskDecides(s, run, st, r, st.requests[r], q');
      } else {
        OtherStepsDecide(s, run, st, r, st.requests[r], q');
      }
    } else {
      NewRequests(s, st, Last(run), r);
      forall n: nat, i: nat ensures !AskedAt(s, run, n, r, i) {
        NobodyAsked(s, run, st, n, r, i);
      }
    }
  }

  lemma NobodyAsked(s: Setup, run: seq<Action>, st: State, n: nat, r: nat, i: nat)
    requires run != [] && LegalRun(s, INITIAL, Front(run)) && st == Run(s, INITIAL, Front(run))
    requires AllDecided(s, Front(run), st) && r >= |st.requests|
    ensures !AskedAt(s, run, n, r, i)
  {
    if n < |run| - 1 {
      AskedEarlier(s, run, n, r, i);
    } else if n == |run| - 1 {
      assert run[..n] == Front(run);
    }
  }

  lemma {:induction false} EveryRunDecides(s: Setup, run: seq<Action>)
    requires LegalRun(s, INITIAL, run)
    ensures AllDecided(s, run, Run(s, INITIAL, run))
    decreases |run|
  {
    if run != [] {
      BeforeTheLast(s, INITIAL, run);
      var st := Run(s, INITIAL, Front(run));
      EveryRunDecides(s, Front(run));
      InitiallyTrue(s);
      EveryRunKeeps(s, INITIAL, Front(run));
      hide Tallied, Charged, Decided, AskedAt, LegalRun, Run, Legal, RequestOk, FromLiveCall;
      forall r: nat | r < |Apply(s, st, Last(run)).requests|
        ensures Decided(s, run, r, Apply(s, st, Last(run)).requests[r])
      {
        StepDecides(s, run, st, r);
      }
      forall n: nat, r: nat, i: nat | AskedAt(s, run, n, r, i) ensures r < |Apply(s, st, Last(run)).requests| {
        if r >= |st.requests| { NobodyAsked(s, run, st, n, r, i); } else { StepOfARequest(s, st, Last(run), r); }
      }
      hide Apply;
    }
  }

  /** A model is skipped exactly when the breaker refuses it: every row of every
      trace goes back to one question, asked when the row was next, and says
      "skipped" if and only if the request was a guarded one and, at that moment, the
      log held enough failures of the pair in a row with the last window open. */
  lemma SkippedExactlyWhenShut(s: Setup, run: seq<Action>, r: nat)
    requires LegalRun(s, INITIAL, run) && r < |Run(s, INITIAL, run).requests|
    ensures var q := Run(s, INITIAL, run).requests[r];
            && (forall i: nat :: i < |q.walk.attempts| ==> WasAsked(s, run, r, i))
            && forall n: nat, i: nat :: AskedAt(s, run, n, r, i) && i < |q.walk.attempts| ==>
                 var before := Before(s, run, n);
                 var j := before.requests[r].job;
                 && j == q.job
                 && (q.walk.attempts[i].outcome == SkippedOpen <==>
                     Guarded(s, j) && Shut(s, before.events, Breaker.Key(j.base.task, j.chain[i]), run[n].at))
  {
    EveryRunDecides(s, run);
    var q := Run(s, INITIAL, run).requests[r];
    hide Run, LegalRun, Shut;
    assert Decided(s, run, r, q);
  }

  /** A model is called live only if, when it was asked about, the breaker did not
      have it shut, or did not guard the request. */
  lemma CalledOnlyWhenCleared(s: Setup, run: seq<Action>, m: nat)
    requires m < |run| && run[m].Answer?
    requires LegalRun(s, INITIAL, run[..m]) && Legal(s, Run(s, INITIAL, run[..m]), run[m])
    ensures var r, st := run[m].r, Before(s, run, m);
            var i := |st.requests[r].walk.attempts|;
            && WasAsked(s, run[..m], r, i)
            && forall n: nat :: AskedAt(s, run[..m], n, r, i) ==> !BlockedAt(s, run[..m], n, r, i)
  {
    EveryRunDecides(s, run[..m]);
    var r, st := run[m].r, Before(s, run, m);
    hide Run, LegalRun, Blocked;
    assert Decided(s, run[..m], r, st.requests[r]);
  }

  // ---- while a pair is shut --------------------------------------------------------------------

  /** Every step only adds to the breaker's log. */
  lemma LogGrows(s: Setup, st: State, a: Action)
    requires Wired(st) && Legal(s, st, a)
    ensures st.events <= Apply(s, st, a).events
  {
    hide Limiter.ReserveSpec, Limiter.SettleSpec, Moved, Shape, Fill, Settling, Wired, Tokens;
  }

  lemma {:induction false} LogGrowsOverARun(s: Setup, run: seq<Action>, m: nat)
    requires LegalRun(s, INITIAL, run) && m <= |run|
    ensures LegalRun(s, INITIAL, run[..m]) && Run(s, INITIAL, run[..m]).events <= Run(s, INITIAL, run).events
    decreases |run|
  {
    if m == |run| {
      assert run[..m] == run;
    } else {
      BeforeTheLast(s, INITIAL, run);
      hide LegalRun, Run, Legal, Wired, Apply;
      assert Front(run)[..m] == run[..m];
      LogGrowsOverARun(s, Front(run), m);
      LogGrows(s, Run(s, INITIAL, Front(run)), Last(run));
    }
  }

  /** What has been logged since. */
  function Since(before: seq<Breaker.Event>, after: seq<Breaker.Event>): seq<Breaker.Event> {
    if |before| <= |after| then after[|before|..] else []
  }

  /** A shut pair stays shut until its deadline, unless it recovers. */
  lemma StaysShut(s: Setup, before: seq<Breaker.Event>, after: seq<Breaker.Event>, k: Breaker.Key, at: int)
    requires Breaker.Chronological(after) && before <= after && Breaker.NoRecovery(Since(before, after), k)
    requires Shut(s, before, k, at) && s.breaker.enabled
    ensures Shut(s, after, k, at)
  {
    assert before + Since(before, after) == after;
    hide Breaker.Streak, Breaker.LastFailure, Breaker.Cooldown, Breaker.Chronological;
    Breaker.BlockedUntilRecovery(Breaker.WithDefaults(s.breaker), before, Since(before, after), k, at);
  }

  /** From the trip of a pair until its deadline, with no recovery between, every
      guarded request that comes to it is refused it, whatever all the others do. */
  lemma ShutUntilItsDeadline(s: Setup, run: seq<Action>, m: nat, n: nat, r: nat, i: nat)
    requires m <= n && AskedAt(s, run, n, r, i) && Guarded(s, Before(s, run, n).requests[r].job)
    requires LegalRun(s, INITIAL, run[..m])
    requires var k := PairInHand(Before(s, run, n).requests[r]);
             && Shut(s, Before(s, run, m).events, k, run[n].at)
             && Breaker.NoRecovery(Since(Before(s, run, m).events, Before(s, run, n).events), k)
    ensures BlockedAt(s, run, n, r, i)
  {
    InitiallyTrue(s);
    EveryRunKeeps(s, INITIAL, run[..n]);
    assert run[..n][..m] == run[..m];
    LogGrowsOverARun(s, run[..n], m);
    hide LegalRun, Run, Sound, Charged, Breaker.NoRecovery, Shut, Since;
    var k := PairInHand(Before(s, run, n).requests[r]);
    StaysShut(s, Before(s, run, m).events, Before(s, run, n).events, k, run[n].at);
  }

  /** So in the trace that row is a skip, and no live call of it was ever made. */
  lemma NeverCalledWhileShut(s: Setup, run: seq<Action>, m: nat, n: nat, r: nat, i: nat)
    requires LegalRun(s, INITIAL, run) && m <= n && AskedAt(s, run, n, r, i)
    requires LegalRun(s, INITIAL, run[..m]) && Guarded(s, Before(s, run, n).requests[r].job)
    requires var k := PairInHand(Before(s, run, n).requests[r]);
             && Shut(s, Before(s, run, m).events, k, run[n].at)
             && Breaker.NoRecovery(Since(Before(s, run, m).events, Before(s, run, n).events), k)
    ensures r < |Run(s, INITIAL, run).requests|
    ensures var t := Run(s, INITIAL, run).requests[r].walk.attempts;
            i < |t| && t[i].outcome == SkippedOpen && t[i].response.None? && t[i].totalTokens == 0
  {
    ShutUntilItsDeadline(s, run, m, n, r, i);
    EveryRunDecides(s, run);
    InitiallyTrue(s);
    EveryRunKeeps(s, INITIAL, run);
    var st := Run(s, INITIAL, run);
    hide LegalRun, Run, Shut, Tallied, Charged, Since, Breaker.NoRecovery, Blocked;
    assert Heeded(s, run, n, r, i, st.requests[r]);
    assert RequestOk(s, st.requests[r], st.puts, st.lives);
    SkippedRow(st.requests[r], i);
  }

  lemma SkippedRow(q: Request, i: nat)
    requires Faithful(q.job.chain, q.walk) && i < |q.walk.attempts| && q.walk.attempts[i].outcome == SkippedOpen
    ensures q.walk.attempts[i].response.None? && q.walk.attempts[i].totalTokens == 0
  {
    ReadRecord(i, q.job.chain[i], q.walk.attempts[i], q.walk.seen[i]);
  }

  // ---- the schema check --------------------------------------------------------------------------

  predicate AllChecked(s: Setup, q: Request) {
    forall i :: 0 <= i < |q.walk.attempts| ==> IsChecked(s, q.job, q.walk.attempts[i])
  }

  lemma StepChecks(s: Setup, st: State, a: Action, r: nat, q: Request, q': Request)
    requires Follows(s, st, a, r, q, q') && AllChecked(s, q)
    ensures AllChecked(s, q')
  {
    hide Blocked, PassesCheck;
    forall i | 0 <= i < |q'.walk.attempts| ensures IsChecked(s, q'.job, q'.walk.attempts[i]) {
      if i < |q.walk.attempts| { assert q'.walk.attempts[i] == q.walk.attempts[..i + 1][i]; }
    }
  }

  /** An answer used by a production predict with a schema has passed that schema,
      one recorded as invalid has not, and nothing else is ever held invalid. */
  lemma {:induction false} AnswersAreChecked(s: Setup, run: seq<Action>, r: nat)
    requires LegalRun(s, INITIAL, run) && r < |Run(s, INITIAL, run).requests|
    ensures AllChecked(s, Run(s, INITIAL, run).requests[r])
    decreases |run|
  {
    if run != [] {
      BeforeTheLast(s, INITIAL, run);
      var st := Run(s, INITIAL, Front(run));
      InitiallyTrue(s);
      EveryRunKeeps(s, INITIAL, Front(run));
      hide Tallied, Charged, LegalRun, Run, Legal, RequestOk, FromLiveCall, Follows;
      if r < |st.requests| {
        StepOfARequest(s, st, Last(run), r);
        AnswersAreChecked(s, Front(run), r);
        StepChecks(s, st, Last(run), r, st.requests[r], Apply(s, st, Last(run)).requests[r]);
      } else {
        NewRequests(s, st, Last(run), r);
      }
      hide Apply;
    }
  }
}
