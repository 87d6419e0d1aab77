/**
 The per-task window limiter: reserve an estimate up front, settle it to what
 was really used.

 `Books` pairs the limiter's windows with the ledger of every reservation it
 ever granted.  The windows are what the program stores; the ledger, and the
 number of times each window has been replaced (`epochs`), exist to say what
 the stored counters mean.
 */
module Limiter {
  import opened Prelude

  /** Zero disables a gate. */
  datatype Config = Config(enabled: bool, window: int, maxRequests: int, maxTokens: int, maxInputTokens: int)

  datatype Window = Window(start: int, requests: int, tokens: int)

  datatype Code = InputTooLarge | RequestRate | TokenBudget

  datatype Decision = Allowed | Refused(code: Code, retryAfter: int)

  datatype Reservation = Reservation(task: string, windowStart: int, est: int, active: bool)

  datatype Grant = Grant(task: string, epoch: nat, start: int, at: int, est: int, settled: Option<int>)

  datatype Books = Books(windows: map<string, Window>, epochs: map<string, nat>, grants: seq<Grant>, now: int)

  const EMPTY := Books(map[], map[], [], 0)

  /** `Estimate`: text length over chars-per-token, rounded up, plus a flat
      cost per image. */
  function Estimate(charsPerToken: int, tokensPerImage: int, textLength: nat, images: nat): (est: int)
    ensures var cpt := if charsPerToken <= 0 then 4 else charsPerToken;
            var text := est - images * tokensPerImage;
            (text - 1) * cpt < textLength <= text * cpt
  {
    var cpt := if charsPerToken <= 0 then 4 else charsPerToken;
    (textLength + cpt - 1) / cpt + (if images > 0 then images * tokensPerImage else 0)
  }

  // ---- the steps -------------------------------------------------------------

  /** `windowFor`, with `seen` the clock reading of a window it creates. */
  function Opened(b: Books, t: string, seen: int): (r: Books)
    ensures t in r.windows
  {
    if t in b.windows then b
    else b.(windows := b.windows[t := Window(seen, 0, 0)], epochs := b.epochs[t := 0])
  }

  function EpochOf(b: Books, t: string): nat {
    if t in b.epochs then b.epochs[t] else 0
  }

  /** A window whose length has passed is replaced by a fresh one. */
  function Rolled(c: Config, b: Books, t: string, now: int): (r: Books)
    requires t in b.windows
    ensures t in r.windows
  {
    if now - b.windows[t].start >= c.window then
      b.(windows := b.windows[t := Window(now, 0, 0)], epochs := b.epochs[t := EpochOf(b, t) + 1])
    else b
  }

  /** The books as the gates see them. */
  function Fresh(c: Config, b: Books, t: string, seen: int, now: int): (r: Books)
    ensures t in r.windows
  {
    Rolled(c, Opened(b, t, seen), t, now).(now := now)
  }

  /** The two gates of an open window. */
  function Gate(c: Config, w: Window, est: int, now: int): Option<Decision> {
    if c.maxRequests > 0 && w.requests + 1 > c.maxRequests then
      Some(Refused(RequestRate, c.window - (now - w.start)))
    else if c.maxTokens > 0 && w.tokens + est > c.maxTokens then
      Some(Refused(TokenBudget, c.window - (now - w.start)))
    else None
  }

  function Booked(b: Books, t: string, est: int, now: int): Books
    requires t in b.windows
  {
    var w := b.windows[t];
    b.(windows := b.windows[t := Window(w.start, w.requests + 1, w.tokens + est)],
       grants := b.grants + [Grant(t, EpochOf(b, t), w.start, now, est, None)])
  }

  function ReserveSpec(c: Config, b: Books, t: string, est: int, seen: int, now: int): (Books, Decision) {
    if !c.enabled then (b, Allowed)
    else if c.maxInputTokens > 0 && est > c.maxInputTokens then (b, Refused(InputTooLarge, 0))
    else
      var open := Fresh(c, b, t, seen, now);
      match Gate(c, open.windows[t], est, now)
      case Some(refusal) => (open, refusal)
      case None => (Booked(open, t, est, now), Allowed)
  }

  /** `Reconcile` on the windows alone. */
  function Reconciled(windows: map<string, Window>, r: Reservation, actual: int): map<string, Window> {
    if !r.active || r.task !in windows || windows[r.task].start != r.windowStart then windows
    else
      var w := windows[r.task];
      windows[r.task := Window(w.start, w.requests, Max(0, w.tokens + (actual - r.est)))]
  }

  function SettleSpec(c: Config, b: Books, id: nat, actual: int): Books
    requires id < |b.grants|
  {
    var g := b.grants[id];
    b.(windows := Reconciled(b.windows, Reservation(g.task, g.start, g.est, c.enabled), actual),
       grants := b.grants[id := g.(settled := Some(actual))])
  }

  // ---- the meaning of the counters --------------------------------------------

  /** What a reservation weighs: its estimate until it is settled. */
  function Weight(g: Grant): int {
    if g.settled.Some? then g.settled.value else g.est
  }

  function Charge(gs: seq<Grant>, t: string, e: nat): int {
    if gs == [] then 0
    else Charge(Front(gs), t, e) + (if Last(gs).task == t && Last(gs).epoch == e then Weight(Last(gs)) else 0)
  }

  function Admitted(gs: seq<Grant>, t: string, e: nat): nat {
    if gs == [] then 0
    else Admitted(Front(gs), t, e) + (if Last(gs).task == t && Last(gs).epoch == e then 1 else 0)
  }

  /** Admissions of one task in the half-open interval [from, to). */
  function AdmittedIn(gs: seq<Grant>, t: string, from: int, to: int): nat {
    if gs == [] then 0
    else AdmittedIn(Front(gs), t, from, to) + (if Last(gs).task == t && from <= Last(gs).at < to then 1 else 0)
  }

  /** Every window holds exactly the weight and number of its own reservations. */
  ghost predicate Conserved(b: Books) {
    forall t :: t in b.windows ==>
      && b.windows[t].tokens == Charge(b.grants, t, EpochOf(b, t))
      && b.windows[t].requests == Admitted(b.grants, t, EpochOf(b, t))
  }

  ghost predicate GrantFits(c: Config, b: Books, g: Grant) {
    && g.task in b.windows && g.epoch <= EpochOf(b, g.task)
    && g.start <= g.at <= b.now && g.at < g.start + c.window
    && g.est >= 0 && (g.settled.Some? ==> g.settled.value >= 0)
    && (g.epoch == EpochOf(b, g.task) ==> g.start == b.windows[g.task].start)
    && (g.epoch < EpochOf(b, g.task) ==> g.start + c.window <= b.windows[g.task].start)
  }

  ghost predicate GrantsInOrder(c: Config, g: Grant, h: Grant) {
    g.task == h.task ==>
      && g.at <= h.at && g.epoch <= h.epoch
      && (g.epoch == h.epoch ==> g.start == h.start)
      && (g.epoch < h.epoch ==> g.start + c.window <= h.start)
  }

  ghost predicate Ordered(c: Config, gs: seq<Grant>) {
    forall i, j :: 0 <= i < j < |gs| ==> GrantsInOrder(c, gs[i], gs[j])
  }

  ghost predicate WithinRate(c: Config, gs: seq<Grant>) {
    c.maxRequests > 0 ==> forall t, e :: Admitted(gs, t, e) <= c.maxRequests
  }

  ghost predicate Inv(c: Config, b: Books) {
    && (forall t :: t in b.windows ==> b.windows[t].start <= b.now)
    && (forall i :: 0 <= i < |b.grants| ==> GrantFits(c, b, b.grants[i]))
    && Ordered(c, b.grants)
    && Conserved(b)
    && WithinRate(c, b.grants)
  }

  // ---- runs -------------------------------------------------------------------

  datatype Op = Ask(task: string, est: int, seen: int, now: int) | Pay(id: nat, actual: int)

  /** The clock does not go back, tokens are not negative, and a reservation is
      settled at most once. */
  predicate Legal(b: Books, op: Op) {
    match op
    case Ask(_, est, seen, now) => est >= 0 && seen <= now && b.now <= now
    case Pay(id, actual) => id < |b.grants| && b.grants[id].settled.None? && actual >= 0
  }

  function Apply(c: Config, b: Books, op: Op): Books
    requires Legal(b, op)
  {
    match op
    case Ask(t, est, seen, now) => ReserveSpec(c, b, t, est, seen, now).0
    case Pay(id, actual) => SettleSpec(c, b, id, actual)
  }

  predicate LegalRun(c: Config, b: Books, ops: seq<Op>)
    decreases |ops|
  {
    ops == [] || (Legal(b, ops[0]) && LegalRun(c, Apply(c, b, ops[0]), ops[1..]))
  }

  function Run(c: Config, b: Books, ops: seq<Op>): Books
    requires LegalRun(c, b, ops)
    decreases |ops|
  {
    if ops == [] then b else Run(c, Apply(c, b, ops[0]), ops[1..])
  }

  // ---- conservation -----------------------------------------------------------

  lemma {:induction false} NoGrantsNoCharge(gs: seq<Grant>, t: string, e: nat)
    requires forall i :: 0 <= i < |gs| ==> !(gs[i].task == t && gs[i].epoch == e)
    ensures Charge(gs, t, e) == 0 && Admitted(gs, t, e) == 0
  {
    if gs != [] { NoGrantsNoCharge(Front(gs), t, e); }
  }

  lemma {:induction false} SettlingMovesOneCharge(gs: seq<Grant>, id: nat, v: int, t: string, e: nat)
    requires id < |gs|
    ensures var gs' := gs[id := gs[id].(settled := Some(v))];
            && Charge(gs', t, e) == Charge(gs, t, e)
                + (if gs[id].task == t && gs[id].epoch == e then v - Weight(gs[id]) else 0)
            && Admitted(gs', t, e) == Admitted(gs, t, e)
  {
    var gs' := gs[id := gs[id].(settled := Some(v))];
    if id == |gs| - 1 {
      assert Front(gs') == Front(gs);
    } else {
      SettlingMovesOneCharge(Front(gs), id, v, t, e);
      assert Front(gs') == Front(gs)[id := gs[id].(settled := Some(v))];
    }
  }

  lemma {:induction false} ChargeCoversEach(gs: seq<Grant>, id: nat)
    requires forall i :: 0 <= i < |gs| ==> Weight(gs[i]) >= 0
    requires id < |gs|
    ensures Charge(gs, gs[id].task, gs[id].epoch) >= Weight(gs[id])
  {
    ChargeNonNegative(Front(gs), gs[id].task, gs[id].epoch);
    if id < |gs| - 1 { ChargeCoversEach(Front(gs), id); }
  }

  lemma {:induction false} ChargeNonNegative(gs: seq<Grant>, t: string, e: nat)
    requires forall i :: 0 <= i < |gs| ==> Weight(gs[i]) >= 0
    ensures Charge(gs, t, e) >= 0
  {
    if gs != [] { ChargeNonNegative(Front(gs), t, e); }
  }

  lemma OpeningKeeps(c: Config, b: Books, t: string, seen: int, now: int)
    requires c.window > 0 && Inv(c, b) && seen <= now && b.now <= now
    ensures Inv(c, Opened(b, t, seen).(now := now))
  {
    var r := Opened(b, t, seen).(now := now);
    if t !in b.windows {
      forall i | 0 <= i < |b.grants| ensures GrantFits(c, r, b.grants[i]) && b.grants[i].task != t {
        assert GrantFits(c, b, b.grants[i]);
      }
      NoGrantsNoCharge(b.grants, t, 0);
    } else {
      forall i | 0 <= i < |b.grants| ensures GrantFits(c, r, b.grants[i]) {
        assert GrantFits(c, b, b.grants[i]);
      }
    }
  }

  lemma RollingKeeps(c: Config, b: Books, t: string)
    requires c.window > 0 && Inv(c, b) && t in b.windows
    ensures Inv(c, Rolled(c, b, t, b.now))
    ensures var w := Rolled(c, b, t, b.now).windows[t]; w.start <= b.now < w.start + c.window
  {
    var r := Rolled(c, b, t, b.now);
    forall i | 0 <= i < |b.grants|
      ensures GrantFits(c, r, b.grants[i]) && (r != b && b.grants[i].task == t ==> b.grants[i].epoch < EpochOf(r, t))
    {
      assert GrantFits(c, b, b.grants[i]);
    }
    if r != b { NoGrantsNoCharge(b.grants, t, EpochOf(r, t)); }
  }

  lemma FreshKeeps(c: Config, b: Books, t: string, seen: int, now: int)
    requires c.window > 0 && Inv(c, b) && seen <= now && b.now <= now
    ensures Inv(c, Fresh(c, b, t, seen, now))
    ensures var w := Fresh(c, b, t, seen, now).windows[t]; w.start <= now < w.start + c.window
  {
    var o := Opened(b, t, seen).(now := now);
    OpeningKeeps(c, b, t, seen, now);
    RollingKeeps(c, o, t);
    assert Rolled(c, o, t, now) == Fresh(c, b, t, seen, now);
  }

  lemma BookingKeeps(c: Config, b: Books, t: string, est: int)
    requires c.window > 0 && Inv(c, b) && t in b.windows && est >= 0
    requires b.now < b.windows[t].start + c.window && Gate(c, b.windows[t], est, b.now).None?
    ensures Inv(c, Booked(b, t, est, b.now))
  {
    var r := Booked(b, t, est, b.now);
    FrontOfAppend(b.grants, Last(r.grants));
    forall i | 0 <= i < |r.grants| ensures GrantFits(c, r, r.grants[i]) {
      if i < |b.grants| { assert GrantFits(c, b, b.grants[i]); }
    }
    forall i, j | 0 <= i < j < |r.grants| ensures GrantsInOrder(c, r.grants[i], r.grants[j]) {
      assert GrantFits(c, b, b.grants[i]);
    }
  }

  /** The clamp at zero never fires: settling subtracts exactly one estimate
      that the window still holds. */
  lemma ClampNeverFires(c: Config, b: Books, id: nat, actual: int)
    requires c.window > 0 && Inv(c, b) && Legal(b, Pay(id, actual))
    ensures var g := b.grants[id];
            b.windows[g.task].start == g.start ==> b.windows[g.task].tokens + (actual - g.est) >= actual
    ensures b.windows[b.grants[id].task].start == b.grants[id].start
            <==> b.grants[id].epoch == EpochOf(b, b.grants[id].task)
  {
    assert GrantFits(c, b, b.grants[id]);
    forall i | 0 <= i < |b.grants| ensures Weight(b.grants[i]) >= 0 {
      assert GrantFits(c, b, b.grants[i]);
    }
    ChargeCoversEach(b.grants, id);
  }

  lemma SettlingKeeps(c: Config, b: Books, id: nat, actual: int)
    requires c.enabled && c.window > 0 && Inv(c, b) && Legal(b, Pay(id, actual))
    ensures Inv(c, SettleSpec(c, b, id, actual))
  {
    var r := SettleSpec(c, b, id, actual);
    ClampNeverFires(c, b, id, actual);
    forall i | 0 <= i < |r.grants| ensures GrantFits(c, r, r.grants[i]) {
      assert GrantFits(c, b, b.grants[i]);
    }
    forall i, j | 0 <= i < j < |r.grants| ensures GrantsInOrder(c, r.grants[i], r.grants[j]) {
      assert GrantsInOrder(c, b.grants[i], b.grants[j]);
    }
    forall t, e: nat ensures Admitted(r.grants, t, e) == Admitted(b.grants, t, e) {
      SettlingMovesOneCharge(b.grants, id, actual, t, e);
    }
    forall t | t in r.windows ensures r.windows[t].tokens == Charge(r.grants, t, EpochOf(r, t)) {
      SettlingMovesOneCharge(b.grants, id, actual, t, EpochOf(r, t));
    }
  }

  lemma StepKeepsBooks(c: Config, b: Books, op: Op)
    requires c.enabled && c.window > 0 && Inv(c, b) && Legal(b, op)
    ensures Inv(c, Apply(c, b, op))
  {
    match op
    case Ask(t, est, seen, now) =>
      if !(c.maxInputTokens > 0 && est > c.maxInputTokens) {
        var open := Fresh(c, b, t, seen, now);
        FreshKeeps(c, b, t, seen, now);
        if Gate(c, open.windows[t], est, now).None? { BookingKeeps(c, open, t, est); }
      }
    case Pay(id, actual) => SettlingKeeps(c, b, id, actual);
  }

  /** Token conservation over every run. */
  lemma {:induction false} RunKeepsBooks(c: Config, b: Books, ops: seq<Op>)
    requires c.enabled && c.window > 0 && Inv(c, b) && LegalRun(c, b, ops)
    ensures Inv(c, Run(c, b, ops))
    decreases |ops|
  {
    if ops != [] {
      StepKeepsBooks(c, b, ops[0]);
      RunKeepsBooks(c, Apply(c, b, ops[0]), ops[1..]);
    }
  }

  /** Two reservations at one instant, each opening a window, then a settlement. */
  lemma WindowsAtOneInstant(c: Config) returns (b1: Books, b2: Books, b3: Books)
    requires c.enabled && c.window <= 0
    ensures var ask, pay := Ask("t", 0, 0, 0), Pay(0, 1);
            && Legal(EMPTY, ask) && b1 == Apply(c, EMPTY, ask) && Legal(b1, ask) && b2 == Apply(c, b1, ask)
            && Legal(b2, pay) && b3 == Apply(c, b2, pay)
    ensures b3.grants == [Grant("t", 1, 0, 0, 0, Some(1)), Grant("t", 2, 0, 0, 0, None)]
    ensures "t" in b3.windows && EpochOf(b3, "t") == 2 && b3.windows["t"].tokens == 1
  {
    b1 := Apply(c, EMPTY, Ask("t", 0, 0, 0));
    assert b1.grants == [Grant("t", 1, 0, 0, 0, None)];
    b2 := Apply(c, b1, Ask("t", 0, 0, 0));
    assert b2.grants == [Grant("t", 1, 0, 0, 0, None), Grant("t", 2, 0, 0, 0, None)];
    b3 := Apply(c, b2, Pay(0, 1));
  }

  lemma AtOneInstantNotConserved(b: Books)
    requires b.grants == [Grant("t", 1, 0, 0, 0, Some(1)), Grant("t", 2, 0, 0, 0, None)]
    requires "t" in b.windows && EpochOf(b, "t") == 2 && b.windows["t"].tokens == 1
    ensures !Conserved(b)
  {
    assert Front(b.grants) == [b.grants[0]] && Front([b.grants[0]]) == [];
    assert Charge([b.grants[0]], "t", 2) == 0;
  }

  lemma WithoutAWindow(c: Config) returns (ops: seq<Op>)
    requires c.enabled && c.window <= 0
    ensures LegalRun(c, EMPTY, ops) && !Conserved(Run(c, EMPTY, ops))
  {
    hide Apply, Legal, LegalRun, Run, Conserved;
    var ask, pay := Ask("t", 0, 0, 0), Pay(0, 1);
    var b1, b2, b3 := WindowsAtOneInstant(c);
    AtOneInstantNotConserved(b3);
    NothingRuns(c, b3);
    RunCons(c, b2, pay, []);
    RunCons(c, b1, ask, [pay] + []);
    RunCons(c, EMPTY, ask, [ask] + ([pay] + []));
    ops := [ask] + ([ask] + ([pay] + []));
  }

  lemma NothingRuns(c: Config, b: Books)
    ensures LegalRun(c, b, []) && Run(c, b, []) == b
  {
  }

  lemma RunCons(c: Config, b: Books, op: Op, ops: seq<Op>)
    requires Legal(b, op) && LegalRun(c, Apply(c, b, op), ops)
    ensures LegalRun(c, b, [op] + ops) && Run(c, b, [op] + ops) == Run(c, Apply(c, b, op), ops)
  {
    assert ([op] + ops)[0] == op && ([op] + ops)[1..] == ops;
    hide Apply, Legal;
  }

  /** Conservation holds over every run exactly when the window has a length.
      Without one, a replaced window can keep its start time, and a settlement
      of the old window then lands in the new one. */
  lemma ConservedExactlyWithAWindow(c: Config)
    requires c.enabled
    ensures c.window > 0 <==> forall ops :: LegalRun(c, EMPTY, ops) ==> Conserved(Run(c, EMPTY, ops))
  {
    if c.window > 0 {
      forall ops | LegalRun(c, EMPTY, ops) ensures Conserved(Run(c, EMPTY, ops)) {
        RunKeepsBooks(c, EMPTY, ops);
      }
    } else {
      var ops := WithoutAWindow(c);
    }
  }

  /** The window in force at `now`, as the history tells it: how many requests it
      has admitted and what they weigh. */
  function InForce(c: Config, b: Books, t: string, now: int): (int, int) {
    if t in b.windows && now - b.windows[t].start < c.window then
      (Admitted(b.grants, t, EpochOf(b, t)), Charge(b.grants, t, EpochOf(b, t)))
    else (0, 0)
  }

  /** Admission read off the history of reservations: within the per-request
      limit, below the request cap, and inside the token budget together with
      the settled and outstanding requests of the window in force. */
  lemma DecisionFromHistory(c: Config, b: Books, t: string, est: int, seen: int, now: int)
    requires c.enabled && c.window > 0 && Inv(c, b) && Legal(b, Ask(t, est, seen, now))
    ensures var (requests, tokens) := InForce(c, b, t, now);
            var d := ReserveSpec(c, b, t, est, seen, now).1;
            && (d.Allowed? <==>
                  && (c.maxInputTokens > 0 ==> est <= c.maxInputTokens)
                  && (c.maxRequests > 0 ==> requests < c.maxRequests)
                  && (c.maxTokens > 0 ==> tokens + est <= c.maxTokens))
            && (d.Refused? ==>
                  d.code == if c.maxInputTokens > 0 && est > c.maxInputTokens then InputTooLarge
                            else if c.maxRequests > 0 && requests >= c.maxRequests then RequestRate
                            else TokenBudget)
            && (d.Refused? && d.code == InputTooLarge ==> d.retryAfter == 0)
  {
  }

  /** What a Reserve past the first gate leaves: the window in force or a new one, with
      one more request and its estimate if admitted, and the ledger to match; a
      refusal names the rest of that window. */
  lemma WhatReserveWrites(c: Config, b: Books, t: string, est: int, seen: int, now: int)
    requires c.enabled && (c.maxInputTokens <= 0 || est <= c.maxInputTokens)
    ensures var (after, d) := ReserveSpec(c, b, t, est, seen, now);
            var since := if t in b.windows then b.windows[t].start else seen;
            var start := if now - since < c.window then since else now;
            var before := if t in b.windows && now - since < c.window then b.windows[t] else Window(start, 0, 0);
            && t in after.windows && after.windows == b.windows[t := after.windows[t]] && after.now == now
            && after.windows[t]
               == (if d.Allowed? then Window(start, before.requests + 1, before.tokens + est) else before)
            && (d.Refused? ==> after.grants == b.grants && d.retryAfter == start + c.window - now)
            && (d.Allowed? ==>
                  && |after.grants| == |b.grants| + 1 && Front(after.grants) == b.grants
                  && var g := Last(after.grants);
                     g.task == t && g.start == start && g.at == now && g.est == est && g.settled.None?)
  {
  }

  /** What a settlement leaves: in the window it was reserved in, the actual tokens in
      place of the estimate; a later window of the task is not touched, and no request
      is taken back. */
  lemma WhatReconcileWrites(c: Config, b: Books, id: nat, actual: int)
    requires c.enabled && id < |b.grants|
    ensures var b', g := SettleSpec(c, b, id, actual), b.grants[id];
            && b'.epochs == b.epochs && b'.now == b.now
            && b'.grants == b.grants[id := b'.grants[id]] && b'.grants[id] == g.(settled := Some(actual))
            && (if g.task in b.windows && b.windows[g.task].start == g.start then
                  var w := b.windows[g.task];
                  b'.windows == b.windows[g.task := Window(w.start, w.requests, Max(0, w.tokens - g.est + actual))]
                else b'.windows == b.windows)
  {
  }

  /** Without a limiter everything is admitted and nothing is written down. */
  lemma DisabledAdmitsAll(c: Config, b: Books, t: string, est: int, seen: int, now: int)
    requires !c.enabled
    ensures ReserveSpec(c, b, t, est, seen, now) == (b, Allowed)
  {
  }

  /** The wait a refusal names is exact: repeated any sooner, the request is
      refused for the same reason with that much less to wait; from then on, it is
      admitted if its estimate fits an empty window, and never otherwise. */
  lemma RefusedExactlyUntil(c: Config, b: Books, t: string, est: int, seen: int, now: int, later: int)
    requires c.enabled && c.window > 0 && Inv(c, b) && Legal(b, Ask(t, est, seen, now)) && now <= later
    requires ReserveSpec(c, b, t, est, seen, now).1.Refused?
    requires ReserveSpec(c, b, t, est, seen, now).1.code != InputTooLarge
    ensures var (after, first) := ReserveSpec(c, b, t, est, seen, now);
            var again := ReserveSpec(c, after, t, est, now, later).1;
            && 0 < first.retryAfter <= c.window
            && (later < now + first.retryAfter ==> again == Refused(first.code, first.retryAfter - (later - now)))
            && (later >= now + first.retryAfter ==> (again.Allowed? <==> c.maxTokens <= 0 || est <= c.maxTokens))
  {
  }

  // ---- admission over any interval ---------------------------------------------

  lemma {:induction false} IntervalWithinTwoEpochs(gs: seq<Grant>, t: string, from: int, to: int, lo: nat, hi: nat)
    requires forall i :: 0 <= i < |gs| && gs[i].task == t && from <= gs[i].at < to ==>
            gs[i].epoch == lo || gs[i].epoch == hi
    ensures AdmittedIn(gs, t, from, to) <= Admitted(gs, t, lo) + Admitted(gs, t, hi)
  {
    if gs != [] { IntervalWithinTwoEpochs(Front(gs), t, from, to, lo, hi); }
  }

  lemma {:induction false} NothingInInterval(gs: seq<Grant>, t: string, from: int, to: int)
    requires forall i :: 0 <= i < |gs| ==> !(gs[i].task == t && from <= gs[i].at < to)
    ensures AdmittedIn(gs, t, from, to) == 0
  {
    if gs != [] { NothingInInterval(Front(gs), t, from, to); }
  }

  /** At most two of the fixed windows reach into an interval of one window's
      length, so it admits at most twice the cap. */
  lemma AdmissionBound(c: Config, b: Books, t: string, from: int)
    requires c.window > 0 && c.maxRequests > 0 && Inv(c, b)
    ensures AdmittedIn(b.grants, t, from, from + c.window) <= 2 * c.maxRequests
  {
    var gs, to := b.grants, from + c.window;
    if i, j :| 0 <= i < |gs| && 0 <= j < |gs| && gs[i].task == gs[j].task == t
               && from <= gs[i].at < to && from <= gs[j].at < to && gs[i].epoch < gs[j].epoch
    {
      var lo, hi := gs[i].epoch, gs[j].epoch;
      forall k | 0 <= k < |gs| && gs[k].task == t && from <= gs[k].at < to
        ensures gs[k].epoch == lo || gs[k].epoch == hi
      {
        EpochsApart(c, b, i, j);
        EpochsApart(c, b, i, k);
        EpochsApart(c, b, k, i);
        EpochsApart(c, b, j, k);
        EpochsApart(c, b, k, j);
      }
      IntervalWithinTwoEpochs(gs, t, from, to, lo, hi);
    } else if i :| 0 <= i < |gs| && gs[i].task == t && from <= gs[i].at < to {
      IntervalWithinTwoEpochs(gs, t, from, to, gs[i].epoch, gs[i].epoch);
    } else {
      NothingInInterval(gs, t, from, to);
    }
  }

  lemma EpochsApart(c: Config, b: Books, i: nat, j: nat)
    requires Inv(c, b) && i < |b.grants| && j < |b.grants| && b.grants[i].task == b.grants[j].task
    ensures b.grants[i].epoch < b.grants[j].epoch ==>
              b.grants[i].at < b.grants[j].start && b.grants[i].start + c.window <= b.grants[j].start <= b.grants[j].at
  {
    assert GrantFits(c, b, b.grants[i]) && GrantFits(c, b, b.grants[j]);
    if i < j {
      assert GrantsInOrder(c, b.grants[i], b.grants[j]);
    } else if j < i {
      assert GrantsInOrder(c, b.grants[j], b.grants[i]);
    }
  }

  /** `n` admissions of the same task at one instant, into a window with room. */
  function Burst(t: string, now: int, n: nat): seq<Op> {
    if n == 0 then [] else [Ask(t, 0, now - 1, now)] + Burst(t, now, n - 1)
  }

  lemma {:induction false} BurstAdmits(c: Config, b: Books, t: string, now: int, n: nat)
    requires c.enabled && c.window > 0 && c.maxRequests > 0 && b.now <= now
    requires var w := Fresh(c, b, t, now - 1, now).windows[t];
             w.requests + n <= c.maxRequests && (c.maxTokens > 0 ==> w.tokens <= c.maxTokens)
    ensures LegalRun(c, b, Burst(t, now, n))
    ensures var w, r := Fresh(c, b, t, now - 1, now).windows[t], Run(c, b, Burst(t, now, n));
            && (n > 0 ==> r.now == now && t in r.windows && r.windows[t] == Window(w.start, w.requests + n, w.tokens))
            && |r.grants| == |b.grants| + n && b.grants <= r.grants
            && (forall i :: |b.grants| <= i < |r.grants| ==> r.grants[i].task == t && r.grants[i].at == now)
    decreases n
  {
    if n > 0 {
      var op, rest := Ask(t, 0, now - 1, now), Burst(t, now, n - 1);
      assert Burst(t, now, n)[0] == op && Burst(t, now, n)[1..] == rest;
      var r := Apply(c, b, op);
      var w := Fresh(c, b, t, now - 1, now).windows[t];
      assert r.now == now && r.windows[t] == Window(w.start, w.requests + 1, w.tokens) && now - w.start < c.window;
      assert Fresh(c, r, t, now - 1, now) == r;
      BurstAdmits(c, r, t, now, n - 1);
      assert r.grants == b.grants + [Last(r.grants)] && Last(r.grants).task == t && Last(r.grants).at == now;
    }
  }

  lemma {:induction false} LaterAdmissionsCount(gs: seq<Grant>, more: seq<Grant>, t: string, from: int, to: int)
    requires gs <= more && forall i :: |gs| <= i < |more| ==> more[i].task == t && from <= more[i].at < to
    ensures AdmittedIn(more, t, from, to) == AdmittedIn(gs, t, from, to) + |more| - |gs|
    decreases |more|
  {
    if gs == more {
    } else {
      assert gs <= Front(more);
      LaterAdmissionsCount(gs, Front(more), t, from, to);
    }
  }

  lemma {:induction false} RunConcat(c: Config, b: Books, xs: seq<Op>, ys: seq<Op>)
    requires LegalRun(c, b, xs) && LegalRun(c, Run(c, b, xs), ys)
    ensures LegalRun(c, b, xs + ys) && Run(c, b, xs + ys) == Run(c, Run(c, b, xs), ys)
    decreases |xs|
  {
    if xs == [] {
      assert xs + ys == ys;
    } else {
      assert (xs + ys)[0] == xs[0] && (xs + ys)[1..] == xs[1..] + ys;
      RunConcat(c, Apply(c, b, xs[0]), xs[1..], ys);
    }
  }

  /** The bound is reached for every cap: the limiter does not keep a rolling
      window, and twice the cap can pass within one window's length. */
  lemma AdmissionBoundIsReached(c: Config) returns (ops: seq<Op>, from: int)
    requires c.enabled && c.window > 1 && c.maxRequests > 0
    ensures LegalRun(c, EMPTY, ops)
    ensures AdmittedIn(Run(c, EMPTY, ops).grants, "t", from, from + c.window) == 2 * c.maxRequests
  {
    var n := c.maxRequests;
    from := 1;
    BurstAdmits(c, EMPTY, "t", 1, n);
    var mid := Run(c, EMPTY, Burst("t", 1, n));
    BurstAdmits(c, mid, "t", c.window, n);
    ops := Burst("t", 1, n) + Burst("t", c.window, n);
    RunConcat(c, EMPTY, Burst("t", 1, n), Burst("t", c.window, n));
    LaterAdmissionsCount([], mid.grants, "t", from, from + c.window);
    LaterAdmissionsCount(mid.grants, Run(c, EMPTY, ops).grants, "t", from, from + c.window);
  }

  /** A window of one tick holds one instant, so an interval of one tick meets one
      window only. */
  lemma OneTickBound(c: Config, b: Books, t: string, from: int)
    requires c.window == 1 && c.maxRequests > 0 && Inv(c, b)
    ensures AdmittedIn(b.grants, t, from, from + 1) <= c.maxRequests
  {
    var gs := b.grants;
    if i :| 0 <= i < |gs| && gs[i].task == t && gs[i].at == from {
      forall k | 0 <= k < |gs| && gs[k].task == t && from <= gs[k].at < from + 1 ensures gs[k].epoch == gs[i].epoch {
        EpochsApart(c, b, i, k);
        EpochsApart(c, b, k, i);
      }
      WithinOneEpoch(gs, t, from, from + 1, gs[i].epoch);
    } else {
      NothingInInterval(gs, t, from, from + 1);
    }
  }

  lemma {:induction false} WithinOneEpoch(gs: seq<Grant>, t: string, from: int, to: int, e: nat)
    requires forall i :: 0 <= i < |gs| && gs[i].task == t && from <= gs[i].at < to ==> gs[i].epoch == e
    ensures AdmittedIn(gs, t, from, to) <= Admitted(gs, t, e)
  {
    if gs != [] { WithinOneEpoch(Front(gs), t, from, to, e); }
  }

  /** Admissions of one task from `from` on, for one window's length. */
  function AdmittedFrom(c: Config, b: Books, t: string, from: int): nat {
    AdmittedIn(b.grants, t, from, from + c.window)
  }

  /** Every interval of one window's length keeps to the cap, over every run. */
  ghost predicate RollingCap(c: Config) {
    forall ops, t, from :: LegalRun(c, EMPTY, ops) ==> AdmittedFrom(c, Run(c, EMPTY, ops), t, from) <= c.maxRequests
  }

  /** The cap holds for a rolling window exactly when a window is a single tick. */
  lemma RollsExactlyWhenOneTick(c: Config)
    requires c.enabled && c.window > 0 && c.maxRequests > 0
    ensures RollingCap(c) <==> c.window == 1
  {
    if c.window == 1 {
      forall ops, t, from | LegalRun(c, EMPTY, ops)
        ensures AdmittedFrom(c, Run(c, EMPTY, ops), t, from) <= c.maxRequests
      {
        RunKeepsBooks(c, EMPTY, ops);
        OneTickBound(c, Run(c, EMPTY, ops), t, from);
      }
    } else {
      var ops, from := AdmissionBoundIsReached(c);
      assert AdmittedFrom(c, Run(c, EMPTY, ops), "t", from) > c.maxRequests;
    }
  }

  // ---- refusals and retries ------------------------------------------------------

  /** Go's integer division truncates toward zero. */
  function TruncDiv(a: int, b: int): int
    requires b > 0
  {
    if a >= 0 then a / b else -((-a) / b)
  }

  /** The Retry-After header: never zero, and never before the wait is over. */
  function RetryAfterSeconds(d: int): (s: int)
    ensures s != 0 && s * SECOND >= d
    ensures d > 0 ==> s >= 1 && (s - 1) * SECOND < d
  {
    var s := TruncDiv(d, SECOND);
    if d - s * SECOND > 0 || s == 0 then s + 1 else s
  }

  ghost predicate NoAskOf(ops: seq<Op>, t: string) {
    forall i :: 0 <= i < |ops| && ops[i].Ask? ==> ops[i].task != t
  }

  lemma {:induction false} WindowStays(c: Config, b: Books, ops: seq<Op>, t: string)
    requires LegalRun(c, b, ops) && NoAskOf(ops, t) && t in b.windows
    ensures t in Run(c, b, ops).windows && Run(c, b, ops).windows[t].start == b.windows[t].start
    decreases |ops|
  {
    if ops != [] { WindowStays(c, Apply(c, b, ops[0]), ops[1..], t); }
  }

  /** A request refused by the rate or token gate, retried after the header's
      whole seconds with no other Reserve of its task in between, is admitted
      exactly when its estimate fits an empty window. */
  lemma RetryAfterIsHonest(c: Config, b: Books, t: string, est: int, seen: int, now: int,
                           between: seq<Op>, seen': int, later: int)
    requires c.enabled
    requires ReserveSpec(c, b, t, est, seen, now).1.Refused?
            && ReserveSpec(c, b, t, est, seen, now).1.code != InputTooLarge
    requires LegalRun(c, ReserveSpec(c, b, t, est, seen, now).0, between) && NoAskOf(between, t)
    requires later >= now
    requires later >= now + RetryAfterSeconds(ReserveSpec(c, b, t, est, seen, now).1.retryAfter) * SECOND
    ensures ReserveSpec(c, Run(c, ReserveSpec(c, b, t, est, seen, now).0, between), t, est, seen', later).1.Allowed?
            <==> (c.maxTokens <= 0 || est <= c.maxTokens)
  {
    WindowStays(c, ReserveSpec(c, b, t, est, seen, now).0, between, t);
  }

  /** The other half has a simple input: on empty books an estimate above the
      budget is refused, and refused again after any wait. */
  lemma RetryCanBeHopeless(c: Config, t: string, est: int, seen: int, now: int, later: int)
    requires c.enabled && c.window > 0 && 0 < c.maxTokens < est && (c.maxInputTokens > 0 ==> est <= c.maxInputTokens)
    requires seen <= now <= later
    ensures var first := ReserveSpec(c, EMPTY, t, est, seen, now);
            && first.1.Refused? && first.1.code == TokenBudget
            && ReserveSpec(c, first.0, t, est, seen, later).1.Refused?
  {
  }

  predicate Touches(b: Books, op: Op, t: string) {
    match op
    case Ask(t', _, _, _) => t == t'
    case Pay(id, _) => id < |b.grants| && b.grants[id].task == t
  }

  predicate Untouched(c: Config, b: Books, ops: seq<Op>, t: string)
    requires LegalRun(c, b, ops)
    decreases |ops|
  {
    ops == [] || (!Touches(b, ops[0], t) && Untouched(c, Apply(c, b, ops[0]), ops[1..], t))
  }

  /** Two states show a task the same window. */
  predicate SameWindow(a: Books, b: Books, t: string) {
    (t in a.windows <==> t in b.windows) && (t in a.windows ==> a.windows[t] == b.windows[t])
  }

  lemma OtherWindowStays(c: Config, b: Books, op: Op, t: string)
    requires Legal(b, op) && !Touches(b, op, t)
    ensures SameWindow(Apply(c, b, op), b, t)
  {
  }

  lemma DecisionReadsOneWindow(c: Config, a: Books, b: Books, t: string, est: int, seen: int, now: int)
    requires SameWindow(a, b, t)
    ensures ReserveSpec(c, a, t, est, seen, now).1 == ReserveSpec(c, b, t, est, seen, now).1
  {
  }

  /** Tasks are independent: no run of operations on other tasks changes what a
      task's next request is told. */
  lemma {:induction false} OtherTasksDoNotMatter(c: Config, b: Books, ops: seq<Op>, t: string, est: int, seen: int,
      now: int)
    requires LegalRun(c, b, ops) && Untouched(c, b, ops, t)
    ensures ReserveSpec(c, Run(c, b, ops), t, est, seen, now).1 == ReserveSpec(c, b, t, est, seen, now).1
    decreases |ops|
  {
    if ops != [] {
      OtherWindowStays(c, b, ops[0], t);
      DecisionReadsOneWindow(c, Apply(c, b, ops[0]), b, t, est, seen, now);
      hide ReserveSpec, Apply, Touches, Legal, SameWindow;
      OtherTasksDoNotMatter(c, Apply(c, b, ops[0]), ops[1..], t, est, seen, now);
    }
  }

  // ---- the limiter -----------------------------------------------------------------

  class Limiter {
    const cfg: Config
    var tasks: map<string, Window>
    ghost var epochs: map<string, nat>
    ghost var grants: seq<Grant>
    ghost var clock: int

    ghost function Accounts(): Books
      reads this
    {
      Books(tasks, epochs, grants, clock)
    }

    constructor (c: Config)
      ensures cfg == c && Accounts() == EMPTY
    {
      cfg := c;
      tasks := map[];
      epochs, grants, clock := map[], [], 0;
    }

    method Reserve(task: string, est: int, seen: int, now: int) returns (r: Reservation, d: Decision)
      modifies this
      ensures (Accounts(), d) == ReserveSpec(cfg, old(Accounts()), task, est, seen, now)
      ensures if cfg.enabled && d.Allowed? then
                r == Reservation(task, Last(grants).start, est, true) && grants == old(grants) + [Last(grants)]
              else !r.active && grants == old(grants)
    {
      r := Reservation("", 0, 0, false);
      if !cfg.enabled {
        d := Allowed;
        return;
      }
      if cfg.maxInputTokens > 0 && est > cfg.maxInputTokens {
        d := Refused(InputTooLarge, 0);
        return;
      }
      WindowFor(task, seen);
      var w := tasks[task];
      if now - w.start >= cfg.window {
        w := Window(now, 0, 0);
        tasks := tasks[task := w];
        epochs := epochs[task := EpochOf(Accounts(), task) + 1];
      }
      clock := now;
      assert Accounts() == Fresh(cfg, old(Accounts()), task, seen, now);
      var retry := cfg.window - (now - w.start);
      if cfg.maxRequests > 0 && w.requests + 1 > cfg.maxRequests {
        d := Refused(RequestRate, retry);
        return;
      }
      if cfg.maxTokens > 0 && w.tokens + est > cfg.maxTokens {
        d := Refused(TokenBudget, retry);
        return;
      }
      w := w.(requests := w.requests + 1);
      w := w.(tokens := w.tokens + est);
      tasks := tasks[task := w];
      d := Allowed;
      grants := grants + [Grant(task, EpochOf(Accounts(), task), w.start, now, est, None)];
      r := Reservation(task, w.start, est, true);
    }

    method WindowFor(task: string, seen: int)
      modifies this
      ensures Accounts() == Opened(old(Accounts()), task, seen)
      ensures clock == old(clock) && grants == old(grants)
    {
      if task in tasks {
        return;
      }
      tasks := tasks[task := Window(seen, 0, 0)];
      epochs := epochs[task := 0];
    }

    /** Settling `r`, the reservation recorded at position `id`. */
    method Reconcile(r: Reservation, actual: int, ghost id: nat)
      requires r.active ==>
                 && id < |grants| && grants[id].task == r.task && grants[id].start == r.windowStart
                 && grants[id].est == r.est
      modifies this
      ensures !r.active ==> Accounts() == old(Accounts())
      ensures r.active ==> Accounts() == SettleSpec(cfg, old(Accounts()), id, actual)
    {
      if r.active {
        grants := grants[id := grants[id].(settled := Some(actual))];
      }
      if !r.active || !cfg.enabled {
        return;
      }
      if r.task !in tasks {
        return;
      }
      var w := tasks[r.task];
      if w.start != r.windowStart {
        return;
      }
      w := w.(tokens := w.tokens + (actual - r.est));
      if w.tokens < 0 {
        w := w.(tokens := 0);
      }
      tasks := tasks[r.task := w];
    }
  }
}
