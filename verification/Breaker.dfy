/**
 The per-(task, model) circuit breaker.

 The tracker keeps one mutable entry per pair.  Everything it decides is
 described here by a log of what it was told, read with a nondecreasing clock:
 `ClosedForm` computes an entry from the log alone, and `Admits` is the
 decision of `Allow` as one formula with no state at all.
 */
module Breaker {
  import opened Prelude

  datatype Config = Config(enabled: bool, threshold: int, baseCooldown: int, maxCooldown: int, factor: int)

  /** NewTracker: zero or negative settings fall back to defaults. */
  function WithDefaults(c: Config): (r: Config)
    ensures ValidConfig(r)
    ensures ValidConfig(c) ==> r == c
    ensures r.enabled == c.enabled && r.threshold == (if c.threshold >= 1 then c.threshold else 3)
    ensures r.baseCooldown == (if c.baseCooldown >= 1 then c.baseCooldown else 30 * SECOND)
    ensures r.maxCooldown == (if c.maxCooldown >= 1 then c.maxCooldown else 30 * 60 * SECOND)
    ensures r.factor == Max(2, c.factor)
  {
    Config(c.enabled,
           if c.threshold <= 0 then 3 else c.threshold,
           if c.baseCooldown <= 0 then 30 * SECOND else c.baseCooldown,
           if c.maxCooldown <= 0 then 1800 * SECOND else c.maxCooldown,
           if c.factor <= 1 then 2 else c.factor)
  }

  predicate ValidConfig(c: Config) {
    c.threshold >= 1 && c.baseCooldown >= 1 && c.maxCooldown >= 1 && c.factor >= 2
  }

  datatype State = Healthy | Unhealthy | Probing

  datatype Key = Key(task: string, model: string)

  /** `openUntil` is None for the zero time. */
  datatype Entry = Entry(consecutive: nat, state: State, openUntil: Option<int>, trips: nat, cooldown: int,
                         totalFailures: nat, totalSuccesses: nat)

  // ---- the log -------------------------------------------------------------

  datatype Kind = Ask | Success | Failure | Reset

  datatype Event = Event(key: Key, kind: Kind, at: int)

  /** Clock readings never go back. */
  ghost predicate Chronological(log: seq<Event>) {
    forall i, j :: 0 <= i < j < |log| ==> log[i].at <= log[j].at
  }

  ghost predicate NotAfter(log: seq<Event>, now: int) {
    forall i :: 0 <= i < |log| ==> log[i].at <= now
  }

  /** How many events of one kind the pair has seen. */
  function Count(log: seq<Event>, k: Key, kind: Kind): nat {
    if log == [] then 0
    else Count(Front(log), k, kind) + (if Last(log).key == k && Last(log).kind == kind then 1 else 0)
  }

  /** Failures since the pair's last success or reset. */
  function Streak(log: seq<Event>, k: Key): nat {
    if log == [] then 0
    else if Last(log).key != k || Last(log).kind == Ask then Streak(Front(log), k)
    else if Last(log).kind == Failure then Streak(Front(log), k) + 1
    else 0
  }

  /** When the pair last failed. */
  function LastFailure(log: seq<Event>, k: Key): int {
    if log == [] then 0
    else if Last(log).key == k && Last(log).kind == Failure then Last(log).at
    else LastFailure(Front(log), k)
  }

  /** The latest Ask since the pair's last recorded outcome. */
  function LastAsk(log: seq<Event>, k: Key): Option<int> {
    if log == [] then None
    else if Last(log).key != k then LastAsk(Front(log), k)
    else if Last(log).kind == Ask then Some(Last(log).at)
    else None
  }

  /** The backed-off window of the n-th trip: Base * Factor^(n-1), capped. */
  function Cooldown(c: Config, n: nat): int {
    Min(c.maxCooldown, c.baseCooldown * Pow(NatOf(c.factor), if n <= 1 then 0 else n - 1))
  }

  /** The instant before which a tripped pair is refused. */
  function Deadline(c: Config, log: seq<Event>, k: Key): int
    requires Streak(log, k) >= c.threshold
  {
    LastFailure(log, k) + Cooldown(c, Streak(log, k) - c.threshold + 1)
  }

  /** The decision of Allow: refused exactly while enough failures in a row are
      on record and the window of the last of them is still open. */
  predicate Admits(c: Config, log: seq<Event>, k: Key, now: int) {
    !c.enabled || Streak(log, k) < c.threshold || now >= Deadline(c, log, k)
  }

  predicate Tracked(log: seq<Event>, k: Key) {
    Count(log, k, Success) + Count(log, k, Failure) > 0
  }

  function ClosedForm(c: Config, log: seq<Event>, k: Key): Entry {
    var n := Streak(log, k);
    if n < c.threshold then
      Entry(n, Healthy, None, 0, 0, Count(log, k, Failure), Count(log, k, Success))
    else
      var until := Deadline(c, log, k);
      var probing := LastAsk(log, k).Some? && LastAsk(log, k).value >= until;
      Entry(n, if probing then Probing else Unhealthy, Some(until), n - c.threshold + 1,
            Cooldown(c, n - c.threshold + 1), Count(log, k, Failure), Count(log, k, Success))
  }

  /** Every entry is its closed form, and only recorded pairs have one. */
  ghost predicate Reflects(c: Config, entries: map<Key, Entry>, log: seq<Event>) {
    forall k :: (k in entries <==> Tracked(log, k)) && (k in entries ==> entries[k] == ClosedForm(c, log, k))
  }

  lemma {:induction false} UntrackedHasNoStreak(log: seq<Event>, k: Key)
    requires !Tracked(log, k)
    ensures Streak(log, k) == 0
  {
    if log != [] { UntrackedHasNoStreak(Front(log), k); }
  }

  /** One event changes only its own pair's closed form. */
  lemma OtherPairsUnmoved(c: Config, log: seq<Event>, e: Event, k: Key)
    requires k != e.key
    ensures ClosedForm(c, log + [e], k) == ClosedForm(c, log, k)
    ensures Tracked(log + [e], k) == Tracked(log, k)
  {
    FrontOfAppend(log, e);
  }

  /** What one event does to its own pair's counters. */
  lemma OwnPairMoves(log: seq<Event>, e: Event)
    ensures var k := e.key;
            && Streak(log + [e], k)
               == (match e.kind case Ask => Streak(log, k) case Failure => Streak(log, k) + 1 case _ => 0)
            && LastFailure(log + [e], k) == (if e.kind == Failure then e.at else LastFailure(log, k))
            && LastAsk(log + [e], k) == (if e.kind == Ask then Some(e.at) else None)
            && Count(log + [e], k, Failure) == Count(log, k, Failure) + (if e.kind == Failure then 1 else 0)
            && Count(log + [e], k, Success) == Count(log, k, Success) + (if e.kind == Success then 1 else 0)
  {
    FrontOfAppend(log, e);
  }

  /** Writing the pair's new closed form keeps the whole table reflecting the log. */
  lemma WritingReflects(c: Config, entries: map<Key, Entry>, log: seq<Event>, e: Event, x: Entry)
    requires Reflects(c, entries, log)
    requires Tracked(log + [e], e.key) && x == ClosedForm(c, log + [e], e.key)
    ensures Reflects(c, entries[e.key := x], log + [e])
  {
    forall k | k != e.key
      ensures ClosedForm(c, log + [e], k) == ClosedForm(c, log, k) && Tracked(log + [e], k) == Tracked(log, k)
    {
      OtherPairsUnmoved(c, log, e, k);
    }
  }

  lemma AskingReflects(c: Config, entries: map<Key, Entry>, log: seq<Event>, k: Key, now: int)
    requires Reflects(c, entries, log)
    requires k in entries ==> ClosedForm(c, log + [Event(k, Ask, now)], k) == entries[k]
    ensures Reflects(c, entries, log + [Event(k, Ask, now)])
  {
    var e := Event(k, Ask, now);
    OwnPairMoves(log, e);
    if k in entries {
      WritingReflects(c, entries, log, e, entries[k]);
      assert entries[k := entries[k]] == entries;
    } else {
      forall k' | k' != k
        ensures ClosedForm(c, log + [e], k') == ClosedForm(c, log, k') && Tracked(log + [e], k') == Tracked(log, k')
      {
        OtherPairsUnmoved(c, log, e, k');
      }
    }
  }

  lemma {:induction false} LastAskIsLogged(log: seq<Event>, k: Key, now: int)
    requires NotAfter(log, now)
    ensures LastAsk(log, k).Some? ==> LastAsk(log, k).value <= now
    ensures Count(log, k, Failure) > 0 ==> LastFailure(log, k) <= now
  {
    if log != [] { LastAskIsLogged(Front(log), k, now); }
  }

  // ---- what holds over every run -------------------------------------------

  ghost predicate NoRecovery(log: seq<Event>, k: Key) {
    forall i :: 0 <= i < |log| ==> !(log[i].key == k && (log[i].kind == Success || log[i].kind == Reset))
  }

  lemma CooldownMonotone(c: Config, m: nat, n: nat)
    requires ValidConfig(c) && m <= n
    ensures 1 <= Cooldown(c, m) <= Cooldown(c, n)
  {
    var i, j := if m <= 1 then 0 else m - 1, if n <= 1 then 0 else n - 1;
    PowMonotone(c.factor, i, j);
    MulMonotone(c.baseCooldown, Pow(c.factor, i), Pow(c.factor, j));
    MulMonotone(c.baseCooldown, 1, Pow(c.factor, i));
  }

  /** The first window is the base, each next one Factor times as long, up to the cap. */
  lemma CooldownGrowsByFactor(c: Config, n: nat)
    requires ValidConfig(c) && n >= 1
    ensures Cooldown(c, 1) == Min(c.baseCooldown, c.maxCooldown)
    ensures Cooldown(c, n + 1) == Min(c.maxCooldown, Cooldown(c, n) * c.factor)
  {
    var before, f := c.baseCooldown * Pow(c.factor, n - 1), c.factor;
    PowStep(c.baseCooldown, f, n);
    if before >= c.maxCooldown {
      MulMonotone(f, c.maxCooldown, before);
      MulMonotone(c.maxCooldown, 1, f);
    }
  }

  /** A pair is admitted until its Threshold-th failure in a row; that failure
      shuts it for the base window, and each further one for a longer one. */
  lemma OpenAndShut(c: Config, log: seq<Event>, k: Key, now: int)
    requires ValidConfig(c) && c.enabled
    ensures Streak(log, k) < c.threshold ==> Admits(c, log, k, now)
    ensures Streak(log, k) == c.threshold ==>
              (Admits(c, log, k, now) <==> now >= LastFailure(log, k) + Min(c.baseCooldown, c.maxCooldown))
    ensures Streak(log, k) > c.threshold ==>
              (Admits(c, log, k, now) <==> now >= LastFailure(log, k) + Cooldown(c, Streak(log, k) - c.threshold + 1))
  {
    CooldownGrowsByFactor(c, 1);
  }

  /** Once tripped, whatever else happens short of a success or a reset, the
      pair stays tripped and its deadline never moves back. */
  lemma {:induction false} DeadlineNeverFalls(c: Config, log: seq<Event>, more: seq<Event>, k: Key)
    requires ValidConfig(c) && Chronological(log + more)
    requires Streak(log, k) >= c.threshold && NoRecovery(more, k)
    ensures Streak(log + more, k) >= Streak(log, k)
    ensures Deadline(c, log + more, k) >= Deadline(c, log, k)
    decreases |more|
  {
    if more == [] {
      assert log + more == log;
    } else {
      var e := Last(more);
      assert log + more == (log + Front(more)) + [e];
      assert Front(log + more) == log + Front(more);
      DeadlineNeverFalls(c, log, Front(more), k);
      if e.key == k {
        OwnPairMoves(log + Front(more), e);
        CooldownMonotone(c, Streak(log + Front(more), k) - c.threshold + 1, Streak(log + more, k) - c.threshold + 1);
        assert NotAfter(Front(log + more), Last(log + more).at);
        StreakHasFailures(log + Front(more), k);
        LastAskIsLogged(log + Front(more), k, e.at);
      } else {
        OtherPairsUnmoved(c, log + Front(more), e, k);
      }
    }
  }

  lemma {:induction false} StreakHasFailures(log: seq<Event>, k: Key)
    ensures Streak(log, k) <= Count(log, k, Failure)
  {
    if log != [] { StreakHasFailures(Front(log), k); }
  }

  /** Blocking: from the trip until its deadline every Allow of the pair is
      refused, whatever other calls, failures and pairs come between. */
  lemma BlockedUntilRecovery(c: Config, log: seq<Event>, more: seq<Event>, k: Key, now: int)
    requires ValidConfig(c) && c.enabled && Chronological(log + more)
    requires Streak(log, k) >= c.threshold && NoRecovery(more, k)
    requires now < Deadline(c, log, k)
    ensures !Admits(c, log + more, k, now)
  {
    DeadlineNeverFalls(c, log, more, k);
  }

  /** There is no single probe: once the window has elapsed every Allow is
      admitted, however many came before it, until the next failure is recorded. */
  lemma EveryProbeAdmitted(c: Config, log: seq<Event>, more: seq<Event>, k: Key, now: int)
    requires ValidConfig(c) && Streak(log, k) >= c.threshold && now >= Deadline(c, log, k)
    requires forall i :: 0 <= i < |more| ==> !(more[i].key == k && more[i].kind == Failure)
    ensures Admits(c, log + more, k, now)
  {
    ProbingKeepsOrClears(log, more, k);
  }

  /** `n` failures in a row of one pair, all at time zero. */
  function Failures(k: Key, n: nat): seq<Event> {
    if n == 0 then [] else Failures(k, n - 1) + [Event(k, Failure, 0)]
  }

  lemma {:induction false} FailuresAreAStreak(k: Key, n: nat)
    ensures Streak(Failures(k, n), k) == n && LastFailure(Failures(k, n), k) == 0
    ensures Chronological(Failures(k, n)) && NotAfter(Failures(k, n), 0)
  {
    if n > 0 {
      FailuresAreAStreak(k, n - 1);
      OwnPairMoves(Failures(k, n - 1), Event(k, Failure, 0));
    }
  }

  /** Under every setting two trials of one pair can be out at the same instant:
      the first Allow starts the probe, and the second is admitted while it runs. */
  lemma TwoProbesAtOnce(c: Config, k: Key) returns (log: seq<Event>, now: int)
    requires ValidConfig(c) && c.enabled
    ensures Chronological(log) && NotAfter(log, now) && ClosedForm(c, log, k).state == Unhealthy
    ensures var first := Event(k, Ask, now);
            && Admits(c, log, k, now) && ClosedForm(c, log + [first], k).state == Probing
            && Admits(c, log + [first], k, now)
  {
    log := Failures(k, c.threshold);
    FailuresAreAStreak(k, c.threshold);
    now := Deadline(c, log, k);
    CooldownMonotone(c, 1, 1);
    var first := Event(k, Ask, now);
    OwnPairMoves(log, first);
    EveryProbeAdmitted(c, log, [first], k, now);
    LastFailureHasNoAsk(k, c.threshold);
  }

  lemma LastFailureHasNoAsk(k: Key, n: nat)
    ensures LastAsk(Failures(k, n), k).None?
  {
    if n > 0 { OwnPairMoves(Failures(k, n - 1), Event(k, Failure, 0)); }
  }

  lemma {:induction false} ProbingKeepsOrClears(log: seq<Event>, more: seq<Event>, k: Key)
    requires forall i :: 0 <= i < |more| ==> !(more[i].key == k && more[i].kind == Failure)
    ensures Streak(log + more, k) == 0
            || (Streak(log + more, k) == Streak(log, k) && LastFailure(log + more, k) == LastFailure(log, k))
    decreases |more|
  {
    if more == [] {
      assert log + more == log;
    } else {
      assert log + more == (log + Front(more)) + [Last(more)];
      FrontOfAppend(log + Front(more), Last(more));
      ProbingKeepsOrClears(log, Front(more), k);
    }
  }

  // ---- the tracker ---------------------------------------------------------

  /** The values the loop's duration takes before the final cap: from the base,
      multiplied once per further trip, stopping at the first product that
      reaches the cap. */
  ghost predicate Durations(c: Config, trips: nat, values: seq<int>) {
    && 1 <= |values| <= Max(1, trips) && values[0] == c.baseCooldown
    && (forall i :: 1 <= i < |values| ==> values[i] == values[i - 1] * c.factor)
    && (forall i :: 1 <= i < |values| - 1 ==> values[i] < c.maxCooldown)
    && (|values| < Max(1, trips) ==> |values| > 1 && Last(values) >= c.maxCooldown)
  }

  /** None of them exceeds one multiplication of the larger setting, which is all
      the 64-bit duration has to hold. */
  lemma {:induction false} DurationsStayBounded(c: Config, trips: nat, values: seq<int>, i: nat)
    requires ValidConfig(c) && Durations(c, trips, values) && i < |values|
    ensures 1 <= values[i] <= Max(c.baseCooldown, c.maxCooldown) * c.factor
    decreases i
  {
    var cap := Max(c.baseCooldown, c.maxCooldown);
    MulMonotone(cap, 1, c.factor);
    if i > 0 {
      DurationsStayBounded(c, trips, values, i - 1);
      assert values[i - 1] <= cap;
      MulMonotone(c.factor, values[i - 1], cap);
      MulMonotone(c.factor, 1, values[i - 1]);
    }
  }

  /** `backoff`. */
  method Backoff(c: Config, trips: nat) returns (d: int, ghost values: seq<int>)
    requires ValidConfig(c)
    ensures d == Cooldown(c, trips)
    ensures Durations(c, trips, values) && d == Min(c.maxCooldown, Last(values))
    ensures forall i :: 0 <= i < |values| ==> 1 <= values[i] <= Max(c.baseCooldown, c.maxCooldown) * c.factor
  {
    d := c.baseCooldown;
    values := [d];
    var i := 1;
    while i < trips
      invariant 1 <= i && (i <= trips || (trips == 0 && i == 1))
      invariant d == c.baseCooldown * Pow(c.factor, i - 1)
      invariant |values| == i && values[0] == c.baseCooldown && Last(values) == d
      invariant forall j :: 1 <= j < i ==> values[j] == values[j - 1] * c.factor && values[j] < c.maxCooldown
    {
      d := d * c.factor;
      PowStep(c.baseCooldown, c.factor, i);
      values := values + [d];
      if d >= c.maxCooldown {
        BackoffGrows(c, i, trips - 1);
        d := c.maxCooldown;
        DurationsAreBounded(c, trips, values);
        return;
      }
      i := i + 1;
    }
    assert d == c.baseCooldown * Pow(c.factor, if trips <= 1 then 0 else trips - 1);
    if d > c.maxCooldown {
      d := c.maxCooldown;
    }
    DurationsAreBounded(c, trips, values);
  }

  lemma DurationsAreBounded(c: Config, trips: nat, values: seq<int>)
    requires ValidConfig(c) && Durations(c, trips, values)
    ensures forall i :: 0 <= i < |values| ==> 1 <= values[i] <= Max(c.baseCooldown, c.maxCooldown) * c.factor
  {
    forall i: nat | i < |values| ensures 1 <= values[i] <= Max(c.baseCooldown, c.maxCooldown) * c.factor {
      DurationsStayBounded(c, trips, values, i);
    }
  }

  lemma PowStep(a: int, b: nat, n: nat)
    requires n >= 1
    ensures a * Pow(b, n) == a * Pow(b, n - 1) * b
  {
  }

  lemma BackoffGrows(c: Config, m: nat, n: nat)
    requires ValidConfig(c) && m <= n
    ensures c.baseCooldown * Pow(c.factor, m) <= c.baseCooldown * Pow(c.factor, n)
  {
    PowMonotone(c.factor, m, n);
    MulMonotone(c.baseCooldown, Pow(c.factor, m), Pow(c.factor, n));
  }

  class Tracker {
    const cfg: Config
    var entries: map<Key, Entry>
    ghost var log: seq<Event>

    ghost predicate Valid()
      reads this
    {
      && ValidConfig(cfg)
      && Chronological(log)
      && Reflects(cfg, entries, log)
      && (!cfg.enabled ==> log == [])
    }

    constructor (config: Config)
      ensures Valid() && log == [] && cfg == WithDefaults(config)
    {
      cfg := WithDefaults(config);
      entries := map[];
      log := [];
    }

    method Allow(task: string, model: string, now: int) returns (ok: bool, state: State)
      requires Valid() && NotAfter(log, now)
      modifies this
      ensures Valid()
      ensures log == if cfg.enabled then old(log) + [Event(Key(task, model), Ask, now)] else old(log)
      ensures ok <==> Admits(cfg, old(log), Key(task, model), now)
      ensures state == Unhealthy <==> !ok
      ensures state == Healthy <==> !cfg.enabled || Streak(old(log), Key(task, model)) < cfg.threshold
    {
      if !cfg.enabled {
        return true, Healthy;
      }
      var k := Key(task, model);
      ghost var before, e := log, Event(k, Ask, now);
      log := log + [e];
      OwnPairMoves(before, e);
      if k !in entries {
        UntrackedHasNoStreak(before, k);
        AskingReflects(cfg, entries, before, k, now);
        return true, Healthy;
      }
      if entries[k].state == Healthy {
        AskingReflects(cfg, entries, before, k, now);
        return true, Healthy;
      }
      if entries[k].state == Probing {
        LastAskIsLogged(before, k, now);
        AskingReflects(cfg, entries, before, k, now);
        return true, Probing;
      }
      if now >= entries[k].openUntil.value {
        entries := entries[k := entries[k].(state := Probing)];
        WritingReflects(cfg, old(entries), before, e, entries[k]);
        return true, Probing;
      }
      AskingReflects(cfg, entries, before, k, now);
      return false, Unhealthy;
    }

    method RecordSuccess(task: string, model: string, now: int)
      requires Valid() && NotAfter(log, now)
      modifies this
      ensures Valid()
      ensures log == if cfg.enabled then old(log) + [Event(Key(task, model), Success, now)] else old(log)
    {
      if !cfg.enabled {
        return;
      }
      var k := Key(task, model);
      var e := Ensure(k);
      e := e.(totalSuccesses := e.totalSuccesses + 1);
      e := e.(consecutive := 0, state := Healthy, openUntil := None, cooldown := 0, trips := 0);
      entries := entries[k := e];
      OwnPairMoves(log, Event(k, Success, now));
      WritingReflects(cfg, old(entries), log, Event(k, Success, now), e);
      log := log + [Event(k, Success, now)];
    }

    method RecordFailure(task: string, model: string, now: int)
      requires Valid() && NotAfter(log, now)
      modifies this
      ensures Valid()
      ensures log == if cfg.enabled then old(log) + [Event(Key(task, model), Failure, now)] else old(log)
    {
      if !cfg.enabled {
        return;
      }
      var k := Key(task, model);
      var e := Ensure(k);
      e := e.(totalFailures := e.totalFailures + 1);
      e := e.(consecutive := e.consecutive + 1);
      if e.state == Probing {
        e := Trip(e, now);
      } else if e.consecutive >= cfg.threshold {
        e := Trip(e, now);
      }
      entries := entries[k := e];
      OwnPairMoves(log, Event(k, Failure, now));
      WritingReflects(cfg, old(entries), log, Event(k, Failure, now), e);
      log := log + [Event(k, Failure, now)];
    }

    /** The admin override; false when the pair was never seen. */
    method ResetPair(task: string, model: string, now: int) returns (ok: bool)
      requires Valid() && NotAfter(log, now)
      modifies this
      ensures Valid()
      ensures ok <==> Tracked(old(log), Key(task, model))
      ensures log == if ok then old(log) + [Event(Key(task, model), Reset, now)] else old(log)
    {
      var k := Key(task, model);
      if k !in entries {
        return false;
      }
      var e := entries[k];
      e := e.(consecutive := 0, state := Healthy, openUntil := None, cooldown := 0, trips := 0);
      entries := entries[k := e];
      OwnPairMoves(log, Event(k, Reset, now));
      WritingReflects(cfg, old(entries), log, Event(k, Reset, now), e);
      log := log + [Event(k, Reset, now)];
      ok := true;
    }

    method Trip(e: Entry, now: int) returns (r: Entry)
      requires ValidConfig(cfg)
      ensures r == e.(trips := e.trips + 1, cooldown := Cooldown(cfg, e.trips + 1), state := Unhealthy,
                      openUntil := Some(now + Cooldown(cfg, e.trips + 1)))
    {
      r := e.(trips := e.trips + 1);
      ghost var values;
      var d;
      d, values := Backoff(cfg, r.trips);
      r := r.(cooldown := d);
      r := r.(state := Unhealthy);
      r := r.(openUntil := Some(now + r.cooldown));
    }

    method Ensure(k: Key) returns (e: Entry)
      requires Valid()
      ensures e == ClosedForm(cfg, log, k)
    {
      if k in entries {
        e := entries[k];
      } else {
        e := Entry(0, Healthy, None, 0, 0, 0, 0);
        UntrackedHasNoStreak(log, k);
      }
    }
  }
}
