/**
 The asynchronous run writer: many non-blocking writers, one drainer, a bounded
 channel and Close, as interleaved steps.  A step is one access to shared
 state: taking or releasing the mutex, one channel operation, one update of the
 drop counter, one insert.  The attempt and health writers follow the same code.
 */
module RunWriter {
  import opened Prelude

  type Tid = nat

  /** Where a Write or a Close is. */
  datatype Pc =
    | Idle
    | WriteStart(row: int)      // before mu.Lock
    | WriteChecking(row: int)   // holds mu, about to test closed
    | WriteSending(row: int)    // holds mu, at the select
    | WriteSent                 // holds mu, row accepted
    | WriteRefused              // holds mu, row refused
    | WriteDropping             // released mu, about to count the drop
    | CloseStart
    | CloseChecking             // holds mu
    | CloseMarked               // holds mu, closed set, about to close the channel
    | CloseUnlocking            // holds mu, channel closed
    | CloseLeaving              // holds mu, found it already closed
    | CloseWaiting              // released mu, in wg.Wait

  predicate HoldsMutex(p: Pc) {
    p.WriteChecking? || p.WriteSending? || p.WriteSent? || p.WriteRefused?
    || p.CloseChecking? || p.CloseMarked? || p.CloseUnlocking? || p.CloseLeaving?
  }

  datatype Drainer = Receiving | Inserting(row: int) | Finished

  /** `accepted`, `handed` and `refused` are the history: rows whose Write
      returned true, rows given to the insert, rows whose Write returned false.
      `panicked` records a send on, or a second close of, a closed channel;
      `flushed` a Close that closed the channel and has returned. */
  datatype State = State(capacity: nat, queue: seq<int>, channelClosed: bool, closed: bool, dropped: nat,
                         drainer: Drainer, threads: map<Tid, Pc>,
                         accepted: seq<int>, handed: seq<int>, refused: seq<int>, panicked: bool, flushed: bool)

  /** NewRunWriter. */
  function New(bufSize: int): State {
    State(if bufSize <= 0 then 1024 else bufSize, [], false, false, 0, Receiving, map[], [], [], [], false, false)
  }

  datatype Action =
    | CallWrite(t: Tid, row: int) | CallClose(t: Tid)
    | TakeMutex(t: Tid) | Check(t: Tid) | Send(t: Tid) | Release(t: Tid) | CountDrop(t: Tid)
    | CloseChannel(t: Tid) | WaitDone(t: Tid)
    | Receive | Insert

  function PcOf(s: State, t: Tid): Pc {
    if t in s.threads then s.threads[t] else Idle
  }

  ghost predicate MutexFree(s: State) {
    forall t :: t in s.threads ==> !HoldsMutex(s.threads[t])
  }

  ghost predicate Enabled(s: State, a: Action) {
    match a
    case CallWrite(t, _) => PcOf(s, t).Idle?
    case CallClose(t) => PcOf(s, t).Idle?
    case TakeMutex(t) => (PcOf(s, t).WriteStart? || PcOf(s, t).CloseStart?) && MutexFree(s)
    case Check(t) => PcOf(s, t).WriteChecking? || PcOf(s, t).CloseChecking?
    case Send(t) => PcOf(s, t).WriteSending?
    case Release(t) =>
      PcOf(s, t).WriteSent? || PcOf(s, t).WriteRefused? || PcOf(s, t).CloseUnlocking? || PcOf(s, t).CloseLeaving?
    case CountDrop(t) => PcOf(s, t).WriteDropping?
    case CloseChannel(t) => PcOf(s, t).CloseMarked?
    case WaitDone(t) => PcOf(s, t).CloseWaiting? && s.drainer.Finished?
    case Receive => s.drainer.Receiving? && (s.queue != [] || s.channelClosed)
    case Insert => s.drainer.Inserting?
  }

  function At(s: State, t: Tid, p: Pc): State {
    s.(threads := s.threads[t := p])
  }

  ghost function Apply(s: State, a: Action): State
    requires Enabled(s, a)
  {
    match a
    case CallWrite(t, row) => At(s, t, WriteStart(row))
    case CallClose(t) => At(s, t, CloseStart)
    case TakeMutex(t) =>
      if PcOf(s, t).CloseStart? then At(s, t, CloseChecking) else At(s, t, WriteChecking(PcOf(s, t).row))
    case Check(t) =>
      var p := PcOf(s, t);
      if p.CloseChecking? then
        if s.closed then At(s, t, CloseLeaving) else At(s, t, CloseMarked).(closed := true)
      else if s.closed then At(s, t, WriteRefused).(refused := s.refused + [p.row])
      else At(s, t, WriteSending(p.row))
    case Send(t) =>
      var row := PcOf(s, t).row;
      if s.channelClosed then At(s, t, WriteRefused).(panicked := true)
      else if |s.queue| < s.capacity then At(s, t, WriteSent).(queue := s.queue + [row], accepted := s.accepted + [row])
      else At(s, t, WriteRefused).(refused := s.refused + [row])
    case Release(t) =>
      At(s, t, match PcOf(s, t) case WriteRefused => WriteDropping case CloseUnlocking => CloseWaiting case _ => Idle)
    case CountDrop(t) => At(s, t, Idle).(dropped := s.dropped + 1)
    case CloseChannel(t) => At(s, t, CloseUnlocking).(channelClosed := true, panicked := s.panicked || s.channelClosed)
    case WaitDone(t) => At(s, t, Idle).(flushed := true)
    case Receive =>
      if s.queue != [] then s.(drainer := Inserting(s.queue[0]), queue := s.queue[1..],
          handed := s.handed + [s.queue[0]])
      else s.(drainer := Finished)
    case Insert => s.(drainer := Receiving)
  }

  // ---- safety --------------------------------------------------------------------

  /** Refused, and not counted yet. */
  predicate Pending(p: Pc) {
    p.WriteRefused? || p.WriteDropping?
  }

  ghost function Uncounted(s: State): set<Tid> {
    set t | t in s.threads && Pending(s.threads[t])
  }

  ghost predicate MutexOk(s: State) {
    && (forall t, u :: t in s.threads && u in s.threads && t != u && HoldsMutex(s.threads[t]) ==>
        !HoldsMutex(s.threads[u]))
    // between setting closed and closing the channel, the closer holds the mutex
    && (s.channelClosed ==> s.closed)
    && (forall t :: t in s.threads && s.threads[t].CloseMarked? ==> s.closed && !s.channelClosed)
    && (s.closed && !s.channelClosed ==> exists t :: t in s.threads && s.threads[t].CloseMarked?)
    && (forall t :: t in s.threads && s.threads[t].WriteSending? ==> !s.closed)
    && (forall t :: t in s.threads && (s.threads[t].CloseUnlocking? || s.threads[t].CloseWaiting?) ==> s.channelClosed)
  }

  /** Accepted rows are the rows handed to the insert, then the queue, in order. */
  predicate OrderOk(s: State) {
    && s.accepted == s.handed + s.queue && |s.queue| <= s.capacity
    && (s.drainer.Inserting? ==> s.handed != [] && Last(s.handed) == s.drainer.row)
    && (s.drainer.Finished? ==> s.channelClosed && s.queue == [])
    && (s.flushed ==> s.drainer.Finished?)
  }

  ghost predicate Inv(s: State) {
    && MutexOk(s) && !s.panicked && OrderOk(s)
    && |s.refused| == s.dropped + |Uncounted(s)|
  }

  lemma UncountedMoves(s: State, t: Tid, p: Pc)
    ensures |Uncounted(At(s, t, p))|
            == |Uncounted(s)| - (if Pending(PcOf(s, t)) then 1 else 0) + (if Pending(p) then 1 else 0)
  {
    var rest := Uncounted(s) - {t};
    assert Uncounted(s) == if Pending(PcOf(s, t)) then rest + {t} else rest;
    assert Uncounted(At(s, t, p)) == if Pending(p) then rest + {t} else rest;
  }

  lemma StepKeepsMutex(s: State, a: Action)
    requires Inv(s) && Enabled(s, a)
    ensures MutexOk(Apply(s, a))
  {
    hide Uncounted;
    if !a.Receive? && !a.Insert? {
      ThreadKeepsMutex(s, a, a.t, PcOf(Apply(s, a), a.t));
    }
  }

  /** What a step does to the flags, as its thread sees it. */
  lemma ThreadEffects(s: State, a: Action, t: Tid, p: Pc)
    requires Inv(s) && Enabled(s, a) && !a.Receive? && !a.Insert? && t == a.t && p == PcOf(Apply(s, a), t)
    ensures var s' := Apply(s, a);
            && s'.threads == s.threads[t := p]
            && (HoldsMutex(p) ==> HoldsMutex(PcOf(s, t)) || MutexFree(s))
            && (p.CloseMarked? ==> s'.closed && !s'.channelClosed)
            && (p.WriteSending? ==> !s'.closed)
            && (s'.closed != s.closed ==> p.CloseMarked?)
            && (s'.channelClosed != s.channelClosed ==> PcOf(s, t).CloseMarked?)
            && (PcOf(s, t).CloseMarked? ==> s'.channelClosed)
            && (p.CloseUnlocking? || p.CloseWaiting? ==> s'.channelClosed)
            && (s.closed ==> s'.closed) && (s.channelClosed ==> s'.channelClosed)
  {
    ThreadFacts(s, t);
    hide Uncounted, MutexFree, MutexOk, Inv;
  }

  lemma ThreadFacts(s: State, t: Tid)
    requires Inv(s)
    ensures PcOf(s, t).CloseMarked? ==> s.closed && !s.channelClosed
    ensures PcOf(s, t).WriteSending? ==> !s.closed
    ensures PcOf(s, t).CloseUnlocking? || PcOf(s, t).CloseWaiting? ==> s.channelClosed
    ensures s.channelClosed ==> s.closed
  {
  }

  lemma ThreadKeepsMutex(s: State, a: Action, t: Tid, p: Pc)
    requires Inv(s) && Enabled(s, a) && !a.Receive? && !a.Insert? && t == a.t && p == PcOf(Apply(s, a), t)
    ensures MutexOk(Apply(s, a))
  {
    ThreadEffects(s, a, t, p);
    hide Uncounted, Apply, Enabled;
    var s' := Apply(s, a);
    if s'.closed && !s'.channelClosed && s.closed {
      var u :| u in s.threads && s.threads[u].CloseMarked?;
      assert u != t && s'.threads[u].CloseMarked?;
    } else if s'.closed && !s'.channelClosed {
      assert s'.threads[t].CloseMarked?;
    }
  }

  /** Every refused Write is counted, or about to be. */
  lemma StepKeepsCount(s: State, a: Action)
    requires Inv(s) && Enabled(s, a)
    ensures var s' := Apply(s, a); |s'.refused| == s'.dropped + |Uncounted(s')|
    ensures !Apply(s, a).panicked
  {
    var s' := Apply(s, a);
    if a.Receive? || a.Insert? {
      assert Uncounted(s') == Uncounted(s);
    } else {
      assert s'.threads == s.threads[a.t := PcOf(s', a.t)];
      assert Uncounted(s') == Uncounted(At(s, a.t, PcOf(s', a.t)));
      UncountedMoves(s, a.t, PcOf(s', a.t));
      hide Uncounted;
    }
  }

  lemma ReceiveKeepsOrder(s: State)
    requires OrderOk(s) && Enabled(s, Receive)
    ensures OrderOk(Apply(s, Receive))
  {
    if s.queue != [] {
      assert s.queue == [s.queue[0]] + s.queue[1..];
    }
  }

  lemma SendKeepsOrder(s: State, t: Tid)
    requires OrderOk(s) && Enabled(s, Send(t)) && !s.channelClosed
    ensures OrderOk(Apply(s, Send(t)))
  {
  }

  lemma StepKeepsOrder(s: State, a: Action)
    requires Inv(s) && Enabled(s, a)
    ensures OrderOk(Apply(s, a))
  {
    assert a.Send? ==> !s.closed && !s.channelClosed;
    hide Uncounted, MutexOk, MutexFree;
    match a
    case Receive => ReceiveKeepsOrder(s);
    case Send(t) => SendKeepsOrder(s, t);
    case _ =>
      assert Apply(s, a).queue == s.queue && Apply(s, a).accepted == s.accepted && Apply(s, a).handed == s.handed;
  }

  lemma StepKeepsInv(s: State, a: Action)
    requires Inv(s) && Enabled(s, a)
    ensures Inv(Apply(s, a))
  {
    StepKeepsMutex(s, a);
    StepKeepsCount(s, a);
    StepKeepsOrder(s, a);
    hide MutexOk, OrderOk, Apply, Uncounted;
  }

  // ---- over every run ---------------------------------------------------------------

  ghost predicate LegalRun(s: State, run: seq<Action>)
    decreases |run|
  {
    run == [] || (Enabled(s, run[0]) && LegalRun(Apply(s, run[0]), run[1..]))
  }

  ghost function Run(s: State, run: seq<Action>): State
    requires LegalRun(s, run)
    decreases |run|
  {
    if run == [] then s else Run(Apply(s, run[0]), run[1..])
  }

  lemma {:induction false} EveryRunKeepsInv(s: State, run: seq<Action>)
    requires Inv(s) && LegalRun(s, run)
    ensures Inv(Run(s, run))
    decreases |run|
  {
    if run != [] {
      StepKeepsInv(s, run[0]);
      hide Inv, Apply, Enabled;
      EveryRunKeepsInv(Apply(s, run[0]), run[1..]);
    }
  }

  /** In every interleaving: no send on and no second close of a closed channel;
      nothing accepted is lost, repeated or reordered; the drop counter trails
      the refused Writes only by those still returning; and once the Close that
      closed the channel has returned, everything accepted has been handed over. */
  lemma WriterIsSafe(bufSize: int, run: seq<Action>)
    requires LegalRun(New(bufSize), run)
    ensures var s := Run(New(bufSize), run);
            && !s.panicked
            && s.accepted == s.handed + s.queue
            && |s.refused| == s.dropped + |Uncounted(s)|
            && ((forall t :: t in s.threads ==> s.threads[t].Idle?) ==> s.dropped == |s.refused|)
            && (s.flushed ==> s.queue == [] && s.accepted == s.handed && s.drainer.Finished?)
            && (forall t :: PcOf(s, t).WriteSending? || PcOf(s, t).CloseMarked? ==> !s.channelClosed)
            && (forall t :: Enabled(s, WaitDone(t)) ==>
                  s.queue == [] && s.accepted == s.handed && Apply(s, WaitDone(t)).flushed)
  {
    assert Uncounted(New(bufSize)) == {};
    EveryRunKeepsInv(New(bufSize), run);
    var s := Run(New(bufSize), run);
    if forall t :: t in s.threads ==> s.threads[t].Idle? {
      assert Uncounted(s) == {};
    }
  }

  /** As long as a call is out, or a row on its way, the writer moves on: some step
      other than a new call can be taken. */
  lemma NoDeadlock(s: State) returns (a: Action)
    requires Inv(s) && ((exists t :: t in s.threads && !s.threads[t].Idle?) || s.queue != [] || s.drainer.Inserting?)
    ensures Enabled(s, a) && !a.CallWrite? && !a.CallClose?
  {
    if u :| u in s.threads && HoldsMutex(s.threads[u]) {
      a := match s.threads[u]
           case WriteChecking(_) => Check(u)
           case CloseChecking => Check(u)
           case WriteSending(_) => Send(u)
           case CloseMarked => CloseChannel(u)
           case _ => Release(u);
    } else if s.drainer.Inserting? {
      a := Insert;
    } else if s.queue != [] {
      a := Receive;
    } else {
      var t :| t in s.threads && !s.threads[t].Idle?;
      a := match s.threads[t]
           case WriteDropping => CountDrop(t)
           case CloseWaiting => if s.drainer.Finished? then WaitDone(t) else Receive
           case _ => TakeMutex(t);
    }
  }

  /** After that, no Write is ever accepted and nothing reaches the insert. */
  lemma FlushedIsFinal(s: State, a: Action)
    requires Inv(s) && s.flushed && Enabled(s, a)
    ensures Apply(s, a).accepted == s.accepted && Apply(s, a).handed == s.handed
  {
  }

  /** Only the Close that closes the channel waits: any later one returns after
      its own four steps, leaving whatever is queued where it is. */
  lemma LaterCloseDoesNotFlush(s: State, t: Tid)
    requires Inv(s) && s.closed && MutexFree(s) && PcOf(s, t).Idle?
    ensures var run := [CallClose(t), TakeMutex(t), Check(t), Release(t)];
            && LegalRun(s, run) && PcOf(Run(s, run), t).Idle?
            && Run(s, run).queue == s.queue && Run(s, run).handed == s.handed
  {
    var run := [CallClose(t), TakeMutex(t), Check(t), Release(t)];
    var s1 := Apply(s, run[0]);
    assert MutexFree(s1) by {
      assert forall u :: u in s1.threads && u != t ==> s1.threads[u] == s.threads[u];
    }
    var s2 := Apply(s1, run[1]);
    var s3 := Apply(s2, run[2]);
    var s4 := Apply(s3, run[3]);
    hide Inv;
    RunCons(s3, run[3], []);
    RunCons(s2, run[2], [run[3]] + []);
    RunCons(s1, run[1], [run[2]] + ([run[3]] + []));
    RunCons(s, run[0], [run[1]] + ([run[2]] + ([run[3]] + [])));
    assert run == [run[0]] + ([run[1]] + ([run[2]] + ([run[3]] + [])));
  }

  lemma RunCons(s: State, a: Action, rest: seq<Action>)
    requires Enabled(s, a) && LegalRun(Apply(s, a), rest)
    ensures LegalRun(s, [a] + rest) && Run(s, [a] + rest) == Run(Apply(s, a), rest)
  {
    assert ([a] + rest)[1..] == rest;
  }

  lemma {:induction false} RunConcat(s: State, xs: seq<Action>, ys: seq<Action>)
    requires LegalRun(s, xs) && LegalRun(Run(s, xs), ys)
    ensures LegalRun(s, xs + ys) && Run(s, xs + ys) == Run(Run(s, xs), ys)
    decreases |xs|
  {
    if xs == [] {
      assert xs + ys == ys;
    } else {
      assert (xs + ys)[0] == xs[0] && (xs + ys)[1..] == xs[1..] + ys;
      hide Apply, Enabled;
      RunConcat(Apply(s, xs[0]), xs[1..], ys);
    }
  }

  // ---- what a returning Close promises ------------------------------------------------

  /** Nothing is queued and no insert is under way. */
  predicate Drained(s: State) {
    s.queue == [] && !s.drainer.Inserting?
  }

  /** The state in which thread t first is idle again. */
  ghost function AtReturn(s: State, t: Tid, run: seq<Action>): Option<State>
    requires LegalRun(s, run)
    decreases |run|
  {
    if PcOf(s, t).Idle? then Some(s) else if run == [] then None else AtReturn(Apply(s, run[0]), t, run[1..])
  }

  /** A Close on its way to a return that leaves nothing behind. */
  predicate OnCourse(s: State, t: Tid) {
    var p, done := PcOf(s, t), s.channelClosed && Drained(s);
    || p.CloseMarked? || p.CloseUnlocking? || p.CloseWaiting?
    || (p.CloseChecking? && (!s.closed || done)) || ((p.CloseLeaving? || p.Idle?) && done)
  }

  lemma OwnStepStaysOnCourse(s: State, t: Tid, a: Action)
    requires Inv(s) && Enabled(s, a) && OnCourse(s, t) && !PcOf(s, t).Idle? && !a.Receive? && !a.Insert? && a.t == t
    ensures OnCourse(Apply(s, a), t)
  {
    ThreadFacts(s, t);
    hide MutexOk, MutexFree, Uncounted;
  }

  lemma OtherStepStaysOnCourse(s: State, t: Tid, a: Action)
    requires Inv(s) && Enabled(s, a) && OnCourse(s, t) && !PcOf(s, t).Idle? && (!a.Receive? && !a.Insert? ==> a.t != t)
    ensures OnCourse(Apply(s, a), t)
  {
    if !a.Receive? && !a.Insert? {
      ThreadFacts(s, a.t);
      assert HoldsMutex(PcOf(s, t)) ==> !HoldsMutex(PcOf(s, a.t));
    }
    hide MutexOk, MutexFree, Uncounted;
  }

  lemma {:induction false} OnCourseReturnsDrained(s: State, t: Tid, run: seq<Action>)
    requires Inv(s) && LegalRun(s, run) && OnCourse(s, t)
    ensures AtReturn(s, t, run).Some? ==> Drained(AtReturn(s, t, run).value)
    decreases |run|
  {
    if !PcOf(s, t).Idle? && run != [] {
      var a := run[0];
      StepKeepsInv(s, a);
      if !a.Receive? && !a.Insert? && a.t == t {
        OwnStepStaysOnCourse(s, t, a);
      } else {
        OtherStepStaysOnCourse(s, t, a);
      }
      hide Inv, Apply, Enabled;
      OnCourseReturnsDrained(Apply(s, a), t, run[1..]);
    }
  }

  /** Every way a Close about to look at the flag can return leaves nothing behind. */
  ghost predicate AlwaysFlushes(s: State, t: Tid) {
    forall run :: LegalRun(s, run) && AtReturn(s, t, run).Some? ==> Drained(AtReturn(s, t, run).value)
  }

  /** A Close keeps its promise exactly when it is the one that closes the
      channel, or finds nothing left to flush. */
  lemma CloseFlushesExactlyWhenFirst(s: State, t: Tid)
    requires Inv(s) && PcOf(s, t).CloseChecking?
    ensures AlwaysFlushes(s, t) <==> !s.closed || Drained(s)
  {
    if !s.closed || Drained(s) {
      assert s.closed ==> s.channelClosed;
      forall run | LegalRun(s, run) && AtReturn(s, t, run).Some? ensures Drained(AtReturn(s, t, run).value) {
        OnCourseReturnsDrained(s, t, run);
      }
    } else {
      var s1 := Apply(s, Check(t));
      var s2 := Apply(s1, Release(t));
      RunCons(s1, Release(t), []);
      RunCons(s, Check(t), [Release(t)] + []);
      var run := [Check(t)] + ([Release(t)] + []);
      assert run[0] == Check(t) && run[1..] == [Release(t)] + [] && ([Release(t)] + [])[1..] == [];
      hide Inv;
      assert AtReturn(s, t, run) == AtReturn(s1, t, run[1..]) == AtReturn(s2, t, []) == Some(s2);
      assert !Drained(s2);
    }
  }

  // ---- a run that shows it ------------------------------------------------------------

  /** One Write, from call to return. */
  lemma OneWrite(s: State, t: Tid, row: int) returns (run: seq<Action>)
    requires MutexFree(s) && PcOf(s, t).Idle? && !s.closed && !s.channelClosed && |s.queue| < s.capacity
    ensures LegalRun(s, run)
    ensures Run(s, run) == At(s, t, Idle).(queue := s.queue + [row], accepted := s.accepted + [row])
  {
    var s1 := Apply(s, CallWrite(t, row));
    assert MutexFree(s1) by {
      assert forall u :: u in s1.threads && u != t ==> s1.threads[u] == s.threads[u];
    }
    var s2 := Apply(s1, TakeMutex(t));
    var s3 := Apply(s2, Check(t));
    var s4 := Apply(s3, Send(t));
    var s5 := Apply(s4, Release(t));
    assert s5.threads == At(s, t, Idle).threads;
    RunCons(s4, Release(t), []);
    RunCons(s3, Send(t), [Release(t)] + []);
    RunCons(s2, Check(t), [Send(t)] + ([Release(t)] + []));
    RunCons(s1, TakeMutex(t), [Check(t)] + ([Send(t)] + ([Release(t)] + [])));
    run := [TakeMutex(t)] + ([Check(t)] + ([Send(t)] + ([Release(t)] + [])));
    RunCons(s, CallWrite(t, row), run);
    run := [CallWrite(t, row)] + run;
  }

  /** A first Close, from its call until it waits for the drainer. */
  lemma FirstClose(s: State, t: Tid) returns (run: seq<Action>)
    requires MutexFree(s) && PcOf(s, t).Idle? && !s.closed && !s.channelClosed && !s.panicked
    ensures LegalRun(s, run)
    ensures Run(s, run) == At(s, t, CloseWaiting).(closed := true, channelClosed := true)
  {
    var s1 := Apply(s, CallClose(t));
    assert MutexFree(s1) by {
      assert forall u :: u in s1.threads && u != t ==> s1.threads[u] == s.threads[u];
    }
    var s2 := Apply(s1, TakeMutex(t));
    var s3 := Apply(s2, Check(t));
    var s4 := Apply(s3, CloseChannel(t));
    var s5 := Apply(s4, Release(t));
    assert s5.threads == At(s, t, CloseWaiting).threads;
    RunCons(s4, Release(t), []);
    RunCons(s3, CloseChannel(t), [Release(t)] + []);
    RunCons(s2, Check(t), [CloseChannel(t)] + ([Release(t)] + []));
    RunCons(s1, TakeMutex(t), [Check(t)] + ([CloseChannel(t)] + ([Release(t)] + [])));
    run := [TakeMutex(t)] + ([Check(t)] + ([CloseChannel(t)] + ([Release(t)] + [])));
    RunCons(s, CallClose(t), run);
    run := [CallClose(t)] + run;
  }

  /** From a new writer: a row is accepted, one Close is waiting for it to be
      flushed, and another Close has returned with the row still queued. */
  lemma RowLeftByALaterClose(bufSize: int, row: int) returns (run: seq<Action>)
    ensures LegalRun(New(bufSize), run)
    ensures var s := Run(New(bufSize), run);
            PcOf(s, 1).CloseWaiting? && PcOf(s, 2).Idle? && s.queue == [row] && s.handed == []
  {
    var s0 := New(bufSize);
    var write := OneWrite(s0, 0, row);
    var s1 := Run(s0, write);
    var close := FirstClose(s1, 1);
    var s2 := Run(s1, close);
    RunConcat(s0, write, close);
    assert Uncounted(s0) == {};
    EveryRunKeepsInv(s0, write + close);
    var later := [CallClose(2), TakeMutex(2), Check(2), Release(2)];
    LaterCloseDoesNotFlush(s2, 2);
    OthersStay(s2, later, 2, 1);
    RunConcat(s0, write + close, later);
    run := write + close + later;
  }

  lemma StepLeavesOthers(s: State, a: Action, u: Tid)
    requires Enabled(s, a) && (!a.Receive? && !a.Insert? ==> a.t != u)
    ensures PcOf(Apply(s, a), u) == PcOf(s, u)
  {
    hide MutexFree;
  }

  lemma {:induction false} OthersStay(s: State, run: seq<Action>, t: Tid, u: Tid)
    requires t != u && LegalRun(s, run)
    requires forall i :: 0 <= i < |run| ==> !run[i].Receive? && !run[i].Insert? && run[i].t == t
    ensures PcOf(Run(s, run), u) == PcOf(s, u)
    decreases |run|
  {
    if run != [] {
      StepLeavesOthers(s, run[0], u);
      hide Apply, Enabled;
      OthersStay(Apply(s, run[0]), run[1..], t, u);
    }
  }

  // ---- how much the buffer holds ----------------------------------------------------------

  /** A Write that finds the buffer full, from its call until it is refused. */
  lemma RefusedSend(s: State, t: Tid, row: int) returns (run: seq<Action>)
    requires MutexFree(s) && PcOf(s, t).Idle? && !s.closed && !s.channelClosed && |s.queue| >= s.capacity
    ensures LegalRun(s, run)
    ensures Run(s, run) == At(s, t, WriteRefused).(refused := s.refused + [row])
  {
    var s1 := Apply(s, CallWrite(t, row));
    assert MutexFree(s1) by {
      assert forall u :: u in s1.threads && u != t ==> s1.threads[u] == s.threads[u];
    }
    var s2 := Apply(s1, TakeMutex(t));
    var s3 := Apply(s2, Check(t));
    var s4 := Apply(s3, Send(t));
    assert s4.threads == At(s, t, WriteRefused).threads;
    RunCons(s3, Send(t), []);
    RunCons(s2, Check(t), [Send(t)] + []);
    RunCons(s1, TakeMutex(t), [Check(t)] + ([Send(t)] + []));
    run := [TakeMutex(t)] + ([Check(t)] + ([Send(t)] + []));
    RunCons(s, CallWrite(t, row), run);
    run := [CallWrite(t, row)] + run;
  }

  lemma CountsTheDrop(s: State, t: Tid) returns (run: seq<Action>)
    requires PcOf(s, t).WriteRefused?
    ensures LegalRun(s, run) && Run(s, run) == At(s, t, Idle).(dropped := s.dropped + 1)
  {
    var s1 := Apply(s, Release(t));
    var s2 := Apply(s1, CountDrop(t));
    assert s2.threads == At(s, t, Idle).threads;
    RunCons(s1, CountDrop(t), []);
    RunCons(s, Release(t), [CountDrop(t)] + []);
    run := [Release(t)] + ([CountDrop(t)] + []);
  }

  /** And until it has returned. */
  lemma RefusedWrite(s: State, t: Tid, row: int) returns (run: seq<Action>)
    requires MutexFree(s) && PcOf(s, t).Idle? && !s.closed && !s.channelClosed && |s.queue| >= s.capacity
    ensures LegalRun(s, run)
    ensures Run(s, run) == At(s, t, Idle).(refused := s.refused + [row], dropped := s.dropped + 1)
  {
    var send := RefusedSend(s, t, row);
    var s1 := Run(s, send);
    var drop := CountsTheDrop(s1, t);
    RunConcat(s, send, drop);
    assert At(s1, t, Idle).threads == At(s, t, Idle).threads;
    run := send + drop;
  }

  lemma {:induction false} ManyWrites(bufSize: int, rows: seq<int>) returns (run: seq<Action>)
    requires |rows| <= (if bufSize > 0 then bufSize else 1024)
    ensures LegalRun(New(bufSize), run)
    ensures var s := Run(New(bufSize), run);
            && s == New(bufSize).(queue := rows, accepted := rows, threads := s.threads)
            && forall t :: t in s.threads ==> s.threads[t] == Idle
  {
    if rows == [] {
      run := [];
    } else {
      run := ManyWrites(bufSize, Front(rows));
      var s := Run(New(bufSize), run);
      var one := OneWrite(s, 0, Last(rows));
      RunConcat(New(bufSize), run, one);
      run := run + one;
      assert Front(rows) + [Last(rows)] == rows;
    }
  }

  /** With the drainer still, a writer accepts exactly as many rows as it was given
      room for (1024 unless told otherwise); the next one is refused and counted. */
  lemma HoldsExactly(bufSize: int, rows: seq<int>, extra: int) returns (run: seq<Action>)
    requires |rows| == (if bufSize > 0 then bufSize else 1024)
    ensures LegalRun(New(bufSize), run)
    ensures var s := Run(New(bufSize), run);
            s.queue == rows && s.accepted == rows && s.refused == [extra] && s.dropped == 1
  {
    run := ManyWrites(bufSize, rows);
    var s := Run(New(bufSize), run);
    var one := RefusedWrite(s, 0, extra);
    RunConcat(New(bufSize), run, one);
    run := run + one;
  }
}
