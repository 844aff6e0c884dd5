// One-token wake-up channels: no wake-up is lost and the pipeline never deadlocks.
module AsyncWakeup {
  import opened Capacity
  import opened AsyncPipeline
  import opened AsyncRing
  import opened AsyncClose

  /** On its way through TryPublish or HasCapacity. */
  predicate Trying(pc: Pc) {
    pc.LoadingCursor? || pc.LoadingGating? || pc.Swapping? || pc.CheckingCursor? || pc.CheckingGating?
  }

  ghost predicate SomeTrying(calls: map<CallId, Call>) {
    exists c :: c in calls && Trying(calls[c].pc)
  }

  ghost predicate SomeParked(calls: map<CallId, Call>) {
    exists c :: c in calls && calls[c].pc.Parked?
  }

  ghost predicate SomeSignalling(calls: map<CallId, Call>) {
    exists c :: c in calls && calls[c].pc.Signalling?
  }

  /** A parked worker whose next slot is published has a token, or a producer is
      about to place one. */
  ghost predicate ReaderAwake(cfg: Config, s: State) {
    s.worker.pc.Waiting? && Published(cfg, s.ring, s.ring.gating + 1) ==> s.readable || SomeSignalling(s.calls)
  }

  /** A parked producer has a token, another call at work on the ring, a worker
      about to signal, or claimed sequences still to be released. */
  ghost predicate WriterAwake(s: State) {
    SomeParked(s.calls) ==>
      s.writable || SomeTrying(s.calls) || s.worker.pc.PopSignal? || s.ring.gating < s.ring.cursor
  }

  ghost predicate WakeInv(cfg: Config, s: State) {
    CloseInv(cfg, s) && ReaderAwake(cfg, s) && WriterAwake(s)
  }

  lemma OthersKept(calls: map<CallId, Call>, c: CallId, call: Call)
    ensures forall d :: d in calls && d != c ==> d in calls[c := call] && calls[c := call][d] == calls[d]
    ensures c in calls[c := call] && calls[c := call][c] == call
  {
  }

  lemma CallPublishesOnlyItsOwn(cfg: Config, s: State, c: CallId)
    requires ValidConfig(cfg) && CloseInv(cfg, s) && c in s.calls && CanAdvance(cfg, s, s.calls[c])
    requires s.worker.pc.Waiting? && Published(cfg, StepCall(cfg, s, c, s.calls[c]).ring, s.ring.gating + 1)
    ensures Published(cfg, s.ring, s.ring.gating + 1) || NextCall(cfg, s, s.calls[c]).pc.Signalling?
  {
    var q := s.ring.gating + 1;
    assert SlotOk(cfg, s.ring, s.worker.pc, s.calls, q);
  }

  lemma CallKeepsReader(cfg: Config, s: State, c: CallId)
    requires ValidConfig(cfg) && WakeInv(cfg, s) && c in s.calls && CanAdvance(cfg, s, s.calls[c])
    ensures ReaderAwake(cfg, StepCall(cfg, s, c, s.calls[c]))
  {
    hide CloseInv, SlotIndex;
    var t := StepCall(cfg, s, c, s.calls[c]);
    if t.worker.pc.Waiting? && Published(cfg, t.ring, t.ring.gating + 1) && !t.readable {
      CallPublishesOnlyItsOwn(cfg, s, c);
      OthersKept(s.calls, c, NextCall(cfg, s, s.calls[c]));
    }
  }

  /** A call that stops trying leaves a claimed sequence behind. */
  lemma TryingEndsWithWork(cfg: Config, s: State, c: CallId)
    requires ValidConfig(cfg) && CloseInv(cfg, s) && c in s.calls && Trying(s.calls[c].pc)
    ensures var t := StepCall(cfg, s, c, s.calls[c]);
            Trying(NextCall(cfg, s, s.calls[c]).pc) || t.ring.gating < t.ring.cursor
  {
    hide BitAnd, SlotIndex;
    assert CallOk(cfg, s.ring, Released(s.ring, s.worker.pc), c, s.calls[c].pc);
  }

  lemma CallKeepsWriter(cfg: Config, s: State, c: CallId)
    requires ValidConfig(cfg) && WakeInv(cfg, s) && c in s.calls && CanAdvance(cfg, s, s.calls[c])
    ensures WriterAwake(StepCall(cfg, s, c, s.calls[c]))
  {
    var t := StepCall(cfg, s, c, s.calls[c]);
    OthersKept(s.calls, c, NextCall(cfg, s, s.calls[c]));
    if Trying(s.calls[c].pc) {
      TryingEndsWithWork(cfg, s, c);
    } else {
      assert t.ring.cursor == s.ring.cursor && t.ring.gating == s.ring.gating;
      assert !t.calls[c].pc.Parked?;
    }
  }

  lemma BlockedKeepsWake(cfg: Config, s: State, a: Action)
    requires WakeInv(cfg, s) && Enabled(cfg, s, a) && IsBlockedStep(a)
    ensures ReaderAwake(cfg, Step(cfg, s, a)) && WriterAwake(Step(cfg, s, a))
  {
    hide CloseInv, SlotIndex;
    OthersKept(s.calls, a.c, s.calls[a.c].(pc := BlockedPc(a)));
  }

  lemma WorkerKeepsWake(cfg: Config, s: State)
    requires ValidConfig(cfg) && WakeInv(cfg, s) && WorkerCanAdvance(cfg, s)
    ensures ReaderAwake(cfg, StepWorker(cfg, s)) && WriterAwake(StepWorker(cfg, s))
  {
  }

  lemma StepKeepsWake(cfg: Config, s: State, a: Action)
    requires ValidConfig(cfg) && WakeInv(cfg, s) && Enabled(cfg, s, a)
    ensures WakeInv(cfg, Step(cfg, s, a))
  {
    hide CloseInv, SlotIndex;
    StepKeepsClose(cfg, s, a);
    match a
    case StartAppend(c, debug) => OthersKept(s.calls, c, Call(Entered, debug, false));
    case Advance(c) =>
      CallKeepsReader(cfg, s, c);
      CallKeepsWriter(cfg, s, c);
    case AdvanceWorker => WorkerKeepsWake(cfg, s);
    case TakeReadable =>
    case InterruptWorker =>
    case PollReadable =>
    case StartClose =>
    case AdvanceCloser =>
    case _ => BlockedKeepsWake(cfg, s, a);
  }

  lemma {:induction false} RunKeepsWake(cfg: Config, states: seq<State>, actions: seq<Action>, i: nat)
    requires ValidConfig(cfg) && IsRun(cfg, states, actions) && i < |states|
    ensures WakeInv(cfg, states[i])
  {
    if i == 0 {
      InitClose(cfg);
    } else {
      RunKeepsWake(cfg, states, actions, i - 1);
      assert Enabled(cfg, states[i - 1], actions[i - 1]);
      StepKeepsWake(cfg, states[i - 1], actions[i - 1]);
    }
  }

  /** Steps the pipeline takes by itself: no new call, no cancelled context, no
      timeout or polling. */
  predicate Internal(a: Action) {
    !a.StartAppend? && !a.StartClose? && !a.RefuseContext? && !a.CancelWait? && !a.PollWritable? && !a.PollReadable?
  }

  ghost predicate CanProgress(cfg: Config, s: State) {
    exists a :: Internal(a) && Enabled(cfg, s, a)
  }

  /** Every call has returned, no Close is under way and every queued event has
      been handed to the sinks. */
  ghost predicate Quiescent(s: State) {
    && (forall c :: c in s.calls ==> s.calls[c].pc.Returned?)
    && (s.life.closer.NotClosing? || s.life.closer.Closed?)
    && |s.log.flushed| == |s.ring.claims|
  }

  lemma Witness(cfg: Config, s: State, a: Action)
    requires Internal(a) && Enabled(cfg, s, a)
    ensures CanProgress(cfg, s)
  {
  }

  lemma RunnableCall(cfg: Config, s: State, c: CallId)
    requires ValidConfig(cfg) && CloseInv(cfg, s) && c in s.calls
    requires !s.calls[c].pc.Parked? && !s.calls[c].pc.Returned?
    ensures CanProgress(cfg, s)
  {
    var pc := s.calls[c].pc;
    if pc.Syncing? {
      Witness(cfg, s, FinishSync(c, true));
    } else {
      if Unstamped(pc) {
        assert CallOk(cfg, s.ring, Released(s.ring, s.worker.pc), c, pc);
        assert SlotOk(cfg, s.ring, s.worker.pc, s.calls, pc.sequence);
      }
      Witness(cfg, s, Advance(c));
    }
  }

  /** The worker moves unless it is parked or has exited. */
  lemma RunnableWorker(cfg: Config, s: State)
    requires ValidConfig(cfg) && CloseInv(cfg, s) && !s.worker.pc.Waiting? && !s.worker.pc.Exited?
    ensures CanProgress(cfg, s)
  {
    var w := s.worker.pc;
    if w.PopLoad? {
      assert SlotOk(cfg, s.ring, w, s.calls, w.next);
    } else if w.CheckStamp? {
      assert SlotOk(cfg, s.ring, w, s.calls, w.next);
    }
    Witness(cfg, s, AdvanceWorker);
  }

  /** Claimed but unreleased sequences keep the pipeline moving. */
  lemma BacklogMoves(cfg: Config, s: State)
    requires ValidConfig(cfg) && WakeInv(cfg, s) && s.ring.gating < s.ring.cursor
    ensures CanProgress(cfg, s)
  {
    if s.worker.pc.Waiting? {
      var q := s.ring.gating + 1;
      assert SlotOk(cfg, s.ring, s.worker.pc, s.calls, q);
      var c := s.ring.claims[q];
      if Unstamped(s.calls[c].pc) {
        RunnableCall(cfg, s, c);
      } else if s.readable {
        Witness(cfg, s, TakeReadable);
      } else {
        var d :| d in s.calls && s.calls[d].pc.Signalling?;
        RunnableCall(cfg, s, d);
      }
    } else {
      RunnableWorker(cfg, s);
    }
  }

  lemma ParkedCallMoves(cfg: Config, s: State, c: CallId)
    requires ValidConfig(cfg) && WakeInv(cfg, s) && c in s.calls && s.calls[c].pc.Parked?
    ensures CanProgress(cfg, s)
  {
    assert SomeParked(s.calls);
    if s.writable {
      Witness(cfg, s, TakeWritable(c));
    } else if SomeTrying(s.calls) {
      var d :| d in s.calls && Trying(s.calls[d].pc);
      RunnableCall(cfg, s, d);
    } else if s.worker.pc.PopSignal? {
      RunnableWorker(cfg, s);
    } else {
      BacklogMoves(cfg, s);
    }
  }

  lemma CloserMoves(cfg: Config, s: State)
    requires ValidConfig(cfg) && WakeInv(cfg, s) && ActiveCalls(s.calls) == {}
    requires !s.life.closer.NotClosing? && !s.life.closer.Closed?
    ensures CanProgress(cfg, s)
  {
    if s.life.closer.Joining? && !s.worker.pc.Exited? {
      if s.worker.pc.Waiting? {
        Witness(cfg, s, InterruptWorker);
      } else {
        RunnableWorker(cfg, s);
      }
    } else {
      Witness(cfg, s, AdvanceCloser);
    }
  }

  /** No deadlock: as long as a call, a Close or a queued event is outstanding,
      some thread can take a step on its own. */
  lemma NeverStuck(cfg: Config, s: State)
    requires ValidConfig(cfg) && WakeInv(cfg, s) && !Quiescent(s)
    ensures CanProgress(cfg, s)
  {
    if c :| c in s.calls && !s.calls[c].pc.Returned? {
      if s.calls[c].pc.Parked? {
        ParkedCallMoves(cfg, s, c);
      } else {
        RunnableCall(cfg, s, c);
      }
    } else if !s.life.closer.NotClosing? && !s.life.closer.Closed? {
      CloserMoves(cfg, s);
    } else if s.ring.gating < s.ring.cursor {
      BacklogMoves(cfg, s);
    } else {
      // Everything is released, but values are still on their way to the sinks.
      RunnableWorker(cfg, s);
    }
  }

  /** The same over runs; in particular a parked producer is never left behind. */
  lemma RunNeverStuck(cfg: Config, states: seq<State>, actions: seq<Action>, i: nat)
    requires ValidConfig(cfg) && IsRun(cfg, states, actions) && i < |states|
    ensures Quiescent(states[i]) || CanProgress(cfg, states[i])
    ensures SomeParked(states[i].calls) ==> CanProgress(cfg, states[i])
  {
    RunKeepsWake(cfg, states, actions, i);
    if !Quiescent(states[i]) {
      NeverStuck(cfg, states[i]);
    }
  }
}
