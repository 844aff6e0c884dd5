// The append and close lifecycle: conservation of events and the drain barrier.
module AsyncClose {
  import opened Capacity
  import opened AsyncPipeline
  import opened AsyncRing
  import opened Sequences

  /** Counted in the producers wait group. */
  predicate Active(pc: Pc) {
    !pc.Entered? && !pc.Returned?
  }

  function ActiveCalls(calls: map<CallId, Call>): set<CallId> {
    set c | c in calls && Active(calls[c].pc)
  }

  predicate CloserPast(life: Life) {
    life.closer.Stopping? || life.closer.Joining? || life.closer.ClosingSinks? || life.closer.Closed?
  }

  ghost predicate LifeOk(life: Life, calls: map<CallId, Call>, w: Worker) {
    && life.producers == |ActiveCalls(calls)|
    && (life.closed <==> !life.closer.NotClosing?)
    && (life.closing <==> !life.closer.NotClosing? && !life.closer.Marked?)
    && (life.done <==> CloserPast(life) && !life.closer.Stopping?)
    && (life.sinksClosed ==> life.closer.Closed?)
    && (CloserPast(life) ==> ActiveCalls(calls) == {})
    && (w.draining ==> life.done)
    && (life.closer.ClosingSinks? || life.closer.Closed? ==> w.pc.Exited?)
  }

  /** Position in the batch of the next value to hand on. */
  function HandedOf(w: Worker): nat {
    if w.pc.Flushing? then w.pc.index else 0
  }

  ghost predicate WorkerBatchOk(cfg: Config, w: Worker) {
    && HandedOf(w) <= |w.batch| <= cfg.batchSize
    && (w.pc.PopStart? ==> |w.batch| < cfg.batchSize)
    && (w.pc.PopLoad? && w.pc.next == w.pc.start ==> |w.batch| < cfg.batchSize)
    && (w.pc.PopTake? ==> |w.batch| < cfg.batchSize)
    && (!w.draining && w.pc.PopLoad? && w.pc.next == w.pc.start ==> w.batch == [])
    && (!w.draining && (w.pc.PopStart? || w.pc.CheckGating? || w.pc.CheckStamp? || w.pc.Waiting?) ==> w.batch == [])
    && (w.draining ==> !w.pc.CheckGating? && !w.pc.CheckStamp? && !w.pc.Waiting?)
    && (w.pc.Exited? ==> w.batch == [])
    && (w.pc.Exited? || (w.pc.Flushing? && w.pc.last) ==> w.draining)
  }

  /** Every value read is handed on or still in the batch, in order. */
  ghost predicate BatchConserves(r: Ring, w: Worker, log: Log) {
    HandedOf(w) <= |w.batch| && r.taken == log.flushed + w.batch[HandedOf(w)..]
  }

  ghost predicate Drained(r: Ring, w: Worker) {
    w.pc.Exited? || (w.pc.Flushing? && w.pc.last) ==> r.gating == r.cursor
  }

  predicate HasOutcome(pc: Pc, o: Outcome) {
    pc == Leaving(o) || pc == Returned(o)
  }

  predicate RanSinks(pc: Pc) {
    HasOutcome(pc, Synced(true)) || HasOutcome(pc, Synced(false))
  }

  ghost predicate LogOk(log: Log, calls: map<CallId, Call>) {
    && log.dropped == |log.droppedCalls|
    && Distinct(log.droppedCalls) && Distinct(log.synced)
    && (forall c :: c in log.droppedCalls ==> c in calls)
    && (forall c :: c in log.synced ==> c in calls)
    && (forall c :: c in calls ==> (c in log.droppedCalls <==> HasOutcome(calls[c].pc, Dropped)))
    && (forall c :: c in calls ==> (c in log.synced <==> RanSinks(calls[c].pc)))
  }

  ghost predicate CloseInv(cfg: Config, s: State) {
    && RingInv(cfg, s.ring, s.worker.pc, s.calls)
    && LifeOk(s.life, s.calls, s.worker)
    && WorkerBatchOk(cfg, s.worker)
    && BatchConserves(s.ring, s.worker, s.log)
    && Drained(s.ring, s.worker)
    && LogOk(s.log, s.calls)
  }

  lemma InitClose(cfg: Config)
    requires ValidConfig(cfg)
    ensures CloseInv(cfg, Init(cfg))
  {
    InitRing(cfg);
  }

  lemma ActiveAfter(calls: map<CallId, Call>, c: CallId, call: Call)
    ensures var before, after := ActiveCalls(calls), ActiveCalls(calls[c := call]);
            && |after| == |before - {c}| + (if Active(call.pc) then 1 else 0)
            && |before| == |before - {c}| + (if c in before then 1 else 0)
            && after == (if Active(call.pc) then before + {c} else before - {c})
  {
    var before, after := ActiveCalls(calls), ActiveCalls(calls[c := call]);
    assert after == if Active(call.pc) then (before - {c}) + {c} else before - {c};
    if c in before {
      assert before == (before - {c}) + {c};
    } else {
      assert before == before - {c};
    }
  }

  lemma CallKeepsLife(cfg: Config, s: State, c: CallId)
    requires LifeOk(s.life, s.calls, s.worker) && c in s.calls && CanAdvance(cfg, s, s.calls[c])
    ensures var t := StepCall(cfg, s, c, s.calls[c]); LifeOk(t.life, t.calls, t.worker)
  {
    ActiveAfter(s.calls, c, NextCall(cfg, s, s.calls[c]));
    assert CloserPast(s.life) ==> c !in ActiveCalls(s.calls);
  }

  lemma LogGrows(log: seq<CallId>, c: CallId)
    requires Distinct(log) && c !in log
    ensures Distinct(log + [c])
    ensures forall d :: d in log + [c] <==> d in log || d == c
  {
  }

  /** A call that moves keeps the log, provided the log records its new outcome. */
  lemma LogMoves(log: Log, log': Log, calls: map<CallId, Call>, c: CallId, call: Call)
    requires LogOk(log, calls) && log'.dropped == |log'.droppedCalls|
    requires log'.droppedCalls == log.droppedCalls ||
             (log'.droppedCalls == log.droppedCalls + [c] && c !in log.droppedCalls)
    requires log'.synced == log.synced || (log'.synced == log.synced + [c] && c !in log.synced)
    requires c in log'.droppedCalls <==> HasOutcome(call.pc, Dropped)
    requires c in log'.synced <==> RanSinks(call.pc)
    ensures LogOk(log', calls[c := call])
  {
    if log'.droppedCalls != log.droppedCalls {
      LogGrows(log.droppedCalls, c);
    }
    if log'.synced != log.synced {
      LogGrows(log.synced, c);
    }
  }

  lemma NextOutcome(cfg: Config, s: State, call: Call)
    requires CanAdvance(cfg, s, call)
    ensures var pc := NextCall(cfg, s, call).pc;
            && (HasOutcome(pc, Dropped) <==> HasOutcome(call.pc, Dropped) || DropsNow(cfg, call))
            && (RanSinks(pc) <==> RanSinks(call.pc))
    ensures DropsNow(cfg, call) ==> !HasOutcome(call.pc, Dropped)
  {
  }

  lemma CallKeepsLog(cfg: Config, s: State, c: CallId)
    requires LogOk(s.log, s.calls) && c in s.calls && CanAdvance(cfg, s, s.calls[c])
    ensures var t := StepCall(cfg, s, c, s.calls[c]); LogOk(t.log, t.calls)
  {
    var call := s.calls[c];
    NextOutcome(cfg, s, call);
    if DropsNow(cfg, call) {
      LogGrows(s.log.droppedCalls, c);
    }
    LogMoves(s.log, StepCall(cfg, s, c, call).log, s.calls, c, NextCall(cfg, s, call));
  }

  lemma NoClaimsOnceDone(cfg: Config, s: State, c: CallId)
    requires CloseInv(cfg, s) && c in s.calls && s.worker.draining && CanAdvance(cfg, s, s.calls[c])
    ensures StepCall(cfg, s, c, s.calls[c]).ring == s.ring
  {
    assert c !in ActiveCalls(s.calls);
  }

  lemma CallKeepsClose(cfg: Config, s: State, c: CallId)
    requires ValidConfig(cfg) && CloseInv(cfg, s) && c in s.calls && CanAdvance(cfg, s, s.calls[c])
    ensures CloseInv(cfg, StepCall(cfg, s, c, s.calls[c]))
  {
    CallKeepsRing(cfg, s, c);
    CallKeepsLife(cfg, s, c);
    CallKeepsLog(cfg, s, c);
    if s.worker.draining {
      NoClaimsOnceDone(cfg, s, c);
    }
    var t := StepCall(cfg, s, c, s.calls[c]);
    assert t.ring.taken == s.ring.taken;
  }

  predicate IsBlockedStep(a: Action) {
    a.RefuseContext? || a.TakeWritable? || a.Interrupt? || a.CancelWait? || a.PollWritable? || a.FinishSync?
  }

  /** A call that stays in flight, or stays out, keeps the count. */
  lemma LifeMoves(life: Life, calls: map<CallId, Call>, w: Worker, c: CallId, call: Call)
    requires LifeOk(life, calls, w)
    requires (c in calls && Active(calls[c].pc)) <==> Active(call.pc)
    ensures LifeOk(life, calls[c := call], w)
  {
    ActiveAfter(calls, c, call);
    assert Active(call.pc) <==> c in ActiveCalls(calls);
  }

  lemma NotLoggedYet(log: Log, calls: map<CallId, Call>, c: CallId)
    requires LogOk(log, calls) && c in calls && !HasOutcome(calls[c].pc, Dropped) && !RanSinks(calls[c].pc)
    ensures c !in log.synced && c !in log.droppedCalls
    ensures Distinct(log.synced) && log.dropped == |log.droppedCalls|
  {
  }

  lemma BlockedKeepsLog(cfg: Config, s: State, a: Action)
    requires LogOk(s.log, s.calls) && Enabled(cfg, s, a) && IsBlockedStep(a)
    ensures var t := Step(cfg, s, a); LogOk(t.log, t.calls)
  {
    hide LogOk;
    NotLoggedYet(s.log, s.calls, a.c);
    if a.FinishSync? {
      LogGrows(s.log.synced, a.c);
    }
    LogMoves(s.log, Step(cfg, s, a).log, s.calls, a.c, s.calls[a.c].(pc := BlockedPc(a)));
  }

  lemma BlockedKeepsClose(cfg: Config, s: State, a: Action)
    requires ValidConfig(cfg) && CloseInv(cfg, s) && Enabled(cfg, s, a) && IsBlockedStep(a)
    ensures CloseInv(cfg, Step(cfg, s, a))
  {
    hide RingInv, LogOk, LifeOk;
    StepKeepsRing(cfg, s, a);
    LifeMoves(s.life, s.calls, s.worker, a.c, s.calls[a.c].(pc := BlockedPc(a)));
    BlockedKeepsLog(cfg, s, a);
  }

  lemma StartKeepsClose(cfg: Config, s: State, c: CallId, debug: bool)
    requires ValidConfig(cfg) && CloseInv(cfg, s) && c !in s.calls
    ensures CloseInv(cfg, Step(cfg, s, StartAppend(c, debug)))
  {
    var call := Call(Entered, debug, false);
    StepKeepsRing(cfg, s, StartAppend(c, debug));
    LifeMoves(s.life, s.calls, s.worker, c, call);
    LogMoves(s.log, s.log, s.calls, c, call);
  }

  /** With no call in flight every claimed sequence is published. */
  lemma QuietMeansPublished(cfg: Config, s: State, q: int)
    requires ValidConfig(cfg) && RingInv(cfg, s.ring, s.worker.pc, s.calls)
    requires ActiveCalls(s.calls) == {} && Released(s.ring, s.worker.pc) <= q <= s.ring.cursor
    ensures Published(cfg, s.ring, q)
  {
    assert SlotOk(cfg, s.ring, s.worker.pc, s.calls, q);
    assert s.ring.claims[q] !in ActiveCalls(s.calls);
  }

  /** A drain ends only when every claimed sequence has been consumed. */
  lemma DrainEndsEmpty(cfg: Config, s: State)
    requires ValidConfig(cfg) && CloseInv(cfg, s) && s.worker.draining
    requires s.worker.pc.PopLoad? && s.worker.pc.start == s.worker.pc.next
    requires !Published(cfg, s.ring, s.worker.pc.next)
    ensures s.ring.gating == s.ring.cursor
  {
    if s.worker.pc.next <= s.ring.cursor {
      QuietMeansPublished(cfg, s, s.worker.pc.next);
    }
  }

  lemma WorkerKeepsBatch(cfg: Config, s: State)
    requires ValidConfig(cfg) && WorkerBatchOk(cfg, s.worker) && WorkerCanAdvance(cfg, s)
    requires s.worker.pc.PopStamp? ==> s.worker.pc.start <= s.worker.pc.next
    ensures WorkerBatchOk(cfg, StepWorker(cfg, s).worker)
  {
  }

  lemma WorkerConserves(cfg: Config, s: State)
    requires BatchConserves(s.ring, s.worker, s.log) && WorkerCanAdvance(cfg, s)
    ensures var t := StepWorker(cfg, s); BatchConserves(t.ring, t.worker, t.log)
  {
    var t := StepWorker(cfg, s);
    var w := s.worker;
    match w.pc
    case PopTake(_, next) =>
      if HasSlot(cfg, s.ring, next) {
        var v := SlotOf(cfg, s.ring, next).value;
        assert t.ring.taken == s.log.flushed + (w.batch + [v])[0..];
      }
    case Flushing(index, _) =>
      if index < |w.batch| {
        assert w.batch[index..] == [w.batch[index]] + w.batch[index + 1..];
      }
    case _ =>
  }

  lemma WorkerKeepsClose(cfg: Config, s: State)
    requires ValidConfig(cfg) && CloseInv(cfg, s) && WorkerCanAdvance(cfg, s)
    ensures CloseInv(cfg, StepWorker(cfg, s))
  {
    hide WindowOk, ClaimsOk, CallsOk, ReadInClaimOrder, BatchConserves;
    WorkerKeepsRing(cfg, s);
    WorkerKeepsBatch(cfg, s);
    WorkerConserves(cfg, s);
    if s.worker.pc.PopLoad? && s.worker.draining && s.worker.pc.start == s.worker.pc.next
       && !Published(cfg, s.ring, s.worker.pc.next) {
      DrainEndsEmpty(cfg, s);
    }
  }

  lemma StepKeepsClose(cfg: Config, s: State, a: Action)
    requires ValidConfig(cfg) && CloseInv(cfg, s) && Enabled(cfg, s, a)
    ensures CloseInv(cfg, Step(cfg, s, a))
  {
    hide RingInv, LogOk;
    match a
    case StartAppend(c, debug) => StartKeepsClose(cfg, s, c, debug);
    case Advance(c) => CallKeepsClose(cfg, s, c);
    case AdvanceWorker => WorkerKeepsClose(cfg, s);
    case TakeReadable => StepKeepsRing(cfg, s, a);
    case InterruptWorker => StepKeepsRing(cfg, s, a);
    case PollReadable => StepKeepsRing(cfg, s, a);
    case StartClose =>
    case AdvanceCloser =>
    case _ => BlockedKeepsClose(cfg, s, a);
  }

  lemma {:induction false} RunKeepsClose(cfg: Config, states: seq<State>, actions: seq<Action>, i: nat)
    requires ValidConfig(cfg) && IsRun(cfg, states, actions) && i < |states|
    ensures CloseInv(cfg, states[i])
  {
    if i == 0 {
      InitClose(cfg);
    } else {
      RunKeepsClose(cfg, states, actions, i - 1);
      assert Enabled(cfg, states[i - 1], actions[i - 1]);
      StepKeepsClose(cfg, states[i - 1], actions[i - 1]);
    }
  }
}
