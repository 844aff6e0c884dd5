// What becomes of an Append call, strategy by strategy, and of the sinks.
module AsyncOutcomes {
  import opened Capacity
  import opened AsyncPipeline
  import opened AsyncRing
  import opened AsyncClose

  /** The strategy drops such an event when the ring is full. */
  predicate Drops(cfg: Config, debug: bool) {
    cfg.strategy.Drop? || (cfg.strategy.DropDebug? && debug)
  }

  /** The strategy waits for room. */
  predicate Waits(cfg: Config, debug: bool) {
    cfg.strategy.Block? || (cfg.strategy.DropDebug? && !debug)
  }

  predicate IsWaiting(pc: Pc) {
    pc.CheckingCursor? || pc.CheckingGating? || pc.Parked?
  }

  /** The call does only what its strategy allows. */
  predicate Follows(cfg: Config, call: Call) {
    && (HasOutcome(call.pc, Dropped) ==> Drops(cfg, call.debug))
    && (call.pc.Syncing? || RanSinks(call.pc) ==> cfg.strategy.SyncFallback?)
    && (call.blocking ==> Waits(cfg, call.debug))
    && (IsWaiting(call.pc) ==> call.blocking)
    && (cfg.strategy.Block? ==> call.blocking || call.pc.Entered? || call.pc == Returned(Rejected))
  }

  ghost predicate AllFollow(cfg: Config, calls: map<CallId, Call>) {
    forall c :: c in calls ==> Follows(cfg, calls[c])
  }

  lemma NextFollows(cfg: Config, s: State, call: Call)
    requires CanAdvance(cfg, s, call) && Follows(cfg, call)
    ensures Follows(cfg, NextCall(cfg, s, call)) && NextCall(cfg, s, call).debug == call.debug
  {
    hide HasSlot;
  }

  lemma BlockedFollows(cfg: Config, s: State, call: Call, a: Action)
    requires BlockedEnabled(cfg, s, call, a) && Follows(cfg, call)
    ensures Follows(cfg, call.(pc := BlockedPc(a)))
  {
  }

  lemma StepFollows(cfg: Config, s: State, a: Action)
    requires AllFollow(cfg, s.calls) && Enabled(cfg, s, a)
    ensures AllFollow(cfg, Step(cfg, s, a).calls)
  {
    hide Follows;
    match a
    case StartAppend(c, debug) => StartFollows(cfg, debug);
    case Advance(c) => NextFollows(cfg, s, s.calls[c]);
    case AdvanceWorker =>
    case TakeReadable =>
    case InterruptWorker =>
    case PollReadable =>
    case StartClose =>
    case AdvanceCloser =>
    case _ => BlockedFollows(cfg, s, s.calls[a.c], a);
  }

  lemma StartFollows(cfg: Config, debug: bool)
    ensures Follows(cfg, Call(Entered, debug, false))
  {
  }

  lemma {:induction false} RunFollows(cfg: Config, states: seq<State>, actions: seq<Action>, i: nat)
    requires IsRun(cfg, states, actions) && i < |states|
    ensures AllFollow(cfg, states[i].calls)
  {
    if i > 0 {
      RunFollows(cfg, states, actions, i - 1);
      assert Enabled(cfg, states[i - 1], actions[i - 1]);
      StepFollows(cfg, states[i - 1], actions[i - 1]);
    }
  }

  /** At every point of every run: only an event that the strategy drops was dropped, only
      SyncFallback runs the sinks in the call, only a strategy that waits parks a call, and
      under Block every call is queued or refused in the end. */
  lemma RunKeepsToStrategy(cfg: Config, states: seq<State>, actions: seq<Action>, i: nat, c: CallId)
    requires ValidConfig(cfg) && IsRun(cfg, states, actions) && i < |states| && c in states[i].calls
    ensures var s, call := states[i], states[i].calls[c];
            && (c in s.log.droppedCalls ==> cfg.strategy.Drop? || (cfg.strategy.DropDebug? && call.debug))
            && (c in s.log.synced ==> cfg.strategy.SyncFallback?)
            && (call.pc.Parked? ==> cfg.strategy.Block? || (cfg.strategy.DropDebug? && !call.debug))
            && (cfg.strategy.Block? && call.pc.Returned? ==> call.pc.outcome.Queued? || call.pc.outcome.Rejected?)
  {
    RunKeepsClose(cfg, states, actions, i);
    RunFollows(cfg, states, actions, i);
    LoggedAs(states[i].log, states[i].calls, c);
    assert Follows(cfg, states[i].calls[c]);
  }

  lemma LoggedAs(log: Log, calls: map<CallId, Call>, c: CallId)
    requires LogOk(log, calls) && c in calls
    ensures c in log.droppedCalls <==> HasOutcome(calls[c].pc, Dropped)
    ensures c in log.synced <==> RanSinks(calls[c].pc)
  {
  }

  // ----- What a full ring, or a closing pipeline, makes of a call

  /** Where a call can be once TryPublish has failed outside enqueueBlocking. */
  predicate AfterFull(cfg: Config, call: Call) {
    if Drops(cfg, call.debug) then call.pc.Refused? || HasOutcome(call.pc, Dropped)
    else if cfg.strategy.SyncFallback? then call.pc.Refused? || call.pc.Syncing? || RanSinks(call.pc)
    else
      && (call.blocking || call.pc.Refused?)
      && !HasOutcome(call.pc, Dropped) && !call.pc.Syncing? && !RanSinks(call.pc)
  }

  /** Where a call can be once it has found the pipeline closing. */
  predicate AfterClosing(call: Call) {
    call.pc.Selecting? || HasOutcome(call.pc, Rejected)
  }

  /** A call that is one of these stays one of these. */
  lemma CallStays(cfg: Config, s: State, a: Action, c: CallId)
    requires Enabled(cfg, s, a) && c in s.calls && Follows(cfg, s.calls[c])
    ensures c in Step(cfg, s, a).calls && Step(cfg, s, a).calls[c].debug == s.calls[c].debug
    ensures AfterFull(cfg, s.calls[c]) ==> AfterFull(cfg, Step(cfg, s, a).calls[c])
    ensures AfterClosing(s.calls[c]) && s.life.closing ==> AfterClosing(Step(cfg, s, a).calls[c])
    ensures s.life.closing ==> Step(cfg, s, a).life.closing
    ensures forall o :: HasOutcome(s.calls[c].pc, o) ==> HasOutcome(Step(cfg, s, a).calls[c].pc, o)
  {
    hide CallOk, HasSlot;
    if a == Advance(c) {
      NextStays(cfg, s, s.calls[c]);
    } else if IsBlockedStep(a) && a.c == c {
      BlockedStays(cfg, s, s.calls[c], a);
    } else {
      OtherStays(cfg, s, a, c);
    }
    ClosingStays(cfg, s, a);
  }

  lemma NextStays(cfg: Config, s: State, call: Call)
    requires CanAdvance(cfg, s, call) && Follows(cfg, call)
    ensures AfterFull(cfg, call) ==> AfterFull(cfg, NextCall(cfg, s, call))
    ensures AfterClosing(call) && s.life.closing ==> AfterClosing(NextCall(cfg, s, call))
    ensures forall o :: HasOutcome(call.pc, o) ==> HasOutcome(NextCall(cfg, s, call).pc, o)
    ensures NextCall(cfg, s, call).debug == call.debug
  {
    hide HasSlot;
  }

  lemma BlockedStays(cfg: Config, s: State, call: Call, a: Action)
    requires BlockedEnabled(cfg, s, call, a) && Follows(cfg, call)
    ensures AfterFull(cfg, call) ==> AfterFull(cfg, call.(pc := BlockedPc(a)))
    ensures !AfterClosing(call) && forall o :: !HasOutcome(call.pc, o)
  {
  }

  lemma OtherStays(cfg: Config, s: State, a: Action, c: CallId)
    requires Enabled(cfg, s, a) && c in s.calls && a != Advance(c) && (IsBlockedStep(a) ==> a.c != c)
    ensures c in Step(cfg, s, a).calls && Step(cfg, s, a).calls[c] == s.calls[c]
  {
  }

  lemma ClosingStays(cfg: Config, s: State, a: Action)
    requires Enabled(cfg, s, a)
    ensures s.life.closing ==> Step(cfg, s, a).life.closing
  {
  }

  lemma {:induction false} RunStays(
    cfg: Config, states: seq<State>, actions: seq<Action>, i: nat, j: nat, c: CallId, o: Outcome)
    requires IsRun(cfg, states, actions) && i <= j < |states| && c in states[i].calls
    ensures c in states[j].calls && states[j].calls[c].debug == states[i].calls[c].debug
    ensures AfterFull(cfg, states[i].calls[c]) ==> AfterFull(cfg, states[j].calls[c])
    ensures states[i].life.closing ==> states[j].life.closing
    ensures AfterClosing(states[i].calls[c]) && states[i].life.closing ==> AfterClosing(states[j].calls[c])
    ensures HasOutcome(states[i].calls[c].pc, o) ==> HasOutcome(states[j].calls[c].pc, o)
  {
    hide AfterFull, AfterClosing, HasOutcome, Follows, Enabled, Step;
    if i < j {
      RunStays(cfg, states, actions, i, j - 1, c, o);
      RunFollows(cfg, states, actions, j - 1);
      assert Enabled(cfg, states[j - 1], actions[j - 1]);
      CallStays(cfg, states[j - 1], actions[j - 1], c);
    }
  }

  /** A call whose TryPublish failed outside enqueueBlocking ends, once it has returned, as
      its strategy says: dropped, handed to the sinks by itself, or queued or refused. */
  lemma FullRingDecides(cfg: Config, states: seq<State>, actions: seq<Action>, i: nat, j: nat, c: CallId)
    requires IsRun(cfg, states, actions) && i <= j < |states|
    requires c in states[i].calls && states[i].calls[c].pc.Refused?
    ensures c in states[j].calls
    ensures states[j].calls[c].pc.Returned? ==>
              var o, debug := states[j].calls[c].pc.outcome, states[i].calls[c].debug;
              && (cfg.strategy.Drop? || (cfg.strategy.DropDebug? && debug) ==> o == Dropped)
              && (cfg.strategy.SyncFallback? ==> o.Synced?)
              && (cfg.strategy.Block? || (cfg.strategy.DropDebug? && !debug) ==> o == Queued || o == Rejected)
  {
    RunFollows(cfg, states, actions, i);
    assert Follows(cfg, states[i].calls[c]);
    RunStays(cfg, states, actions, i, j, c, Dropped);
  }

  /** A call that meets the closing pipeline before it tries to publish is refused. */
  lemma ClosingRefuses(cfg: Config, states: seq<State>, actions: seq<Action>, i: nat, j: nat, c: CallId)
    requires IsRun(cfg, states, actions) && i <= j < |states|
    requires c in states[i].calls && states[i].calls[c].pc.Selecting? && states[i].life.closing
    ensures c in states[j].calls && (states[j].calls[c].pc.Returned? ==> states[j].calls[c].pc.outcome == Rejected)
  {
    RunStays(cfg, states, actions, i, j, c, Rejected);
  }

  /** A call that ran the sinks itself reports what they reported. */
  lemma SyncReports(
    cfg: Config, states: seq<State>, actions: seq<Action>, i: nat, j: nat, c: CallId, ok: bool)
    requires IsRun(cfg, states, actions) && i < j < |states| && i < |actions| && actions[i] == FinishSync(c, ok)
    ensures c in states[j].calls && HasOutcome(states[j].calls[c].pc, Synced(ok))
  {
    assert Enabled(cfg, states[i], actions[i]) && states[i + 1] == Step(cfg, states[i], actions[i]);
    RunStays(cfg, states, actions, i + 1, j, c, Synced(ok));
  }

  /** The caller gave up: its context was cancelled before the call or while it waited. */
  ghost predicate Cancelled(actions: seq<Action>, i: nat, c: CallId) {
    exists k :: 0 <= k < i <= |actions| && GivesUp(actions[k], c)
  }

  predicate GivesUp(a: Action, c: CallId) {
    a == RefuseContext(c) || a == CancelWait(c)
  }

  lemma StepRefuses(cfg: Config, s: State, a: Action, c: CallId)
    requires Enabled(cfg, s, a) && (s.life.closing ==> s.life.closed)
    requires c in Step(cfg, s, a).calls && HasOutcome(Step(cfg, s, a).calls[c].pc, Rejected)
    ensures GivesUp(a, c) || s.life.closed || (c in s.calls && HasOutcome(s.calls[c].pc, Rejected))
  {
    hide HasSlot;
    if !a.Advance? && !IsBlockedStep(a) {
      assert c in s.calls;
    } else if a.c != c {
      OtherStays(cfg, s, a, c);
    }
  }

  lemma ClosedStays(cfg: Config, s: State, a: Action)
    requires Enabled(cfg, s, a)
    ensures s.life.closed ==> Step(cfg, s, a).life.closed
  {
  }

  /** A call is refused only once Close has begun or when its caller gives up. */
  lemma {:induction false} RefusedForAReason(
    cfg: Config, states: seq<State>, actions: seq<Action>, i: nat, c: CallId)
    requires ValidConfig(cfg) && IsRun(cfg, states, actions) && i < |states|
    requires c in states[i].calls && HasOutcome(states[i].calls[c].pc, Rejected)
    ensures states[i].life.closed || Cancelled(actions, i, c)
  {
    hide Enabled, Step, HasOutcome, CloseInv;
    if i > 0 {
      var s, a := states[i - 1], actions[i - 1];
      assert Enabled(cfg, s, a);
      RunKeepsClose(cfg, states, actions, i - 1);
      ClosingIsClosed(cfg, s);
      StepRefuses(cfg, s, a, c);
      ClosedStays(cfg, s, a);
      if c in s.calls && HasOutcome(s.calls[c].pc, Rejected) {
        RefusedForAReason(cfg, states, actions, i - 1, c);
      }
    }
  }

  lemma ClosingIsClosed(cfg: Config, s: State)
    requires CloseInv(cfg, s)
    ensures s.life.closing ==> s.life.closed
  {
  }

  // ----- The sinks

  ghost predicate SinksOk(cfg: Config, life: Life) {
    && (life.closer.Closed? ==> (life.sinksClosed <==> cfg.closeSinks))
    && (!life.closer.Closed? ==> !life.sinksClosed)
    && (life.closer.ClosingSinks? ==> cfg.closeSinks)
  }

  lemma StepKeepsSinks(cfg: Config, s: State, a: Action)
    requires SinksOk(cfg, s.life) && Enabled(cfg, s, a)
    ensures SinksOk(cfg, Step(cfg, s, a).life)
  {
    hide NextCall, CanAdvance, WorkerCanAdvance, SlotIndex;
  }

  lemma {:induction false} RunKeepsSinks(cfg: Config, states: seq<State>, actions: seq<Action>, i: nat)
    requires IsRun(cfg, states, actions) && i < |states|
    ensures SinksOk(cfg, states[i].life)
  {
    hide Enabled, Step;
    if i > 0 {
      RunKeepsSinks(cfg, states, actions, i - 1);
      assert Enabled(cfg, states[i - 1], actions[i - 1]);
      StepKeepsSinks(cfg, states[i - 1], actions[i - 1]);
    }
  }

  /** When Close has returned, the worker has exited, and the sinks are closed exactly when
      Close was to close them; before that none is closed. */
  lemma CloseClosesSinks(cfg: Config, states: seq<State>, actions: seq<Action>, i: nat)
    requires ValidConfig(cfg) && IsRun(cfg, states, actions) && i < |states|
    ensures states[i].life.sinksClosed <==> states[i].life.closer.Closed? && cfg.closeSinks
    ensures states[i].life.closer.Closed? || states[i].life.closer.ClosingSinks? ==> states[i].worker.pc.Exited?
  {
    RunKeepsSinks(cfg, states, actions, i);
    RunKeepsClose(cfg, states, actions, i);
  }
}
