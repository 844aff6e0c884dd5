// What the pipeline guarantees over whole runs.
module AsyncTheorems {
  import opened Capacity
  import opened AsyncPipeline
  import opened AsyncRing
  import opened AsyncClose
  import opened AsyncWakeup
  import opened Sequences

  // ----- Slots

  /** No two threads are ever inside the same slot: distinct producers between
      claim and stamp, and the worker between finding a stamp and freeing it,
      use distinct slots. */
  lemma SlotsAreExclusive(cfg: Config, s: State, c: CallId, d: CallId)
    requires ValidConfig(cfg) && RingInv(cfg, s.ring, s.worker.pc, s.calls)
    requires c in s.calls && Unstamped(s.calls[c].pc)
    ensures d in s.calls && d != c && Unstamped(s.calls[d].pc) ==>
              SlotIndex(cfg.capacity, s.calls[c].pc.sequence) != SlotIndex(cfg.capacity, s.calls[d].pc.sequence)
    ensures var w := s.worker.pc;
            w.PopTake? || w.PopZero? || w.PopStamp? ==>
              SlotIndex(cfg.capacity, w.next) != SlotIndex(cfg.capacity, s.calls[c].pc.sequence)
  {
    UnstampedIsNotTheWorkers(cfg, s.ring, s.worker.pc, s.calls, c);
    var from := Released(s.ring, s.worker.pc);
    assert CallOk(cfg, s.ring, from, c, s.calls[c].pc);
    if d in s.calls && d != c && Unstamped(s.calls[d].pc) {
      assert CallOk(cfg, s.ring, from, d, s.calls[d].pc);
      OtherSlots(cfg, from, s.calls[c].pc.sequence);
    }
  }

  /** A producer about to write sequence q finds that the sequence which used the
      slot one lap earlier has been read. */
  lemma OverwritesOnlyRead(cfg: Config, s: State, c: CallId)
    requires ValidConfig(cfg) && RingInv(cfg, s.ring, s.worker.pc, s.calls)
    requires c in s.calls && Unstamped(s.calls[c].pc)
    ensures s.calls[c].pc.sequence - cfg.capacity < |s.ring.taken|
  {
    assert CallOk(cfg, s.ring, Released(s.ring, s.worker.pc), c, s.calls[c].pc);
  }

  // ----- Order

  ghost predicate Prefix(xs: seq<int>, ys: seq<int>) {
    |xs| <= |ys| && forall i :: 0 <= i < |xs| ==> xs[i] == ys[i]
  }

  /** At every point of every run the worker has read, and handed to the sinks,
      the claimants of the first sequences in claim order, each once. */
  lemma RunDeliversInClaimOrder(cfg: Config, states: seq<State>, actions: seq<Action>, i: nat)
    requires ValidConfig(cfg) && IsRun(cfg, states, actions) && i < |states|
    ensures var s := states[i];
            && Prefix(s.log.flushed, s.ring.taken) && Prefix(s.ring.taken, s.ring.claims)
            && Distinct(s.ring.claims)
            && s.ring.cursor - s.ring.gating <= cfg.capacity
  {
    RunKeepsClose(cfg, states, actions, i);
  }

  /** Nothing that was recorded is ever taken back. */
  lemma StepOnlyAdds(cfg: Config, s: State, a: Action)
    requires ValidConfig(cfg) && CloseInv(cfg, s) && Enabled(cfg, s, a)
    ensures var t := Step(cfg, s, a);
            && s.ring.claims <= t.ring.claims && s.ring.taken <= t.ring.taken
            && s.ring.gating <= t.ring.gating && s.ring.cursor <= t.ring.cursor
            && s.log.flushed <= t.log.flushed && s.log.synced <= t.log.synced
            && s.log.droppedCalls <= t.log.droppedCalls
  {
    hide CloseInv, SlotIndex;
    if a.AdvanceWorker? {
      WorkerOnlyAdds(cfg, s);
    }
  }

  lemma WorkerOnlyAdds(cfg: Config, s: State)
    requires ValidConfig(cfg) && CloseInv(cfg, s) && WorkerCanAdvance(cfg, s)
    ensures var t := StepWorker(cfg, s);
            && s.ring.claims == t.ring.claims && s.ring.taken <= t.ring.taken
            && s.ring.gating <= t.ring.gating && s.ring.cursor == t.ring.cursor
            && s.log.flushed <= t.log.flushed && s.log.synced == t.log.synced
            && s.log.droppedCalls == t.log.droppedCalls
  {
  }

  lemma {:induction false} GatingNeverFalls(
    cfg: Config, states: seq<State>, actions: seq<Action>, i: nat, j: nat)
    requires ValidConfig(cfg) && IsRun(cfg, states, actions) && i <= j < |states|
    ensures states[i].ring.gating <= states[j].ring.gating
    ensures states[i].ring.claims <= states[j].ring.claims
  {
    hide CloseInv, Enabled, Step, Init;
    if i < j {
      GatingNeverFalls(cfg, states, actions, i, j - 1);
      RunKeepsClose(cfg, states, actions, j - 1);
      assert Enabled(cfg, states[j - 1], actions[j - 1]);
      StepOnlyAdds(cfg, states[j - 1], actions[j - 1]);
    }
  }

  // ----- The drain barrier

  lemma {:induction false} DistinctCountsOnce(xs: seq<int>, x: int)
    requires forall i, j :: 0 <= i < j < |xs| ==> xs[i] != xs[j]
    ensures multiset(xs)[x] == if x in xs then 1 else 0
  {
    if xs != [] {
      var n := |xs| - 1;
      assert xs == xs[..n] + [xs[n]];
      DistinctCountsOnce(xs[..n], x);
    }
  }

  /** How often the sinks received the event of call c. */
  function TimesHanded(log: Log, c: CallId): nat {
    multiset(log.flushed)[c] + multiset(log.synced)[c]
  }

  lemma SameClaimants(r: Ring, flushed: seq<int>, c: CallId)
    requires |flushed| == |r.claims| && Prefix(flushed, r.claims)
    requires forall i, j :: 0 <= i < j < |r.claims| ==> r.claims[i] != r.claims[j]
    ensures multiset(flushed)[c] == if c in r.claims then 1 else 0
  {
    DistinctCountsOnce(flushed, c);
    if c in flushed {
      var i :| 0 <= i < |flushed| && flushed[i] == c;
      assert r.claims[i] == c;
    }
    if c in r.claims {
      var i :| 0 <= i < |r.claims| && r.claims[i] == c;
      assert flushed[i] == c;
    }
  }

  lemma AllFlushed(cfg: Config, s: State)
    requires CloseInv(cfg, s) && |s.log.flushed| == |s.ring.claims|
    ensures Prefix(s.log.flushed, s.ring.claims)
  {
    var rest := s.worker.batch[HandedOf(s.worker)..];
    assert |s.ring.taken| == |s.log.flushed| + |rest|;
    assert s.ring.taken == s.log.flushed;
  }

  lemma HandedAsRecorded(cfg: Config, s: State, c: CallId)
    requires ValidConfig(cfg) && CloseInv(cfg, s) && c in s.calls && |s.log.flushed| == |s.ring.claims|
    ensures TimesHanded(s.log, c) == (if AfterClaim(s.calls[c].pc) || RanSinks(s.calls[c].pc) then 1 else 0)
  {
    hide WindowOk, CallsOk, LifeOk, WorkerBatchOk, BatchConserves, WorkerOk;
    AllFlushed(cfg, s);
    SameClaimants(s.ring, s.log.flushed, c);
    DistinctCountsOnce(s.log.synced, c);
    assert c in s.ring.claims <==> AfterClaim(s.calls[c].pc) by {
      assert ClaimsOk(s.ring.claims, s.calls);
    }
    assert c in s.log.synced <==> RanSinks(s.calls[c].pc) by {
      assert LogOk(s.log, s.calls);
    }
  }

  /** When Close has returned, no Append is in flight; a call that returned nil
      either reached the sinks exactly once or was dropped and counted, and a call
      that was refused never reached them. */
  lemma CloseIsADrainBarrier(cfg: Config, states: seq<State>, actions: seq<Action>, i: nat, c: CallId)
    requires ValidConfig(cfg) && IsRun(cfg, states, actions) && i < |states|
    requires states[i].life.closer.Closed? && c in states[i].calls
    ensures var s := states[i];
            && (s.calls[c].pc.Entered? || s.calls[c].pc.Returned?)
            && (s.calls[c].pc.Returned? ==>
                  var o := s.calls[c].pc.outcome;
                  && TimesHanded(s.log, c) == (if o.Queued? || o.Synced? then 1 else 0)
                  && (c in s.log.droppedCalls <==> o.Dropped?)
                  && (ReturnsNil(o) ==> (TimesHanded(s.log, c) == 1 <==> c !in s.log.droppedCalls)))
            && s.log.dropped == |s.log.droppedCalls| && Distinct(s.log.droppedCalls)
            && |s.log.flushed| == |s.ring.claims| && Prefix(s.log.flushed, s.ring.claims)
  {
    var s := states[i];
    RunKeepsClose(cfg, states, actions, i);
    assert c !in ActiveCalls(s.calls);
    HandedAsRecorded(cfg, s, c);
  }

  /** After Close has returned no step reaches a sink or the dropped counter. */
  lemma ClosedStaysSilent(cfg: Config, s: State, a: Action)
    requires ValidConfig(cfg) && CloseInv(cfg, s) && s.life.closer.Closed? && Enabled(cfg, s, a)
    ensures Step(cfg, s, a).log == s.log && Step(cfg, s, a).life.closer.Closed?
  {
    if a.Advance? || IsBlockedStep(a) {
      assert a.c !in ActiveCalls(s.calls);
    }
  }

  lemma {:induction false} NothingAfterClose(
    cfg: Config, states: seq<State>, actions: seq<Action>, i: nat, j: nat)
    requires ValidConfig(cfg) && IsRun(cfg, states, actions) && i <= j < |states|
    requires states[i].life.closer.Closed?
    ensures states[j].log == states[i].log && states[j].life.closer.Closed?
  {
    hide CloseInv, Enabled, Step, Init;
    if i < j {
      NothingAfterClose(cfg, states, actions, i, j - 1);
      RunKeepsClose(cfg, states, actions, j - 1);
      assert Enabled(cfg, states[j - 1], actions[j - 1]);
      ClosedStaysSilent(cfg, states[j - 1], actions[j - 1]);
    }
  }

  // ----- Overflow

  ghost predicate SawFullAt(cfg: Config, states: seq<State>, actions: seq<Action>, i: nat, c: CallId) {
    && i < |actions| && i < |states| && actions[i] == Advance(c)
    && c in states[i].calls && states[i].calls[c].pc.LoadingGating?
    && states[i].ring.cursor - states[i].ring.gating == cfg.capacity
  }

  lemma RefusalMeansFull(cfg: Config, s: State, c: CallId)
    requires CloseInv(cfg, s) && c in s.calls && s.calls[c].pc.LoadingGating?
    requires NextCall(cfg, s, s.calls[c]).pc.Refused?
    ensures s.ring.cursor - s.ring.gating == cfg.capacity
  {
    assert CallOk(cfg, s.ring, Released(s.ring, s.worker.pc), c, s.calls[c].pc);
  }

  predicate FoundFull(pc: Pc) {
    pc.Refused? || pc.Syncing?
  }

  lemma FoundFullBefore(cfg: Config, s: State, a: Action, c: CallId)
    requires Enabled(cfg, s, a)
    requires c in Step(cfg, s, a).calls && FoundFull(Step(cfg, s, a).calls[c].pc)
    ensures c in s.calls
    ensures FoundFull(s.calls[c].pc) ||
            (a == Advance(c) && s.calls[c].pc.LoadingGating? && NextCall(cfg, s, s.calls[c]).pc.Refused?)
  {
    hide NextRing, SlotIndex;
  }

  /** A call whose TryPublish failed, and one that fell back to running the sinks
      itself, loaded the gating sequence at an instant when exactly capacity
      claimed sequences were unreleased. */
  lemma {:induction false} RefusedSawFullRing(
    cfg: Config, states: seq<State>, actions: seq<Action>, k: nat, c: CallId) returns (i: nat)
    requires ValidConfig(cfg) && IsRun(cfg, states, actions) && k < |states|
    requires c in states[k].calls && FoundFull(states[k].calls[c].pc)
    ensures i < k && SawFullAt(cfg, states, actions, i, c)
  {
    assert k > 0;
    var s, a := states[k - 1], actions[k - 1];
    assert Enabled(cfg, s, a) && states[k] == Step(cfg, s, a);
    FoundFullBefore(cfg, s, a, c);
    if FoundFull(s.calls[c].pc) {
      i := RefusedSawFullRing(cfg, states, actions, k - 1, c);
    } else {
      RunKeepsClose(cfg, states, actions, k - 1);
      RefusalMeansFull(cfg, s, c);
      i := k - 1;
    }
  }

  /** Every increment of the dropped counter belongs to a call that found the ring full. */
  lemma DropsOnlyWhenFull(cfg: Config, states: seq<State>, actions: seq<Action>, k: nat) returns (i: nat, c: CallId)
    requires ValidConfig(cfg) && IsRun(cfg, states, actions) && k < |actions|
    requires states[k + 1].log.dropped != states[k].log.dropped
    ensures i < k && SawFullAt(cfg, states, actions, i, c)
    ensures states[k + 1].log.droppedCalls == states[k].log.droppedCalls + [c]
    ensures states[k + 1].log.dropped == states[k].log.dropped + 1
  {
    assert Enabled(cfg, states[k], actions[k]);
    c := actions[k].c;
    i := RefusedSawFullRing(cfg, states, actions, k, c);
  }

  // ----- What an unsuccessful PopBatch tells

  /** PopBatch finds nothing exactly when the ring is empty or the claimant of the
      next sequence has not stamped its slot yet. */
  lemma PopFailsExactly(cfg: Config, s: State)
    requires ValidConfig(cfg) && CloseInv(cfg, s)
    requires s.worker.pc.PopLoad? && s.worker.pc.next == s.worker.pc.start
    ensures !NextWorkerPc(cfg, s.worker, s.ring).PopTake? <==>
              s.ring.cursor == s.ring.gating ||
              Unstamped(s.calls[s.ring.claims[s.ring.gating + 1]].pc)
  {
    var q := s.worker.pc.next;
    assert SlotOk(cfg, s.ring, s.worker.pc, s.calls, q);
    assert FreeStamp(cfg, q) != q;
  }

  lemma RunExtends(cfg: Config, states: seq<State>, actions: seq<Action>, a: Action, t: State)
    requires IsRun(cfg, states, actions) && Enabled(cfg, states[|actions|], a) && t == Step(cfg, states[|actions|], a)
    ensures IsRun(cfg, states + [t], actions + [a])
  {
    var states', actions' := states + [t], actions + [a];
    forall i {:trigger actions'[i]} | 0 <= i < |actions'|
      ensures Enabled(cfg, states'[i], actions'[i]) && states'[i + 1] == Step(cfg, states'[i], actions'[i])
    {
      if i < |actions| {
        assert actions'[i] == actions[i];
      }
    }
  }

  /** A ring of two slots from which nothing has been read. */
  function SmallState(claims: seq<CallId>, one: Slot, producers: int, calls: map<CallId, Call>, w: WorkerPc): State {
    State(Ring(|claims| - 1, -1, [Slot(NO_EVENT, -2), one], claims, []),
          false, false, calls, Worker(w, [], false), Life(false, false, false, producers, NotClosing, false),
          Log(0, [], [], []))
  }

  const SMALL: Config := Config(2, 1, Block, false, false)
  const FREE: Slot := Slot(NO_EVENT, -1)

  function FirstCall(k: int): map<CallId, Call> {
    if k == 0 then map[]
    else if k == 1 then map[0 := Call(Entered, false, false)]
    else map[0 := Call(if k == 2 then LoadingCursor else if k == 3 then LoadingGating(-1)
                       else if k == 4 then Swapping(-1) else Writing(0), false, true)]
  }

  /** The first producer claims sequence 0 and is suspended. */
  lemma FirstCallClaims() returns (states: seq<State>, actions: seq<Action>)
    ensures IsRun(SMALL, states, actions)
    ensures states[|actions|] == SmallState([0], FREE, 1, FirstCall(5), PopStart)
  {
    states, actions := [Init(SMALL)], [];
    assert Init(SMALL).ring.slots == [Slot(NO_EVENT, -2), FREE];
    for k := 0 to 5
      invariant |actions| == k && IsRun(SMALL, states, actions)
      invariant states[k] == SmallState(if k == 5 then [0] else [], FREE, if k < 2 then 0 else 1, FirstCall(k),
          PopStart)
    {
      var a := if k == 0 then StartAppend(0, false) else Advance(0);
      var t := Step(SMALL, states[k], a);
      RunExtends(SMALL, states, actions, a, t);
      states, actions := states + [t], actions + [a];
    }
  }

  function SecondCall(k: int): Call {
    if k == 1 then Call(Entered, false, false)
    else Call(if k == 2 then LoadingCursor else if k == 3 then LoadingGating(0) else if k == 4 then Swapping(0)
              else if k == 5 then Writing(1) else if k == 6 then Stamping(1) else Signalling, false, true)
  }

  function SecondState(k: int): State {
    if k == 0 then SmallState([0], FREE, 1, FirstCall(5), PopStart)
    else SmallState(if k < 5 then [0] else [0, 1], if k < 6 then FREE else if k == 6 then Slot(1, -1) else Slot(1, 1),
                    if k == 1 then 1 else 2, FirstCall(5)[1 := SecondCall(k)], PopStart)
  }

  lemma SecondCallSteps(k: int)
    requires 0 <= k < 7
    ensures var a := if k == 0 then StartAppend(1, false) else Advance(1);
            Enabled(SMALL, SecondState(k), a) && Step(SMALL, SecondState(k), a) == SecondState(k + 1)
  {
    assert SlotIndex(2, 1) == 1;
    if k == 0 {
    } else if k <= 3 {
    } else if k == 4 {
      assert [0] + [1] == [0, 1];
    } else {
    }
  }

  /** An unsuccessful PopBatch does not mean that nothing is published: with two
      producers, sequence 1 can be published while sequence 0 is only claimed. */
  lemma PopCanMissPublished() returns (states: seq<State>, actions: seq<Action>)
    ensures ValidConfig(SMALL) && IsRun(SMALL, states, actions)
    ensures var s := states[|actions|];
            && s.worker.pc == PopLoad(0, 0) && !NextWorkerPc(SMALL, s.worker, s.ring).PopTake?
            && s.ring.claims == [0, 1] && Published(SMALL, s.ring, 1)
  {
    assert 2 == Pow2(1);
    states, actions := FirstCallClaims();
    var n := |actions|;
    for k := 0 to 7
      invariant |actions| == n + k && IsRun(SMALL, states, actions) && states[n + k] == SecondState(k)
    {
      var a := if k == 0 then StartAppend(1, false) else Advance(1);
      SecondCallSteps(k);
      RunExtends(SMALL, states, actions, a, SecondState(k + 1));
      states, actions := states + [SecondState(k + 1)], actions + [a];
    }
    var t := Step(SMALL, SecondState(7), AdvanceWorker);
    RunExtends(SMALL, states, actions, AdvanceWorker, t);
    states, actions := states + [t], actions + [AdvanceWorker];
    assert SlotIndex(2, 0) == 0 && SlotIndex(2, 1) == 1;
  }
}
