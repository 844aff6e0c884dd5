// Every schedule of the threads comes to rest when no new call is made, whichever
// enabled step is taken each time; once Close has begun, it then has returned.
module AsyncTermination {
  import opened Capacity
  import opened AsyncPipeline
  import opened AsyncRing
  import opened AsyncClose
  import opened AsyncWakeup

  /** Any step except a new call and the wait strategies that poll. */
  predicate Driven(a: Action) {
    !a.StartAppend? && !a.PollWritable? && !a.PollReadable?
  }

  // ----- A measure that every driven step lowers, most significant part first

  predicate MayClaim(pc: Pc) {
    pc.Entered? || pc.Selecting? || pc.LoadingCursor? || pc.LoadingGating? || pc.Swapping? || pc.Refused?
    || pc.CheckingCursor? || pc.CheckingGating? || pc.Parked?
  }

  function Claimers(calls: map<CallId, Call>): set<CallId> {
    set c | c in calls && MayClaim(calls[c].pc)
  }

  /** Steps a call can still take before it parks, claims or returns, while the
      cursor and the gating sequence stay put. */
  function Rank(cfg: Config, r: Ring, call: Call): nat {
    var room := r.cursor + 1 - cfg.capacity <= r.gating;
    var late := if call.blocking then 0 else 10;
    match call.pc
    case Entered => 20
    case Selecting => late + 9
    case LoadingCursor => late + if room then 3 else 5
    case LoadingGating(current) => late + if current == r.cursor then (if room then 2 else 4) else if room then 5 else 7
    case Swapping(current) => late + if current == r.cursor then 1 else if room then 4 else 6
    case Writing(_) => 4
    case Stamping(_) => 3
    case Signalling => 2
    case Refused => late + if room then 6 else 3
    case CheckingCursor => late + if room then 5 else 2
    case CheckingGating(current) => late + if room then 4 else if current == r.cursor then 1 else 6
    case Parked => 0
    case Syncing => 2
    case Leaving(_) => 1
    case Returned(_) => 0
  }

  ghost function SumRank(cfg: Config, r: Ring, calls: map<CallId, Call>): nat
    decreases |calls|
  {
    if calls == map[] then 0
    else
      var c :| c in calls;
      assert |calls - {c}| < |calls| by { assert (calls - {c}).Keys < calls.Keys; RemovedIsSmaller(calls, c); }
      Rank(cfg, r, calls[c]) + SumRank(cfg, r, calls - {c})
  }

  lemma RemovedIsSmaller(calls: map<CallId, Call>, c: CallId)
    requires c in calls
    ensures |calls - {c}| == |calls| - 1
  {
    assert (calls - {c}).Keys == calls.Keys - {c};
    assert |(calls - {c}).Keys| == |calls.Keys| - 1;
  }

  lemma {:induction false} SumRemove(cfg: Config, r: Ring, calls: map<CallId, Call>, c: CallId)
    requires c in calls
    ensures SumRank(cfg, r, calls) == Rank(cfg, r, calls[c]) + SumRank(cfg, r, calls - {c})
    decreases |calls|
  {
    var d :| d in calls && SumRank(cfg, r, calls) == Rank(cfg, r, calls[d]) + SumRank(cfg, r, calls - {d});
    if d != c {
      RemovedIsSmaller(calls, d);
      RemovedIsSmaller(calls, c);
      SumRemove(cfg, r, calls - {d}, c);
      SumRemove(cfg, r, calls - {c}, d);
      assert calls - {d} - {c} == calls - {c} - {d};
    }
  }

  lemma SumUpdate(cfg: Config, r: Ring, calls: map<CallId, Call>, c: CallId, call: Call)
    requires c in calls
    ensures SumRank(cfg, r, calls[c := call]) == SumRank(cfg, r, calls) - Rank(cfg, r, calls[c]) + Rank(cfg, r, call)
  {
    SumRemove(cfg, r, calls, c);
    SumRemove(cfg, r, calls[c := call], c);
    assert calls[c := call] - {c} == calls - {c};
  }

  function WritableTokens(s: State): nat {
    (if s.writable then 1 else 0) + (if s.worker.pc.PopSignal? then 1 else 0)
  }

  function NextIsPublished(cfg: Config, r: Ring): bool {
    Published(cfg, r, r.gating + 1)
  }

  /** Steps to a released sequence, to waiting or to the exit. */
  function WorkerRank(cfg: Config, w: Worker, r: Ring): int {
    var base := cfg.batchSize + 2;
    var start := 4 * (r.cursor - r.gating) + base + 5;
    match w.pc
    case PopStart => start
    case PopLoad(_, next) => 4 * (r.cursor + 1 - next) + base + 4
    case PopTake(_, next) => 4 * (r.cursor + 1 - next) + base + 3
    case PopZero(_, next) => 4 * (r.cursor + 1 - next) + base + 2
    case PopStamp(_, next) => 4 * (r.cursor + 1 - next) + base + 1
    case PopGate(_, _) => 1
    case PopSignal => start + cfg.batchSize + 2
    case Flushing(index, last) => |w.batch| - index + 1 + if last then 0 else start
    case CheckGating => if NextIsPublished(cfg, r) then start + 2 else 2
    case CheckStamp(_) => if NextIsPublished(cfg, r) then start + 1 else 1
    case Waiting => 0
    case Exited => 0
  }

  function CloserRank(c: CloserPc): nat {
    match c
    case NotClosing => 7
    case Marked => 6
    case AwaitingProducers => 5
    case Stopping => 4
    case Joining => 3
    case ClosingSinks => 2
    case Closed => 1
  }

  /** t is below s in the lexicographic order of the measure. */
  ghost predicate Lower(cfg: Config, t: State, s: State) {
    var a, a' := |Claimers(s.calls)|, |Claimers(t.calls)|;
    var b, b' := s.ring.cursor - s.ring.gating, t.ring.cursor - t.ring.gating;
    var w, w' := WritableTokens(s), WritableTokens(t);
    var u, u' := SumRank(cfg, s.ring, s.calls), SumRank(cfg, t.ring, t.calls);
    || a' < a
    || (a' == a && b' < b)
    || (a' == a && b' == b && w' < w)
    || (a' == a && b' == b && w' == w && u' < u)
    || (a' == a && b' == b && w' == w && u' == u && LowerTail(cfg, t, s))
  }

  ghost predicate LowerTail(cfg: Config, t: State, s: State) {
    var d, d' := (if s.worker.draining then 0 else 1), (if t.worker.draining then 0 else 1);
    var e, e' := (if s.readable then 1 else 0), (if t.readable then 1 else 0);
    var f, f' := WorkerRank(cfg, s.worker, s.ring), WorkerRank(cfg, t.worker, t.ring);
    || e' < e
    || (e' == e && d' < d)
    || (e' == e && d' == d && f' < f)
    || (e' == e && d' == d && f' == f && CloserRank(t.life.closer) < CloserRank(s.life.closer))
  }

  lemma ClaimersAfter(calls: map<CallId, Call>, c: CallId, call: Call)
    requires c in calls
    ensures MayClaim(calls[c].pc) && !MayClaim(call.pc) ==> |Claimers(calls[c := call])| < |Claimers(calls)|
    ensures MayClaim(calls[c].pc) == MayClaim(call.pc) ==> Claimers(calls[c := call]) == Claimers(calls)
  {
    var before, after := Claimers(calls), Claimers(calls[c := call]);
    if MayClaim(calls[c].pc) && !MayClaim(call.pc) {
      assert after == before - {c} && c in before;
    } else if MayClaim(calls[c].pc) == MayClaim(call.pc) {
      assert after == before;
    }
  }

  /** While it may still claim, a call that moves without claiming lowers its rank. */
  lemma CallLowersRank(cfg: Config, s: State, call: Call)
    requires CanAdvance(cfg, s, call) && cfg.capacity > 0
    requires CallOk(cfg, s.ring, Released(s.ring, s.worker.pc), 0, call.pc) || !MayClaim(call.pc)
    ensures var call' := NextCall(cfg, s, call);
            || (MayClaim(call.pc) && !MayClaim(call'.pc))
            || (MayClaim(call'.pc) == MayClaim(call.pc) && Rank(cfg, s.ring, call') < Rank(cfg, s.ring, call))
  {
    match call.pc
    case LoadingGating(_) =>
    case Refused =>
    case CheckingGating(_) =>
    case _ =>
  }

  lemma {:induction false} RankIgnoresSlots(cfg: Config, r: Ring, r': Ring, calls: map<CallId, Call>)
    requires r'.cursor == r.cursor && r'.gating == r.gating
    ensures SumRank(cfg, r', calls) == SumRank(cfg, r, calls)
    decreases |calls|
  {
    if calls != map[] {
      var c :| c in calls;
      RemovedIsSmaller(calls, c);
      SumRemove(cfg, r, calls, c);
      SumRemove(cfg, r', calls, c);
      assert Rank(cfg, r', calls[c]) == Rank(cfg, r, calls[c]);
      RankIgnoresSlots(cfg, r, r', calls - {c});
    }
  }

  lemma CallLowers(cfg: Config, s: State, c: CallId)
    requires ValidConfig(cfg) && CloseInv(cfg, s)
    requires c in s.calls && CanAdvance(cfg, s, s.calls[c])
    ensures Lower(cfg, StepCall(cfg, s, c, s.calls[c]), s)
  {
    hide WindowOk, SlotIndex, SumRank;
    var call := s.calls[c];
    var t := StepCall(cfg, s, c, call);
    assert CallOk(cfg, s.ring, Released(s.ring, s.worker.pc), c, call.pc);
    CallLowersRank(cfg, s, call);
    ClaimersAfter(s.calls, c, NextCall(cfg, s, call));
    if MayClaim(call.pc) == MayClaim(t.calls[c].pc) {
      SumUpdate(cfg, s.ring, s.calls, c, t.calls[c]);
      RankIgnoresSlots(cfg, s.ring, t.ring, t.calls);
    }
  }

  lemma BlockedRank(cfg: Config, s: State, call: Call, a: Action)
    requires BlockedEnabled(cfg, s, call, a) && IsBlockedStep(a) && Driven(a)
    ensures var pc := BlockedPc(a);
            || (MayClaim(call.pc) && !MayClaim(pc))
            || (MayClaim(pc) == MayClaim(call.pc) &&
                (a.TakeWritable? || Rank(cfg, s.ring, call.(pc := pc)) < Rank(cfg, s.ring, call)))
  {
  }

  lemma BlockedLowers(cfg: Config, s: State, a: Action)
    requires CloseInv(cfg, s) && Enabled(cfg, s, a) && IsBlockedStep(a) && Driven(a)
    ensures Lower(cfg, Step(cfg, s, a), s)
  {
    hide CloseInv;
    var call := s.calls[a.c].(pc := BlockedPc(a));
    BlockedRank(cfg, s, s.calls[a.c], a);
    ClaimersAfter(s.calls, a.c, call);
    if MayClaim(s.calls[a.c].pc) == MayClaim(call.pc) {
      SumUpdate(cfg, s.ring, s.calls, a.c, call);
    }
    var t := StepBlocked(s, a.c, s.calls[a.c], a);
    assert t.ring == s.ring && t.worker == s.worker && t.calls == s.calls[a.c := call];
    assert WritableTokens(t) <= WritableTokens(s) && (a.TakeWritable? ==> WritableTokens(t) < WritableTokens(s));
  }

  lemma ReleaseLowers(cfg: Config, s: State)
    requires CloseInv(cfg, s) && s.worker.pc.PopGate?
    ensures Lower(cfg, StepWorker(cfg, s), s)
  {
  }

  lemma WorkerLowersRank(cfg: Config, s: State)
    requires ValidConfig(cfg) && CloseInv(cfg, s) && WorkerCanAdvance(cfg, s) && !s.worker.pc.PopGate?
    ensures var t := StepWorker(cfg, s);
            0 <= WorkerRank(cfg, t.worker, t.ring) < WorkerRank(cfg, s.worker, s.ring)
  {
    hide ClaimsOk, CallsOk, BatchConserves, LogOk, BitAnd;
  }

  lemma WorkerLowers(cfg: Config, s: State)
    requires ValidConfig(cfg) && CloseInv(cfg, s) && WorkerCanAdvance(cfg, s)
    ensures Lower(cfg, StepWorker(cfg, s), s)
  {
    if s.worker.pc.PopGate? {
      ReleaseLowers(cfg, s);
    } else {
      WorkerLowersRank(cfg, s);
      RankIgnoresSlots(cfg, s.ring, StepWorker(cfg, s).ring, s.calls);
    }
  }

  lemma WakeLowers(cfg: Config, s: State, a: Action)
    requires CloseInv(cfg, s) && WakeEnabled(cfg, s, a) && Driven(a)
    ensures Lower(cfg, WakeWorker(s, a), s)
  {
    hide Rank, SumRank, SlotIndex, RingInv, LogOk;
  }

  lemma DrivenLowers(cfg: Config, s: State, a: Action)
    requires ValidConfig(cfg) && CloseInv(cfg, s) && Driven(a) && Enabled(cfg, s, a)
    ensures Lower(cfg, Step(cfg, s, a), s) && (s.life.closed ==> Step(cfg, s, a).life.closed)
  {
    hide Rank, SumRank, WorkerRank, RingInv, LogOk, WorkerBatchOk;
    match a
    case Advance(c) => CallLowers(cfg, s, c);
    case AdvanceWorker => WorkerLowers(cfg, s);
    case TakeReadable => WakeLowers(cfg, s, a);
    case InterruptWorker => WakeLowers(cfg, s, a);
    case StartClose =>
    case AdvanceCloser =>
    case _ => BlockedLowers(cfg, s, a);
  }

  // ----- Every schedule

  /** An infinite schedule: each instant either takes a driven step or, when
      nothing is outstanding, rests. */
  ghost predicate IsSchedule(cfg: Config, at: nat -> State, act: nat -> Action) {
    forall i: nat :: Continues(cfg, at(i), act(i), at(i + 1))
  }

  ghost predicate Continues(cfg: Config, s: State, a: Action, t: State) {
    || (Quiescent(s) && t == s)
    || (Driven(a) && Enabled(cfg, s, a) && t == Step(cfg, s, a))
  }

  lemma WorkerRankBounded(cfg: Config, s: State)
    requires ValidConfig(cfg) && CloseInv(cfg, s)
    ensures WorkerRank(cfg, s.worker, s.ring) >= 0
  {
  }

  lemma {:induction false} SettlesFrom(cfg: Config, at: nat -> State, act: nat -> Action, i: nat) returns (n: nat)
    requires ValidConfig(cfg) && IsSchedule(cfg, at, act)
    requires WakeInv(cfg, at(i))
    ensures i <= n && Quiescent(at(n))
    decreases |Claimers(at(i).calls)|, at(i).ring.cursor - at(i).ring.gating, WritableTokens(at(i)),
              SumRank(cfg, at(i).ring, at(i).calls), at(i).readable, !at(i).worker.draining,
              WorkerRank(cfg, at(i).worker, at(i).ring), CloserRank(at(i).life.closer)
  {
    if Quiescent(at(i)) {
      return i;
    }
    WorkerRankBounded(cfg, at(i));
    assert Continues(cfg, at(i), act(i), at(i + 1));
    DrivenLowers(cfg, at(i), act(i));
    StepKeepsWake(cfg, at(i), act(i));
    n := SettlesFrom(cfg, at, act, i + 1);
  }

  /** Without new calls every schedule reaches a state in which every Append has
      returned, the queue has been handed on and no Close is under way. */
  lemma EveryScheduleSettles(cfg: Config, at: nat -> State, act: nat -> Action) returns (n: nat)
    requires ValidConfig(cfg) && IsSchedule(cfg, at, act) && WakeInv(cfg, at(0))
    ensures Quiescent(at(n))
  {
    n := SettlesFrom(cfg, at, act, 0);
  }

  /** Once Close has begun, every schedule reaches a state in which Close has
      returned, every Append has returned and the queue has been handed on. */
  lemma CloseAlwaysFinishes(cfg: Config, at: nat -> State, act: nat -> Action) returns (n: nat)
    requires ValidConfig(cfg) && IsSchedule(cfg, at, act)
    requires WakeInv(cfg, at(0)) && at(0).life.closed
    ensures at(n).life.closer.Closed? && Quiescent(at(n))
  {
    n := SettlesFrom(cfg, at, act, 0);
    SettledIsClosed(cfg, at, act, n);
  }

  lemma {:induction false} SettledIsClosed(cfg: Config, at: nat -> State, act: nat -> Action, n: nat)
    requires ValidConfig(cfg) && IsSchedule(cfg, at, act)
    requires WakeInv(cfg, at(0)) && at(0).life.closed
    ensures WakeInv(cfg, at(n)) && at(n).life.closed && (Quiescent(at(n)) ==> at(n).life.closer.Closed?)
  {
    hide RingInv, LogOk, ReaderAwake, WriterAwake, Lower, Enabled, Step;
    if n > 0 {
      SettledIsClosed(cfg, at, act, n - 1);
      assert Continues(cfg, at(n - 1), act(n - 1), at(n - 1 + 1));
      if at(n) != at(n - 1) {
        DrivenLowers(cfg, at(n - 1), act(n - 1));
        StepKeepsWake(cfg, at(n - 1), act(n - 1));
      }
    }
  }
}
