// The asynchronous pipeline as a transition system: any number of Append calls,
// one worker and one effective Close run over a bounded ring. One step performs
// one atomic load, store, compare-and-swap, channel operation or sink call.
module AsyncPipeline {
  import opened Capacity

  type CallId = nat

  // The zero value of a ring entry. Calls are numbered from 0.
  const NO_EVENT: int := -1

  datatype Strategy = Block | Drop | DropDebug | SyncFallback

  /** polling: the wait strategy also re-checks without a token (timeouts,
      sleeping, yielding, spinning). closeSinks: Close also closes the sinks. */
  datatype Config = Config(
    capacity: nat, batchSize: nat, strategy: Strategy, polling: bool, closeSinks: bool)

  ghost predicate ValidConfig(cfg: Config) {
    IsPowerOfTwo(cfg.capacity) && cfg.capacity >= 1 && 1 <= cfg.batchSize <= cfg.capacity
  }

  /** What became of an Append call. Synced carries whether the sinks accepted. */
  datatype Outcome = Queued | Dropped | Synced(ok: bool) | Rejected

  /** The call returned nil to its caller. */
  predicate ReturnsNil(o: Outcome) {
    o.Queued? || o.Dropped? || (o.Synced? && o.ok)
  }

  datatype Pc =
    | Entered
    | Selecting
    | LoadingCursor
    | LoadingGating(current: int)
    | Swapping(current: int)
    | Writing(sequence: int)
    | Stamping(sequence: int)
    | Signalling
    | Refused
    | CheckingCursor
    | CheckingGating(current: int)
    | Parked
    | Syncing
    | Leaving(outcome: Outcome)
    | Returned(outcome: Outcome)

  /** debug: the event's level is DEBUG or lower. blocking: the call is inside
      enqueueBlocking. */
  datatype Call = Call(pc: Pc, debug: bool, blocking: bool)

  datatype WorkerPc =
    | PopStart
    | PopLoad(start: int, next: int)
    | PopTake(start: int, next: int)
    | PopZero(start: int, next: int)
    | PopStamp(start: int, next: int)
    | PopGate(start: int, next: int)
    | PopSignal
    | Flushing(index: nat, last: bool)
    | CheckGating
    | CheckStamp(next: int)
    | Waiting
    | Exited

  datatype CloserPc = NotClosing | Marked | AwaitingProducers | Stopping | Joining | ClosingSinks | Closed

  datatype Slot = Slot(value: int, published: int)

  /** claims and taken are history: the claimant of each sequence, and the
      values the worker has read out of the slots. */
  datatype Ring = Ring(cursor: int, gating: int, slots: seq<Slot>, claims: seq<CallId>, taken: seq<int>)

  datatype Worker = Worker(pc: WorkerPc, batch: seq<int>, draining: bool)

  /** The close protocol: the state lock's flag, the closing and done channels
      (true once closed) and the count of the producers wait group. */
  datatype Life = Life(
    closed: bool, closing: bool, done: bool, producers: int, closer: CloserPc, sinksClosed: bool)

  /** The dropped counter, and as history the calls that dropped their event, the
      calls that ran the sinks themselves and the values the worker handed on. */
  datatype Log = Log(dropped: int, droppedCalls: seq<CallId>, synced: seq<CallId>, flushed: seq<int>)

  datatype State = State(
    ring: Ring, readable: bool, writable: bool, calls: map<CallId, Call>,
    worker: Worker, life: Life, log: Log)

  function Init(cfg: Config): State {
    State(Ring(-1, -1, seq(cfg.capacity, i => Slot(NO_EVENT, i - cfg.capacity)), [], []),
          false, false, map[],
          Worker(PopStart, [], false),
          Life(false, false, false, 0, NotClosing, false),
          Log(0, [], [], []))
  }

  datatype Action =
    | StartAppend(c: CallId, debug: bool)
    | RefuseContext(c: CallId)
    | Advance(c: CallId)
    | TakeWritable(c: CallId)
    | Interrupt(c: CallId)
    | CancelWait(c: CallId)
    | PollWritable(c: CallId)
    | FinishSync(c: CallId, ok: bool)
    | AdvanceWorker
    | TakeReadable
    | InterruptWorker
    | PollReadable
    | StartClose
    | AdvanceCloser

  predicate HasSlot(cfg: Config, r: Ring, q: int) {
    q >= 0 && cfg.capacity > 0 && SlotIndex(cfg.capacity, q) < |r.slots|
  }

  function SlotOf(cfg: Config, r: Ring, q: int): Slot
    requires HasSlot(cfg, r, q)
  {
    r.slots[SlotIndex(cfg.capacity, q)]
  }

  function PutSlot(cfg: Config, r: Ring, q: int, slot: Slot): Ring
    requires HasSlot(cfg, r, q)
  {
    r.(slots := r.slots[SlotIndex(cfg.capacity, q) := slot])
  }

  // ----- Append: beginAppend, TryPublish, the overflow strategies, WaitWritable

  function Claim(r: Ring, c: CallId): Ring {
    r.(cursor := r.cursor + 1, claims := r.claims + [c])
  }

  function WriteValue(cfg: Config, r: Ring, q: int, c: CallId): Ring
    requires HasSlot(cfg, r, q)
  {
    PutSlot(cfg, r, q, SlotOf(cfg, r, q).(value := c))
  }

  function StampSlot(cfg: Config, r: Ring, q: int): Ring
    requires HasSlot(cfg, r, q)
  {
    PutSlot(cfg, r, q, SlotOf(cfg, r, q).(published := q))
  }

  /** A failed TryPublish drops the event here. */
  predicate DropsNow(cfg: Config, call: Call) {
    call.pc.Refused? && !call.blocking && (cfg.strategy.Drop? || (cfg.strategy.DropDebug? && call.debug))
  }

  predicate CanAdvance(cfg: Config, s: State, call: Call) {
    match call.pc
    case Writing(q) => HasSlot(cfg, s.ring, q)
    case Stamping(q) => HasSlot(cfg, s.ring, q)
    case Parked => false
    case Syncing => false
    case Returned(_) => false
    case _ => true
  }

  /** The call after its own next step. */
  function NextCall(cfg: Config, s: State, call: Call): Call {
    match call.pc
    case Entered =>
      if s.life.closed then call.(pc := Returned(Rejected))
      else if cfg.strategy.Block? then call.(pc := LoadingCursor, blocking := true)
      else call.(pc := Selecting)
    case Selecting => call.(pc := if s.life.closing then Leaving(Rejected) else LoadingCursor)
    case LoadingCursor => call.(pc := LoadingGating(s.ring.cursor))
    case LoadingGating(current) =>
      var full := current + 1 - cfg.capacity > s.ring.gating;
      call.(pc := if full then Refused else Swapping(current))
    case Swapping(current) =>
      call.(pc := if s.ring.cursor == current then Writing(current + 1) else LoadingCursor)
    case Writing(q) => call.(pc := Stamping(q))
    case Stamping(_) => call.(pc := Signalling)
    case Signalling => call.(pc := Leaving(Queued))
    case Refused =>
      if call.blocking then call.(pc := CheckingCursor)
      else if cfg.strategy.SyncFallback? then call.(pc := Syncing)
      else if DropsNow(cfg, call) then call.(pc := Leaving(Dropped))
      else call.(pc := LoadingCursor, blocking := true)
    case CheckingCursor => call.(pc := CheckingGating(s.ring.cursor))
    case CheckingGating(current) =>
      call.(pc := if current + 1 - cfg.capacity <= s.ring.gating then LoadingCursor else Parked)
    case Leaving(outcome) => call.(pc := Returned(outcome))
    case _ => call
  }

  function NextRing(cfg: Config, r: Ring, c: CallId, pc: Pc): Ring {
    match pc
    case Swapping(current) => if r.cursor == current then Claim(r, c) else r
    case Writing(q) => if HasSlot(cfg, r, q) then WriteValue(cfg, r, q, c) else r
    case Stamping(q) => if HasSlot(cfg, r, q) then StampSlot(cfg, r, q) else r
    case _ => r
  }

  function NextProducers(life: Life, pc: Pc): Life {
    if pc.Entered? && !life.closed then life.(producers := life.producers + 1)
    else if pc.Leaving? then life.(producers := life.producers - 1)
    else life
  }

  function StepCall(cfg: Config, s: State, c: CallId, call: Call): State {
    s.(ring := NextRing(cfg, s.ring, c, call.pc),
       readable := s.readable || call.pc.Signalling?,
       calls := s.calls[c := NextCall(cfg, s, call)],
       life := NextProducers(s.life, call.pc),
       log := if DropsNow(cfg, call)
              then s.log.(dropped := s.log.dropped + 1, droppedCalls := s.log.droppedCalls + [c])
              else s.log)
  }

  /** Steps of a call parked in WaitWritable, the end of its own sink calls, and
      the refusal of an already cancelled context. */
  predicate BlockedEnabled(cfg: Config, s: State, call: Call, a: Action) {
    match a
    case TakeWritable(_) => call.pc.Parked? && s.writable
    case Interrupt(_) => call.pc.Parked? && s.life.closing
    case CancelWait(_) => call.pc.Parked?
    case PollWritable(_) => call.pc.Parked? && cfg.polling
    case FinishSync(_, _) => call.pc.Syncing?
    case RefuseContext(_) => call.pc.Entered?
    case _ => false
  }

  function BlockedPc(a: Action): Pc {
    match a
    case TakeWritable(_) => CheckingCursor
    case PollWritable(_) => CheckingCursor
    case FinishSync(_, ok) => Leaving(Synced(ok))
    case RefuseContext(_) => Returned(Rejected)
    case _ => Leaving(Rejected)
  }

  function StepBlocked(s: State, c: CallId, call: Call, a: Action): State {
    s.(writable := s.writable && !a.TakeWritable?,
       calls := s.calls[c := call.(pc := BlockedPc(a))],
       log := if a.FinishSync? then s.log.(synced := s.log.synced + [c]) else s.log)
  }

  // ----- The worker: run, drain, PopBatch, WaitReadable, flushBatch

  function TakeValue(cfg: Config, r: Ring, q: int): Ring
    requires HasSlot(cfg, r, q)
  {
    r.(taken := r.taken + [SlotOf(cfg, r, q).value])
  }

  function ZeroSlot(cfg: Config, r: Ring, q: int): Ring
    requires HasSlot(cfg, r, q)
  {
    PutSlot(cfg, r, q, SlotOf(cfg, r, q).(value := NO_EVENT))
  }

  function ReleaseSlot(cfg: Config, r: Ring, q: int): Ring
    requires HasSlot(cfg, r, q)
  {
    PutSlot(cfg, r, q, SlotOf(cfg, r, q).(published := q - cfg.capacity))
  }

  predicate WorkerCanAdvance(cfg: Config, s: State) {
    match s.worker.pc
    case PopLoad(_, next) => HasSlot(cfg, s.ring, next)
    case PopTake(_, next) => HasSlot(cfg, s.ring, next)
    case PopZero(_, next) => HasSlot(cfg, s.ring, next)
    case PopStamp(_, next) => HasSlot(cfg, s.ring, next)
    case CheckStamp(next) => HasSlot(cfg, s.ring, next)
    case Waiting => false
    case Exited => false
    case _ => true
  }

  function NextWorkerPc(cfg: Config, w: Worker, r: Ring): WorkerPc {
    match w.pc
    case PopStart => PopLoad(r.gating + 1, r.gating + 1)
    case PopLoad(start, next) =>
      if |w.batch| < cfg.batchSize && HasSlot(cfg, r, next) && SlotOf(cfg, r, next).published == next
      then PopTake(start, next)
      else if next != start then PopGate(start, next)
      // PopBatch returned false: the drain ends, or the worker goes to wait.
      else if w.draining then Flushing(0, true)
      else CheckGating
    case PopTake(start, next) => PopZero(start, next)
    case PopZero(start, next) => PopStamp(start, next)
    case PopStamp(start, next) => PopLoad(start, next + 1)
    case PopGate(_, _) => PopSignal
    case PopSignal =>
      // PopBatch returned true.
      if w.draining && |w.batch| < cfg.batchSize then PopStart else Flushing(0, false)
    case Flushing(index, last) =>
      if index < |w.batch| then Flushing(index + 1, last) else if last then Exited else PopStart
    case CheckGating => CheckStamp(r.gating + 1)
    case CheckStamp(next) =>
      if HasSlot(cfg, r, next) && SlotOf(cfg, r, next).published == next then PopStart else Waiting
    case Waiting => Waiting
    case Exited => Exited
  }

  function WorkerRing(cfg: Config, r: Ring, pc: WorkerPc): Ring {
    match pc
    case PopTake(_, next) => if HasSlot(cfg, r, next) then TakeValue(cfg, r, next) else r
    case PopZero(_, next) => if HasSlot(cfg, r, next) then ZeroSlot(cfg, r, next) else r
    case PopStamp(_, next) => if HasSlot(cfg, r, next) then ReleaseSlot(cfg, r, next) else r
    case PopGate(_, next) => r.(gating := next - 1)
    case _ => r
  }

  function NextBatch(cfg: Config, w: Worker, r: Ring): seq<int> {
    match w.pc
    case PopTake(_, next) => if HasSlot(cfg, r, next) then w.batch + [SlotOf(cfg, r, next).value] else w.batch
    case Flushing(index, _) => if index < |w.batch| then w.batch else []
    case _ => w.batch
  }

  function StepWorker(cfg: Config, s: State): State {
    var w := s.worker;
    s.(ring := WorkerRing(cfg, s.ring, w.pc),
       writable := s.writable || w.pc.PopSignal?,
       worker := w.(pc := NextWorkerPc(cfg, w, s.ring), batch := NextBatch(cfg, w, s.ring)),
       log := if w.pc.Flushing? && w.pc.index < |w.batch|
              then s.log.(flushed := s.log.flushed + [w.batch[w.pc.index]])
              else s.log)
  }

  /** Steps of a worker parked in WaitReadable. */
  predicate WakeEnabled(cfg: Config, s: State, a: Action) {
    && s.worker.pc.Waiting?
    && ((a.TakeReadable? && s.readable) || (a.InterruptWorker? && s.life.done) || (a.PollReadable? && cfg.polling))
  }

  function WakeWorker(s: State, a: Action): State {
    if a.InterruptWorker? then s.(worker := s.worker.(pc := PopStart, draining := true))
    else s.(readable := s.readable && !a.TakeReadable?, worker := s.worker.(pc := CheckGating))
  }

  // ----- The first Close; every later Close returns nil without effect

  predicate CloserCanAdvance(s: State) {
    match s.life.closer
    case NotClosing => false
    case AwaitingProducers => s.life.producers == 0
    case Joining => s.worker.pc.Exited?
    case Closed => false
    case _ => true
  }

  function NextLife(cfg: Config, life: Life): Life {
    match life.closer
    case NotClosing => life.(closed := true, closer := Marked)
    case Marked => life.(closing := true, closer := AwaitingProducers)
    case AwaitingProducers => life.(closer := Stopping)
    case Stopping => life.(done := true, closer := Joining)
    case Joining => life.(closer := if cfg.closeSinks then ClosingSinks else Closed)
    case ClosingSinks => life.(sinksClosed := true, closer := Closed)
    case Closed => life
  }

  predicate Enabled(cfg: Config, s: State, a: Action) {
    match a
    case StartAppend(c, _) => c !in s.calls
    case Advance(c) => c in s.calls && CanAdvance(cfg, s, s.calls[c])
    case AdvanceWorker => WorkerCanAdvance(cfg, s)
    case TakeReadable => WakeEnabled(cfg, s, a)
    case InterruptWorker => WakeEnabled(cfg, s, a)
    case PollReadable => WakeEnabled(cfg, s, a)
    case StartClose => s.life.closer.NotClosing?
    case AdvanceCloser => CloserCanAdvance(s)
    case _ => a.c in s.calls && BlockedEnabled(cfg, s, s.calls[a.c], a)
  }

  function Step(cfg: Config, s: State, a: Action): State
    requires Enabled(cfg, s, a)
  {
    match a
    case StartAppend(c, debug) => s.(calls := s.calls[c := Call(Entered, debug, false)])
    case Advance(c) => StepCall(cfg, s, c, s.calls[c])
    case AdvanceWorker => StepWorker(cfg, s)
    case TakeReadable => WakeWorker(s, a)
    case InterruptWorker => WakeWorker(s, a)
    case PollReadable => WakeWorker(s, a)
    case StartClose => s.(life := NextLife(cfg, s.life))
    case AdvanceCloser => s.(life := NextLife(cfg, s.life))
    case _ => StepBlocked(s, a.c, s.calls[a.c], a)
  }

  /** A run: states[0] is initial and action i leads from state i to state i+1. */
  ghost predicate IsRun(cfg: Config, states: seq<State>, actions: seq<Action>) {
    && |states| == |actions| + 1
    && states[0] == Init(cfg)
    && forall i {:trigger actions[i]} :: 0 <= i < |actions| ==>
         Enabled(cfg, states[i], actions[i]) && states[i + 1] == Step(cfg, states[i], actions[i])
  }
}
