// The ring protocol under every interleaving: what each step keeps.
module AsyncRing {
  import opened Capacity
  import opened AsyncPipeline

  /** Every sequence below this one has been read and its slot stamped free. */
  function Released(r: Ring, w: WorkerPc): int {
    match w
    case PopLoad(_, next) => next
    case PopTake(_, next) => next
    case PopZero(_, next) => next
    case PopStamp(_, next) => next
    case PopGate(_, next) => next
    case _ => r.gating + 1
  }

  /** Number of sequences whose value the worker has read. */
  function ReadCount(r: Ring, w: WorkerPc): int {
    if w.PopZero? || w.PopStamp? then Released(r, w) + 1 else Released(r, w)
  }

  predicate AfterClaim(pc: Pc) {
    pc.Writing? || pc.Stamping? || pc.Signalling? || pc == Leaving(Queued) || pc == Returned(Queued)
  }

  /** The claimant of a sequence has not yet stamped its slot. */
  predicate Unstamped(pc: Pc) {
    pc.Writing? || pc.Stamping?
  }

  /** What a slot is stamped with until sequence q is published in it. */
  function FreeStamp(cfg: Config, q: int): int {
    if q < cfg.capacity then q - cfg.capacity else q - 2 * cfg.capacity
  }

  /** slot is the slot of sequence q, which its claimant c has reached pc with. */
  predicate SlotAgrees(cfg: Config, slot: Slot, q: int, c: CallId, pc: Pc, zeroed: bool) {
    if Unstamped(pc)
    then pc.sequence == q && slot.published == FreeStamp(cfg, q) && (pc.Stamping? ==> slot.value == c)
    else slot.published == q && (slot.value == c || zeroed)
  }

  ghost predicate SlotOk(cfg: Config, r: Ring, w: WorkerPc, calls: map<CallId, Call>, q: int) {
    && HasSlot(cfg, r, q)
    && if q >= |r.claims| then SlotOf(cfg, r, q).published == FreeStamp(cfg, q)
       else
         && r.claims[q] in calls
         && SlotAgrees(cfg, SlotOf(cfg, r, q), q, r.claims[q], calls[r.claims[q]].pc, w.PopStamp? && w.next == q)
  }

  predicate CallOk(cfg: Config, r: Ring, released: int, c: CallId, pc: Pc) {
    && (pc.LoadingGating? || pc.CheckingGating? || pc.Swapping? ==> pc.current <= r.cursor)
    && (pc.Swapping? ==> pc.current + 1 - cfg.capacity <= r.gating)
    && (Unstamped(pc) ==> 0 <= released <= pc.sequence < |r.claims| && r.claims[pc.sequence] == c)
  }

  ghost predicate CallsOk(cfg: Config, r: Ring, released: int, calls: map<CallId, Call>) {
    forall c :: c in calls ==> CallOk(cfg, r, released, c, calls[c].pc)
  }

  predicate Published(cfg: Config, r: Ring, q: int) {
    HasSlot(cfg, r, q) && SlotOf(cfg, r, q).published == q
  }

  predicate WorkerOk(cfg: Config, r: Ring, w: WorkerPc) {
    match w
    case PopLoad(start, next) => start == r.gating + 1 && start <= next <= r.cursor + 1
    case PopTake(start, next) => start == r.gating + 1 && start <= next <= r.cursor && Published(cfg, r, next)
    case PopZero(start, next) => start == r.gating + 1 && start <= next <= r.cursor && Published(cfg, r, next)
    case PopStamp(start, next) => start == r.gating + 1 && start <= next <= r.cursor && Published(cfg, r, next)
    case PopGate(start, next) => start == r.gating + 1 && start < next <= r.cursor + 1
    case CheckStamp(next) => next == r.gating + 1
    case _ => true
  }

  ghost predicate ClaimsOk(claims: seq<CallId>, calls: map<CallId, Call>) {
    && (forall i :: 0 <= i < |claims| ==> claims[i] in calls && AfterClaim(calls[claims[i]].pc))
    && (forall c :: c in calls && AfterClaim(calls[c].pc) ==> c in claims)
    && (forall i, j :: 0 <= i < j < |claims| ==> claims[i] != claims[j])
  }

  /** The values read so far are the claimants of the first sequences, in order. */
  ghost predicate ReadInClaimOrder(r: Ring) {
    && |r.taken| <= |r.claims|
    && forall i :: 0 <= i < |r.taken| ==> r.taken[i] == r.claims[i]
  }

  ghost predicate WindowOk(cfg: Config, r: Ring, w: WorkerPc, calls: map<CallId, Call>) {
    forall q :: Released(r, w) <= q < Released(r, w) + cfg.capacity ==> SlotOk(cfg, r, w, calls, q)
  }

  ghost predicate CountersOk(cfg: Config, r: Ring, w: WorkerPc) {
    && |r.slots| == cfg.capacity
    && |r.claims| == r.cursor + 1
    && -1 <= r.gating <= r.cursor <= r.gating + cfg.capacity
    && WorkerOk(cfg, r, w)
    && |r.taken| == ReadCount(r, w)
  }

  ghost predicate RingInv(cfg: Config, r: Ring, w: WorkerPc, calls: map<CallId, Call>) {
    && CountersOk(cfg, r, w)
    && ReadInClaimOrder(r)
    && WindowOk(cfg, r, w, calls)
    && ClaimsOk(r.claims, calls)
    && CallsOk(cfg, r, Released(r, w), calls)
  }

  lemma InitRing(cfg: Config)
    requires ValidConfig(cfg)
    ensures var s := Init(cfg); RingInv(cfg, s.ring, s.worker.pc, s.calls)
  {
    var s := Init(cfg);
    forall q | 0 <= q < cfg.capacity ensures SlotOk(cfg, s.ring, s.worker.pc, s.calls, q) {
      SmallSequenceIsItsSlot(cfg.capacity, q);
      assert s.ring.slots[q] == Slot(NO_EVENT, q - cfg.capacity);
    }
  }

  lemma SmallSequenceIsItsSlot(capacity: nat, q: nat)
    requires IsPowerOfTwo(capacity) && q < capacity
    ensures SlotIndex(capacity, q) == q
  {
    var k: nat :| capacity == Pow2(k);
    MaskIsModulo(q, k);
    DivisionUnique(q, capacity, 0, q);
  }

  /** The slots of the other sequences in a window are not the slot of p. */
  lemma OtherSlots(cfg: Config, from: nat, p: nat)
    requires ValidConfig(cfg) && from <= p < from + cfg.capacity
    ensures SlotIndex(cfg.capacity, p) < cfg.capacity
    ensures forall q :: from <= q < from + cfg.capacity && q != p ==>
                          SlotIndex(cfg.capacity, q) < cfg.capacity
                              && SlotIndex(cfg.capacity, q) != SlotIndex(cfg.capacity, p)
  {
    SlotsWithinALap(cfg.capacity, p, p);
    forall q | from <= q < from + cfg.capacity && q != p
      ensures SlotIndex(cfg.capacity, q) < cfg.capacity && SlotIndex(cfg.capacity, q) != SlotIndex(cfg.capacity, p)
    {
      SlotsWithinALap(cfg.capacity, q, p);
      SlotsWithinALap(cfg.capacity, p, q);
    }
  }

  /** A call that moves without touching the ring. */
  lemma CallMoves(cfg: Config, r: Ring, w: WorkerPc, calls: map<CallId, Call>, c: CallId, call: Call)
    requires RingInv(cfg, r, w, calls)
    requires c in calls ==> AfterClaim(calls[c].pc) == AfterClaim(call.pc) && !Unstamped(calls[c].pc)
    requires c !in calls ==> !AfterClaim(call.pc)
    requires !Unstamped(call.pc) && CallOk(cfg, r, Released(r, w), c, call.pc)
    ensures RingInv(cfg, r, w, calls[c := call])
  {
    var calls' := calls[c := call];
    forall q | Released(r, w) <= q < Released(r, w) + cfg.capacity ensures SlotOk(cfg, r, w, calls', q) {
      assert SlotOk(cfg, r, w, calls, q);
    }
  }

  lemma ClaimKeepsClaims(claims: seq<CallId>, calls: map<CallId, Call>, c: CallId, call: Call)
    requires ClaimsOk(claims, calls) && c in calls && !AfterClaim(calls[c].pc) && AfterClaim(call.pc)
    ensures c !in claims
    ensures ClaimsOk(claims + [c], calls[c := call])
  {
    var claims', calls' := claims + [c], calls[c := call];
    assert claims'[|claims|] == c;
    forall d | d in calls' && AfterClaim(calls'[d].pc) ensures d in claims' {
      assert d == c || d in claims;
    }
  }

  lemma ClaimKeepsWindow(cfg: Config, r: Ring, w: WorkerPc, calls: map<CallId, Call>, c: CallId, call: Call)
    requires ValidConfig(cfg) && RingInv(cfg, r, w, calls) && c in calls && c !in r.claims
    requires call.pc == Writing(r.cursor + 1)
    ensures WindowOk(cfg, Claim(r, c), w, calls[c := call])
  {
    var r', calls' := Claim(r, c), calls[c := call];
    forall q | Released(r, w) <= q < Released(r, w) + cfg.capacity ensures SlotOk(cfg, r', w, calls', q) {
      assert SlotOk(cfg, r, w, calls, q);
    }
  }

  lemma ClaimKeepsRing(cfg: Config, r: Ring, w: WorkerPc, calls: map<CallId, Call>, c: CallId, call: Call)
    requires ValidConfig(cfg) && RingInv(cfg, r, w, calls) && c in calls
    requires calls[c].pc == Swapping(r.cursor) && call.pc == Writing(r.cursor + 1)
    ensures RingInv(cfg, Claim(r, c), w, calls[c := call])
  {
    hide WindowOk, ClaimsOk, SlotIndex;
    var r', calls' := Claim(r, c), calls[c := call];
    ClaimKeepsClaims(r.claims, calls, c, call);
    ClaimKeepsWindow(cfg, r, w, calls, c, call);
    assert CallOk(cfg, r, Released(r, w), c, calls[c].pc);
    forall d | d in calls' ensures CallOk(cfg, r', Released(r, w), d, calls'[d].pc) {
      assert CallOk(cfg, r, Released(r, w), d, calls[d].pc);
    }
  }

  /** What an unstamped call may put into the slot of its sequence q. */
  ghost predicate Fills(cfg: Config, calls: map<CallId, Call>, c: CallId, call: Call, q: int, slot: Slot) {
    && c in calls && Unstamped(calls[c].pc) && q == calls[c].pc.sequence
    && (Unstamped(call.pc) ==> call.pc.sequence == q)
    && AfterClaim(call.pc) && SlotAgrees(cfg, slot, q, c, call.pc, false)
  }

  /** Replacing the slot of the unstamped sequence q disturbs no other sequence. */
  lemma FillKeepsWindow(
    cfg: Config, r: Ring, w: WorkerPc, calls: map<CallId, Call>, c: CallId, call: Call, q: int, slot: Slot)
    requires ValidConfig(cfg) && RingInv(cfg, r, w, calls) && Fills(cfg, calls, c, call, q, slot)
    ensures HasSlot(cfg, r, q)
    ensures WindowOk(cfg, PutSlot(cfg, r, q, slot), w, calls[c := call])
  {
    var from := Released(r, w);
    assert CallOk(cfg, r, from, c, calls[c].pc);
    OtherSlots(cfg, from, q);
    var r', calls' := PutSlot(cfg, r, q, slot), calls[c := call];
    forall p | from <= p < from + cfg.capacity ensures SlotOk(cfg, r', w, calls', p) {
      assert SlotOk(cfg, r, w, calls, p);
    }
  }

  /** A call that was and stays past its claim keeps the claims in order. */
  lemma MoveKeepsClaims(claims: seq<CallId>, calls: map<CallId, Call>, c: CallId, call: Call)
    requires ClaimsOk(claims, calls) && c in calls && AfterClaim(calls[c].pc) && AfterClaim(call.pc)
    ensures ClaimsOk(claims, calls[c := call])
  {
  }

  lemma FillKeepsRing(
    cfg: Config, r: Ring, w: WorkerPc, calls: map<CallId, Call>, c: CallId, call: Call, q: int, slot: Slot)
    requires ValidConfig(cfg) && RingInv(cfg, r, w, calls) && Fills(cfg, calls, c, call, q, slot)
    ensures HasSlot(cfg, r, q)
    ensures RingInv(cfg, PutSlot(cfg, r, q, slot), w, calls[c := call])
  {
    hide WindowOk, ClaimsOk, SlotIndex;
    FillKeepsWindow(cfg, r, w, calls, c, call, q, slot);
    UnstampedIsNotTheWorkers(cfg, r, w, calls, c);
    var r', calls' := PutSlot(cfg, r, q, slot), calls[c := call];
    assert CallsOk(cfg, r', Released(r, w), calls') by {
      forall d | d in calls' ensures CallOk(cfg, r', Released(r, w), d, calls'[d].pc) {
        assert CallOk(cfg, r, Released(r, w), d, calls[d].pc);
      }
    }
    MoveKeepsClaims(r.claims, calls, c, call);
  }

  lemma UnstampedIsNotTheWorkers(cfg: Config, r: Ring, w: WorkerPc, calls: map<CallId, Call>, c: CallId)
    requires ValidConfig(cfg) && RingInv(cfg, r, w, calls) && c in calls && Unstamped(calls[c].pc)
    ensures w.PopTake? || w.PopZero? || w.PopStamp? ==>
              && w.next != calls[c].pc.sequence
              && SlotIndex(cfg.capacity, w.next) != SlotIndex(cfg.capacity, calls[c].pc.sequence)
  {
    if w.PopTake? || w.PopZero? || w.PopStamp? {
      assert CallOk(cfg, r, Released(r, w), c, calls[c].pc);
      PublishedHoldsClaimant(cfg, r, w, calls, w.next);
      OtherSlots(cfg, w.next, w.next);
    }
  }

  lemma QuietCall(cfg: Config, s: State, c: CallId, call: Call)
    requires CanAdvance(cfg, s, call) && !Unstamped(call.pc) && call.pc != Swapping(s.ring.cursor)
    requires CallOk(cfg, s.ring, Released(s.ring, s.worker.pc), c, call.pc)
    ensures var pc := NextCall(cfg, s, call).pc;
            && AfterClaim(pc) == AfterClaim(call.pc) && !Unstamped(pc)
            && CallOk(cfg, s.ring, Released(s.ring, s.worker.pc), c, pc)
    ensures NextRing(cfg, s.ring, c, call.pc) == s.ring
  {
  }

  lemma CallKeepsRing(cfg: Config, s: State, c: CallId)
    requires ValidConfig(cfg) && RingInv(cfg, s.ring, s.worker.pc, s.calls)
    requires c in s.calls && CanAdvance(cfg, s, s.calls[c])
    ensures var t := StepCall(cfg, s, c, s.calls[c]); RingInv(cfg, t.ring, t.worker.pc, t.calls)
  {
    var call := s.calls[c];
    assert CallOk(cfg, s.ring, Released(s.ring, s.worker.pc), c, call.pc);
    if Unstamped(call.pc) {
      var q := call.pc.sequence;
      assert SlotOk(cfg, s.ring, s.worker.pc, s.calls, q);
      var slot := SlotOf(cfg, s.ring, q);
      FillKeepsRing(cfg, s.ring, s.worker.pc, s.calls, c, NextCall(cfg, s, call), q,
                    if call.pc.Writing? then slot.(value := c) else slot.(published := q));
    } else if call.pc == Swapping(s.ring.cursor) {
      ClaimKeepsRing(cfg, s.ring, s.worker.pc, s.calls, c, NextCall(cfg, s, call));
    } else {
      QuietCall(cfg, s, c, call);
      CallMoves(cfg, s.ring, s.worker.pc, s.calls, c, NextCall(cfg, s, call));
    }
  }

  /** The worker moves without touching a slot. */
  lemma WorkerMoves(cfg: Config, r: Ring, w: WorkerPc, calls: map<CallId, Call>, gating: int, w': WorkerPc)
    requires RingInv(cfg, r, w, calls) && r.gating <= gating <= r.cursor
    requires var r' := r.(gating := gating);
             && Released(r', w') == Released(r, w) && ReadCount(r', w') == ReadCount(r, w) && WorkerOk(cfg, r', w')
    requires !w.PopStamp?
    ensures RingInv(cfg, r.(gating := gating), w', calls)
  {
    var r' := r.(gating := gating);
    forall q | Released(r, w) <= q < Released(r, w) + cfg.capacity ensures SlotOk(cfg, r', w', calls, q) {
      assert SlotOk(cfg, r, w, calls, q);
    }
    forall c | c in calls ensures CallOk(cfg, r', Released(r', w'), c, calls[c].pc) {
      assert CallOk(cfg, r, Released(r, w), c, calls[c].pc);
    }
  }

  /** A published sequence's slot holds the call that claimed it. */
  lemma PublishedHoldsClaimant(cfg: Config, r: Ring, w: WorkerPc, calls: map<CallId, Call>, q: int)
    requires ValidConfig(cfg) && RingInv(cfg, r, w, calls) && Published(cfg, r, q)
    requires Released(r, w) <= q < Released(r, w) + cfg.capacity
    ensures q <= r.cursor && r.claims[q] in calls
    ensures AfterClaim(calls[r.claims[q]].pc) && !Unstamped(calls[r.claims[q]].pc)
    ensures !w.PopStamp? ==> SlotOf(cfg, r, q).value == r.claims[q]
  {
    assert SlotOk(cfg, r, w, calls, q);
    assert FreeStamp(cfg, q) != q;
  }

  lemma TakeKeepsRing(cfg: Config, r: Ring, w: WorkerPc, calls: map<CallId, Call>)
    requires ValidConfig(cfg) && RingInv(cfg, r, w, calls) && w.PopTake?
    ensures RingInv(cfg, WorkerRing(cfg, r, w), PopZero(w.start, w.next), calls)
  {
    hide ClaimsOk, SlotIndex;
    PublishedHoldsClaimant(cfg, r, w, calls, w.next);
    var r', w' := TakeValue(cfg, r, w.next), PopZero(w.start, w.next);
    forall p | Released(r, w) <= p < Released(r, w) + cfg.capacity ensures SlotOk(cfg, r', w', calls, p) {
      assert SlotOk(cfg, r, w, calls, p);
    }
    forall c | c in calls ensures CallOk(cfg, r', Released(r', w'), c, calls[c].pc) {
      assert CallOk(cfg, r, Released(r, w), c, calls[c].pc);
    }
  }

  lemma ZeroKeepsRing(cfg: Config, r: Ring, w: WorkerPc, calls: map<CallId, Call>)
    requires ValidConfig(cfg) && RingInv(cfg, r, w, calls) && w.PopZero?
    ensures RingInv(cfg, WorkerRing(cfg, r, w), PopStamp(w.start, w.next), calls)
  {
    PublishedHoldsClaimant(cfg, r, w, calls, w.next);
    OtherSlots(cfg, Released(r, w), w.next);
    assert SlotOk(cfg, r, w, calls, w.next);
    var r', w' := ZeroSlot(cfg, r, w.next), PopStamp(w.start, w.next);
    forall p | Released(r, w) <= p < Released(r, w) + cfg.capacity ensures SlotOk(cfg, r', w', calls, p) {
      assert SlotOk(cfg, r, w, calls, p);
    }
    forall c | c in calls ensures CallOk(cfg, r', Released(r', w'), c, calls[c].pc) {
      assert CallOk(cfg, r, Released(r, w), c, calls[c].pc);
    }
  }

  lemma ReleaseKeepsWindow(cfg: Config, r: Ring, w: WorkerPc, calls: map<CallId, Call>)
    requires ValidConfig(cfg) && RingInv(cfg, r, w, calls) && w.PopStamp?
    ensures WindowOk(cfg, WorkerRing(cfg, r, w), PopLoad(w.start, w.next + 1), calls)
  {
    var q := w.next;
    OtherSlots(cfg, q, q);
    SlotsWithinALap(cfg.capacity, q, q + cfg.capacity);
    var r', w' := ReleaseSlot(cfg, r, q), PopLoad(w.start, q + 1);
    forall p | q + 1 <= p < q + 1 + cfg.capacity ensures SlotOk(cfg, r', w', calls, p) {
      if p < q + cfg.capacity {
        assert SlotOk(cfg, r, w, calls, p);
      }
    }
  }

  lemma ReleaseKeepsRing(cfg: Config, r: Ring, w: WorkerPc, calls: map<CallId, Call>)
    requires ValidConfig(cfg) && RingInv(cfg, r, w, calls) && w.PopStamp?
    ensures RingInv(cfg, WorkerRing(cfg, r, w), PopLoad(w.start, w.next + 1), calls)
  {
    ReleaseKeepsWindow(cfg, r, w, calls);
    PublishedHoldsClaimant(cfg, r, w, calls, w.next);
    var r', w' := WorkerRing(cfg, r, w), PopLoad(w.start, w.next + 1);
    forall c | c in calls ensures CallOk(cfg, r', Released(r', w'), c, calls[c].pc) {
      assert CallOk(cfg, r, Released(r, w), c, calls[c].pc);
    }
  }

  lemma QuietWorker(cfg: Config, s: State)
    requires ValidConfig(cfg) && RingInv(cfg, s.ring, s.worker.pc, s.calls) && WorkerCanAdvance(cfg, s)
    requires !s.worker.pc.PopTake? && !s.worker.pc.PopZero? && !s.worker.pc.PopStamp?
    ensures var r', w' := WorkerRing(cfg, s.ring, s.worker.pc), NextWorkerPc(cfg, s.worker, s.ring);
            && r' == s.ring.(gating := r'.gating) && s.ring.gating <= r'.gating <= s.ring.cursor
            && Released(r', w') == Released(s.ring, s.worker.pc) && ReadCount(r', w') == ReadCount(s.ring, s.worker.pc)
            && WorkerOk(cfg, r', w')
  {
    var w' := NextWorkerPc(cfg, s.worker, s.ring);
    if s.worker.pc.PopLoad? && w'.PopTake? {
      PublishedHoldsClaimant(cfg, s.ring, s.worker.pc, s.calls, s.worker.pc.next);
    }
  }

  lemma WorkerKeepsRing(cfg: Config, s: State)
    requires ValidConfig(cfg) && RingInv(cfg, s.ring, s.worker.pc, s.calls) && WorkerCanAdvance(cfg, s)
    ensures var t := StepWorker(cfg, s); RingInv(cfg, t.ring, t.worker.pc, t.calls)
  {
    var r, w := s.ring, s.worker.pc;
    if w.PopTake? {
      TakeKeepsRing(cfg, r, w, s.calls);
    } else if w.PopZero? {
      ZeroKeepsRing(cfg, r, w, s.calls);
    } else if w.PopStamp? {
      ReleaseKeepsRing(cfg, r, w, s.calls);
    } else {
      QuietWorker(cfg, s);
      WorkerMoves(cfg, r, w, s.calls, WorkerRing(cfg, r, w).gating, NextWorkerPc(cfg, s.worker, r));
    }
  }

  lemma StepKeepsRing(cfg: Config, s: State, a: Action)
    requires ValidConfig(cfg) && RingInv(cfg, s.ring, s.worker.pc, s.calls) && Enabled(cfg, s, a)
    ensures var t := Step(cfg, s, a); RingInv(cfg, t.ring, t.worker.pc, t.calls)
  {
    hide WindowOk, ClaimsOk, CallsOk, ReadInClaimOrder;
    match a
    case StartAppend(c, debug) =>
      CallMoves(cfg, s.ring, s.worker.pc, s.calls, c, Call(Entered, debug, false));
    case Advance(c) => CallKeepsRing(cfg, s, c);
    case AdvanceWorker => WorkerKeepsRing(cfg, s);
    case TakeReadable => WorkerMoves(cfg, s.ring, s.worker.pc, s.calls, s.ring.gating, CheckGating);
    case InterruptWorker => WorkerMoves(cfg, s.ring, s.worker.pc, s.calls, s.ring.gating, PopStart);
    case PollReadable => WorkerMoves(cfg, s.ring, s.worker.pc, s.calls, s.ring.gating, CheckGating);
    case StartClose =>
    case AdvanceCloser =>
    case _ =>
      CallMoves(cfg, s.ring, s.worker.pc, s.calls, a.c, s.calls[a.c].(pc := BlockedPc(a)));
  }
}
