// Min index mode: archives sit in slots 1..max, and once all are taken each moves up by
// one and the last is lost.
module RollingSlots {
  import opened RollingFiles

  /** The paths of the slots at one moment. */
  type Slots = int -> string

  ghost predicate Distinct(name: Slots, max: int) {
    forall i, j :: 1 <= i < j <= max ==> name(i) != name(j)
  }

  ghost predicate AllTaken(files: Files, name: Slots, max: int) {
    forall i :: 1 <= i <= max ==> name(i) in files
  }

  /** The files after the loop has gone from slot max down to slot k. */
  function Rotated(files: Files, name: Slots, k: int, max: int): Files
    requires 1 <= k
    decreases max - k
  {
    if k > max then files
    else if k == max then Removed(files, name(max))
    else Renamed(Rotated(files, name, k + 1, max), name(k), name(k + 1))
  }

  function RotatedHistory(files: Files, history: seq<Archive>, name: Slots, k: int, max: int): (r: seq<Archive>)
    requires 1 <= k
    ensures |r| == |history|
    decreases max - k
  {
    if k > max then history
    else if k == max then Forget(history, name(max))
    else Moved(Rotated(files, name, k + 1, max), RotatedHistory(files, history, name, k + 1, max), name(k), name(k + 1))
  }

  ghost predicate IsSlot(name: Slots, max: int, path: string) {
    exists i :: 1 <= i <= max && name(i) == path
  }

  /** Half way: the slots above k hold what the slots below them held. */
  ghost predicate ShiftedAbove(files: Files, r: Files, name: Slots, k: int, max: int)
    requires 1 <= k && AllTaken(files, name, max)
  {
    && k <= max
    && name(k) !in r
    && (forall i :: 1 <= i < k ==> name(i) in r && r[name(i)] == files[name(i)])
    && (forall i :: k < i <= max ==> name(i) in r && r[name(i)] == files[name(i - 1)])
  }

  lemma {:induction false} RotationShiftsFrom(files: Files, name: Slots, k: int, max: int)
    requires 1 <= k <= max && Distinct(name, max) && AllTaken(files, name, max)
    ensures ShiftedAbove(files, Rotated(files, name, k, max), name, k, max)
    decreases max - k
  {
    if k < max {
      var r := Rotated(files, name, k + 1, max);
      RotationShiftsFrom(files, name, k + 1, max);
      assert name(k) in r && r[name(k)] == files[name(k)];
      var r' := Renamed(r, name(k), name(k + 1));
      assert r' == (r - {name(k)})[name(k + 1) := files[name(k)]];
      forall i | 1 <= i <= max && i != k && i != k + 1 ensures name(i) in r' && r'[name(i)] == r[name(i)] {
      }
    }
  }

  lemma {:induction false} OthersStay(files: Files, name: Slots, k: int, max: int, path: string)
    requires 1 <= k && !IsSlot(name, max, path)
    ensures path in Rotated(files, name, k, max) <==> path in files
    ensures path in files ==> Rotated(files, name, k, max)[path] == files[path]
    decreases max - k
  {
    if k <= max {
      assert name(k) != path;
      if k < max {
        assert name(k + 1) != path;
        OthersStay(files, name, k + 1, max, path);
      }
    }
  }

  /** rotateMinIndexArchives: what slot i held is in slot i + 1, slot 1 is free, and no
      file outside the slots has changed. Only what slot max held is gone. */
  lemma RotationShifts(files: Files, name: Slots, max: int)
    requires 1 <= max && Distinct(name, max) && AllTaken(files, name, max)
    ensures var r := Rotated(files, name, 1, max);
            && name(1) !in r
            && (forall i :: 1 < i <= max ==> name(i) in r && r[name(i)] == files[name(i - 1)])
            && (forall p :: !IsSlot(name, max, p) ==> (p in r <==> p in files) && (p in files ==> r[p] == files[p]))
  {
    RotationShiftsFrom(files, name, 1, max);
    forall p | !IsSlot(name, max, p)
      ensures var r := Rotated(files, name, 1, max);
              (p in r <==> p in files) && (p in files ==> r[p] == files[p])
    {
      OthersStay(files, name, 1, max, p);
    }
  }

  lemma {:induction false} RotationKeepsFaith(
    files: Files, history: seq<Archive>, active: string, footer: seq<Piece>, name: Slots, k: int, max: int)
    requires 1 <= k && Faithful(files, history, active, footer) && !IsSlot(name, max, active)
    ensures Faithful(Rotated(files, name, k, max), RotatedHistory(files, history, name, k, max), active, footer)
    ensures SameBodies(history, RotatedHistory(files, history, name, k, max))
    decreases max - k
  {
    if k <= max {
      assert name(k) != active;
      if k == max {
        RemoveKeepsFaith(files, history, active, footer, name(max));
      } else {
        assert name(k + 1) != active;
        RotationKeepsFaith(files, history, active, footer, name, k + 1, max);
        var r, h := Rotated(files, name, k + 1, max), RotatedHistory(files, history, name, k + 1, max);
        RenameKeepsFaith(r, h, active, footer, name(k), name(k + 1));
      }
    }
  }

  lemma StillThere(files: Files, name: Slots, k: int, max: int)
    requires 1 <= k < max && Distinct(name, max) && AllTaken(files, name, max)
    ensures name(k) in Rotated(files, name, k + 1, max) && name(k) != name(k + 1)
  {
    RotationShiftsFrom(files, name, k + 1, max);
  }

  lemma EntryMoves(files: Files, history: seq<Archive>, from: string, to: string, i: nat)
    requires i < |history| && from in files && from != to
    ensures var a, b := history[i], Moved(files, history, from, to)[i];
            && b.path == (if a.path == from then to else a.path)
            && (b.kept <==> a.kept && a.path != to)
  {
  }

  lemma {:induction false} SlotMoves(
    files: Files, history: seq<Archive>, name: Slots, k: int, max: int, i: nat, s: int)
    requires 1 <= k <= max && Distinct(name, max) && AllTaken(files, name, max)
    requires i < |history| && history[i].kept && 1 <= s <= max && history[i].path == name(s)
    ensures var a := RotatedHistory(files, history, name, k, max)[i];
            (a.kept <==> s < max) && a.path == name(if k <= s < max then s + 1 else s)
    decreases max - k
  {
    if k < max {
      SlotMoves(files, history, name, k + 1, max, i, s);
      StillThere(files, name, k, max);
      EntryMoves(
        Rotated(files, name, k + 1, max), RotatedHistory(files, history, name, k + 1, max), name(k), name(k + 1), i);
    }
  }

  lemma {:induction false} OutsideStays(
    files: Files, history: seq<Archive>, name: Slots, k: int, max: int, i: nat)
    requires 1 <= k && i < |history| && !IsSlot(name, max, history[i].path)
    ensures RotatedHistory(files, history, name, k, max)[i] == history[i]
    decreases max - k
  {
    if k <= max {
      assert name(k) != history[i].path;
      if k < max {
        assert name(k + 1) != history[i].path;
        OutsideStays(files, history, name, k + 1, max, i);
      }
    }
  }

  /** An archive is lost by the rotation exactly when it was in the last slot. */
  lemma OnlyTheLastIsLost(files: Files, history: seq<Archive>, name: Slots, max: int, i: nat)
    requires 1 <= max && Distinct(name, max) && AllTaken(files, name, max)
    requires i < |history| && history[i].kept
    ensures var a := RotatedHistory(files, history, name, 1, max)[i];
            a.kept <==> history[i].path != name(max)
  {
    if IsSlot(name, max, history[i].path) {
      var s :| 1 <= s <= max && name(s) == history[i].path;
      SlotMoves(files, history, name, 1, max, i, s);
    } else {
      OutsideStays(files, history, name, 1, max, i);
    }
  }

  lemma {:induction false} LostStaysLost(
    files: Files, history: seq<Archive>, name: Slots, k: int, max: int, i: nat)
    requires 1 <= k && i < |history| && !history[i].kept
    ensures !RotatedHistory(files, history, name, k, max)[i].kept
    decreases max - k
  {
    if k < max {
      LostStaysLost(files, history, name, k + 1, max, i);
    }
  }

  /** The rotation does not look at the active file. */
  lemma {:induction false} RotationIgnoresActive(
    files: Files, history: seq<Archive>, active: string, ps: seq<Piece>, name: Slots, k: int, max: int)
    requires 1 <= k && active in files && !IsSlot(name, max, active)
    ensures active in Rotated(files, name, k, max)
    ensures Rotated(files[active := ps], name, k, max) == Rotated(files, name, k, max)[active := ps]
    ensures RotatedHistory(files[active := ps], history, name, k, max) == RotatedHistory(files, history, name, k, max)
    decreases max - k
  {
    if k <= max {
      assert name(k) != active;
      if k < max {
        assert name(k + 1) != active;
        RotationIgnoresActive(files, history, active, ps, name, k + 1, max);
        RenameIgnoresActive(Rotated(files, name, k + 1, max), active, ps, name(k), name(k + 1));
      }
    }
  }

  lemma RenameIgnoresActive(files: Files, active: string, ps: seq<Piece>, from: string, to: string)
    requires active in files && from != active && to != active
    ensures active in Renamed(files, from, to)
    ensures Renamed(files[active := ps], from, to) == Renamed(files, from, to)[active := ps]
  {
  }

  // ----- Filling and rotating over a run

  /** The first slot from i on that no file has, or max + 1. */
  function FirstFree(files: Files, name: Slots, i: int, max: int): (k: int)
    ensures i <= max + 1 ==> i <= k <= max + 1
    ensures forall j :: i <= j < k ==> name(j) in files
    ensures i <= k <= max ==> name(k) !in files
    decreases max - i
  {
    if i > max then max + 1 else if name(i) !in files then i else FirstFree(files, name, i + 1, max)
  }

  lemma FirstFreeIsTaken(files: Files, name: Slots, max: int)
    requires 1 <= max
    ensures AllTaken(files, name, max) <==> FirstFree(files, name, 1, max) > max
  {
  }

  /** One rollover in min mode: the active file goes to the first free slot, or to slot 1
      after a rotation. */
  ghost predicate MinRolled(
    name: Slots, max: int, active: string, f0: Files, h0: seq<Archive>, f1: Files, h1: seq<Archive>)
  {
    var n, k := |h0|, FirstFree(f0, name, 1, max);
    && |h1| == n + 1 && h1[n].kept
    && (if k <= max then
          h1[..n] == h0 && h1[n].path == name(k) && SameButFor(f0, f1, active, name(k))
        else
          && h1[..n] == RotatedHistory(f0, h0, name, 1, max)
          && h1[n].path == name(1) && SameButFor(Rotated(f0, name, 1, max), f1, active, name(1)))
  }

  /** One file is new; no other file but the active one differs. */
  ghost predicate SameButFor(f0: Files, f1: Files, active: string, added: string) {
    && added in f1
    && forall p :: p != active && p != added ==> (p in f1 <==> p in f0) && (p in f0 ==> f1[p] == f0[p])
  }

  /** Where archive i is after c archives, when the slots were free at first; beyond max
      it is lost. */
  function SlotOf(c: int, max: int, i: int): int {
    if i >= max then c - i else i + 1 + if c > max then c - max else 0
  }

  ghost predicate InFillOrder(files: Files, history: seq<Archive>, name: Slots, max: int) {
    && (forall j :: 1 <= j <= max ==> (name(j) in files <==> j <= |history|))
    && (forall i :: 0 <= i < |history| ==> InItsSlot(history, name, max, i))
  }

  ghost predicate InItsSlot(history: seq<Archive>, name: Slots, max: int, i: nat)
    requires i < |history|
  {
    var s := SlotOf(|history|, max, i);
    1 <= s && (history[i].kept <==> s <= max) && (history[i].kept ==> history[i].path == name(s))
  }

  lemma FillFree(
    name: Slots, max: int, active: string, f0: Files, h0: seq<Archive>, f1: Files, h1: seq<Archive>)
    requires 1 <= max && Distinct(name, max) && !IsSlot(name, max, active) && |h0| < max
    requires InFillOrder(f0, h0, name, max) && MinRolled(name, max, active, f0, h0, f1, h1)
    ensures InFillOrder(f1, h1, name, max)
  {
    var n, k := |h0|, FirstFree(f0, name, 1, max);
    assert name(n + 1) !in f0;
    assert k == n + 1;
    forall j | 1 <= j <= max ensures name(j) in f1 <==> j <= |h1| {
      assert name(j) != active && (j != k ==> name(j) != name(k));
    }
    forall i | 0 <= i < |h1| ensures InItsSlot(h1, name, max, i) {
      assert i < n ==> h1[i] == h1[..n][i] && InItsSlot(h0, name, max, i);
    }
  }

  lemma SlotsStayTaken(name: Slots, max: int, active: string, f0: Files, f1: Files)
    requires 1 <= max && Distinct(name, max) && !IsSlot(name, max, active) && AllTaken(f0, name, max)
    requires SameButFor(Rotated(f0, name, 1, max), f1, active, name(1))
    ensures AllTaken(f1, name, max)
  {
    hide Rotated;
    RotationShifts(f0, name, max);
    forall j | 1 <= j <= max ensures name(j) in f1 {
      assert name(j) != active && (j != 1 ==> name(j) != name(1));
    }
  }

  lemma FillRotated(
    name: Slots, max: int, active: string, f0: Files, h0: seq<Archive>, f1: Files, h1: seq<Archive>)
    requires 1 <= max && Distinct(name, max) && !IsSlot(name, max, active) && |h0| >= max
    requires InFillOrder(f0, h0, name, max) && MinRolled(name, max, active, f0, h0, f1, h1)
    ensures InFillOrder(f1, h1, name, max)
    ensures forall i :: 0 <= i < |h0| && h0[i].kept ==> (h1[i].kept <==> SlotOf(|h0|, max, i) < max)
  {
    hide Rotated, RotatedHistory, FirstFree, Distinct, IsSlot, SameButFor;
    var n := |h0|;
    assert AllTaken(f0, name, max);
    FirstFreeIsTaken(f0, name, max);
    SlotsStayTaken(name, max, active, f0, f1);
    forall i | 0 <= i < n
      ensures InItsSlot(h1, name, max, i) && (h0[i].kept ==> (h1[i].kept <==> SlotOf(n, max, i) < max))
    {
      assert h1[i] == h1[..n][i] && InItsSlot(h0, name, max, i);
      if h0[i].kept {
        SlotMoves(f0, h0, name, 1, max, i, SlotOf(n, max, i));
      } else {
        LostStaysLost(f0, h0, name, 1, max, i);
      }
    }
  }

  /** Every rollover keeps the archives in the slots that their age gives them. */
  lemma RolloverKeepsFillOrder(
    name: Slots, max: int, active: string, f0: Files, h0: seq<Archive>, f1: Files, h1: seq<Archive>)
    requires 1 <= max && Distinct(name, max) && !IsSlot(name, max, active)
    requires InFillOrder(f0, h0, name, max) && MinRolled(name, max, active, f0, h0, f1, h1)
    ensures InFillOrder(f1, h1, name, max)
  {
    if |h0| < max {
      FillFree(name, max, active, f0, h0, f1, h1);
    } else {
      FillRotated(name, max, active, f0, h0, f1, h1);
    }
  }

  /** No archive is lost while the slots fill. The k-th rotation loses archive max - k as
      long as archives of the filling are left, so the newest of those first; from then on
      it loses the oldest archive there is. */
  lemma KthRotationLoses(
    name: Slots, max: int, active: string, f0: Files, h0: seq<Archive>, f1: Files, h1: seq<Archive>, k: int, i: nat)
    requires 1 <= max && Distinct(name, max) && !IsSlot(name, max, active)
    requires InFillOrder(f0, h0, name, max) && MinRolled(name, max, active, f0, h0, f1, h1)
    requires |h0| == max + k - 1 && i < |h0|
    ensures k < 1 ==> h0[i].kept && h1[i].kept
    ensures k >= 1 ==> (h0[i].kept && !h1[i].kept <==> i == if k <= max then max - k else k - 1)
    ensures k > max ==> (h0[i].kept <==> i >= k - 1)
  {
    assert InItsSlot(h0, name, max, i);
    if k < 1 {
      FillFree(name, max, active, f0, h0, f1, h1);
      assert InItsSlot(h1, name, max, i);
    } else {
      FillRotated(name, max, active, f0, h0, f1, h1);
    }
  }

  /** The first rotation loses the newest archive in the slots and no other. */
  lemma FirstRotationLosesTheNewest(
    name: Slots, max: int, active: string, f0: Files, h0: seq<Archive>, f1: Files, h1: seq<Archive>)
    requires 2 <= max == |h0| && Distinct(name, max) && !IsSlot(name, max, active)
    requires InFillOrder(f0, h0, name, max) && MinRolled(name, max, active, f0, h0, f1, h1)
    ensures h0[max - 1].kept && !h1[max - 1].kept && forall i :: 0 <= i < max - 1 ==> h1[i].kept
  {
    forall i | 0 <= i < max ensures h0[i].kept && (h1[i].kept <==> i != max - 1) {
      assert InItsSlot(h0, name, max, i);
      KthRotationLoses(name, max, active, f0, h0, f1, h1, 1, i);
    }
  }

  /** Once max rotations are over, every further one loses the oldest archive there is. */
  lemma LaterRotationsLoseTheOldest(
    name: Slots, max: int, active: string, f0: Files, h0: seq<Archive>, f1: Files, h1: seq<Archive>, oldest: nat)
    requires 1 <= max && Distinct(name, max) && !IsSlot(name, max, active)
    requires InFillOrder(f0, h0, name, max) && MinRolled(name, max, active, f0, h0, f1, h1)
    requires |h0| >= 2 * max && oldest == |h0| - max
    ensures h0[oldest].kept && !h1[oldest].kept
    ensures forall i :: 0 <= i < oldest ==> !h0[i].kept
    ensures forall i :: oldest < i < |h1| ==> h1[i].kept
  {
    forall i | 0 <= i < |h0| ensures (h0[i].kept <==> i >= oldest) && (i > oldest ==> h1[i].kept) {
      KthRotationLoses(name, max, active, f0, h0, f1, h1, oldest + 1, i);
    }
    KthRotationLoses(name, max, active, f0, h0, f1, h1, oldest + 1, oldest);
  }
}
