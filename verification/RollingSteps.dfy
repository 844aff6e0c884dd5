// What the steps of a rollover do to the files and to the archives, taken as values.
module RollingSteps {
  import opened RollingFiles
  import opened RollingBounds
  import opened RollingSlots

  predicate MinIndexed(cfg: Config) {
    cfg.mode.Min? && cfg.hasPattern && cfg.maxBackups > 0
  }

  /** The archive path for a time and an index. */
  type PathAt = (int, int) -> string

  ghost function SlotsOf(archivePath: PathAt, now: int): Slots {
    (i: int) => archivePath(now, i)
  }

  /** In min mode the slots are different files, none of them the active one. */
  ghost predicate SlotsOk(cfg: Config, archivePath: PathAt, path: string) {
    MinIndexed(cfg) ==> forall now :: SlotsApart(SlotsOf(archivePath, now), cfg.maxBackups, path)
  }

  ghost predicate SlotsApart(name: Slots, max: int, path: string) {
    Distinct(name, max) && !IsSlot(name, max, path)
  }

  ghost predicate FixedNames(archivePath: PathAt) {
    forall now, i :: archivePath(now, i) == archivePath(0, i)
  }

  /** Min mode with names that do not depend on the time: every archive is in its slot. */
  ghost predicate Slotted(cfg: Config, archivePath: PathAt, files: Files, history: seq<Archive>) {
    FixedNames(archivePath) && InFillOrder(files, history, SlotsOf(archivePath, 0), cfg.maxBackups)
  }

  /** What every step of the appender carries over: all archives, or in min mode the order
      of the slots. */
  ghost predicate Carries(
    cfg: Config, path: string, archivePath: PathAt, f0: Files, h0: seq<Archive>, f1: Files, h1: seq<Archive>)
  {
    if MinIndexed(cfg) then Slotted(cfg, archivePath, f0, h0) ==> Slotted(cfg, archivePath, f1, h1)
    else Preserves(path, f0, h0, f1, h1)
  }

  lemma CarriesTwice(
    cfg: Config, path: string, archivePath: PathAt,
    f0: Files, h0: seq<Archive>, f1: Files, h1: seq<Archive>, f2: Files, h2: seq<Archive>)
    requires Carries(cfg, path, archivePath, f0, h0, f1, h1) && Carries(cfg, path, archivePath, f1, h1, f2, h2)
    ensures Carries(cfg, path, archivePath, f0, h0, f2, h2)
  {
    if !MinIndexed(cfg) {
      PreservesTwice(path, f0, h0, f1, h1, f2, h2);
    }
  }

  lemma CarriesSelf(cfg: Config, path: string, archivePath: PathAt, files: Files, history: seq<Archive>)
    ensures Carries(cfg, path, archivePath, files, history, files, history)
  {
  }

  /** Writing to the active file carries everything over. */
  lemma WriteCarries(
    cfg: Config, path: string, archivePath: PathAt, files: Files, history: seq<Archive>, ps: seq<Piece>)
    requires SlotsOk(cfg, archivePath, path)
    ensures Carries(cfg, path, archivePath, files, history, files[path := ps], history)
  {
    if MinIndexed(cfg) && Slotted(cfg, archivePath, files, history) {
      var name := SlotsOf(archivePath, 0);
      assert SlotsApart(name, cfg.maxBackups, path);
      assert forall j :: 1 <= j <= cfg.maxBackups ==> name(j) != path;
    }
  }

  /** The files and archives after nextArchivePath has found a target in min mode. */
  ghost predicate SlotFound(
    name: Slots, max: int, f0: Files, h0: seq<Archive>, f1: Files, h1: seq<Archive>, target: string)
  {
    var k := FirstFree(f0, name, 1, max);
    if k <= max then f1 == f0 && h1 == h0 && target == name(k)
    else f1 == Rotated(f0, name, 1, max) && h1 == RotatedHistory(f0, h0, name, 1, max) && target == name(1)
  }

  /** Finish, find a slot, rename, reopen: one rollover in min mode. */
  lemma MinRolloverIs(
    name: Slots, max: int, path: string, f0: Files, h0: seq<Archive>, finished: seq<Piece>,
    f1: Files, h1: seq<Archive>, target: string, a: Archive, begun: seq<Piece>)
    requires 1 <= max && SlotsApart(name, max, path) && path in f0
    requires SlotFound(name, max, f0[path := finished], h0, f1, h1, target)
    requires a.path == target && a.kept && path in f1
    ensures MinRolled(name, max, path, f0, h0, Renamed(f1, path, target)[path := begun], h1 + [a])
  {
    hide Rotated, RotatedHistory, FirstFree;
    var g0 := f0[path := finished];
    SameFirstFree(f0, path, finished, name, 1, max);
    RotationIgnoresActive(f0, h0, path, finished, name, 1, max);
    RotationKeepsLength(f0, h0, name, max);
    assert (h1 + [a])[..|h0|] == h1;
  }

  lemma RotationKeepsLength(files: Files, history: seq<Archive>, name: Slots, max: int)
    ensures |RotatedHistory(files, history, name, 1, max)| == |history|
  {
  }

  lemma {:induction false} SameFirstFree(files: Files, path: string, ps: seq<Piece>, name: Slots, i: int, max: int)
    requires path in files && 1 <= i
    ensures FirstFree(files[path := ps], name, i, max) == FirstFree(files, name, i, max)
    decreases max - i
  {
    if i <= max {
      SameFirstFree(files, path, ps, name, i + 1, max);
    }
  }

  lemma MinRolledCarries(
    cfg: Config, path: string, archivePath: PathAt, now: int, f0: Files, h0: seq<Archive>, f1: Files, h1: seq<Archive>)
    requires MinIndexed(cfg) && SlotsOk(cfg, archivePath, path)
    requires MinRolled(SlotsOf(archivePath, now), cfg.maxBackups, path, f0, h0, f1, h1)
    ensures Carries(cfg, path, archivePath, f0, h0, f1, h1)
  {
    if Slotted(cfg, archivePath, f0, h0) {
      var name, fixed := SlotsOf(archivePath, now), SlotsOf(archivePath, 0);
      assert SlotsApart(name, cfg.maxBackups, path);
      SameOrder(f0, h0, fixed, name, cfg.maxBackups);
      RolloverKeepsFillOrder(name, cfg.maxBackups, path, f0, h0, f1, h1);
      SameOrder(f1, h1, name, fixed, cfg.maxBackups);
    }
  }

  lemma SameOrder(files: Files, history: seq<Archive>, a: Slots, b: Slots, max: int)
    requires InFillOrder(files, history, a, max) && forall i :: a(i) == b(i)
    ensures InFillOrder(files, history, b, max)
  {
    forall i | 0 <= i < |history| ensures InItsSlot(history, b, max, i) {
      assert InItsSlot(history, a, max, i);
    }
  }

  /** The same in the other modes: the new archive's path was absent. */
  lemma RolloverPreserves(
    path: string, f0: Files, history: seq<Archive>, finished: seq<Piece>, target: string, a: Archive, begun: seq<Piece>)
    requires path in f0 && target !in f0 && a.path == target && a.kept
    ensures Preserves(path, f0, history, Renamed(f0[path := finished], path, target)[path := begun], history + [a])
  {
  }

  lemma RolloverCarries(
    cfg: Config, path: string, archivePath: PathAt, now: int, f0: Files, h0: seq<Archive>, finished: seq<Piece>,
    f1: Files, h1: seq<Archive>, target: string, a: Archive, begun: seq<Piece>)
    requires SlotsOk(cfg, archivePath, path) && path in f0 && path in f1
    requires a.path == target && a.kept && target !in f1
    requires MinIndexed(cfg) ==>
               SlotFound(SlotsOf(archivePath, now), cfg.maxBackups, f0[path := finished], h0, f1, h1, target)
    requires !MinIndexed(cfg) ==> f1 == f0[path := finished] && h1 == h0
    ensures var f2, h2 := Renamed(f1, path, target)[path := begun], h1 + [a];
            && Carries(cfg, path, archivePath, f0, h0, f2, h2)
            && (MinIndexed(cfg) ==> MinRolled(SlotsOf(archivePath, now), cfg.maxBackups, path, f0, h0, f2, h2))
  {
    var f2, h2 := Renamed(f1, path, target)[path := begun], h1 + [a];
    if MinIndexed(cfg) {
      var name := SlotsOf(archivePath, now);
      assert SlotsApart(name, cfg.maxBackups, path);
      MinRolloverIs(name, cfg.maxBackups, path, f0, h0, finished, f1, h1, target, a, begun);
      MinRolledCarries(cfg, path, archivePath, now, f0, h0, f2, h2);
    } else {
      RolloverPreserves(path, f0, h0, finished, target, a, begun);
    }
  }

  lemma RolloverBegins(h0: seq<Archive>, h1: seq<Archive>, a: Archive)
    requires SameBodies(h0, h1)
    ensures BegunAfter(h0, a.begunEmpty, h1 + [a], true)
  {
  }

  ghost predicate ArchivesOk(cfg: Config, history: seq<Archive>) {
    forall i :: 0 <= i < |history| && history[i].begunEmpty ==> FileOk(cfg, history[i].body)
  }

  lemma SameBodiesOk(cfg: Config, a: seq<Archive>, b: seq<Archive>)
    requires SameBodies(a, b) && ArchivesOk(cfg, a)
    ensures ArchivesOk(cfg, b)
  {
  }

  lemma ShelveKeeps(
    cfg: Config, files: Files, history: seq<Archive>, path: string, target: string, body: seq<Piece>,
    begunEmpty: bool)
    requires Faithful(files, history, path, FooterOf(cfg)) && ArchivesOk(cfg, history)
    requires path in files && target !in files && files[path] == body + FooterOf(cfg)
    requires begunEmpty ==> FileOk(cfg, body)
    ensures var files', history' := Renamed(files, path, target), history + [Archive(target, body, begunEmpty, true)];
            && Faithful(files', history', path, FooterOf(cfg)) && ArchivesOk(cfg, history')
            && Archived(history') == Archived(history) + RecordsOf(files[path])
  {
    FooterHidesNothing(cfg, body);
    ArchivedAppend(history, Archive(target, body, begunEmpty, true));
    FinishKeepsFaith(files, history, path, FooterOf(cfg), target, body, begunEmpty);
  }

  /** A file is archived exactly when that is asked for, and the record then is the first of
      a new file; an empty file is archived behind it only when that is asked for again.
      Otherwise the text joins the active file. */
  ghost predicate ArchivedOrWritten(
    asked: bool, again: bool, cfg: Config, path: string, f0: Files, h0: seq<Archive>, text: seq<Piece>, record: Piece,
    f1: Files, h1: seq<Archive>)
    requires path in f0
  {
    if !asked then h1 == h0 && f1 == f0[path := f0[path] + text]
    else
      && |h0| < |h1| && h1[|h0|].body == f0[path]
      && (forall k :: |h0| < k < |h1| ==> again && h1[k].body == [Header(cfg.headerSize)])
      && path in f1 && f1[path] == [Header(cfg.headerSize), record]
  }

  /** One rollover, and then the record. */
  lemma ArchivedOnce(
    again: bool, cfg: Config, path: string, f0: Files, h0: seq<Archive>, text: seq<Piece>, record: Piece,
    f1: Files, h1: seq<Archive>)
    requires path in f0 && path in f1 && |h1| == |h0| + 1 && h1[|h0|].body == f0[path]
    requires f1[path] == [Header(cfg.headerSize)] + [record]
    ensures ArchivedOrWritten(true, again, cfg, path, f0, h0, text, record, f1, h1)
  {
    assert [Header(cfg.headerSize)] + [record] == [Header(cfg.headerSize), record];
  }

  /** A rollover, and then what becomes of the record in the new file. */
  lemma ArchivedThen(
    again: bool, cfg: Config, path: string, f0: Files, h0: seq<Archive>, text: seq<Piece>, record: Piece,
    f1: Files, h1: seq<Archive>, f2: Files, h2: seq<Archive>)
    requires path in f0 && path in f1 && |h1| == |h0| + 1 && h1[|h0|].body == f0[path]
    requires f1[path] == [Header(cfg.headerSize)] && |h1| <= |h2| && h2[|h0|].body == h1[|h0|].body
    requires ArchivedOrWritten(again, again, cfg, path, f1, h1, [record], record, f2, h2)
    ensures ArchivedOrWritten(true, again, cfg, path, f0, h0, text, record, f2, h2)
  {
    assert [Header(cfg.headerSize)] + [record] == [Header(cfg.headerSize), record];
  }

  /** What openActiveLocked makes of what it finds. */
  function Opened(cfg: Config, content: seq<Piece>): seq<Piece> {
    if SizeOf(content) == 0 then content + [Header(cfg.headerSize)] else content
  }

  lemma OpenedIsOk(cfg: Config, content: seq<Piece>)
    requires ValidConfig(cfg)
    ensures RecordsOf(Opened(cfg, content)) == RecordsOf(content)
    ensures SizeOf(Opened(cfg, content)) == if SizeOf(content) == 0 then cfg.headerSize else SizeOf(content)
    ensures content == [] ==> Opened(cfg, content) == [Header(cfg.headerSize)]
  {
    OneMore(content, Header(cfg.headerSize));
    if content == [] {
      assert content + [Header(cfg.headerSize)] == [Header(cfg.headerSize)];
    }
  }

  /** A finished file: a body that keeps the rules, and its footer. */
  ghost predicate Finished(cfg: Config, ps: seq<Piece>) {
    && ps != [] && ps[|ps| - 1..] == [Footer(cfg.footerSize)] && FileOk(cfg, ps[..|ps| - 1])
    && (cfg.complete ==> ReadArray(ps) == Values(RecordsOf(ps)))
  }

  lemma FooterFinishes(cfg: Config, body: seq<Piece>)
    requires FileOk(cfg, body)
    ensures Finished(cfg, body + FooterOf(cfg))
  {
    FooterHidesNothing(cfg, body);
    assert (body + FooterOf(cfg))[..|body|] == body;
    if cfg.complete {
      ClosedArrayReads(body, cfg.footerSize);
    }
  }

  /** Every archive that was begun empty and is still there is a finished file. */
  lemma ArchivesAreFinished(cfg: Config, files: Files, history: seq<Archive>, path: string, i: nat)
    requires Faithful(files, history, path, FooterOf(cfg)) && ArchivesOk(cfg, history)
    requires i < |history| && history[i].begunEmpty && history[i].kept
    ensures history[i].path in files && Finished(cfg, files[history[i].path])
  {
    FooterFinishes(cfg, history[i].body);
  }
}
