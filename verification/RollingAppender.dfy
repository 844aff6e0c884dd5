// The rolling file appender: one active file that turns into archives.
module RollingAppender {
  import opened Capacity
  import opened Optional
  import opened RollingFiles
  import opened RollingBounds
  import opened RollingSlots
  import opened RollingSteps

  const ATTEMPTS := 1000
  const DAY := 86_400_000_000_000

  lemma NextMultiple(now: int, interval: nat)
    requires interval > 0
    ensures now < now - now % interval + interval <= now + interval
    ensures (now - now % interval + interval) % interval == 0
  {
    var d, next := now / interval, now - now % interval + interval;
    assert now == interval * d + now % interval;
    assert next == interval * (d + 1) by {
      assert interval * (d + 1) == interval * d + interval;
    }
    MultipleHasNoRest(interval, d + 1);
  }

  lemma MultipleHasNoRest(m: nat, d: int)
    requires m > 0
    ensures (m * d) % m == 0
  {
    var q := m * d / m;
    Distribute(m, q, d - q);
    MultipleIsLarge(m, d - q);
  }

  /** NextRolloverAfter, in nanoseconds; midnight gives the next local midnight. Without an
      interval there is no next time; otherwise it lies ahead, for a day as far as midnight
      does, and else at most an interval ahead, if modulated at a multiple of it. */
  function NextRolloverAfter(now: int, interval: nat, modulate: bool, midnight: int -> int): (next: Option<int>)
    ensures next.None? <==> interval == 0
    ensures next.Some? && modulate && interval == DAY ==> next.value == midnight(now)
    ensures next.Some? && midnight(now) > now ==> next.value > now
    ensures next.Some? && !(modulate && interval == DAY) ==> now < next.value <= now + interval
    ensures next.Some? && modulate && interval != DAY ==> next.value % interval == 0
    ensures next.Some? && !modulate ==> next.value == now + interval
  {
    if interval == 0 then None
    else if !modulate then Some(now + interval)
    else if interval == DAY then Some(midnight(now))
    else
      NextMultiple(now, interval);
      Some(now - now % interval + interval)
  }

  /** What the appender is given: archivePath is archivePaths without compression,
      firstIndex is initArchiveIndex, cronAfter the next time of the cron schedule. */
  datatype Site = Site(
    path: string, archivePath: PathAt, firstIndex: Files -> int, midnight: int -> int, cronAfter: int -> Option<int>)

  class RollingFile {
    const cfg: Config
    const site: Site
    const path: string
    var files: Files
    var isOpen: bool
    var size: int
    var archiveIndex: int
    var nextRollover: Option<int>
    var nextCron: Option<int>
    var closed: bool
    var formatted: nat
    /** Every archive ever finished, and whether the active file was begun empty. */
    ghost var history: seq<Archive>
    ghost var begunEmpty: bool

    /** A new appender, before its first openAt. */
    constructor (cfg: Config, site: Site, files: Files)
      requires ValidConfig(cfg) && SlotsOk(cfg, site.archivePath, site.path)
      ensures Valid() && !isOpen && !closed && history == [] && formatted == 0
      ensures this.cfg == cfg && this.site == site && this.path == site.path && this.files == files
    {
      this.cfg, this.site, this.path, this.files := cfg, site, site.path, files;
      isOpen, size, archiveIndex, closed, formatted := false, 0, 0, false, 0;
      nextRollover, nextCron := None, None;
      history, begunEmpty := [], false;
    }

    /** Valid, also between formatting an event and writing it. */
    ghost predicate Core()
      reads this
    {
      && path == site.path && ValidConfig(cfg) && SlotsOk(cfg, site.archivePath, path)
      && Faithful(files, history, path, FooterOf(cfg))
      && ArchivesOk(cfg, history)
      && (isOpen ==> !closed && path in files && size == SizeOf(files[path]))
      && (isOpen && begunEmpty ==> FileOk(cfg, files[path]))
    }

    ghost predicate Valid()
      reads this
    {
      Core() && (isOpen && begunEmpty ==> CountedOk(cfg, files[path], formatted))
    }

    ghost function Active(): seq<int>
      reads this
    {
      if path in files then RecordsOf(files[path]) else []
    }

    /** The records of every archive ever finished, then the active file's. */
    ghost function Log(): seq<int>
      reads this
    {
      Archived(history) + Active()
    }

    /** What a reader of the files finds: the archives in order, then the active file. */
    ghost function OnDisk(): seq<int>
      reads this
    {
      DiskRecords(files, history) + Active()
    }

    /** With every archive kept nothing on record is missing from the disk. */
    lemma DiskIsComplete()
      requires Valid() && AllKept(history)
      ensures OnDisk() == Log()
    {
      forall ps ensures RecordsOf(ps + FooterOf(cfg)) == RecordsOf(ps) {
        FooterHidesNothing(cfg, ps);
      }
      DiskHoldsArchived(files, history, path, FooterOf(cfg));
    }

    /** All that carries over from an earlier state of the files. */
    ghost predicate CarriesFrom(f0: Files, h0: seq<Archive>)
      reads this
    {
      Carries(cfg, path, site.archivePath, f0, h0, files, history)
    }

    /** The active file is, or will be once it is opened, begun empty. */
    ghost predicate StartsEmpty()
      reads this
    {
      if isOpen then begunEmpty else !cfg.append || path !in files || files[path] == []
    }

    /** What an earlier run left for the file that is about to be opened. */
    ghost function Left(): seq<Piece>
      reads this
    {
      if cfg.append && path in files then files[path] else []
    }

    predicate Due(now: int)
      reads this
    {
      (nextRollover.Some? && now >= nextRollover.value) || (nextCron.Some? && now >= nextCron.value)
    }

    predicate ShouldRollover(now: int, pending: nat)
      reads this
    {
      Due(now) || (cfg.maxSize > 0 && size > 0 && size + pending > cfg.maxSize)
    }

    ghost predicate ScheduledAt(now: int)
      reads this
    {
      && nextRollover == NextRolloverAfter(now, cfg.interval, cfg.modulate, site.midnight)
      && nextCron == site.cronAfter(now)
    }

    method Schedule(now: int)
      requires Valid()
      modifies `nextRollover, `nextCron
      ensures Valid() && ScheduledAt(now)
    {
      nextRollover := NextRolloverAfter(now, cfg.interval, cfg.modulate, site.midnight);
      nextCron := site.cronAfter(now);
    }

    /** openActiveLocked: a header is written only into an empty file. */
    method OpenActive() returns (existing: nat)
      requires Valid() && !isOpen && !closed
      modifies `files, `isOpen, `size, `formatted, `begunEmpty
      ensures Valid() && isOpen && begunEmpty == old(StartsEmpty())
      ensures Log() == if cfg.append then old(Log()) else Archived(history)
      ensures existing == old(SizeOf(Left())) && files == old(files)[path := old(Opened(cfg, Left()))]
      ensures formatted == if existing == 0 then 0 else old(formatted)
    {
      hide Faithful, ArchivesOk, SlotsOk, FileOk, CountedOk, RecordsOf, Archived, Opened;
      var content := if cfg.append && path in files then files[path] else [];
      existing := SizeOf(content);
      OpenedIsOk(cfg, content);
      HeaderOnlyIsOk(cfg);
      WriteKeepsFaith(files, history, path, FooterOf(cfg), Opened(cfg, content));
      isOpen, begunEmpty, files := true, content == [], files[path := Opened(cfg, content)];
      size, formatted := if existing == 0 then cfg.headerSize else existing, if existing == 0 then 0 else formatted;
    }

    /** rotateMinIndexArchives. */
    method RotateMinIndexArchives(now: int)
      modifies `files, `history
      ensures var name := SlotsOf(site.archivePath, now);
              && files == Rotated(old(files), name, 1, cfg.maxBackups)
              && history == RotatedHistory(old(files), old(history), name, 1, cfg.maxBackups)
    {
      var max := cfg.maxBackups;
      ghost var name := SlotsOf(site.archivePath, now);
      for index := max + 1 downto 1
        invariant files == Rotated(old(files), name, index, max)
        invariant history == RotatedHistory(old(files), old(history), name, index, max)
      {
        var source := site.archivePath(now, index);
        if index == max {
          history, files := Forget(history, source), Removed(files, source);
          continue;
        }
        var target := site.archivePath(now, index + 1);
        history, files := Moved(files, history, source, target), Renamed(files, source, target);
      }
    }

    /** nextMinIndexArchivePath: the first free slot, or slot 1 after a rotation. */
    method NextMinIndexArchivePath(now: int) returns (target: string)
      requires Valid() && MinIndexed(cfg) && !isOpen && path in files
      modifies `files, `history, `archiveIndex
      ensures Valid() && target !in files && path in files && files[path] == old(files[path])
      ensures SameBodies(old(history), history)
      ensures SlotFound(
                SlotsOf(site.archivePath, now), cfg.maxBackups, old(files), old(history), files, history, target)
    {
      ghost var name := SlotsOf(site.archivePath, now);
      assert SlotsApart(name, cfg.maxBackups, path);
      for index := 1 to cfg.maxBackups + 1
        invariant FirstFree(files, name, 1, cfg.maxBackups) == FirstFree(files, name, index, cfg.maxBackups)
      {
        target := site.archivePath(now, index);
        assert name(index) == target;
        if target !in files {
          archiveIndex := index + 1;
          return;
        }
      }
      FirstFreeIsTaken(files, name, cfg.maxBackups);
      RotationShifts(files, name, cfg.maxBackups);
      RotationKeepsFaith(files, history, path, FooterOf(cfg), name, 1, cfg.maxBackups);
      SameBodiesOk(cfg, history, RotatedHistory(files, history, name, 1, cfg.maxBackups));
      RotateMinIndexArchives(now);
      target := site.archivePath(now, 1);
      archiveIndex := 2;
    }

    /** None of the last thousand candidates was free. */
    ghost predicate Exhausted(now: int)
      reads this
    {
      && !MinIndexed(cfg)
      && forall i :: archiveIndex - ATTEMPTS <= i < archiveIndex ==> site.archivePath(now, i) in files
    }

    /** One of the next thousand candidates is free, or a slot can be made free. */
    ghost predicate CanRoll(now: int)
      reads this
    {
      MinIndexed(cfg) || exists i :: archiveIndex <= i < archiveIndex + ATTEMPTS && site.archivePath(now, i) !in files
    }

    /** nextArchivePath: a path that no file has, or nothing after a thousand attempts. */
    method NextArchivePath(now: int) returns (target: Option<string>)
      requires Valid() && !isOpen && path in files
      modifies `files, `history, `archiveIndex
      ensures Valid() && path in files && files[path] == old(files[path])
      ensures target.Some? ==> target.value !in files
      ensures SameBodies(old(history), history)
      ensures MinIndexed(cfg) ==>
                && target.Some?
                && SlotFound(
                     SlotsOf(site.archivePath, now), cfg.maxBackups, old(files), old(history), files, history,
                     target.value)
      ensures !MinIndexed(cfg) ==> files == old(files) && history == old(history)
      ensures !MinIndexed(cfg) ==> FoundFrom(now, old(archiveIndex), target)
      ensures target.Some? <==> old(CanRoll(now))
      ensures target.None? ==> Exhausted(now)
    {
      if MinIndexed(cfg) {
        var slot := NextMinIndexArchivePath(now);
        return Some(slot);
      }
      for attempt := 0 to ATTEMPTS
        invariant archiveIndex == old(archiveIndex) + attempt && Valid()
        invariant files == old(files) && history == old(history)
        invariant forall i :: old(archiveIndex) <= i < archiveIndex ==> site.archivePath(now, i) in files
      {
        var candidate := site.archivePath(now, archiveIndex);
        archiveIndex := archiveIndex + 1;
        if candidate !in files {
          return Some(candidate);
        }
      }
      return None;
    }

    /** The first index from the given one on whose path no file has, among a thousand. */
    ghost predicate FoundFrom(now: int, index: int, target: Option<string>)
      reads this
    {
      && index <= archiveIndex <= index + ATTEMPTS
      && (target.None? ==> archiveIndex == index + ATTEMPTS)
      && (target.Some? ==> index < archiveIndex && target.value == site.archivePath(now, archiveIndex - 1))
      && forall i :: index <= i < (if target.Some? then archiveIndex - 1 else archiveIndex) ==>
           site.archivePath(now, i) in files
    }

    /** The footer ends the active file; its records stay where they are. */
    method FinishActive() returns (ghost body: seq<Piece>)
      requires Core() && isOpen
      modifies `files, `isOpen
      ensures Valid() && !isOpen && Log() == old(Log())
      ensures body == old(files[path]) && files == old(files)[path := body + FooterOf(cfg)]
      ensures begunEmpty ==> FileOk(cfg, body)
      ensures forall now :: CanRoll(now) <==> old(CanRoll(now))
    {
      body := files[path];
      FooterHidesNothing(cfg, body);
      WriteKeepsFaith(files, history, path, FooterOf(cfg), body + FooterOf(cfg));
      files, isOpen := files[path := files[path] + FooterOf(cfg)], false;
    }

    /** The finished file gets its archive path. */
    method Shelve(target: string, ghost body: seq<Piece>)
      requires Valid() && !isOpen && path in files && target !in files
      requires files[path] == body + FooterOf(cfg) && (begunEmpty ==> FileOk(cfg, body))
      modifies `files, `history
      ensures Valid() && path !in files && Log() == old(Log())
      ensures files == Renamed(old(files), path, target)
      ensures history == old(history) + [Archive(target, body, begunEmpty, true)]
    {
      ShelveKeeps(cfg, files, history, path, target, body, begunEmpty);
      files, history := Renamed(files, path, target), history + [Archive(target, body, begunEmpty, true)];
    }

    method Reopen(now: int)
      requires Valid() && !isOpen && !closed && path !in files
      modifies `files, `isOpen, `size, `formatted, `begunEmpty, `nextRollover, `nextCron
      ensures Valid() && isOpen && Log() == old(Log()) && begunEmpty && ScheduledAt(now)
      ensures files == old(files)[path := [Header(cfg.headerSize)]]
    {
      OpenedIsOk(cfg, []);
      var existing := OpenActive();
      Schedule(now);
    }

    /** Archives and the beginnings of files carry over from an earlier state. */
    ghost predicate StepsFrom(f0: Files, h0: seq<Archive>, b0: bool)
      reads this
    {
      CarriesFrom(f0, h0) && BegunAfter(h0, b0, history, begunEmpty)
    }

    /** The part of rollover after a target was found, for an appender that had the files f0
        and the archives h0 before. */
    method RollTo(now: int, target: string, ghost body: seq<Piece>, ghost f0: Files, ghost h0: seq<Archive>)
      requires Valid() && !isOpen && !closed && path in files && target !in files && path in f0
      requires files[path] == body + FooterOf(cfg) && (begunEmpty ==> FileOk(cfg, body))
      requires MinIndexed(cfg) ==>
                 SlotFound(
                   SlotsOf(site.archivePath, now), cfg.maxBackups, f0[path := body + FooterOf(cfg)], h0, files, history,
                   target)
      requires !MinIndexed(cfg) ==> files == f0[path := body + FooterOf(cfg)] && history == h0
      modifies `files, `history, `isOpen, `size, `formatted, `begunEmpty, `nextRollover, `nextCron
      ensures Valid() && isOpen && begunEmpty && Log() == old(Log()) && ScheduledAt(now) && CarriesFrom(f0, h0)
      ensures path in files && files[path] == [Header(cfg.headerSize)]
      ensures history == old(history) + [Archive(target, body, old(begunEmpty), true)]
      ensures MinIndexed(cfg) ==>
                MinRolled(SlotsOf(site.archivePath, now), cfg.maxBackups, path, f0, h0, files, history)
    {
      hide Faithful, ArchivesOk, Carries, MinRolled, SlotFound, FileOk;
      ghost var f1, h1, a := files, history, Archive(target, body, begunEmpty, true);
      Shelve(target, body);
      Reopen(now);
      RolloverCarries(
        cfg, path, site.archivePath, now, f0, h0, body + FooterOf(cfg), f1, h1, target, a, [Header(cfg.headerSize)]);
    }

    /** rollover: without a free archive path the active file is left finished and closed. */
    method Rollover(now: int) returns (ok: bool)
      requires Core() && isOpen
      modifies this
      ensures Valid() && closed == old(closed) && isOpen == ok && Log() == old(Log())
      ensures StepsFrom(old(files), old(history), old(begunEmpty))
      ensures ok ==> begunEmpty && files[path] == [Header(cfg.headerSize)] && ScheduledAt(now)
      ensures ok ==> |history| == |old(history)| + 1 && history[|old(history)|].body == old(files[path])
      ensures ok && MinIndexed(cfg) ==>
                MinRolled(
                  SlotsOf(site.archivePath, now), cfg.maxBackups, path, old(files), old(history), files, history)
      ensures !ok ==> history == old(history)
      ensures ok <==> old(CanRoll(now))
      ensures !ok ==> Exhausted(now)
    {
      hide Faithful, ArchivesOk, Carries, MinRolled, SlotFound, FileOk, CanRoll, Exhausted, FoundFrom, SlotsOk;
      ghost var f0, h0, b0 := files, history, begunEmpty;
      ghost var body := FinishActive();
      WriteCarries(cfg, path, site.archivePath, f0, h0, body + FooterOf(cfg));
      var target := NextArchivePath(now);
      SameBodiesArchived(h0, history);
      if target.None? {
        return false;
      }
      ghost var h1 := history;
      RollTo(now, target.value, body, f0, h0);
      RolloverBegins(h0, h1, Archive(target.value, body, b0, true));
      return true;
    }

    /** The layout counts the events it formats for a complete file. */
    method Format(id: int, n: nat) returns (data: seq<Piece>)
      requires Valid() && isOpen
      modifies `formatted
      ensures Core() && (begunEmpty ==> CountedOk(cfg, files[path], old(formatted)))
      ensures data == Formatted(cfg, old(formatted), id, n)
      ensures cfg.complete ==> formatted == old(formatted) + 1
    {
      data := Formatted(cfg, formatted, id, n);
      if cfg.complete {
        formatted := formatted + 1;
      }
    }

    /** writeBytesLocked, for an event formatted when the count was f. */
    method Write(data: seq<Piece>, ghost f: nat, ghost id: int, ghost n: nat)
      requires Core() && isOpen && data == Formatted(cfg, f, id, n)
      requires (begunEmpty ==> CountedOk(cfg, files[path], f)) && (cfg.complete ==> formatted == f + 1)
      requires begunEmpty ==> HasRoom(cfg, files[path], SizeOf(data))
      modifies `files, `size
      ensures Valid() && Log() == old(Log()) + [id] && CarriesFrom(old(files), history)
      ensures files == old(files)[path := old(files[path]) + data]
    {
      ghost var ps := files[path];
      FormattedAdds(cfg, ps, f, id, n);
      if begunEmpty {
        WriteKeepsFile(cfg, ps, f, id, n);
      }
      WriteKeepsFaith(files, history, path, FooterOf(cfg), ps + data);
      WriteCarries(cfg, path, site.archivePath, files, history, ps + data);
      assert Archived(history) + (RecordsOf(ps) + [id]) == Archived(history) + RecordsOf(ps) + [id];
      files, size := files[path := files[path] + data], size + SizeOf(data);
    }

    /** openAt and the rollover of a file left by an earlier run, for a file not yet open. */
    method Open(now: int) returns (ok: bool)
      requires Valid() && !isOpen && !closed
      modifies this
      ensures Valid() && !closed && isOpen == ok
      ensures StepsFrom(old(files), old(history), old(StartsEmpty()))
      ensures Log() == if cfg.append then old(Log()) else Archived(old(history))
      ensures old(StartsEmpty()) ==> ok
      ensures !ok ==> Exhausted(now)
      ensures ok ==> ScheduledAt(now)
      ensures ok && cfg.rolloverOnStartup && old(SizeOf(Left())) > 0 ==>
                && begunEmpty && path in files && files[path] == [Header(cfg.headerSize)]
                && |history| == |old(history)| + 1 && history[|old(history)|].body == old(Left())
      ensures ok && !(cfg.rolloverOnStartup && old(SizeOf(Left())) > 0) ==>
                && history == old(history) && files == old(files)[path := old(Opened(cfg, Left()))]
                && formatted == if old(SizeOf(Left())) == 0 then 0 else old(formatted)
    {
      OpenedIsOk(cfg, []);
      ghost var f0, h0 := files, history;
      var existing := OpenActive();
      WriteCarries(cfg, path, site.archivePath, f0, h0, files[path]);
      ghost var f1, h1, b1 := files, history, begunEmpty;
      Start(now);
      if cfg.rolloverOnStartup && existing > 0 {
        ok := Rollover(now);
        CarriesTwice(cfg, path, site.archivePath, f0, h0, f1, h1, files, history);
        return;
      }
      return true;
    }

    /** The schedule and the first index of a file just opened. */
    method Start(now: int)
      requires Valid()
      modifies `nextRollover, `nextCron, `archiveIndex
      ensures Valid() && ScheduledAt(now) && archiveIndex == site.firstIndex(files)
    {
      archiveIndex := site.firstIndex(files);
      Schedule(now);
    }

    ghost function TextOf(id: int, n: nat): seq<Piece>
      reads this
    {
      Formatted(cfg, formatted, id, n)
    }

    /** The active file must be archived before the event is written. */
    ghost predicate AsksForRollover(now: int, id: int, n: nat)
      requires path in files
      reads this
    {
      MustArchive(cfg, nextRollover, nextCron, files[path], TextOf(id, n), now)
    }

    /** So must a file that was just begun. */
    ghost predicate AsksAgain(now: int, id: int, n: nat)
      reads this
    {
      MustArchive(
        cfg, NextRolloverAfter(now, cfg.interval, cfg.modulate, site.midnight), site.cronAfter(now),
        [Header(cfg.headerSize)], [Record(id, n)], now)
    }

    /** The text of the first event after the file is opened. */
    ghost function FirstText(id: int, n: nat): seq<Piece>
      reads this
    {
      Formatted(cfg, if SizeOf(Left()) == 0 then 0 else formatted, id, n)
    }

    /** What an earlier run left must be archived before the first event is written. */
    ghost predicate AsksAtFirst(now: int, id: int, n: nat)
      reads this
    {
      || (cfg.rolloverOnStartup && SizeOf(Left()) > 0)
      || MustArchive(
           cfg, NextRolloverAfter(now, cfg.interval, cfg.modulate, site.midnight), site.cronAfter(now),
           Opened(cfg, Left()), FirstText(id, n), now)
    }

    /** What became of an event, for files and archives from before. */
    ghost predicate WentInto(asked: bool, now: int, id: int, n: nat, f0: Files, h0: seq<Archive>, text: seq<Piece>)
      requires path in f0
      reads this
    {
      && ArchivedOrWritten(
           asked, AsksAgain(now, id, n), cfg, path, f0, h0, text, Record(id, n), files, history)
      && (asked ==> ScheduledAt(now))
    }

    /** Rolls over when the clock or the pending bytes ask for it. */
    method MakeRoom(now: int, pending: nat) returns (rolled: bool)
      requires Core() && isOpen
      modifies this
      ensures rolled <==>
                || old(TimeHasCome(nextRollover, nextCron, now))
                || (cfg.maxSize > 0 && old(SizeOf(files[path])) > 0 && old(SizeOf(files[path])) + pending > cfg.maxSize)
      ensures closed == old(closed) && Log() == old(Log())
      ensures StepsFrom(old(files), old(history), old(begunEmpty))
      ensures rolled ==> Valid() && (isOpen <==> old(CanRoll(now)))
      ensures !isOpen ==> Exhausted(now)
      ensures rolled && isOpen ==>
                && begunEmpty && path in files && files[path] == [Header(cfg.headerSize)] && ScheduledAt(now)
                && |history| == |old(history)| + 1 && history[|old(history)|].body == old(files[path])
      ensures !rolled ==> unchanged(this) && (begunEmpty ==> HasRoom(cfg, files[path], pending))
    {
      rolled := ShouldRollover(now, pending);
      if rolled {
        var ok := Rollover(now);
      } else {
        CarriesSelf(cfg, path, site.archivePath, files, history);
      }
    }

    method AppendFormatted(now: int, id: int, n: nat) returns (ok: bool)
      requires Valid() && isOpen && !cfg.complete
      modifies this
      ensures Valid() && closed == old(closed) && isOpen == ok
      ensures Log() == if ok then old(Log()) + [id] else old(Log())
      ensures StepsFrom(old(files), old(history), old(begunEmpty))
      ensures ok ==>
                && WentInto(
                     old(AsksForRollover(now, id, n)), now, id, n, old(files), old(history), old(TextOf(id, n)))
                && (old(!AsksForRollover(now, id, n)) ==> unchanged(`nextRollover, `nextCron))
      ensures old(!AsksForRollover(now, id, n)) ==> ok
      ensures ok <==> old(!AsksForRollover(now, id, n) || CanRoll(now))
      ensures !ok ==> Exhausted(now)
    {
      hide Carries, BegunAfter, Faithful, ArchivesOk, SlotsOk, FileOk, SizeOf, RecordsOf, Archived;
      ghost var f0, h0, asked := files, history, AsksForRollover(now, id, n);
      var data := Format(id, n);
      var rolled := MakeRoom(now, SizeOf(data));
      assert rolled == asked;
      ok := isOpen;
      if ok {
        ghost var f1, h1 := files, history;
        Write(data, formatted, id, n);
        CarriesTwice(cfg, path, site.archivePath, f0, h0, f1, h1, files, history);
        if asked {
          ArchivedOnce(AsksAgain(now, id, n), cfg, path, f0, h0, data, Record(id, n), files, history);
        }
      }
    }

    /** Formats, and formats again when a rollover made the first text obsolete: the
        header of the new file has reset the count. */
    method AppendSynchronized(now: int, id: int, n: nat) returns (ok: bool)
      requires Valid() && isOpen && cfg.complete
      modifies this
      ensures Valid() && closed == old(closed) && isOpen == ok
      ensures Log() == if ok then old(Log()) + [id] else old(Log())
      ensures StepsFrom(old(files), old(history), old(begunEmpty))
      ensures ok ==>
                && WentInto(
                     old(AsksForRollover(now, id, n)), now, id, n, old(files), old(history), old(TextOf(id, n)))
                && (old(!AsksForRollover(now, id, n)) ==> unchanged(`nextRollover, `nextCron))
      ensures old(!AsksForRollover(now, id, n)) ==> ok
      ensures !ok ==> Exhausted(now)
    {
      hide Faithful, ArchivesOk, Carries, BegunAfter;
      ghost var f0, h0, b0, asked, text := files, history, begunEmpty, AsksForRollover(now, id, n), TextOf(id, n);
      var rolled := MakeRoom(now, 0);
      if !isOpen {
        return false;
      }
      assert if rolled then asked && TextOf(id, n) == [Record(id, n)]
             else AsksForRollover(now, id, n) == asked && TextOf(id, n) == text;
      ghost var f1, h1, b1 := files, history, begunEmpty;
      ok := FormatAndWrite(now, id, n);
      CarriesTwice(cfg, path, site.archivePath, f0, h0, f1, h1, files, history);
      BegunTwice(h0, b0, h1, b1, history, begunEmpty);
      if ok && rolled {
        BodiesStay(h1, b1, history, begunEmpty, |h0|);
        ArchivedThen(
          AsksAgain(now, id, n), cfg, path, f0, h0, text, Record(id, n), f1, h1, files, history);
      }
    }

    /** The part of appendSynchronized after the first look at the clock. */
    method FormatAndWrite(now: int, id: int, n: nat) returns (ok: bool)
      requires Valid() && isOpen && cfg.complete
      modifies this
      ensures Valid() && closed == old(closed) && isOpen == ok
      ensures Log() == if ok then old(Log()) + [id] else old(Log())
      ensures StepsFrom(old(files), old(history), old(begunEmpty))
      ensures ok ==>
                && WentInto(
                     old(AsksForRollover(now, id, n)), now, id, n, old(files), old(history), old(TextOf(id, n)))
                && (old(!AsksForRollover(now, id, n)) ==> unchanged(`nextRollover, `nextCron))
      ensures old(!AsksForRollover(now, id, n)) ==> ok
      ensures !ok ==> Exhausted(now)
    {
      hide Carries, BegunAfter, Faithful, ArchivesOk, SlotsOk, FileOk, SizeOf, RecordsOf, Archived;
      ghost var f0, h0, f, asked := files, history, formatted, AsksForRollover(now, id, n);
      var data := Format(id, n);
      var rolled := MakeRoom(now, SizeOf(data));
      assert rolled == asked;
      if !isOpen {
        return false;
      }
      ghost var f1, h1 := files, history;
      if rolled {
        f := formatted;
        data := Format(id, n);
      }
      Write(data, f, id, n);
      CarriesTwice(cfg, path, site.archivePath, f0, h0, f1, h1, files, history);
      if asked {
        ArchivedOnce(AsksAgain(now, id, n), cfg, path, f0, h0, data, Record(id, n), files, history);
      }
      return true;
    }

    method AppendOpen(now: int, id: int, n: nat) returns (ok: bool)
      requires Valid() && isOpen
      modifies this
      ensures Valid() && closed == old(closed) && isOpen == ok
      ensures Log() == if ok then old(Log()) + [id] else old(Log())
      ensures StepsFrom(old(files), old(history), old(begunEmpty))
      ensures ok ==>
                && WentInto(
                     old(AsksForRollover(now, id, n)), now, id, n, old(files), old(history), old(TextOf(id, n)))
                && (old(!AsksForRollover(now, id, n)) ==> unchanged(`nextRollover, `nextCron))
      ensures old(!AsksForRollover(now, id, n)) ==> ok
      ensures !ok ==> Exhausted(now)
    {
      if cfg.complete {
        ok := AppendSynchronized(now, id, n);
      } else {
        ok := AppendFormatted(now, id, n);
      }
    }

    /** The first event after an earlier run, or after a rollover that failed. */
    method AppendFirst(now: int, id: int, n: nat) returns (ok: bool)
      requires Valid() && !isOpen && !closed
      modifies this
      ensures Valid() && !closed && (ok ==> isOpen)
      ensures StepsFrom(old(files), old(history), old(StartsEmpty()))
      ensures var base := if cfg.append then old(Log()) else Archived(old(history));
              Log() == if ok then base + [id] else base
      ensures ok ==>
                && ScheduledAt(now)
                && WentInto(
                     old(AsksAtFirst(now, id, n)), now, id, n, old(files)[path := old(Opened(cfg, Left()))],
                     old(history), old(FirstText(id, n)))
      ensures !ok ==> Exhausted(now)
    {
      hide Faithful, ArchivesOk, Carries, BegunAfter, MustArchive, ArchivedOrWritten, SlotsOk, FileOk, Archived;
      ghost var f0, h0, b0, left, text := files, history, StartsEmpty(), Left(), FirstText(id, n);
      ok := Open(now);
      if ok {
        ghost var f1, h1, b1 := files, history, begunEmpty;
        assert b1 && files[path] == [Header(cfg.headerSize)] ==>
            TextOf(id, n) == [Record(id, n)] && AsksForRollover(now, id, n) == AsksAgain(now, id, n);
        ok := AppendOpen(now, id, n);
        CarriesTwice(cfg, path, site.archivePath, f0, h0, f1, h1, files, history);
        BegunTwice(h0, b0, h1, b1, history, begunEmpty);
        if ok && cfg.rolloverOnStartup && SizeOf(left) > 0 {
          BodiesStay(h1, b1, history, begunEmpty, |h0|);
          ArchivedThen(
            AsksAgain(now, id, n), cfg, path, f0[path := left], h0, text, Record(id, n), f1, h1, files, history);
        }
      }
    }

    /** Append: the record becomes the last one on record; archives stay kept and in place,
        or in min mode in the order of the slots; a failed call adds nothing. */
    method Append(now: int, id: int, n: nat) returns (ok: bool)
      requires Valid()
      modifies this
      ensures Valid() && closed == old(closed) && (ok ==> isOpen)
      ensures old(closed) ==> !ok && unchanged(this)
      ensures !old(closed) ==> StepsFrom(old(files), old(history), old(StartsEmpty()))
      ensures !old(closed) ==>
                var base := if old(isOpen) || cfg.append then old(Log()) else Archived(old(history));
                Log() == if ok then base + [id] else base
      ensures ok && old(isOpen) ==>
                && WentInto(
                     old(AsksForRollover(now, id, n)), now, id, n, old(files), old(history), old(TextOf(id, n)))
                && (old(!AsksForRollover(now, id, n)) ==> unchanged(`nextRollover, `nextCron))
      ensures ok && old(!isOpen) ==>
                && ScheduledAt(now)
                && WentInto(
                     old(AsksAtFirst(now, id, n)), now, id, n, old(files)[path := old(Opened(cfg, Left()))],
                     old(history), old(FirstText(id, n)))
      ensures old(isOpen && !AsksForRollover(now, id, n)) ==> ok
      ensures !ok ==> old(closed) || Exhausted(now)
    {
      hide Faithful, ArchivesOk, Carries, BegunAfter;
      if closed {
        return false;
      }
      if isOpen {
        ok := AppendOpen(now, id, n);
        return;
      }
      ok := AppendFirst(now, id, n);
    }

    /** Close: the active file gets its footer; a file that was begun empty is then finished. */
    method Close()
      requires Valid()
      modifies `files, `isOpen, `closed
      ensures Valid() && closed && !isOpen && Log() == old(Log()) && CarriesFrom(old(files), history)
      ensures files ==
              if old(isOpen) then old(files)[path := old(files[path]) + [Footer(cfg.footerSize)]] else old(files)
      ensures old(isOpen) && begunEmpty ==> path in files && Finished(cfg, files[path])
    {
      CarriesSelf(cfg, path, site.archivePath, files, history);
      if closed {
        return;
      }
      if isOpen {
        ghost var f0 := files;
        ghost var body := FinishActive();
        WriteCarries(cfg, path, site.archivePath, f0, history, body + FooterOf(cfg));
        if begunEmpty {
          FooterFinishes(cfg, body);
        }
      }
      closed := true;
    }

    /** Retention removes an archive: nothing else changes, and only that archive is lost. */
    method DeleteArchive(p: string)
      requires Valid() && p != path
      modifies `files, `history
      ensures Valid() && Log() == old(Log())
      ensures files == Removed(old(files), p) && history == Forget(old(history), p)
    {
      RemoveKeepsFaith(files, history, path, FooterOf(cfg), p);
      SameBodiesOk(cfg, history, Forget(history, p));
      SameBodiesArchived(history, Forget(history, p));
      files, history := Removed(files, p), Forget(history, p);
    }
  }
}
