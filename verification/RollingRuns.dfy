// Whole runs of the rolling file appender.
module RollingRuns {
  import opened Optional
  import opened RollingFiles
  import opened RollingBounds
  import opened RollingSlots
  import opened RollingSteps
  import opened RollingAppender

  /** An event that arrives at a time and is formatted to n bytes. */
  datatype Event = Event(now: int, id: int, n: nat)

  function Ids(events: seq<Event>): (ids: seq<int>)
    ensures |ids| == |events|
  {
    seq(|events|, i requires 0 <= i < |events| => events[i].id)
  }

  /** Nothing was logged yet and the first use finds, or makes, an empty file. */
  ghost predicate Unused(w: RollingFile)
    reads w
  {
    w.Valid() && !w.isOpen && !w.closed && w.history == [] && w.StartsEmpty()
  }

  /** Every file that a run leaves behind is finished: as many whole files as archives are
      left, and the active one. */
  ghost predicate AllFinished(cfg: Config, files: Files, history: seq<Archive>, path: string) {
    && path in files && Finished(cfg, files[path])
    && forall i :: 0 <= i < |history| && history[i].kept ==>
         history[i].path in files && Finished(cfg, files[history[i].path])
  }

  lemma RunIsFinished(w: RollingFile)
    requires w.Valid() && AllBegunEmpty(w.history)
    requires w.path in w.files && Finished(w.cfg, w.files[w.path])
    ensures AllFinished(w.cfg, w.files, w.history, w.path)
  {
    forall i | 0 <= i < |w.history| && w.history[i].kept
      ensures w.history[i].path in w.files && Finished(w.cfg, w.files[w.history[i].path])
    {
      ArchivesAreFinished(w.cfg, w.files, w.history, w.path, i);
    }
  }

  // ----- Why files are archived

  /** What an event finds: the active file, the times set for it, and what was archived. */
  datatype Sight = Sight(content: seq<Piece>, next: Option<int>, cron: Option<int>, archived: seq<seq<Piece>>)

  function Bodies(history: seq<Archive>): (bodies: seq<seq<Piece>>)
    ensures |bodies| == |history|
  {
    seq(|history|, i requires 0 <= i < |history| => history[i].body)
  }

  function NextTime(w: RollingFile, now: int): Option<int>
  {
    NextRolloverAfter(now, w.cfg.interval, w.cfg.modulate, w.site.midnight)
  }

  /** Before the first event the file is opened, and its times are set, for the event. */
  ghost function SeenAt(w: RollingFile, now: int): Sight
    requires w.isOpen ==> w.path in w.files
    reads w
  {
    if w.isOpen then Sight(w.files[w.path], w.nextRollover, w.nextCron, Bodies(w.history))
    else Sight([Header(w.cfg.headerSize)], NextTime(w, now), w.site.cronAfter(now), Bodies(w.history))
  }

  /** The text of an event: in a complete file a separator comes before all but the first. */
  function TextFor(cfg: Config, content: seq<Piece>, e: Event): seq<Piece> {
    (if cfg.complete && |content| > 1 then [Separator(cfg.separatorSize)] else []) + [Record(e.id, e.n)]
  }

  /** From one event to the next: when a time has come for the file, or the file with the text
      would exceed the limit, then the file is archived and the record is the first of a new
      file, whose times are set afresh. Otherwise the text joins the file. */
  ghost predicate Went(cfg: Config, e: Event, a: Sight, b: Sight, next: Option<int>, cron: Option<int>) {
    var text := TextFor(cfg, a.content, e);
    if || (a.next.Some? && e.now >= a.next.value)
       || (a.cron.Some? && e.now >= a.cron.value)
       || (cfg.maxSize > 0 && SizeOf(a.content) > 0 && SizeOf(a.content) + SizeOf(text) > cfg.maxSize)
    then
      && b.content == [Header(cfg.headerSize), Record(e.id, e.n)] && b.next == next && b.cron == cron
      && a.archived + [a.content] <= b.archived
      && forall k :: |a.archived| < k < |b.archived| ==>
           ArchivedAt(cfg, e, Sight([Header(cfg.headerSize)], next, cron, []), b.archived[k])
    else b == a.(content := a.content + text)
  }

  lemma SeenWent(cfg: Config, e: Event, a: Sight, f0: Files, h0: seq<Archive>, path: string,
                 next: Option<int>, cron: Option<int>, again: bool, b: Sight, f1: Files, h1: seq<Archive>)
    requires path in f0 && a.content == f0[path] && a.archived == Bodies(h0)
    requires path in f1 && b.content == f1[path] && b.archived == Bodies(h1)
    requires var text := TextFor(cfg, a.content, e);
             ArchivedOrWritten(MustArchive(cfg, a.next, a.cron, a.content, text, e.now), again, cfg, path, f0, h0, text,
                               Record(e.id, e.n), f1, h1)
    requires |h0| <= |h1| && forall i :: 0 <= i < |h0| ==> h1[i].body == h0[i].body
    requires if MustArchive(cfg, a.next, a.cron, a.content, TextFor(cfg, a.content, e), e.now)
             then b.next == next && b.cron == cron else b.next == a.next && b.cron == a.cron
    requires again ==> MustArchive(cfg, next, cron, [Header(cfg.headerSize)], [Record(e.id, e.n)], e.now)
    ensures Went(cfg, e, a, b, next, cron)
  {
    assert [] + [Record(e.id, e.n)] == [Record(e.id, e.n)];
  }

  ghost predicate ArchivedAt(cfg: Config, e: Event, a: Sight, body: seq<Piece>) {
    && body == a.content
    && (TimeHasCome(a.next, a.cron, e.now) || WouldOverflow(cfg, a.content, TextFor(cfg, a.content, e)))
  }

  /** A file that has just been begun. */
  ghost function Fresh(w: RollingFile, now: int): Sight
  {
    Sight([Header(w.cfg.headerSize)], NextTime(w, now), w.site.cronAfter(now), [])
  }

  /** Every archive of a run was archived for a reason: an event found that its time had come,
      or that the record would have made it exceed the limit. */
  ghost predicate HasReason(w: RollingFile, events: seq<Event>, trace: seq<Sight>, body: seq<Piece>)
    requires |trace| == |events| + 1
  {
    exists n :: 0 <= n < |events| && ReasonAt(w, events[n], trace[n], body)
  }

  ghost predicate ReasonAt(w: RollingFile, e: Event, a: Sight, body: seq<Piece>)
  {
    ArchivedAt(w.cfg, e, a, body) || ArchivedAt(w.cfg, e, Fresh(w, e.now), body)
  }

  ghost predicate Traced(w: RollingFile, events: seq<Event>, trace: seq<Sight>)
    requires |trace| == |events| + 1
  {
    forall n :: 0 <= n < |events| ==>
      Went(w.cfg, events[n], trace[n], trace[n + 1], NextTime(w, events[n].now), w.site.cronAfter(events[n].now))
  }

  lemma {:induction false} ArchivesHaveReasons(w: RollingFile, events: seq<Event>, trace: seq<Sight>, m: nat, k: nat)
    requires |trace| == |events| + 1 && Traced(w, events, trace) && trace[0].archived == []
    requires m <= |events| && k < |trace[m].archived|
    ensures HasReason(w, events, trace, trace[m].archived[k])
  {
    var n := m - 1;
    assert m > 0 && Went(
      w.cfg, events[n], trace[n], trace[n + 1], NextTime(w, events[n].now), w.site.cronAfter(events[n].now));
    if k < |trace[n].archived| {
      ArchivesHaveReasons(w, events, trace, n, k);
      assert trace[m].archived[k] == trace[n].archived[k];
    } else {
      assert ReasonAt(w, events[n], trace[n], trace[m].archived[k]);
    }
  }

  /** No record is written to a file whose time has come. */
  lemma NoRecordAfterTime(w: RollingFile, events: seq<Event>, trace: seq<Sight>, n: nat)
    requires |trace| == |events| + 1 && Traced(w, events, trace) && n < |events|
    requires TimeHasCome(trace[n].next, trace[n].cron, events[n].now)
    ensures trace[n + 1].content == [Header(w.cfg.headerSize), Record(events[n].id, events[n].n)]
  {
    assert Went(
      w.cfg, events[n], trace[n], trace[n + 1], NextTime(w, events[n].now), w.site.cronAfter(events[n].now));
  }

  // ----- Runs

  /** The appender after the first n events of a run that began with the files f0. */
  ghost predicate Midway(w: RollingFile, events: seq<Event>, n: nat, f0: Files)
    requires n <= |events|
    reads w
  {
    && w.Valid() && !w.closed && w.StartsEmpty() && AllBegunEmpty(w.history)
    && w.CarriesFrom(f0, [])
    && (if n == 0 then !w.isOpen && w.history == [] else w.isOpen && w.Log() == Ids(events[..n]))
  }

  lemma NextId(events: seq<Event>, n: nat)
    requires n < |events|
    ensures Ids(events[..n + 1]) == Ids(events[..n]) + [events[n].id]
    ensures n == 0 ==> Ids(events[..1]) == [events[0].id]
  {
  }

  lemma TextIs(w: RollingFile, e: Event)
    requires w.Valid()
    ensures w.isOpen && w.begunEmpty ==> w.TextOf(e.id, e.n) == TextFor(w.cfg, w.files[w.path], e)
    ensures TextFor(w.cfg, [Header(w.cfg.headerSize)], e) == [Record(e.id, e.n)]
  {
    assert [] + [Record(e.id, e.n)] == [Record(e.id, e.n)];
  }

  method Step(w: RollingFile, events: seq<Event>, n: nat, ghost f0: Files) returns (ok: bool)
    requires n < |events| && Midway(w, events, n, f0)
    modifies w
    ensures w.Valid() && !w.closed && (if ok then Midway(w, events, n + 1, f0) else w.Exhausted(events[n].now))
    ensures ok ==>
              Went(w.cfg, events[n], old(SeenAt(w, events[n].now)), SeenAt(w, 0), NextTime(w, events[n].now),
                   w.site.cronAfter(events[n].now))
  {
    hide Went, BegunAfter, Carries, SizeOf, Slotted, MustArchive, ArchivedOrWritten;
    var e := events[n];
    ghost var f1, h1, b1, a := w.files, w.history, w.StartsEmpty(), SeenAt(w, e.now);
    ghost var seen := if w.isOpen then w.files else w.files[w.path := [Header(w.cfg.headerSize)]];
    ghost var text := TextFor(w.cfg, a.content, e);
    ghost var asked := MustArchive(w.cfg, a.next, a.cron, a.content, text, e.now);
    AsksAlike(w, e);
    NothingYet(w, events, n, f0);
    ok := w.Append(e.now, e.id, e.n);
    if ok {
      assert w.WentInto(asked, e.now, e.id, e.n, seen, h1, text);
      NextMidway(w, events, n, f0, f1, h1);
      WentIs(w, e, a, seen, h1);
    }
  }

  /** What Append asks is what its event sees. */
  lemma AsksAlike(w: RollingFile, e: Event)
    requires w.Valid() && w.StartsEmpty()
    ensures var a := SeenAt(w, e.now);
            var text := TextFor(w.cfg, a.content, e);
            var asked := MustArchive(w.cfg, a.next, a.cron, a.content, text, e.now);
            && (w.isOpen ==> w.TextOf(e.id, e.n) == text && w.AsksForRollover(e.now, e.id, e.n) == asked)
            && (!w.isOpen ==>
                  && w.FirstText(e.id, e.n) == text && w.AsksAtFirst(e.now, e.id, e.n) == asked
                  && Opened(w.cfg, w.Left()) == [Header(w.cfg.headerSize)])
  {
    hide MustArchive;
    TextIs(w, e);
    OpenedIsOk(w.cfg, []);
  }

  lemma NothingYet(w: RollingFile, events: seq<Event>, n: nat, f0: Files)
    requires n < |events| && Midway(w, events, n, f0)
    ensures (if w.isOpen || w.cfg.append then w.Log() else Archived(w.history)) == Ids(events[..n])
  {
  }

  lemma NextMidway(
    w: RollingFile, events: seq<Event>, n: nat, f0: Files, f1: Files, h1: seq<Archive>)
    requires n < |events| && w.Valid() && w.isOpen && !w.closed && w.StepsFrom(f1, h1, true)
    requires AllBegunEmpty(h1) && Carries(w.cfg, w.path, w.site.archivePath, f0, [], f1, h1)
    requires w.Log() == Ids(events[..n]) + [events[n].id]
    ensures Midway(w, events, n + 1, f0)
  {
    hide Carries;
    AllBegunAfter(h1, w.history, w.begunEmpty);
    CarriesTwice(w.cfg, w.path, w.site.archivePath, f0, [], f1, h1, w.files, w.history);
    NextId(events, n);
  }

  lemma WentIs(w: RollingFile, e: Event, a: Sight, f0: Files, h0: seq<Archive>)
    requires w.Valid() && w.isOpen && BegunAfter(h0, true, w.history, w.begunEmpty)
    requires w.path in f0 && a.content == f0[w.path] && a.archived == Bodies(h0)
    requires var text := TextFor(w.cfg, a.content, e);
             var asked := MustArchive(w.cfg, a.next, a.cron, a.content, text, e.now);
             && w.WentInto(asked, e.now, e.id, e.n, f0, h0, text)
             && (asked || (w.nextRollover == a.next && w.nextCron == a.cron))
    ensures Went(w.cfg, e, a, SeenAt(w, 0), NextTime(w, e.now), w.site.cronAfter(e.now))
  {
    hide Went, MustArchive, ArchivedOrWritten;
    BodiesAllStay(h0, true, w.history, w.begunEmpty);
    SeenWent(
      w.cfg, e, a, f0, h0, w.path, NextTime(w, e.now), w.site.cronAfter(e.now), w.AsksAgain(e.now, e.id, e.n),
      SeenAt(w, 0), w.files, w.history);
  }

  lemma BodiesAllStay(h0: seq<Archive>, b0: bool, h1: seq<Archive>, b1: bool)
    requires BegunAfter(h0, b0, h1, b1)
    ensures |h0| <= |h1| && forall i :: 0 <= i < |h0| ==> h1[i].body == h0[i].body
  {
  }

  lemma SeenMidway(w: RollingFile, events: seq<Event>, n: nat, f0: Files, now: int)
    requires n <= |events| && Midway(w, events, n, f0)
    ensures w.Valid() && (w.isOpen ==> w.path in w.files)
    ensures SeenAt(w, now).archived == Bodies(w.history) && (n == 0 ==> Bodies(w.history) == [])
    ensures n > 0 ==> SeenAt(w, now) == SeenAt(w, 0)
  {
    hide Carries;
  }

  /** All events of a run, one after another. */
  method Feed(w: RollingFile, events: seq<Event>, ghost f0: Files) returns (ok: bool, ghost trace: seq<Sight>)
    requires events != [] && Midway(w, events, 0, f0)
    modifies w
    ensures w.Valid()
    ensures !ok ==> exists n :: 0 <= n < |events| && w.Exhausted(events[n].now)
    ensures ok ==> Midway(w, events, |events|, f0)
    ensures ok ==>
              && |trace| == |events| + 1 && Traced(w, events, trace)
              && trace[0].archived == [] && trace[|events|].archived == Bodies(w.history)
  {
    hide Went, Midway, SeenAt, NextTime;
    SeenMidway(w, events, 0, f0, events[0].now);
    trace := [SeenAt(w, events[0].now)];
    for n := 0 to |events|
      invariant Midway(w, events, n, f0)
      invariant w.Valid() && (w.isOpen ==> w.path in w.files)
      invariant |trace| == n + 1 && trace[0].archived == [] && trace[n].archived == Bodies(w.history)
      invariant n < |events| ==> trace[n] == SeenAt(w, events[n].now)
      invariant forall m :: 0 <= m < n ==>
                  Went(w.cfg, events[m], trace[m], trace[m + 1], NextTime(w, events[m].now),
                       w.site.cronAfter(events[m].now))
    {
      ok := Step(w, events, n, f0);
      if !ok {
        return;
      }
      SeenMidway(w, events, n + 1, f0, 0);
      if n + 1 < |events| {
        SeenMidway(w, events, n + 1, f0, events[n + 1].now);
      }
      trace := trace + [SeenAt(w, 0)];
    }
    ok := true;
  }

  /** A run from an empty file without errors and without retention, then Close: archives
      and active file hold exactly the events in order; no archive and no foreign file is
      touched; every file is finished, so complete JSON files are whole arrays. In min mode
      the archives are where their age puts them. The trace says at each event what became of
      the file it found. */
  method Run(w: RollingFile, events: seq<Event>) returns (ok: bool, ghost trace: seq<Sight>)
    requires Unused(w) && events != []
    modifies w
    ensures w.Valid()
    ensures !ok ==> exists n :: 0 <= n < |events| && w.Exhausted(events[n].now)
    ensures w.cfg.mode.Min? && w.cfg.hasPattern && w.cfg.maxBackups > 0 ==> ok
    ensures ok ==> w.closed && w.Log() == Ids(events)
    ensures ok ==> AllFinished(w.cfg, w.files, w.history, w.path)
    ensures ok && !(w.cfg.mode.Min? && w.cfg.hasPattern && w.cfg.maxBackups > 0) ==>
              && AllKept(w.history) && w.OnDisk() == Ids(events)
              && Preserves(w.path, old(w.files), [], w.files, w.history)
    ensures ok && MinIndexed(w.cfg) && old(Slotted(w.cfg, w.site.archivePath, w.files, [])) ==>
              Slotted(w.cfg, w.site.archivePath, w.files, w.history)
    ensures ok ==>
              && |trace| == |events| + 1 && Traced(w, events, trace) && trace[|events|].archived == Bodies(w.history)
              && forall k :: 0 <= k < |w.history| ==> HasReason(w, events, trace, w.history[k].body)
  {
    hide Preserves, Faithful, Finished, ArchivesOk, Traced, HasReason;
    ghost var f0 := w.files;
    CarriesSelf(w.cfg, w.path, w.site.archivePath, f0, []);
    ok, trace := Feed(w, events, f0);
    if !ok {
      return;
    }
    assert events[..|events|] == events;
    ghost var f1, h1 := w.files, w.history;
    forall k | 0 <= k < |h1| ensures HasReason(w, events, trace, h1[k].body) {
      ArchivesHaveReasons(w, events, trace, |events|, k);
    }
    w.Close();
    CarriesTwice(w.cfg, w.path, w.site.archivePath, f0, [], f1, h1, w.files, w.history);
    RunIsFinished(w);
    if !MinIndexed(w.cfg) {
      PreservedStayKept(w.path, f0, [], w.files, w.history);
      w.DiskIsComplete();
    }
  }

  /** In min mode a run leaves the archives of the first filling that the rotations have not
      reached yet, and the newest ones: of c archives in max slots, those below 2 * max - c
      and those from max and c - max on. */
  lemma LeftInSlots(w: RollingFile, i: nat)
    requires w.Valid() && MinIndexed(w.cfg) && Slotted(w.cfg, w.site.archivePath, w.files, w.history)
    requires i < |w.history|
    ensures var c, max := |w.history|, w.cfg.maxBackups;
            w.history[i].kept <==> c <= max || i < 2 * max - c || (i >= max && i >= c - max)
    ensures w.history[i].kept ==>
              && w.history[i].path in w.files
              && w.files[w.history[i].path] == w.history[i].body + FooterOf(w.cfg)
  {
    assert InItsSlot(w.history, SlotsOf(w.site.archivePath, 0), w.cfg.maxBackups, i);
  }

  // ----- Empty records

  function Empties(k: nat): (ps: seq<Piece>)
    ensures |ps| == k && RecordsOnly(ps) && Weightless(ps)
  {
    seq(k, i => Record(i, 0))
  }

  /** No size limit is ever met by records without bytes behind an empty header: k of them
      and one record above the limit end in the same file. */
  method EmptyRecordsSlipIn(w: RollingFile, k: nat, big: nat)
    requires Unused(w) && !w.cfg.complete && w.cfg.headerSize == 0 && w.cfg.interval == 0
    requires forall now :: w.site.cronAfter(now).None?
    requires 0 < w.cfg.maxSize < big
    modifies w
    ensures w.Valid() && w.history == [] && w.isOpen && w.begunEmpty && w.path in w.files
    ensures w.files[w.path] == [Header(0)] + Empties(k) + [Record(k, big)]
    ensures Overfull(w.cfg, w.files[w.path]) && |RecordsOf(w.files[w.path])| == k + 1
  {
    OpenForEmpties(w);
    ghost var empty := [Header(0)];
    assert empty + Empties(0) == empty;
    for i := 0 to k
      invariant ReadyForMore(w) && w.files[w.path] == empty + Empties(i)
    {
      NoSize(i);
      AppendWeightless(w, i, 0);
      assert empty + Empties(i) + [Record(i, 0)] == empty + Empties(i + 1);
    }
    NoSize(k);
    AppendWeightless(w, k, big);
    FormattedAdds(w.cfg, empty + Empties(k), 0, k, big);
    JustOne(Record(k, big));
    OverfullShape(w.cfg, w.files[w.path]);
  }

  ghost predicate ReadyForMore(w: RollingFile)
    reads w
  {
    && w.Valid() && w.isOpen && w.begunEmpty && w.history == []
    && w.nextRollover == None && w.nextCron == None && w.path in w.files
  }

  method OpenForEmpties(w: RollingFile)
    requires Unused(w) && w.cfg.headerSize == 0 && w.cfg.interval == 0
    requires forall now :: w.site.cronAfter(now).None?
    modifies w
    ensures ReadyForMore(w) && w.files[w.path] == [Header(0)]
  {
    var ok := w.Open(0);
  }

  /** An event that finds the active file without size joins it. */
  method AppendWeightless(w: RollingFile, id: int, n: nat)
    requires ReadyForMore(w) && !w.cfg.complete && SizeOf(w.files[w.path]) == 0
    modifies w
    ensures ReadyForMore(w) && w.files[w.path] == old(w.files[w.path]) + [Record(id, n)]
  {
    assert !w.AsksForRollover(0, id, n);
    var ok := w.Append(0, id, n);
  }

  lemma NoSize(k: nat)
    ensures SizeOf([Header(0)] + Empties(k)) == 0
  {
    NothingWeighsNothing([Header(0)] + Empties(k));
  }
}
