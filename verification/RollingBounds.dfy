// What one log file may hold: how events are formatted for it and when it is full.
module RollingBounds {
  import opened Optional
  import opened RollingFiles

  datatype IndexMode = NoMax | Max | Min

  /** complete: the layout is a JSON layout that writes each file as one array. */
  datatype Config = Config(
    maxSize: nat, interval: nat, modulate: bool, mode: IndexMode, hasPattern: bool, maxBackups: nat,
    rolloverOnStartup: bool, append: bool, complete: bool,
    headerSize: nat, footerSize: nat, separatorSize: nat)

  predicate ValidConfig(cfg: Config) {
    cfg.complete ==> cfg.headerSize > 0
  }

  function FooterOf(cfg: Config): seq<Piece> {
    [Footer(cfg.footerSize)]
  }

  lemma FooterHidesNothing(cfg: Config, ps: seq<Piece>)
    ensures RecordsOf(ps + FooterOf(cfg)) == RecordsOf(ps)
  {
    OneMore(ps, Footer(cfg.footerSize));
  }

  // ----- Formatting

  /** What Format makes of an event; formatted counts the events of the file so far. */
  function Formatted(cfg: Config, formatted: nat, id: int, n: nat): seq<Piece> {
    if cfg.complete && formatted > 0 then [Separator(cfg.separatorSize), Record(id, n)] else [Record(id, n)]
  }

  lemma FormattedAdds(cfg: Config, ps: seq<Piece>, formatted: nat, id: int, n: nat)
    ensures var data := Formatted(cfg, formatted, id, n);
            && RecordsOf(ps + data) == RecordsOf(ps) + [id]
            && SizeOf(ps + data) == SizeOf(ps) + SizeOf(data)
  {
    var sep, record := Separator(cfg.separatorSize), Record(id, n);
    if cfg.complete && formatted > 0 {
      TwoMore(ps, sep, record);
      TwoMore([], sep, record);
      assert [] + [sep, record] == [sep, record];
    } else {
      OneMore(ps, record);
      JustOne(record);
    }
  }

  // ----- When a file is to be archived

  /** A time that was set for the file has come. */
  predicate TimeHasCome(next: Option<int>, cron: Option<int>, now: int) {
    (next.Some? && next.value <= now) || (cron.Some? && cron.value <= now)
  }

  /** The limit is on, the file has a size, and with the text it would exceed the limit. */
  predicate WouldOverflow(cfg: Config, content: seq<Piece>, text: seq<Piece>) {
    cfg.maxSize > 0 && SizeOf(content) > 0 && SizeOf(content) + SizeOf(text) > cfg.maxSize
  }

  predicate MustArchive(
    cfg: Config, next: Option<int>, cron: Option<int>, content: seq<Piece>, text: seq<Piece>, now: int)
  {
    TimeHasCome(next, cron, now) || WouldOverflow(cfg, content, text)
  }

  // ----- The size limit

  predicate Overfull(cfg: Config, ps: seq<Piece>) {
    cfg.maxSize > 0 && SizeOf(ps) > cfg.maxSize
  }

  /** A header first, and then, unless the file is complete JSON, records only. */
  predicate Begun(cfg: Config, ps: seq<Piece>) {
    ps != [] && ps[0] == Header(cfg.headerSize) && (!cfg.complete ==> RecordsOnly(ps[1..]))
  }

  predicate RecordsOnly(ps: seq<Piece>) {
    forall i :: 0 <= i < |ps| ==> ps[i].Record?
  }

  predicate Weightless(ps: seq<Piece>) {
    forall i :: 0 <= i < |ps| ==> ps[i].n == 0
  }

  /** At most one record, or one behind records that are all empty, as is their header. */
  predicate LoneLast(cfg: Config, ps: seq<Piece>)
    requires ps != []
  {
    || |ps| == 1
    || (ps[|ps| - 1].Record? && (|ps| == 2 || (!cfg.complete && Weightless(ps[..|ps| - 1]))))
  }

  /** What holds of a file that was begun empty. */
  predicate FileOk(cfg: Config, ps: seq<Piece>) {
    && Begun(cfg, ps)
    && (Overfull(cfg, ps) ==> LoneLast(cfg, ps))
    && (cfg.complete ==> OpenArray(ps))
  }

  /** The count of formatted events is zero exactly before the first one. */
  predicate CountedOk(cfg: Config, ps: seq<Piece>, formatted: nat) {
    cfg.complete ==> (formatted == 0 <==> |ps| == 1)
  }

  lemma {:induction false} NothingWeighsNothing(ps: seq<Piece>)
    ensures SizeOf(ps) == 0 <==> Weightless(ps)
  {
    if ps != [] {
      NothingWeighsNothing(ps[..|ps| - 1]);
      assert Weightless(ps) <==> Weightless(ps[..|ps| - 1]) && ps[|ps| - 1].n == 0;
    }
  }

  lemma HeaderOnlyIsOk(cfg: Config)
    requires ValidConfig(cfg)
    ensures FileOk(cfg, [Header(cfg.headerSize)]) && CountedOk(cfg, [Header(cfg.headerSize)], 0)
    ensures SizeOf([Header(cfg.headerSize)]) == cfg.headerSize && RecordsOf([Header(cfg.headerSize)]) == []
  {
    JustOne(Header(cfg.headerSize));
    OpenArrayStarts(cfg.headerSize);
  }

  /** Room for the text of an event: it fits, or it is the first since the header, or the
      file has no size yet. */
  predicate HasRoom(cfg: Config, ps: seq<Piece>, pending: nat) {
    cfg.maxSize > 0 && SizeOf(ps) > 0 && SizeOf(ps) + pending > cfg.maxSize ==> ps == [Header(cfg.headerSize)]
  }

  lemma WriteKeepsBegun(cfg: Config, ps: seq<Piece>, formatted: nat, id: int, n: nat)
    requires Begun(cfg, ps)
    ensures Begun(cfg, ps + Formatted(cfg, formatted, id, n))
  {
    var data := Formatted(cfg, formatted, id, n);
    assert (ps + data)[1..] == ps[1..] + data;
  }

  lemma WriteKeepsLimit(cfg: Config, ps: seq<Piece>, formatted: nat, id: int, n: nat)
    requires ValidConfig(cfg) && FileOk(cfg, ps) && CountedOk(cfg, ps, formatted)
    requires HasRoom(cfg, ps, SizeOf(Formatted(cfg, formatted, id, n)))
    ensures var all := ps + Formatted(cfg, formatted, id, n); Overfull(cfg, all) ==> LoneLast(cfg, all)
  {
    var data := Formatted(cfg, formatted, id, n);
    var all := ps + data;
    FormattedAdds(cfg, ps, formatted, id, n);
    NothingWeighsNothing(ps);
    if Overfull(cfg, all) {
      assert ps[0].n == cfg.headerSize;
      if SizeOf(ps) == 0 {
        assert !cfg.complete && all[..|all| - 1] == ps;
      } else {
        assert ps == [Header(cfg.headerSize)] && |data| == 1;
      }
    }
  }

  lemma WriteKeepsArray(cfg: Config, ps: seq<Piece>, formatted: nat, id: int, n: nat)
    requires cfg.complete && OpenArray(ps) && CountedOk(cfg, ps, formatted)
    ensures OpenArray(ps + Formatted(cfg, formatted, id, n))
  {
    if formatted > 0 {
      OpenArrayNext(ps, cfg.separatorSize, id, n);
    } else {
      OpenArrayFirst(ps[0].n, id, n);
      assert ps + [Record(id, n)] == [Header(ps[0].n), Record(id, n)];
    }
  }

  /** Writing one more event keeps a file good, if there is room for it. */
  lemma WriteKeepsFile(cfg: Config, ps: seq<Piece>, formatted: nat, id: int, n: nat)
    requires ValidConfig(cfg) && FileOk(cfg, ps) && CountedOk(cfg, ps, formatted)
    requires HasRoom(cfg, ps, SizeOf(Formatted(cfg, formatted, id, n)))
    ensures FileOk(cfg, ps + Formatted(cfg, formatted, id, n))
    ensures CountedOk(cfg, ps + Formatted(cfg, formatted, id, n), formatted + 1)
  {
    WriteKeepsBegun(cfg, ps, formatted, id, n);
    WriteKeepsLimit(cfg, ps, formatted, id, n);
    if cfg.complete {
      WriteKeepsArray(cfg, ps, formatted, id, n);
    }
  }

  // ----- Files above the limit

  lemma {:induction false} RecordsOfRecords(ps: seq<Piece>)
    requires RecordsOnly(ps)
    ensures |RecordsOf(ps)| == |ps|
  {
    if ps != [] {
      RecordsOfRecords(ps[..|ps| - 1]);
    }
  }

  lemma {:induction false} RecordsAfterHeader(h: Piece, ps: seq<Piece>)
    requires !h.Record?
    ensures RecordsOf([h] + ps) == RecordsOf(ps)
  {
    if ps == [] {
      JustOne(h);
      assert [h] + ps == [h];
    } else {
      RecordsAfterHeader(h, ps[..|ps| - 1]);
      OneMore([h] + ps[..|ps| - 1], ps[|ps| - 1]);
      assert [h] + ps == [h] + ps[..|ps| - 1] + [ps[|ps| - 1]];
    }
  }

  /** Some record before the last piece takes no space. */
  predicate EmptyRecordBefore(ps: seq<Piece>) {
    exists i :: 0 <= i < |ps| - 1 && ps[i].Record? && ps[i].n == 0
  }

  predicate RecordsTakeSpace(ps: seq<Piece>) {
    forall i :: 0 <= i < |ps| && ps[i].Record? ==> ps[i].n > 0
  }

  lemma OverfullShape(cfg: Config, ps: seq<Piece>)
    requires FileOk(cfg, ps) && Overfull(cfg, ps)
    ensures |RecordsOf(ps)| == |ps| - 1
    ensures |ps| > 2 ==> !cfg.complete && Weightless(ps[..|ps| - 1]) && RecordsOnly(ps[1..])
  {
    RecordsAfterHeader(ps[0], ps[1..]);
    assert ps == [ps[0]] + ps[1..];
    if |ps| == 1 {
      assert ps[1..] == [];
    } else {
      assert RecordsOnly(ps[1..]) by {
        assert |ps| == 2 ==> ps[1..] == [ps[1]];
      }
      RecordsOfRecords(ps[1..]);
    }
  }

  /** A file above the limit that holds records holds exactly one of them, exactly when no
      empty record precedes the last. */
  lemma OverfullHoldsOne(cfg: Config, ps: seq<Piece>)
    requires FileOk(cfg, ps) && Overfull(cfg, ps) && RecordsOf(ps) != []
    ensures |RecordsOf(ps)| == 1 <==> !EmptyRecordBefore(ps)
    ensures cfg.headerSize > 0 || RecordsTakeSpace(ps) ==> |RecordsOf(ps)| == 1
  {
    OverfullShape(cfg, ps);
    if |ps| > 2 {
      assert ps[..|ps| - 1][0] == ps[0] && ps[..|ps| - 1][1] == ps[1] == ps[1..][0];
    }
  }
}
