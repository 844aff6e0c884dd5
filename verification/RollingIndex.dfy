// The index of the next archive, from the names of the archives that exist.
module RollingIndex {
  import opened Optional
  import opened RollingMisreads
  import opened RollingPattern
  import opened RollingReading
  import opened RollingSearch

  /** The largest int of a 64-bit platform; strconv.Atoi fails above it. */
  const MAX_INT: nat := 0x7FFF_FFFF_FFFF_FFFF

  /** What compression adds to a name. */
  function Extension(s: string, compress: bool): string {
    if compress && !EndsGz(s) then ".gz" else ""
  }

  /** The path an archive ends up with. */
  function ArchiveName(p: string, date: DateText, k: nat, compress: bool): string
    requires Clean(Tokens(p, 0))
  {
    var target := Print(Tokens(p, 0), date, k);
    target + Extension(target, compress)
  }

  /** Compression lets every name end in ".gz", and adds nothing to one that does so already. */
  lemma ArchiveNameIs(p: string, date: DateText, k: nat, compress: bool)
    requires Clean(Tokens(p, 0))
    ensures var printed, name := Print(Tokens(p, 0), date, k), ArchiveName(p, date, k, compress);
            && (compress ==> EndsGz(name))
            && (!compress || EndsGz(printed) ==> name == printed)
            && (name == printed || name == printed + ".gz")
  {
    EndsGzIs(ArchiveName(p, date, k, compress));
  }

  predicate HasIndexToken(ts: seq<Token>) {
    exists i :: 0 <= i < |ts| && ts[i].Index?
  }

  function FullTokens(p: string, compress: bool): seq<Token> {
    Tokens(p, 0) + TokensOf(Extension(p, compress))
  }

  /** items and hasIndex account for the tokens before offset. */
  ghost predicate Scanned(p: string, items: seq<Item>, hasIndex: bool, offset: nat)
    requires offset <= |p|
  {
    && Items(Tokens(p, 0)) == items + Items(Tokens(p, offset))
    && (HasIndexToken(Tokens(p, 0)) <==> hasIndex || HasIndexToken(Tokens(p, offset)))
  }

  lemma ScanOne(p: string, items: seq<Item>, hasIndex: bool, offset: nat)
    requires offset < |p| && Scanned(p, items, hasIndex, offset)
    ensures var t := TokenAt(p, offset); Scanned(p, items + [ItemOf(t.0)], hasIndex || t.0.Index?, t.1)
  {
    var t := TokenAt(p, offset);
    FirstToken(p, offset);
    ItemsAppend([t.0], Tokens(p, t.1));
    assert Items([t.0]) == [ItemOf(t.0)];
  }

  /** PatternIndexRegexp: one item per token, and the extension when compression adds it. */
  method PatternIndexRegexp(p: string, compress: bool) returns (items: seq<Item>, hasIndex: bool)
    ensures items == Items(FullTokens(p, compress))
    ensures hasIndex <==> HasIndexToken(Tokens(p, 0))
  {
    items, hasIndex := [], false;
    var offset := 0;
    while offset < |p|
      invariant offset <= |p| && Scanned(p, items, hasIndex, offset)
    {
      ScanOne(p, items, hasIndex, offset);
      var t := TokenAt(p, offset);
      items, hasIndex, offset := items + [ItemOf(t.0)], hasIndex || t.0.Index?, t.1;
    }
    ItemsAppend(Tokens(p, 0), TokensOf(Extension(p, compress)));
    items := items + Items(TokensOf(Extension(p, compress)));
  }

  lemma FirstToken(p: string, offset: nat)
    requires offset < |p|
    ensures var t, all, rest := TokenAt(p, offset), Tokens(p, offset), Tokens(p, TokenAt(p, offset).1);
            && all == [t.0] + rest && all[1..] == rest
            && (HasIndexToken(all) <==> t.0.Index? || HasIndexToken(rest))
  {
    var t, all, rest := TokenAt(p, offset), Tokens(p, offset), Tokens(p, TokenAt(p, offset).1);
    assert all == [t.0] + rest && all[0] == t.0;
    if HasIndexToken(rest) {
      var i :| 0 <= i < |rest| && rest[i].Index?;
      assert all[i + 1].Index?;
    }
  }

  // ----- Names and their patterns

  /** The name is what the tokens print that the expression is made from. */
  ghost predicate NameFits(p: string, date: DateText, k: nat, compress: bool)
    requires Clean(Tokens(p, 0))
  {
    compress ==> GzAgrees(p, date, k)
  }

  lemma FullTokensAreClean(p: string, compress: bool)
    requires Clean(Tokens(p, 0))
    ensures Clean(FullTokens(p, compress))
  {
    var ext := Extension(p, compress);
    PrintTokensOf(ext, Always(""), 0);
    CleanParts(Tokens(p, 0), TokensOf(ext));
  }

  lemma NameIsPrinted(p: string, date: DateText, k: nat, compress: bool)
    requires Clean(Tokens(p, 0)) && NameFits(p, date, k, compress)
    ensures Clean(FullTokens(p, compress))
    ensures ArchiveName(p, date, k, compress) == Print(FullTokens(p, compress), date, k)
  {
    var ts, ext := Tokens(p, 0), Extension(p, compress);
    FullTokensAreClean(p, compress);
    PrintAppend(ts, TokensOf(ext), date, k);
    PrintTokensOf(ext, date, k);
  }

  lemma AppendParts(ts: seq<Token>, r: string, i: nat)
    requires i < |ts|
    ensures var all := ts + TokensOf(r);
            && all[i] == ts[i] && all[..i] == ts[..i] && all[i + 1..] == ts[i + 1..] + TokensOf(r)
            && (Unindexed(all[i + 1..]) <==> Unindexed(ts[i + 1..]))
            && (Literal(all[i + 1..]) <==> Literal(ts[i + 1..]))
  {
    var tail := ts[i + 1..];
    var more := tail + TokensOf(r);
    assert (ts + TokensOf(r))[i + 1..] == more;
    assert forall j :: 0 <= j < |tail| ==> more[j] == tail[j];
    assert forall j :: |tail| <= j < |more| ==> more[j].Lit?;
  }

  lemma {:induction false} RunAfterAppend(ts: seq<Token>, more: seq<Token>)
    ensures Literal(ts) || RunAfter(ts + more) == RunAfter(ts)
  {
    if ts != [] && ts[0].Lit? {
      assert (ts + more)[1..] == ts[1..] + more;
      RunAfterAppend(ts[1..], more);
      assert Literal(ts[1..]) ==> Literal(ts);
    }
  }

  /** The extension decides nothing about the index. */
  lemma ExtensionIsNeutral(ts: seq<Token>, r: string, i: nat)
    ensures OneSidedAt(ts + TokensOf(r), i) <==> OneSidedAt(ts, i)
    ensures ReadableAt(ts + TokensOf(r), i) <==> ReadableAt(ts, i)
  {
    if i < |ts| {
      AppendParts(ts, r, i);
      RunAfterAppend(ts[i + 1..], TokensOf(r));
    }
  }

  lemma SameForNames(p: string, compress: bool)
    ensures OneSided(FullTokens(p, compress)) <==> OneSided(Tokens(p, 0))
    ensures Readable(FullTokens(p, compress)) <==> Readable(Tokens(p, 0))
  {
    var ts, r := Tokens(p, 0), Extension(p, compress);
    forall i: nat
      ensures OneSidedAt(ts + TokensOf(r), i) <==> OneSidedAt(ts, i)
      ensures ReadableAt(ts + TokensOf(r), i) <==> ReadableAt(ts, i)
    {
      ExtensionIsNeutral(ts, r, i);
    }
  }

  lemma FullDatesShow(p: string, date: DateText, compress: bool)
    ensures DatesShow(FullTokens(p, compress), date) <==> DatesShow(Tokens(p, 0), date)
  {
    var ts, all := Tokens(p, 0), FullTokens(p, compress);
    assert forall i :: 0 <= i < |ts| ==> all[i] == ts[i];
  }

  // ----- Reading the index of an archive

  /** What the expression made from a pattern reads from a name. */
  function IndexOfName(p: string, compress: bool, name: string): Option<nat> {
    IndexIn(Items(FullTokens(p, compress)), name)
  }

  ghost predicate RoundTrips(p: string, date: DateText, k: nat, compress: bool)
    requires Clean(Tokens(p, 0))
  {
    IndexOfName(p, compress, ArchiveName(p, date, k, compress)) == Some(k)
  }

  lemma ReadableRoundTrips(p: string, date: DateText, k: nat, compress: bool)
    requires Clean(Tokens(p, 0)) && Readable(Tokens(p, 0))
    requires DatesShow(Tokens(p, 0), date) && NameFits(p, date, k, compress)
    ensures RoundTrips(p, date, k, compress)
  {
    NameIsPrinted(p, date, k, compress);
    SameForNames(p, compress);
    FullDatesShow(p, date, compress);
    var i: nat :| ReadableAt(FullTokens(p, compress), i);
    SearchReadsBack(FullTokens(p, compress), i, date, k);
  }

  /** A date that ends plainly, so that its name fits. */
  lemma PlainNameFits(p: string, d: string, k: nat, compress: bool)
    requires Clean(Tokens(p, 0)) && PlainEnd(d)
    ensures DatesShow(Tokens(p, 0), Always(d)) && NameFits(p, Always(d), k, compress)
  {
    AlwaysShows(Tokens(p, 0), d);
    GzAgreesFor(p, Always(d), k);
  }

  /** From the name of every archive, compressed or not, exactly its index is recovered,
      whatever the dates print, exactly for readable patterns. */
  lemma IndexRoundTrip(p: string, compress: bool)
    requires Clean(Tokens(p, 0))
    ensures (forall date: DateText, k: nat ::
               DatesShow(Tokens(p, 0), date) && NameFits(p, date, k, compress) ==> RoundTrips(p, date, k, compress))
            <==> Readable(Tokens(p, 0))
  {
    if Readable(Tokens(p, 0)) {
      forall date: DateText, k: nat | DatesShow(Tokens(p, 0), date) && NameFits(p, date, k, compress)
        ensures RoundTrips(p, date, k, compress)
      {
        ReadableRoundTrips(p, date, k, compress);
      }
    } else {
      SameForNames(p, compress);
      FullTokensAreClean(p, compress);
      var d, k := Misread(FullTokens(p, compress));
      PlainNameFits(p, d, k, compress);
      NameIsPrinted(p, Always(d), k, compress);
      assert !RoundTrips(p, Always(d), k, compress);
    }
  }

  // ----- Initial index

  /** The code counts a name when its digits are a number that an int holds. */
  predicate Counted(p: string, compress: bool, name: string) {
    var v := IndexOfName(p, compress, name);
    v.Some? && v.value <= MAX_INT
  }

  /** initArchiveIndexByPattern: one more than the largest index found. */
  method InitArchiveIndex(p: string, compress: bool, matches: seq<string>) returns (index: int)
    ensures index >= 0
    ensures HasIndexToken(Tokens(p, 0)) ==>
              && (forall m :: m in matches && Counted(p, compress, m) ==> IndexOfName(p, compress, m).value < index)
              && (index > 0 ==> exists m :: m in matches && IndexOfName(p, compress, m) == Some(index - 1))
    ensures !HasIndexToken(Tokens(p, 0)) ==> index == |matches|
  {
    var items, hasIndex := PatternIndexRegexp(p, compress);
    var maxIndex: int := -1;
    for i := 0 to |matches|
      invariant maxIndex >= -1 && (!hasIndex ==> maxIndex == i - 1)
      invariant hasIndex ==> forall j :: 0 <= j < i && Counted(p, compress, matches[j]) ==>
                  IndexOfName(p, compress, matches[j]).value <= maxIndex
      invariant hasIndex && maxIndex >= 0 ==>
                  exists j :: 0 <= j < i && IndexOfName(p, compress, matches[j]) == Some(maxIndex)
    {
      if !hasIndex {
        maxIndex := maxIndex + 1;
        continue;
      }
      var parts := Search(items, matches[i]);
      if parts.None? || |parts.value| != 1 {
        continue;
      }
      var found := Atoi(parts.value[0]);
      if found <= MAX_INT && found > maxIndex {
        maxIndex := found;
      }
    }
    index := maxIndex + 1;
  }

  /** index is above every index that the code counts. */
  ghost predicate AboveAll(p: string, compress: bool, matches: seq<string>, index: int) {
    forall m :: m in matches && Counted(p, compress, m) ==> IndexOfName(p, compress, m).value < index
  }

  ghost predicate ReadsAtLeast(p: string, date: DateText, k: nat, compress: bool)
    requires Clean(Tokens(p, 0))
  {
    var v := IndexOfName(p, compress, ArchiveName(p, date, k, compress));
    v.Some? && v.value >= k
  }

  lemma OneSidedReadsAtLeast(p: string, date: DateText, k: nat, compress: bool)
    requires Clean(Tokens(p, 0)) && OneSided(Tokens(p, 0))
    requires DatesShow(Tokens(p, 0), date) && NameFits(p, date, k, compress)
    ensures ReadsAtLeast(p, date, k, compress)
  {
    NameIsPrinted(p, date, k, compress);
    SameForNames(p, compress);
    FullDatesShow(p, date, compress);
    var i: nat :| OneSidedAt(FullTokens(p, compress), i);
    OneSidedReadsEnough(FullTokens(p, compress), i, date, k);
  }

  /** No archive that existed has a name that is still to be given out: with dates on at most
      one side of the index, every index from the initial one on is new, at any date, unless
      the digits that are read from the name are too many for an int. */
  lemma NextNamesAreNew(
    p: string, date: DateText, compress: bool, matches: seq<string>, index: int, k: nat)
    requires Clean(Tokens(p, 0)) && OneSided(Tokens(p, 0))
    requires DatesShow(Tokens(p, 0), date) && NameFits(p, date, k, compress)
    requires AboveAll(p, compress, matches, index) && k >= index
    ensures var name := ArchiveName(p, date, k, compress);
            var v := IndexOfName(p, compress, name);
            v.Some? && (name in matches ==> v.value > MAX_INT)
    ensures Readable(Tokens(p, 0)) && k <= MAX_INT ==> ArchiveName(p, date, k, compress) !in matches
  {
    OneSidedReadsAtLeast(p, date, k, compress);
    if Readable(Tokens(p, 0)) {
      ReadableRoundTrips(p, date, k, compress);
    }
  }

  /** What is read from a name is at least its index, for all dates, exactly with dates on
      at most one side of the only index. */
  lemma InitialIndexIsSafeWhen(p: string, compress: bool)
    requires Clean(Tokens(p, 0))
    ensures (forall date: DateText, k: nat ::
               DatesShow(Tokens(p, 0), date) && NameFits(p, date, k, compress) ==> ReadsAtLeast(p, date, k, compress))
            <==> OneSided(Tokens(p, 0))
  {
    if OneSided(Tokens(p, 0)) {
      forall date: DateText, k: nat | DatesShow(Tokens(p, 0), date) && NameFits(p, date, k, compress)
        ensures ReadsAtLeast(p, date, k, compress)
      {
        OneSidedReadsAtLeast(p, date, k, compress);
      }
    } else {
      SameForNames(p, compress);
      FullTokensAreClean(p, compress);
      var d, k := ReadTooLow(FullTokens(p, compress));
      PlainNameFits(p, d, k, compress);
      NameIsPrinted(p, Always(d), k, compress);
      assert !ReadsAtLeast(p, Always(d), k, compress);
    }
  }

  function Pow10(n: nat): (r: nat)
    ensures r >= 1
  {
    if n == 0 then 1 else 10 * Pow10(n - 1)
  }

  lemma {:induction false} LongNumbers(s: string)
    requires AllDigits(s) && s != "" && s[0] != '0'
    ensures Atoi(s) >= Pow10(|s| - 1)
  {
    var n := |s| - 1;
    if n > 0 {
      LongNumbers(s[..n]);
    } else {
      assert s[..0] == "";
    }
  }

  lemma TwentyDigits(s: string)
    requires AllDigits(s) && |s| == 20 && s[0] != '0'
    ensures Atoi(s) > MAX_INT
  {
    LongNumbers(s);
    assert Pow10(4) == 10_000 && Pow10(8) == 10_000 * Pow10(4) && Pow10(12) == 10_000 * Pow10(8);
    assert Pow10(16) == 10_000 * Pow10(12) && Pow10(19) == 1_000 * Pow10(16);
  }

  lemma DateThenIndex()
    ensures Tokens("%d%i", 0) == [Date(""), Index(false, 0)] && FullTokens("%d%i", false) == Tokens("%d%i", 0)
  {
    var p := "%d%i";
    assert DigitsEnd(p, 1) == 1 && DigitsEnd(p, 3) == 3 && p[3..3] == "";
    assert TokenAt(p, 0) == (Date(""), 2) && TokenAt(p, 2) == (Index(false, 0), 4);
    assert Tokens(p, 4) == [] && Tokens(p, 2) == [Index(false, 0)];
    assert Tokens(p, 0) + TokensOf("") == Tokens(p, 0);
  }

  /** Nanoseconds directly before the index leave too many digits to it: the archive is not
      counted. */
  lemma LongDatesAreSkipped(date: DateText)
    requires date("") == "1700000000000000000"
    ensures var p := "%d%i";
            && Tokens(p, 0) == [Date(""), Index(false, 0)]
            && !Counted(p, false, ArchiveName(p, date, 10, false))
  {
    hide Search, Tokens, Atoi, Items;
    var p, d := "%d%i", "1700000000000000000";
    DateThenIndex();
    var ts := Tokens(p, 0);
    assert Print(ts, date, 10) + "" == Print(ts, date, 10);
    DateGivesItsDigits("", false, 0, date, 10);
    assert Itoa(10) == Itoa(1) + "0" && Itoa(1) == "1";
    var g := d[1..] + Itoa(10);
    assert |g| == 20 && g[0] == '7';
    assert AllDigits(g);
    TwentyDigits(g);
  }

  // ----- Does a pattern have an index?

  /** A percent sign, digits and an i. */
  predicate LooksLikeIndex(p: string, o: nat)
    requires o < |p|
  {
    p[o] == '%' && var c := DigitsEnd(p, o + 1); c < |p| && p[c] == 'i'
  }

  /** PatternHasIndex: looks at every percent sign, also at the second one of "%%". */
  method PatternHasIndex(p: string) returns (r: bool)
    ensures r <==> LooksIndexed(p, 0)
  {
    for offset := 0 to |p|
      invariant LooksIndexed(p, 0) <==> LooksIndexed(p, offset)
    {
      LooksStep(p, offset);
      if LooksLikeIndex(p, offset) {
        return true;
      }
    }
    return false;
  }

  ghost predicate LooksIndexed(p: string, from: nat) {
    exists o :: from <= o < |p| && LooksLikeIndex(p, o)
  }

  lemma LooksStep(p: string, from: nat)
    requires from < |p|
    ensures LooksIndexed(p, from) <==> LooksLikeIndex(p, from) || LooksIndexed(p, from + 1)
  {
  }

  /** Something after the first character of a token looks like an index: the second half
      of an escaped percent sign, or part of the option of a date. */
  ghost predicate Hidden(p: string, offset: nat)
    requires offset <= |p|
    decreases |p| - offset
  {
    offset < |p| && (LooksIndexedWithin(p, offset + 1, TokenAt(p, offset).1) || Hidden(p, TokenAt(p, offset).1))
  }

  ghost predicate LooksIndexedWithin(p: string, from: nat, to: nat)
    requires to <= |p|
  {
    exists o :: from <= o < to && LooksLikeIndex(p, o)
  }

  /** A token begins like an index exactly when it is one. */
  lemma IndexTokenLooksLikeOne(p: string, offset: nat)
    requires offset < |p|
    ensures LooksLikeIndex(p, offset) <==> TokenAt(p, offset).0.Index?
  {
    if p[offset] == '%' && offset + 1 < |p| && p[offset + 1] == '0' {
      assert DigitsEnd(p, offset + 1) == DigitsEnd(p, offset + 2);
    }
  }

  lemma SkipToken(p: string, offset: nat)
    requires offset < |p|
    ensures var t := TokenAt(p, offset);
            LooksIndexed(p, offset) <==>
              t.0.Index? || LooksIndexedWithin(p, offset + 1, t.1) || LooksIndexed(p, t.1)
  {
    var t := TokenAt(p, offset);
    IndexTokenLooksLikeOne(p, offset);
    if o :| offset <= o < |p| && LooksLikeIndex(p, o) {
      if offset < o < t.1 {
        assert LooksIndexedWithin(p, offset + 1, t.1);
      }
    }
  }

  lemma {:induction false} LooksIndexedWhen(p: string, offset: nat)
    requires offset <= |p|
    ensures LooksIndexed(p, offset) <==> HasIndexToken(Tokens(p, offset)) || Hidden(p, offset)
    decreases |p| - offset
  {
    if offset < |p| {
      FirstToken(p, offset);
      SkipToken(p, offset);
      LooksIndexedWhen(p, TokenAt(p, offset).1);
    }
  }

  /** PatternHasIndex is right about a pattern exactly when the pattern has an index or
      nothing inside its other tokens looks like one. */
  lemma HasIndexIsRightWhen(p: string)
    ensures var has := HasIndexToken(Tokens(p, 0));
            (LooksIndexed(p, 0) <==> has) <==> (has || !Hidden(p, 0))
  {
    LooksIndexedWhen(p, 0);
  }

  /** "%%i" passes for indexed although it prints the same name for every archive. */
  lemma EscapedPercentIsMisread(date: DateText, k: nat)
    ensures var p := "%%i";
            LooksIndexed(p, 0) && Clean(Tokens(p, 0)) && Print(Tokens(p, 0), date, k) == "%i"
  {
    var p := "%%i";
    assert TokenAt(p, 0) == (Lit('%'), 2) && TokenAt(p, 2) == (Lit('i'), 3);
    assert Tokens(p, 3) == [] && Tokens(p, 2) == [Lit('i')] && Tokens(p, 0) == [Lit('%'), Lit('i')];
    assert Tokens(p, 0)[1..] == [Lit('i')];
    assert Print([Lit('i')], date, k) == "i" + Print([], date, k);
    assert DigitsEnd(p, 2) == 2;
    assert LooksLikeIndex(p, 1);
  }

  /** So does "%d{%i}", whose %i belongs to the option of the date. */
  lemma DateOptionIsMisread(date: DateText, k: nat)
    ensures var p := "%d{%i}";
            LooksIndexed(p, 0) && Clean(Tokens(p, 0)) && Print(Tokens(p, 0), date, k) == date("%i")
  {
    var p := "%d{%i}";
    assert DigitsEnd(p, 1) == 1 && p[1] == 'd';
    assert IndexOf(p, '}', 3) == Some(5) by {
      assert IndexOf(p, '}', 5) == Some(5);
      assert IndexOf(p, '}', 4) == Some(5);
    }
    assert p[3..5] == "%i";
    assert TokenAt(p, 0) == (Date("%i"), 6);
    assert Tokens(p, 6) == [] && Tokens(p, 0) == [Date("%i")];
    assert Tokens(p, 0)[1..] == [];
    assert DigitsEnd(p, 4) == 4;
    assert LooksLikeIndex(p, 3);
  }
}
