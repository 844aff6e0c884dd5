// For which patterns the index is recovered from the printed name.
module RollingReading {
  import opened Optional
  import opened RollingPattern
  import opened RollingSearch

  predicate Literal(ts: seq<Token>) {
    forall i :: 0 <= i < |ts| ==> ts[i].Lit?
  }

  /** Literals and dates. */
  predicate Unindexed(ts: seq<Token>) {
    forall i :: 0 <= i < |ts| ==> ts[i].Lit? || ts[i].Date?
  }

  /** The literal text before the first date. */
  function RunAfter(ts: seq<Token>): string {
    if ts != [] && ts[0].Lit? then [ts[0].c] + RunAfter(ts[1..]) else ""
  }

  /** The literal text after the last date. */
  function RunBefore(ts: seq<Token>): string {
    if ts != [] && ts[|ts| - 1].Lit? then RunBefore(ts[..|ts| - 1]) + [ts[|ts| - 1].c] else ""
  }

  /** The only index stands at i, among literals and dates. */
  predicate OneIndexAt(ts: seq<Token>, i: nat) {
    i < |ts| && ts[i].Index? && Unindexed(ts[..i]) && Unindexed(ts[i + 1..])
  }

  /** Dates stand at most on one side of the only index. */
  predicate OneSidedAt(ts: seq<Token>, i: nat) {
    OneIndexAt(ts, i) && (Literal(ts[..i]) || Literal(ts[i + 1..]))
  }

  /** Dates stand at most on one side of the only index, and a character that is no digit
      stands between the index and the nearest of them. */
  predicate ReadableAt(ts: seq<Token>, i: nat) {
    && OneIndexAt(ts, i)
    && var head, tail := ts[..i], ts[i + 1..];
       || (Literal(head) && (Literal(tail) || !AllDigits(RunAfter(tail))))
       || (Literal(tail) && !AllDigits(RunBefore(head)))
  }

  ghost predicate OneSided(ts: seq<Token>) {
    exists i: nat :: OneSidedAt(ts, i)
  }

  ghost predicate Readable(ts: seq<Token>) {
    exists i: nat :: ReadableAt(ts, i)
  }

  // ----- Tokens around the index

  lemma Around(ts: seq<Token>, i: nat)
    requires OneIndexAt(ts, i)
    ensures Clean(ts) && ts == ts[..i] + ([ts[i]] + ts[i + 1..])
  {
    forall j | 0 <= j < |ts| ensures !ts[j].Bad? {
      assert j < i ==> ts[j] == ts[..i][j];
      assert j > i ==> ts[j] == ts[i + 1..][j - i - 1];
    }
  }

  lemma {:induction false} NoNumbers(ts: seq<Token>, k: nat)
    requires Unindexed(ts)
    ensures Clean(ts) && Numbers(ts, k) == []
  {
    if ts != [] {
      NoNumbers(ts[1..], k);
    }
  }

  lemma PrintedAround(ts: seq<Token>, i: nat, date: DateText, k: nat)
    requires OneIndexAt(ts, i)
    ensures Clean(ts) && Clean(ts[..i]) && Clean(ts[i + 1..])
    ensures Print(ts, date, k) == Print(ts[..i], date, k) + (Number(ts[i], k) + Print(ts[i + 1..], date, k))
  {
    Around(ts, i);
    var rest := [ts[i]] + ts[i + 1..];
    PrintAppend(ts[..i], rest, date, k);
    assert rest[0] == ts[i] && rest[1..] == ts[i + 1..];
  }

  lemma ItemsAround(ts: seq<Token>, i: nat)
    requires OneIndexAt(ts, i)
    ensures Items(ts) == Items(ts[..i]) + ([Digits] + Items(ts[i + 1..]))
  {
    Around(ts, i);
    ItemsAppend(ts[..i], [ts[i]] + ts[i + 1..]);
    ItemsAppend([ts[i]], ts[i + 1..]);
    assert Items([ts[i]]) == [Digits];
  }

  lemma {:induction false} RunAfterLeads(ts: seq<Token>) returns (rest: seq<Token>)
    ensures ts == TokensOf(RunAfter(ts)) + rest && (Literal(ts) ==> rest == [])
    ensures Unindexed(ts) ==> Unindexed(rest)
    ensures rest != [] ==> !rest[0].Lit?
  {
    hide TokensOf;
    if ts != [] && ts[0].Lit? {
      rest := RunAfterLeads(ts[1..]);
      var run := RunAfter(ts[1..]);
      OneMoreToken(ts[0].c, run);
      assert ts == [ts[0]] + (TokensOf(run) + rest);
      assert ts == ([ts[0]] + TokensOf(run)) + rest;
    } else {
      rest := ts;
      NoTokens();
      assert [] + ts == ts;
    }
  }

  lemma NoTokens()
    ensures TokensOf("") == []
  {
  }

  lemma {:induction false} RunBeforeEnds(ts: seq<Token>) returns (init: seq<Token>)
    ensures ts == init + TokensOf(RunBefore(ts)) && (Literal(ts) ==> init == [])
    ensures Unindexed(ts) ==> Unindexed(init)
    ensures init != [] ==> !init[|init| - 1].Lit?
  {
    hide TokensOf;
    if ts != [] && ts[|ts| - 1].Lit? {
      var n := |ts| - 1;
      init := RunBeforeEnds(ts[..n]);
      var run := RunBefore(ts[..n]);
      OneMoreToken(ts[n].c, run);
      assert ts == (init + TokensOf(run)) + [ts[n]];
      assert ts == init + (TokensOf(run) + [ts[n]]);
    } else {
      init := ts;
      NoTokens();
      assert ts + [] == ts;
    }
  }

  lemma ChainRun(r: string, ts: seq<Token>, rest: seq<Token>)
    requires ts == TokensOf(r) + rest
    ensures Items(ts) == Chars(r) + Items(rest)
  {
    ItemsAppend(TokensOf(r), rest);
    ItemsOfText(r);
  }

  lemma PrintedRun(r: string, ts: seq<Token>, rest: seq<Token>, date: DateText, k: nat)
    requires ts == TokensOf(r) + rest && Clean(ts)
    ensures Clean(rest) && Print(ts, date, k) == r + Print(rest, date, k)
  {
    PrintAppend(TokensOf(r), rest, date, k);
    PrintTokensOf(r, date, k);
  }

  // ----- The same digits

  predicate EndsWith(s: string, r: string) {
    |r| <= |s| && s[|s| - |r|..] == r
  }

  lemma DigitsAt(s: string, from: nat, to: nat)
    requires from <= to <= |s| && AllDigits(s[from..to])
    ensures forall i :: from <= i < to ==> IsDigit(s[i])
  {
    forall i | from <= i < to ensures IsDigit(s[i]) {
      assert s[i] == s[from..to][i - from];
    }
  }

  /** The digits that lead a text end where they meet another character. */
  lemma DigitsEndIs(s: string, m: nat)
    requires m < |s| && AllDigits(s[..m]) && !IsDigit(s[m])
    ensures DigitsEnd(s, 0) == m
  {
    assert s[0..m] == s[..m];
    DigitsReach(s, 0, m);
    DigitsAt(s, 0, DigitsEnd(s, 0));
  }

  lemma DigitsBefore(g: string, x: string, r: string)
    requires AllDigits(g) && r <= x && !AllDigits(r)
    ensures DigitsEnd(g + x, 0) == |g| + DigitsEnd(r, 0)
  {
    var j := DigitsEnd(r, 0);
    assert r[0..j] == r[..j] && r[..|r|] == r;
    assert (g + x)[|g| + j] == x[j] == r[j];
    assert (g + x)[..|g| + j] == g + r[..j];
    DigitsEndIs(g + x, |g| + j);
  }

  /** Two runs of digits before the same text, which has a character that is no digit. */
  lemma SameStart(g: string, x: string, h: string, y: string, r: string)
    requires g + x == h + y && AllDigits(g) && AllDigits(h) && r <= x && r <= y && !AllDigits(r)
    ensures g == h
  {
    DigitsBefore(g, x, r);
    DigitsBefore(h, y, r);
    assert g == (g + x)[..|g|] && h == (h + y)[..|h|];
  }

  function LastStop(r: string): (j: nat)
    requires !AllDigits(r)
    ensures j < |r| && !IsDigit(r[j]) && AllDigits(r[j + 1..])
  {
    var n := |r| - 1;
    if !IsDigit(r[n]) then n
    else
      assert forall i :: 0 <= i < |r| && i < n ==> r[i] == r[..n][i];
      var j := LastStop(r[..n]);
      assert forall i :: j < i < n ==> r[i] == r[..n][j + 1..][i - j - 1];
      j
  }

  lemma LastStopIs(s: string, m: nat)
    requires m < |s| && !IsDigit(s[m]) && AllDigits(s[m + 1..])
    ensures !AllDigits(s) && LastStop(s) == m
  {
    assert s[m + 1..] == s[m + 1..|s|] && s[LastStop(s) + 1..] == s[LastStop(s) + 1..|s|];
    DigitsAt(s, m + 1, |s|);
    DigitsAt(s, LastStop(s) + 1, |s|);
  }

  lemma DigitsBehind(x: string, g: string, r: string)
    requires AllDigits(g) && EndsWith(x, r) && !AllDigits(r)
    ensures !AllDigits(x + g) && LastStop(x + g) == |x| - |r| + LastStop(r)
  {
    hide LastStop, DigitsEnd;
    var j := LastStop(r);
    var m := |x| - |r| + j;
    assert (x + g)[m] == x[|x| - |r|..][j];
    var after := x[|x| - |r|..][j + 1..];
    assert after == r[j + 1..] && AllDigits(after);
    assert (x + g)[m + 1..] == after + g;
    assert AllDigits(after + g);
    LastStopIs(x + g, m);
  }

  /** Two runs of digits behind the same text, which has a character that is no digit. */
  lemma SameEnd(x: string, g: string, y: string, h: string, r: string)
    requires x + g == y + h && AllDigits(g) && AllDigits(h) && EndsWith(x, r) && EndsWith(y, r) && !AllDigits(r)
    ensures g == h
  {
    DigitsBehind(x, g, r);
    DigitsBehind(y, h, r);
    assert g == (x + g)[|x|..] && h == (y + h)[|y|..];
  }

  // ----- Every match reads the index back

  /** A match puts the group between a match of what stands before and one of what stands
      after the index. */
  lemma MatchAround(ts: seq<Token>, i: nat, s: string, groups: seq<string>) returns (u: string, y: string)
    requires OneIndexAt(ts, i) && Matches(Items(ts), s, groups)
    ensures |groups| == 1 && AllDigits(groups[0]) && s == u + (groups[0] + y)
    ensures Matches(Items(ts[..i]), u, []) && Matches(Items(ts[i + 1..]), y, [])
  {
    ItemsAround(ts, i);
    var rest := [Digits] + Items(ts[i + 1..]);
    var n, m := SplitMatch(Items(ts[..i]), rest, s, groups);
    NoNumbers(ts[..i], 0);
    NoNumbers(ts[i + 1..], 0);
    GroupPerIndex(ts[..i], 0, s[..n], groups[..m]);
    assert groups[..m] == [] && groups[m..] == groups;
    assert rest[1..] == Items(ts[i + 1..]);
    u, y := s[..n], s[n..][|groups[0]|..];
    GroupPerIndex(ts[i + 1..], 0, y, groups[1..]);
    assert groups[1..] == [];
    assert s[n..] == groups[0] + y && s == u + s[n..];
  }

  lemma LiteralIsPrinted(ts: seq<Token>, date: DateText, k: nat, s: string)
    requires Literal(ts) && Matches(Items(ts), s, [])
    ensures Clean(ts) && s == Print(ts, date, k)
  {
    var rest := RunAfterLeads(ts);
    var r := RunAfter(ts);
    assert ts == TokensOf(r);
    ItemsOfText(r);
    OnlyText(r, s, []);
    PrintTokensOf(r, date, k);
  }

  lemma RunLeads(ts: seq<Token>, date: DateText, k: nat, s: string)
    requires Unindexed(ts) && Clean(ts) && Matches(Items(ts), s, [])
    ensures RunAfter(ts) <= s && RunAfter(ts) <= Print(ts, date, k)
  {
    var r := RunAfter(ts);
    var rest := RunAfterLeads(ts);
    ChainRun(r, ts, rest);
    TextMatches(r, Items(rest), s, []);
    PrintedRun(r, ts, rest, date, k);
  }

  lemma RunEnds(ts: seq<Token>, date: DateText, k: nat, s: string)
    requires Unindexed(ts) && Clean(ts) && Matches(Items(ts), s, [])
    ensures EndsWith(s, RunBefore(ts)) && EndsWith(Print(ts, date, k), RunBefore(ts))
  {
    var r := RunBefore(ts);
    var init := RunBeforeEnds(ts);
    ItemsAppend(init, TokensOf(r));
    ItemsOfText(r);
    var n, m := SplitMatch(Items(init), Chars(r), s, []);
    OnlyText(r, s[n..], [][m..]);
    PrintAppend(init, TokensOf(r), date, k);
    PrintTokensOf(r, date, k);
  }

  /** From a printed name every match of the expression takes exactly the digits of the
      index, whatever its padding and whatever the dates print. */
  lemma IndexReadsBack(ts: seq<Token>, i: nat, date: DateText, k: nat, groups: seq<string>)
    requires ReadableAt(ts, i) && Clean(ts) && Matches(Items(ts), Print(ts, date, k), groups)
    ensures groups == [Number(ts[i], k)]
  {
    var head, tail := ts[..i], ts[i + 1..];
    PrintedAround(ts, i, date, k);
    var u, y := MatchAround(ts, i, Print(ts, date, k), groups);
    var before, number, after := Print(head, date, k), Number(ts[i], k), Print(tail, date, k);
    if Literal(head) && (Literal(tail) || !AllDigits(RunAfter(tail))) {
      LiteralIsPrinted(head, date, k, u);
      SameRest(u, groups[0] + y, number + after);
      if Literal(tail) {
        LiteralIsPrinted(tail, date, k, y);
        SameFront(groups[0], number, y);
      } else {
        RunLeads(tail, date, k, y);
        SameStart(groups[0], y, number, after, RunAfter(tail));
      }
    } else {
      LiteralIsPrinted(tail, date, k, y);
      Regroup(u, groups[0], y);
      Regroup(before, number, y);
      SameFront(u + groups[0], before + number, y);
      RunEnds(head, date, k, u);
      SameEnd(u, groups[0], before, number, RunBefore(head));
    }
  }

  lemma SameFront(a: string, b: string, tail: string)
    requires a + tail == b + tail
    ensures a == b
  {
    assert |a| == |b|;
    assert a == (a + tail)[..|a|] && b == (b + tail)[..|b|];
  }

  lemma SameRest(head: string, a: string, b: string)
    requires head + a == head + b
    ensures a == b
  {
    assert a == (head + a)[|head|..] && b == (head + b)[|head|..];
  }

  /** And so does the search, which finds a match. */
  lemma SearchReadsBack(ts: seq<Token>, i: nat, date: DateText, k: nat)
    requires ReadableAt(ts, i) && Clean(ts) && DatesShow(ts, date)
    ensures IndexIn(Items(ts), Print(ts, date, k)) == Some(k)
  {
    var s := Print(ts, date, k);
    PrintedMatches(ts, date, k);
    SearchFindsAll(Items(ts), s, Numbers(ts, k));
    SearchFindsAMatch(Items(ts), s);
    IndexReadsBack(ts, i, date, k, Search(Items(ts), s).value);
    PaddedReadsBack(ts[i].zeroPad, ts[i].width, k);
  }
}
