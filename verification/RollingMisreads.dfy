// What the search reads from names whose dates stand close to the index.
module RollingMisreads {
  import opened Optional
  import opened RollingPattern
  import opened RollingSearch
  import opened RollingReading

  /** More digits on either side do not make a number smaller. */
  lemma {:induction false} AtoiGrows(a: string, b: string)
    requires AllDigits(a) && AllDigits(b)
    ensures AllDigits(a + b) && Atoi(a + b) >= Atoi(a) && Atoi(a + b) >= Atoi(b)
  {
    if b == "" {
      assert a + b == a;
    } else {
      var n := |b| - 1;
      AtoiGrows(a, b[..n]);
      assert a + b == (a + b[..n]) + [b[n]] && b == b[..n] + [b[n]];
      AtoiNext(a + b[..n], b[n]);
      AtoiNext(b[..n], b[n]);
    }
  }

  lemma Cut(a: string, b: string, j: nat)
    requires j <= |a|
    ensures (a + b)[j..] == a[j..] + b && (a + b)[..j] == a[..j]
    ensures j == |a| ==> (a + b)[j..] == b && (a + b)[..j] == a
  {
  }

  lemma DigitsOnly(v: string, g: string)
    requires AllDigits(v + g)
    ensures AllDigits(v)
  {
    forall i | 0 <= i < |v| ensures IsDigit(v[i]) {
      assert v[i] == (v + g)[i];
    }
  }

  lemma PartsAreDigits(a: string, b: string, all: string)
    requires all == a + b && AllDigits(all)
    ensures AllDigits(a) && AllDigits(b)
  {
    DigitsOnly(a, b);
    forall i | 0 <= i < |b| ensures IsDigit(b[i]) {
      assert b[i] == all[|a| + i];
    }
  }

  lemma NotZero(a: string, b: string)
    requires AllDigits(a) && AllDigits(b)
    ensures AllDigits(a + ("1" + b)) && Atoi(a + ("1" + b)) >= 1
  {
    assert Atoi("1"[..0]) == 0;
    AtoiGrows("1", b);
    AtoiGrows(a, "1" + b);
  }

  lemma NoGroups(ts: seq<Token>, s: string)
    requires Unindexed(ts) && Search(Items(ts), s).Some?
    ensures Search(Items(ts), s) == Some([])
  {
    SearchFindsAMatch(Items(ts), s);
    NoNumbers(ts, 0);
    GroupPerIndex(ts, 0, s, Search(Items(ts), s).value);
  }

  /** The first wildcard can take what stands before the print of the other tokens. */
  lemma WildcardSkips(ts: seq<Token>, date: DateText, k: nat, w: string)
    requires ts != [] && ts[0].Date? && Unindexed(ts) && Clean(ts) && DatesShow(ts, date) && w != ""
    ensures Search(Items(ts), w + Print(ts[1..], date, k)) == Some([])
  {
    var s := w + Print(ts[1..], date, k);
    PrintedMatches(ts[1..], date, k);
    NoNumbers(ts[1..], k);
    assert s[|w|..] == Print(ts[1..], date, k);
    assert Items(ts)[1..] == Items(ts[1..]);
    assert Matches(Items(ts), s, []);
    SearchFindsAll(Items(ts), s, []);
    NoGroups(ts, s);
  }

  /** The same with the literal text that leads to it. */
  lemma TailFound(tail: seq<Token>, rest: seq<Token>, date: DateText, k: nat, w: string)
    requires tail == TokensOf(RunAfter(tail)) + rest && Unindexed(rest) && rest != [] && rest[0].Date?
    requires Clean(rest) && DatesShow(rest, date) && w != ""
    ensures Search(Items(tail), RunAfter(tail) + (w + Print(rest[1..], date, k))) == Some([])
  {
    var r := RunAfter(tail);
    var s := w + Print(rest[1..], date, k);
    ChainRun(r, tail, rest);
    SearchText(r, Items(rest), r + s);
    assert (r + s)[|r|..] == s;
    WildcardSkips(rest, date, k, w);
  }

  lemma DatePrints(rest: seq<Token>, d: string, k: nat)
    requires rest != [] && rest[0].Date? && Clean(rest)
    ensures Print(rest, Always(d), k) == d + Print(rest[1..], Always(d), k)
  {
  }

  // ----- Dates before the index

  lemma DigitsThenText(g: string, t: string)
    requires g != "" && AllDigits(g)
    ensures Search([Digits] + Chars(t), g + t) == Some([g])
  {
    var items := [Digits] + Chars(t);
    assert items[1..] == Chars(t) && Chars(t) + [] == Chars(t);
    assert (g + t)[|g|..] == t && [g][1..] == [];
    TextMatches(t, [], t, []);
    assert t[|t|..] == "";
    assert Matches(items, g + t, [g]);
    SearchFindsAll(items, g + t, [g]);
    OnlyTheDigits(g, t);
  }

  lemma OnlyTheDigits(a: string, t: string)
    requires Search([Digits] + Chars(t), a + t).Some?
    ensures Search([Digits] + Chars(t), a + t) == Some([a]) && AllDigits(a)
  {
    hide Search, AllDigits;
    var items := [Digits] + Chars(t);
    var groups := Search(items, a + t).value;
    SearchFindsAMatch(items, a + t);
    assert items[1..] == Chars(t);
    var g := groups[0];
    OnlyText(t, (a + t)[|g|..], groups[1..]);
    assert a + t == g + t;
    SameFront(a, g, t);
    assert groups == [g];
  }

  /** With literal text behind it, the group that is found ends with the whole index. */
  lemma DatesBefore(ts: seq<Token>, i: nat, date: DateText, k: nat) returns (more: string)
    requires OneIndexAt(ts, i) && Literal(ts[i + 1..]) && Clean(ts) && DatesShow(ts, date)
    ensures Search(Items(ts), Print(ts, date, k)) == Some([more + Number(ts[i], k)])
  {
    var head, tail, number := ts[..i], ts[i + 1..], Number(ts[i], k);
    var t := RunAfter(tail);
    var rest := RunAfterLeads(tail);
    assert tail == TokensOf(t);
    ItemsAround(ts, i);
    ItemsOfText(t);
    PrintedAround(ts, i, date, k);
    PrintTokensOf(t, date, k);
    DigitsThenText(number, t);
    NoNumbers(head, k);
    var s := Print(head, date, k) + (number + t);
    assert "" + s == s;
    PartFound(head, date, k, [Digits] + Chars(t), number + t);
    more := DatesGiveWay(head, date, k, [Digits] + Chars(t), number + t, "");
    Regroup(more, number, t);
    OnlyTheDigits(more + number, t);
  }

  lemma DateTexts(e: string, l: string, number: string, t: string)
    ensures e + ("a" + l + "1" + (l + (number + t))) == (e + "a") + (l + (("1" + (l + number)) + t))
  {
  }

  lemma GroupAfterRun(w: string, l: string, g: string, t: string)
    requires Search(Chars(l) + ([Digits] + Chars(t)), w + (l + (g + t))).Some?
    ensures Search(Chars(l) + ([Digits] + Chars(t)), w + (l + (g + t))) == Some([(w + l)[|l|..] + g])
    ensures AllDigits((w + l)[|l|..] + g)
  {
    hide Search;
    var s, v := w + (l + (g + t)), (w + l)[|l|..];
    SearchText(l, [Digits] + Chars(t), s);
    Regroup(w, l, g + t);
    Cut(w + l, g + t, |l|);
    Regroup(v, g, t);
    OnlyTheDigits(v + g, t);
  }

  lemma RunFound(l: string, g: string, t: string)
    requires g != "" && AllDigits(g)
    ensures Search(Chars(l) + ([Digits] + Chars(t)), l + (g + t)).Some?
  {
    hide Search;
    SearchText(l, [Digits] + Chars(t), l + (g + t));
    Cut(l, g + t, |l|);
    DigitsThenText(g, t);
  }

  /** A date that ends like a shorter name gives digits to the index. */
  lemma DateGivesDigits(l: string, number: string, t: string, e: string)
    requires AllDigits(l) && AllDigits(number)
    requires Search([Anything] + (Chars(l) + ([Digits] + Chars(t))), e + ("a" + l + "1" + (l + (number + t)))).Some?
    ensures var v := IndexIn(
                       [Anything] + (Chars(l) + ([Digits] + Chars(t))), e + ("a" + l + "1" + (l + (number + t))));
            v.Some? && v.value > 0
  {
    hide AllDigits, Atoi;
    var g, rest := "1" + (l + number), Chars(l) + ([Digits] + Chars(t));
    var s, x := e + ("a" + l + "1" + (l + (number + t))), l + (g + t);
    AtoiGrows(l, number);
    NotZero("", l + number);
    assert "" + g == g;
    DateTexts(e, l, number, t);
    RunFound(l, g, t);
    Cut(e + "a", x, |e| + 1);
    assert ([Anything] + rest)[1..] == rest;
    var j := AnythingIsLazy(rest, s, 1, |e| + 1);
    Cut(e + "a", x, j);
    var w := (e + "a")[j..];
    GroupAfterRun(w, l, g, t);
    var v := (w + l)[|l|..];
    DigitsOnly(v, g);
    NotZero(v, l + number);
  }

  /** A date, literal text, the index and more literal text. */
  function Core(day: Token, l: string, index: Token, t: string): seq<Token> {
    [day] + (TokensOf(l) + ([index] + TokensOf(t)))
  }

  lemma CoreIs(day: Token, l: string, index: Token, t: string, d: string)
    requires day.Date? && index.Index?
    ensures var core := Core(day, l, index, t);
            && Clean(core) && Items(core) == [Anything] + (Chars(l) + ([Digits] + Chars(t)))
            && Print(core, Always(d), 0) == d + (l + (Number(index, 0) + t))
  {
    var last := [index] + TokensOf(t);
    var mid := TokensOf(l) + last;
    var core := Core(day, l, index, t);
    assert core[1..] == mid && last[1..] == TokensOf(t);
    PrintTokensOf(t, Always(d), 0);
    PrintTokensOf(l, Always(d), 0);
    CleanParts([index], TokensOf(t));
    CleanParts(TokensOf(l), last);
    CleanParts([day], mid);
    PrintAppend(TokensOf(l), last, Always(d), 0);
    CoreItems(day, l, index, t);
  }

  lemma CoreItems(day: Token, l: string, index: Token, t: string)
    requires day.Date? && index.Index?
    ensures Items(Core(day, l, index, t)) == [Anything] + (Chars(l) + ([Digits] + Chars(t)))
  {
    ItemsOfText(l);
    ItemsOfText(t);
    ItemsAppend([index], TokensOf(t));
    ItemsAppend(TokensOf(l), [index] + TokensOf(t));
    ItemsAppend([day], TokensOf(l) + ([index] + TokensOf(t)));
    assert Items([index]) == [Digits] && Items([day]) == [Anything];
  }

  lemma SplitAtLastDate(ts: seq<Token>, i: nat) returns (pre: seq<Token>, day: Token)
    requires OneIndexAt(ts, i) && !Literal(ts[..i]) && Literal(ts[i + 1..])
    ensures day.Date? && Unindexed(pre)
    ensures ts == pre + Core(day, RunBefore(ts[..i]), ts[i], RunAfter(ts[i + 1..]))
  {
    hide RunBefore, RunAfter;
    var head, tail := ts[..i], ts[i + 1..];
    var init := RunBeforeEnds(head);
    var rest := RunAfterLeads(tail);
    var n := |init| - 1;
    Around(ts, i);
    pre, day := init[..n], init[n];
    assert init == pre + [day];
    assert ts[..i] == pre + ([day] + TokensOf(RunBefore(head)));
  }

  lemma DateBeforeIsMisread(ts: seq<Token>, i: nat) returns (d: string)
    requires OneIndexAt(ts, i) && Clean(ts)
    requires Literal(ts[i + 1..]) && !Literal(ts[..i]) && AllDigits(RunBefore(ts[..i]))
    ensures PlainEnd(d)
    ensures var v := IndexIn(Items(ts), Print(ts, Always(d), 0)); v.Some? && v.value > 0
  {
    hide Search, AllDigits, Matches, Print, Items, RunBefore, RunAfter, Core;
    var l, t := RunBefore(ts[..i]), RunAfter(ts[i + 1..]);
    d := "a" + l + "1";
    var date := Always(d);
    var pre, day := SplitAtLastDate(ts, i);
    var core := Core(day, l, ts[i], t);
    CoreIs(day, l, ts[i], t, d);
    PrintAppend(pre, core, date, 0);
    ItemsAppend(pre, core);
    NoNumbers(pre, 0);
    PrintedFound(core, date, 0);
    PartFound(pre, date, 0, Items(core), Print(core, date, 0));
    assert "" + Print(ts, date, 0) == Print(ts, date, 0);
    var e := DatesGiveWay(pre, date, 0, Items(core), Print(core, date, 0), "");
    DateGivesDigits(l, Number(ts[i], 0), t, e);
  }

  lemma PrintedFound(ts: seq<Token>, date: DateText, k: nat)
    requires Clean(ts) && DatesShow(ts, date)
    ensures Search(Items(ts), Print(ts, date, k)).Some?
  {
    PrintedMatches(ts, date, k);
    SearchFindsAll(Items(ts), Print(ts, date, k), Numbers(ts, k));
  }

  // ----- Dates after the index

  /** With literal text before it, the group that is found begins with the whole index. */
  lemma DatesAfter(ts: seq<Token>, i: nat, date: DateText, k: nat) returns (more: string)
    requires OneIndexAt(ts, i) && Literal(ts[..i]) && Clean(ts) && DatesShow(ts, date)
    ensures Search(Items(ts), Print(ts, date, k)) == Some([Number(ts[i], k) + more])
  {
    hide Search, Print, Items, AllDigits;
    var tail, number := ts[i + 1..], Number(ts[i], k);
    var x := Print(tail, date, k);
    LiteralHead(ts, i, date, k);
    assert DatesShow(tail, date) by {
      assert forall q :: 0 <= q < |tail| ==> tail[q] == ts[i + 1 + q];
    }
    PrintedFound(tail, date, k);
    Cut(number, x, |number|);
    var j := GroupIsLongest(Items(tail), number + x, |number|);
    NoGroups(tail, (number + x)[j..]);
    more := (number + x)[|number|..j];
    assert (number + x)[..j] == number + more;
    assert [number + more] + [] == [number + more];
  }

  lemma LiteralHead(ts: seq<Token>, i: nat, date: DateText, k: nat)
    requires OneIndexAt(ts, i) && Literal(ts[..i]) && Clean(ts)
    ensures Clean(ts[i + 1..])
    ensures Search(Items(ts), Print(ts, date, k)) ==
            Search([Digits] + Items(ts[i + 1..]), Number(ts[i], k) + Print(ts[i + 1..], date, k))
  {
    var h := RunAfter(ts[..i]);
    var rest := RunAfterLeads(ts[..i]);
    assert ts[..i] == TokensOf(h);
    ItemsAround(ts, i);
    ItemsOfText(h);
    PrintedAround(ts, i, date, k);
    PrintTokensOf(h, date, k);
    var y := Number(ts[i], k) + Print(ts[i + 1..], date, k);
    SearchText(h, [Digits] + Items(ts[i + 1..]), h + y);
    assert (h + y)[|h|..] == y;
  }

  lemma DateAfterIsMisread(ts: seq<Token>, i: nat) returns (d: string)
    requires OneIndexAt(ts, i) && Clean(ts)
    requires Literal(ts[..i]) && !Literal(ts[i + 1..]) && AllDigits(RunAfter(ts[i + 1..]))
    ensures PlainEnd(d)
    ensures var v := IndexIn(Items(ts), Print(ts, Always(d), 0)); v.Some? && v.value > 0
  {
    var tail, number := ts[i + 1..], Number(ts[i], 0);
    var r := RunAfter(tail);
    var rest := RunAfterLeads(tail);
    d := "1" + r + "x";
    var date := Always(d);
    LiteralHead(ts, i, date, 0);
    PrintedRun(r, tail, rest, date, 0);
    DatePrints(rest, d, 0);
    TailFound(tail, rest, date, 0, "x");
    DigitsGoOn(tail, number, Print(rest[1..], date, 0));
  }

  lemma TailTexts(number: string, r: string, z: string)
    ensures number + (r + ("1" + r + "x" + z)) == (number + r + "1") + (r + ("x" + z))
  {
  }

  lemma GroupGrows(number: string, r: string, y: string, j: nat)
    requires AllDigits(number) && AllDigits(r) && number + r + "1" <= y
    requires |number + r + "1"| <= j <= |y| && AllDigits(y[..j])
    ensures Atoi(y[..j]) > 0
  {
    var more := y[|number + r + "1"|..j];
    assert y[..j] == number + r + ("1" + more);
    PartsAreDigits(number + r, "1" + more, y[..j]);
    PartsAreDigits("1", more, "1" + more);
    NotZero(number + r, more);
  }

  lemma DigitsGoOn(tail: seq<Token>, number: string, z: string)
    requires Unindexed(tail) && AllDigits(RunAfter(tail)) && AllDigits(number)
    requires Search(Items(tail), RunAfter(tail) + ("x" + z)).Some?
    ensures var r := RunAfter(tail);
            var v := IndexIn([Digits] + Items(tail), number + (r + ("1" + r + "x" + z)));
            v.Some? && v.value > 0
  {
    hide RunAfter, Search, Unindexed, Atoi;
    var r := RunAfter(tail);
    var g, x := number + r + "1", r + ("x" + z);
    TailTexts(number, r, z);
    Cut(g, x, |g|);
    assert AllDigits((g + x)[..|g|]);
    var j := GroupIsLongest(Items(tail), g + x, |g|);
    NoGroups(tail, (g + x)[j..]);
    GroupGrows(number, r, g + x, j);
    var one: seq<string> := [(g + x)[..j]];
    assert one + [] == one;
  }

  // ----- Dates on both sides

  /** A short print: one character for every date. */
  function Compact(ts: seq<Token>): string {
    if ts == [] then "" else [if ts[0].Lit? then ts[0].c else 'x'] + Compact(ts[1..])
  }

  /** Wildcards take one character each where that is enough. */
  lemma {:induction false} CompactFound(ts: seq<Token>, items: seq<Item>, y: string)
    requires Unindexed(ts) && Search(items, y).Some?
    ensures Search(Items(ts) + items, Compact(ts) + y) == Search(items, y)
  {
    hide Search;
    if ts == [] {
      assert Items(ts) + items == items && Compact(ts) + y == y;
    } else {
      var s, rest := Compact(ts) + y, Items(ts[1..]) + items;
      assert Items(ts) + items == [ItemOf(ts[0])] + rest;
      assert s[1..] == Compact(ts[1..]) + y;
      CompactFound(ts[1..], items, y);
      if ts[0].Lit? {
        MatchingChar(rest, s);
      } else {
        ShortestWildcard(rest, s);
      }
    }
  }

  lemma DigitsMeetX(g: string, y: string, r: string, z: string)
    requires g + y == "1" + (r + ("x" + z)) && AllDigits(g) && g != "" && r <= y && AllDigits(r)
    ensures g == "1"
  {
    var s := "1" + (r + ("x" + z));
    assert s[..1 + |r|] == "1" + r && s[1 + |r|] == 'x';
    DigitsEndIs(s, 1 + |r|);
    assert s[..|g| + |r|] == g + r && s[0..|g| + |r|] == s[..|g| + |r|];
    DigitsReach(s, 0, |g| + |r|);
    assert |g| == 1 && g[0] == s[0];
  }

  lemma SingleDigit(g: string, y: string, r: string, z: string)
    requires g + y == "1" + (r + ("x" + z)) && AllDigits(g) && g != "" && r <= y
    ensures g == "1"
  {
    if AllDigits(r) {
      DigitsMeetX(g, y, r, z);
    } else {
      SameStart(g, y, "1", r + ("x" + z), r);
    }
  }

  lemma RunComesFirst(tail: seq<Token>, s: string)
    requires Search(Items(tail), s).Some?
    ensures RunAfter(tail) <= s
  {
    var rest := RunAfterLeads(tail);
    ChainRun(RunAfter(tail), tail, rest);
    SearchText(RunAfter(tail), Items(rest), s);
  }

  /** The group takes a single digit when what follows must come right after it. */
  lemma OneDigit(tail: seq<Token>, z: string)
    requires Unindexed(tail) && Search(Items(tail), RunAfter(tail) + ("x" + z)).Some?
    ensures Search([Digits] + Items(tail), "1" + (RunAfter(tail) + ("x" + z))) == Some(["1"])
  {
    hide Search, RunAfter, Unindexed, DigitsEnd;
    var r := RunAfter(tail);
    var x := r + ("x" + z);
    Cut("1", x, 1);
    var j := GroupIsLongest(Items(tail), "1" + x, 1);
    var g, y := ("1" + x)[..j], ("1" + x)[j..];
    assert g + y == "1" + x;
    RunComesFirst(tail, y);
    SingleDigit(g, y, r, z);
    NoGroups(tail, y);
    assert ["1"] + [] == ["1"];
  }

  /** A date that looks like a whole name, with index 1, hides the index 2. */
  lemma DatesOnBothSides(ts: seq<Token>, i: nat) returns (d: string)
    requires OneIndexAt(ts, i) && Clean(ts) && !Literal(ts[..i]) && !Literal(ts[i + 1..])
    ensures PlainEnd(d) && IndexIn(Items(ts), Print(ts, Always(d), 2)) == Some(1)
  {
    hide Search, Print, Items, Compact, RunAfter;
    var head, tail, number := ts[..i], ts[i + 1..], Number(ts[i], 2);
    var m, r := RunAfter(head), RunAfter(tail);
    var body := RunAfterLeads(head);
    var rest := RunAfterLeads(tail);
    d := Compact(body) + ("1" + (r + "x"));
    var date := Always(d);
    PrintedAround(ts, i, date, 2);
    PrintedRun(m, head, body, date, 2);
    PrintedRun(r, tail, rest, date, 2);
    DatePrints(body, d, 2);
    DatePrints(rest, d, 2);
    var a, b := Print(body[1..], date, 2), Print(rest[1..], date, 2);
    var z := a + (number + (r + (d + b)));
    BothPrinted(m, d, a, number, r, b, Compact(body));
    BeforeRest(a, number, r, d, b);
    TailSkips(tail, rest, date, a + (number + (r + d)), z);
    OneDigit(tail, z);
    ShortestFound(ts, i, m, body, "1" + (r + ("x" + z)));
    assert Atoi("1"[..0]) == 0;
  }

  lemma BeforeRest(a: string, number: string, r: string, d: string, b: string)
    ensures a + (number + (r + (d + b))) == a + (number + (r + d)) + b
  {
  }

  /** The search settles for the shortest dates before the index. */
  lemma ShortestFound(ts: seq<Token>, i: nat, m: string, body: seq<Token>, y: string)
    requires OneIndexAt(ts, i) && ts[..i] == TokensOf(m) + body && Unindexed(body)
    requires Search([Digits] + Items(ts[i + 1..]), y).Some?
    ensures Search(Items(ts), m + (Compact(body) + y)) == Search([Digits] + Items(ts[i + 1..]), y)
  {
    hide Search, Compact;
    var items := [Digits] + Items(ts[i + 1..]);
    CompactFound(body, items, y);
    ItemsAround(ts, i);
    ChainRun(m, ts[..i], body);
    assert Items(ts) == Chars(m) + (Items(body) + items);
    SearchText(m, Items(body) + items, m + (Compact(body) + y));
    Cut(m, Compact(body) + y, |m|);
  }

  lemma BothPrinted(m: string, d: string, a: string, number: string, r: string, b: string, c: string)
    requires d == c + ("1" + (r + "x"))
    ensures (m + (d + a)) + (number + (r + (d + b))) ==
            m + (c + ("1" + (r + ("x" + (a + (number + (r + (d + b))))))))
  {
  }

  lemma TailSkips(tail: seq<Token>, rest: seq<Token>, date: DateText, w: string, z: string)
    requires tail == TokensOf(RunAfter(tail)) + rest && Unindexed(rest) && rest != [] && rest[0].Date?
    requires Clean(rest) && DatesShow(rest, date) && z == w + Print(rest[1..], date, 2)
    ensures Search(Items(tail), RunAfter(tail) + ("x" + z)) == Some([])
  {
    TailFound(tail, rest, date, 2, "x" + w);
    assert "x" + z == ("x" + w) + Print(rest[1..], date, 2);
  }

  // ----- A date directly before the index

  lemma DateThenIndex(option: string, zeroPad: bool, width: nat, date: DateText, k: nat)
    ensures var ts := [Date(option), Index(zeroPad, width)];
            && Print(ts, date, k) == date(option) + Padded(zeroPad, width, k)
            && Items(ts) == [Anything] + ([Digits] + Chars(""))
  {
    var ts, number := [Date(option), Index(zeroPad, width)], Padded(zeroPad, width, k);
    assert ts[1..] == [Index(zeroPad, width)] && ts[1..][1..] == [];
    assert Print(ts[1..], date, k) == number + Print([], date, k) && number + "" == number;
  }

  /** The search leaves one digit to a date that prints digits, and gives the others to the
      index. */
  lemma DateGivesItsDigits(option: string, zeroPad: bool, width: nat, date: DateText, k: nat)
    requires date(option) != "" && AllDigits(date(option))
    ensures var ts := [Date(option), Index(zeroPad, width)];
            && Print(ts, date, k) == date(option) + Padded(zeroPad, width, k)
            && Search(Items(ts), Print(ts, date, k)) == Some([date(option)[1..] + Padded(zeroPad, width, k)])
  {
    hide Search, Print, Items, Padded;
    var d, number := date(option), Padded(zeroPad, width, k);
    var g := d[1..] + number;
    DateThenIndex(option, zeroPad, width, date, k);
    DigitsThenText(g, "");
    assert g + "" == g && (d + number)[1..] == g;
    ShortestWildcard([Digits] + Chars(""), d + number);
  }

  /** So of "20243", printed for 2024 and index 3, it takes 0243 for the index. */
  lemma DateMayTakeDigits(date: DateText)
    requires date("yyyy") == "2024"
    ensures var ts := [Date("yyyy"), Index(false, 0)];
            Print(ts, date, 3) == "20243" && Search(Items(ts), "20243") == Some(["0243"])
  {
    DateGivesItsDigits("yyyy", false, 0, date, 3);
    assert "2024"[1..] == "024" && Itoa(3) == "3" && "024" + "3" == "0243";
  }

  // ----- The exact conditions

  lemma {:induction false} NumbersAt(ts: seq<Token>) returns (i: nat)
    requires Clean(ts) && |Numbers(ts, 0)| == 1
    ensures OneIndexAt(ts, i)
  {
    if ts[0].Index? {
      i := 0;
      NumbersOfNone(ts[1..]);
    } else {
      assert Clean(ts[1..]);
      assert [] + Numbers(ts[1..], 0) == Numbers(ts[1..], 0);
      var j := NumbersAt(ts[1..]);
      i := j + 1;
      assert ts[i + 1..] == ts[1..][j + 1..];
      assert ts[..i] == [ts[0]] + ts[1..][..j];
    }
  }

  lemma {:induction false} NumbersOfNone(ts: seq<Token>)
    requires Clean(ts) && Numbers(ts, 0) == []
    ensures Unindexed(ts)
  {
    if ts != [] {
      NumbersOfNone(ts[1..]);
    }
  }

  /** With no index, or with several, nothing is read. */
  lemma NothingRead(ts: seq<Token>, s: string)
    requires |Numbers(ts, 0)| != 1
    ensures IndexIn(Items(ts), s) == None
  {
    if Search(Items(ts), s).Some? {
      SearchFindsAMatch(Items(ts), s);
      GroupPerIndex(ts, 0, s, Search(Items(ts), s).value);
    }
  }

  /** A date and an index that are not read back. */
  lemma Misread(ts: seq<Token>) returns (d: string, k: nat)
    requires Clean(ts) && !Readable(ts)
    ensures PlainEnd(d) && IndexIn(Items(ts), Print(ts, Always(d), k)) != Some(k)
  {
    d, k := "x", 0;
    if |Numbers(ts, 0)| != 1 {
      NothingRead(ts, Print(ts, Always(d), k));
      return;
    }
    var i := NumbersAt(ts);
    assert !ReadableAt(ts, i);
    if Literal(ts[..i]) {
      d := DateAfterIsMisread(ts, i);
    } else if Literal(ts[i + 1..]) {
      d := DateBeforeIsMisread(ts, i);
    } else {
      k := 2;
      d := DatesOnBothSides(ts, i);
    }
  }

  ghost predicate ReadsBack(ts: seq<Token>, date: DateText, k: nat)
    requires Clean(ts)
  {
    IndexIn(Items(ts), Print(ts, date, k)) == Some(k)
  }

  lemma AlwaysShows(ts: seq<Token>, d: string)
    requires d != ""
    ensures DatesShow(ts, Always(d))
  {
  }

  /** The search recovers every index from every name, whatever the dates print, exactly
      for readable patterns. */
  lemma ReadsBackExactlyWhen(ts: seq<Token>)
    requires Clean(ts)
    ensures (forall date: DateText, k: nat :: DatesShow(ts, date) ==> ReadsBack(ts, date, k)) <==> Readable(ts)
  {
    if Readable(ts) {
      var i: nat :| ReadableAt(ts, i);
      forall date: DateText, k: nat | DatesShow(ts, date) ensures ReadsBack(ts, date, k) {
        SearchReadsBack(ts, i, date, k);
      }
    } else {
      var d, k := Misread(ts);
      AlwaysShows(ts, d);
      assert !ReadsBack(ts, Always(d), k);
    }
  }

  /** Each match, whichever a matcher picks, gives the index and nothing else. */
  ghost predicate EachMatchReads(ts: seq<Token>, date: DateText, k: nat)
    requires Clean(ts)
  {
    forall groups :: Matches(Items(ts), Print(ts, date, k), groups) ==>
      |groups| == 1 && AllDigits(groups[0]) && Atoi(groups[0]) == k
  }

  lemma EachMatchReadsBack(ts: seq<Token>, i: nat, date: DateText, k: nat)
    requires ReadableAt(ts, i) && Clean(ts)
    ensures EachMatchReads(ts, date, k)
  {
    PaddedReadsBack(ts[i].zeroPad, ts[i].width, k);
    forall groups | Matches(Items(ts), Print(ts, date, k), groups) ensures groups == [Number(ts[i], k)] {
      IndexReadsBack(ts, i, date, k, groups);
    }
  }

  /** The same condition decides whether every match recovers the index. */
  lemma EveryMatchReadsExactlyWhen(ts: seq<Token>)
    requires Clean(ts)
    ensures (forall date: DateText, k: nat :: DatesShow(ts, date) ==> EachMatchReads(ts, date, k)) <==> Readable(ts)
  {
    if Readable(ts) {
      var i: nat :| ReadableAt(ts, i);
      forall date: DateText, k: nat | DatesShow(ts, date) ensures EachMatchReads(ts, date, k) {
        EachMatchReadsBack(ts, i, date, k);
      }
    } else {
      var d, k := Misread(ts);
      var date := Always(d);
      AlwaysShows(ts, d);
      PrintedFound(ts, date, k);
      SearchFindsAMatch(Items(ts), Print(ts, date, k));
      assert !EachMatchReads(ts, date, k);
    }
  }

  /** The index that is read is no smaller than the printed one. */
  ghost predicate ReadsEnough(ts: seq<Token>, date: DateText, k: nat)
    requires Clean(ts)
  {
    var v := IndexIn(Items(ts), Print(ts, date, k));
    v.Some? && v.value >= k
  }

  lemma OneSidedReadsEnough(ts: seq<Token>, i: nat, date: DateText, k: nat)
    requires OneSidedAt(ts, i) && Clean(ts) && DatesShow(ts, date)
    ensures ReadsEnough(ts, date, k)
  {
    var number := Number(ts[i], k);
    var s := Print(ts, date, k);
    PaddedReadsBack(ts[i].zeroPad, ts[i].width, k);
    if Literal(ts[..i]) {
      var more := DatesAfter(ts, i, date, k);
      PartsAreDigits(number, more, Search(Items(ts), s).value[0]);
      AtoiGrows(number, more);
    } else {
      var more := DatesBefore(ts, i, date, k);
      PartsAreDigits(more, number, Search(Items(ts), s).value[0]);
      AtoiGrows(more, number);
    }
  }

  /** Too small an index is never read exactly when dates stand on at most one side. */
  lemma ReadsEnoughExactlyWhen(ts: seq<Token>)
    requires Clean(ts)
    ensures (forall date: DateText, k: nat :: DatesShow(ts, date) ==> ReadsEnough(ts, date, k)) <==> OneSided(ts)
  {
    if OneSided(ts) {
      var i: nat :| OneSidedAt(ts, i);
      forall date: DateText, k: nat | DatesShow(ts, date) ensures ReadsEnough(ts, date, k) {
        OneSidedReadsEnough(ts, i, date, k);
      }
    } else {
      var d, k := ReadTooLow(ts);
      AlwaysShows(ts, d);
      assert !ReadsEnough(ts, Always(d), k);
    }
  }

  lemma ReadTooLow(ts: seq<Token>) returns (d: string, k: nat)
    requires Clean(ts) && !OneSided(ts)
    ensures PlainEnd(d) && !ReadsEnough(ts, Always(d), k)
  {
    d, k := "x", 2;
    if |Numbers(ts, 0)| != 1 {
      NothingRead(ts, Print(ts, Always(d), k));
    } else {
      var i := NumbersAt(ts);
      assert !OneSidedAt(ts, i);
      d := DatesOnBothSides(ts, i);
    }
  }
}
