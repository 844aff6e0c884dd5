// The regular expression of an archive pattern, and how its first match is found.
module RollingSearch {
  import opened Optional
  import opened RollingPattern

  /** A character, a group of digits ("(\d+)"), or anything (".+?"). */
  datatype Item = Char(c: char) | Digits | Anything

  function ItemOf(t: Token): Item {
    match t
    case Lit(c) => Char(c)
    case Index(_, _) => Digits
    case _ => Anything
  }

  function Items(ts: seq<Token>): seq<Item> {
    seq(|ts|, i requires 0 <= i < |ts| => ItemOf(ts[i]))
  }

  lemma ItemsAppend(a: seq<Token>, b: seq<Token>)
    ensures Items(a + b) == Items(a) + Items(b)
  {
  }

  function Chars(r: string): seq<Item> {
    seq(|r|, i requires 0 <= i < |r| => Char(r[i]))
  }

  lemma ItemsOfText(r: string)
    ensures Items(TokensOf(r)) == Chars(r)
  {
  }

  // ----- Matches

  predicate TakesDigits(s: string, g: string) {
    g != "" && AllDigits(g) && g <= s
  }

  /** The whole text matches, and groups is what the groups of digits take. */
  ghost predicate Matches(items: seq<Item>, s: string, groups: seq<string>)
    decreases |items|
  {
    if items == [] then s == "" && groups == []
    else match items[0]
      case Char(c) => s != "" && s[0] == c && Matches(items[1..], s[1..], groups)
      case Digits =>
        groups != [] && TakesDigits(s, groups[0]) && Matches(items[1..], s[|groups[0]|..], groups[1..])
      case Anything => exists n :: 1 <= n <= |s| && Matches(items[1..], s[n..], groups)
  }

  lemma {:induction false} GroupsAreDigits(items: seq<Item>, s: string, groups: seq<string>)
    requires Matches(items, s, groups)
    ensures forall i :: 0 <= i < |groups| ==> groups[i] != "" && AllDigits(groups[i])
    decreases |items|
  {
    if items != [] {
      match items[0]
      case Char(_) => GroupsAreDigits(items[1..], s[1..], groups);
      case Digits => GroupsAreDigits(items[1..], s[|groups[0]|..], groups[1..]);
      case Anything =>
        var n :| 1 <= n <= |s| && Matches(items[1..], s[n..], groups);
        GroupsAreDigits(items[1..], s[n..], groups);
    }
  }

  lemma CharMatches(a: seq<Item>, s: string, n: nat, groups: seq<string>)
    requires a != [] && a[0].Char? && s != "" && s[0] == a[0].c && n <= |s| - 1
    requires Matches(a[1..], s[1..][..n], groups)
    ensures Matches(a, s[..n + 1], groups) && s[1..][n..] == s[n + 1..]
  {
    assert s[1..][..n] == s[..n + 1][1..];
  }

  lemma DigitsMatch(a: seq<Item>, s: string, n: nat, groups: seq<string>, m: nat)
    requires a != [] && a[0].Digits? && groups != [] && TakesDigits(s, groups[0])
    requires n <= |s| - |groups[0]| && m <= |groups| - 1
    requires Matches(a[1..], s[|groups[0]|..][..n], groups[1..][..m])
    ensures Matches(a, s[..n + |groups[0]|], groups[..m + 1])
    ensures s[|groups[0]|..][n..] == s[n + |groups[0]|..] && groups[1..][m..] == groups[m + 1..]
  {
    var j := |groups[0]|;
    assert s[j..][..n] == s[..n + j][j..] && groups[1..][..m] == groups[..m + 1][1..];
  }

  lemma AnythingMatches(a: seq<Item>, s: string, j: nat, n: nat, groups: seq<string>)
    requires a != [] && a[0].Anything? && 1 <= j <= |s| && n <= |s| - j
    requires Matches(a[1..], s[j..][..n], groups)
    ensures Matches(a, s[..n + j], groups) && s[j..][n..] == s[n + j..]
  {
    assert s[j..][..n] == s[..n + j][j..];
  }

  /** Each part of an expression matches its part of the text. */
  lemma {:induction false} SplitMatch(a: seq<Item>, b: seq<Item>, s: string, groups: seq<string>)
    returns (n: nat, m: nat)
    requires Matches(a + b, s, groups)
    ensures n <= |s| && m <= |groups|
    ensures Matches(a, s[..n], groups[..m]) && Matches(b, s[n..], groups[m..])
    decreases |a|
  {
    hide AllDigits;
    if a == [] {
      n, m := 0, 0;
      assert a + b == b && s[0..] == s && groups[0..] == groups;
    } else {
      assert (a + b)[1..] == a[1..] + b;
      match a[0] {
        case Char(_) =>
          n, m := SplitMatch(a[1..], b, s[1..], groups);
          CharMatches(a, s, n, groups[..m]);
          n := n + 1;
        case Digits =>
          n, m := SplitMatch(a[1..], b, s[|groups[0]|..], groups[1..]);
          DigitsMatch(a, s, n, groups, m);
          n, m := n + |groups[0]|, m + 1;
        case Anything =>
          var j: nat :| 1 <= j <= |s| && Matches(a[1..] + b, s[j..], groups);
          n, m := SplitMatch(a[1..], b, s[j..], groups);
          AnythingMatches(a, s, j, n, groups[..m]);
          n := n + j;
      }
    }
  }

  /** Literal text matches only itself. */
  lemma {:induction false} TextMatches(r: string, items: seq<Item>, s: string, groups: seq<string>)
    ensures Matches(Chars(r) + items, s, groups) <==> r <= s && Matches(items, s[|r|..], groups)
  {
    if r == "" {
      assert Chars(r) + items == items && s[0..] == s;
    } else {
      assert (Chars(r) + items)[1..] == Chars(r[1..]) + items;
      if s != "" {
        TextMatches(r[1..], items, s[1..], groups);
        assert |r| <= |s| ==> s[1..][|r| - 1..] == s[|r|..];
        assert r <= s <==> r[0] == s[0] && r[1..] <= s[1..];
      }
    }
  }

  lemma OnlyText(r: string, s: string, groups: seq<string>)
    requires Matches(Chars(r), s, groups)
    ensures s == r && groups == []
  {
    assert Chars(r) + [] == Chars(r);
    TextMatches(r, [], s, groups);
    assert s == s[..|r|] + s[|r|..];
  }

  // ----- The printed name matches

  function Number(t: Token, k: nat): string
    requires t.Index?
  {
    Padded(t.zeroPad, t.width, k)
  }

  /** What the indexes of a pattern print. */
  function Numbers(ts: seq<Token>, k: nat): seq<string> {
    if ts == [] then [] else (if ts[0].Index? then [Number(ts[0], k)] else []) + Numbers(ts[1..], k)
  }

  lemma {:induction false} PrintedMatches(ts: seq<Token>, date: DateText, k: nat)
    requires Clean(ts) && DatesShow(ts, date)
    ensures Matches(Items(ts), Print(ts, date, k), Numbers(ts, k))
  {
    if ts != [] {
      var s, first := Print(ts, date, k), Text(ts[0], date, k);
      PrintedMatches(ts[1..], date, k);
      assert Items(ts)[1..] == Items(ts[1..]);
      assert s[..|first|] == first && s[|first|..] == Print(ts[1..], date, k);
      assert [] + Numbers(ts[1..], k) == Numbers(ts[1..], k);
      assert ts[0].Index? ==> Numbers(ts, k)[1..] == Numbers(ts[1..], k);
    }
  }

  /** Every match has as many groups as there are indexes. */
  lemma {:induction false} GroupPerIndex(ts: seq<Token>, k: nat, s: string, groups: seq<string>)
    requires Matches(Items(ts), s, groups)
    ensures |groups| == |Numbers(ts, k)|
  {
    if ts != [] {
      assert Items(ts)[1..] == Items(ts[1..]);
      match ts[0]
      case Lit(_) => GroupPerIndex(ts[1..], k, s[1..], groups);
      case Index(_, _) => GroupPerIndex(ts[1..], k, s[|groups[0]|..], groups[1..]);
      case _ =>
        var n :| 1 <= n <= |s| && Matches(Items(ts[1..]), s[n..], groups);
        GroupPerIndex(ts[1..], k, s[n..], groups);
    }
  }

  // ----- The first match

  /** FindStringSubmatch without its first result: leftmost-first, a wildcard takes as
      little and a group of digits as much as it can. */
  function Search(items: seq<Item>, s: string): (r: Option<seq<string>>)
    ensures r.Some? ==> forall i :: 0 <= i < |r.value| ==> AllDigits(r.value[i])
    decreases |items|, 0, 0
  {
    if items == [] then if s == "" then Some([]) else None
    else match items[0]
      case Char(c) => if s != "" && s[0] == c then Search(items[1..], s[1..]) else None
      case Digits =>
        assert s[0..DigitsEnd(s, 0)] == s[..DigitsEnd(s, 0)];
        SearchDigits(items[1..], s, DigitsEnd(s, 0))
      case Anything => if s == "" then None else SearchAnything(items[1..], s, 1)
  }

  /** The group takes n digits, or fewer. */
  function SearchDigits(items: seq<Item>, s: string, n: nat): (r: Option<seq<string>>)
    requires n <= |s| && AllDigits(s[..n])
    ensures r.Some? ==> forall i :: 0 <= i < |r.value| ==> AllDigits(r.value[i])
    decreases |items|, 1, n
  {
    if n == 0 then None
    else
      var more := Search(items, s[n..]);
      if more.Some? then Some([s[..n]] + more.value) else SearchDigits(items, s, n - 1)
  }

  /** The wildcard takes n characters, or more. */
  function SearchAnything(items: seq<Item>, s: string, n: nat): (r: Option<seq<string>>)
    requires n <= |s|
    ensures r.Some? ==> forall i :: 0 <= i < |r.value| ==> AllDigits(r.value[i])
    decreases |items|, 1, |s| - n
  {
    var more := Search(items, s[n..]);
    if more.Some? then more else if n == |s| then None else SearchAnything(items, s, n + 1)
  }

  /** A wildcard stops at the first place from which the rest can be found. */
  lemma {:induction false} AnythingIsLazy(items: seq<Item>, s: string, n: nat, m: nat) returns (j: nat)
    requires n <= m <= |s| && Search(items, s[m..]).Some?
    ensures n <= j <= m && Search(items, s[j..]).Some? && SearchAnything(items, s, n) == Search(items, s[j..])
    decreases m - n
  {
    if Search(items, s[n..]).Some? {
      j := n;
    } else {
      j := AnythingIsLazy(items, s, n + 1, m);
    }
  }

  /** A group stops at the last place from which the rest can be found. */
  lemma {:induction false} DigitsAreGreedy(items: seq<Item>, s: string, n: nat, m: nat) returns (j: nat)
    requires 1 <= m <= n <= |s| && AllDigits(s[..n]) && Search(items, s[m..]).Some?
    ensures m <= j <= n && Search(items, s[j..]).Some?
    ensures SearchDigits(items, s, n) == Some([s[..j]] + Search(items, s[j..]).value)
    decreases n - m
  {
    if Search(items, s[n..]).Some? {
      j := n;
    } else {
      j := DigitsAreGreedy(items, s, n - 1, m);
    }
  }

  lemma {:induction false} DigitsFound(items: seq<Item>, s: string, n: nat) returns (j: nat)
    requires n <= |s| && AllDigits(s[..n]) && SearchDigits(items, s, n).Some?
    ensures 1 <= j <= n && Search(items, s[j..]).Some?
    ensures SearchDigits(items, s, n) == Some([s[..j]] + Search(items, s[j..]).value)
  {
    if Search(items, s[n..]).Some? {
      j := n;
    } else {
      j := DigitsFound(items, s, n - 1);
    }
  }

  lemma {:induction false} AnythingFound(items: seq<Item>, s: string, n: nat) returns (j: nat)
    requires n <= |s| && SearchAnything(items, s, n).Some?
    ensures n <= j <= |s| && Search(items, s[j..]).Some? && SearchAnything(items, s, n) == Search(items, s[j..])
    decreases |s| - n
  {
    if Search(items, s[n..]).Some? {
      j := n;
    } else {
      j := AnythingFound(items, s, n + 1);
    }
  }

  lemma {:induction false} DigitsReach(s: string, from: nat, m: nat)
    requires from <= m <= |s| && AllDigits(s[from..m])
    ensures m <= DigitsEnd(s, from)
    decreases |s| - from
  {
    if from < m {
      assert IsDigit(s[from..m][0]);
      assert s[from + 1..m] == s[from..m][1..];
      DigitsReach(s, from + 1, m);
    }
  }

  /** What is found is a match. */
  lemma {:induction false} SearchFindsAMatch(items: seq<Item>, s: string)
    requires Search(items, s).Some?
    ensures Matches(items, s, Search(items, s).value)
    decreases |items|
  {
    if items != [] {
      match items[0]
      case Char(_) => SearchFindsAMatch(items[1..], s[1..]);
      case Digits =>
        var n := DigitsEnd(s, 0);
        assert s[0..n] == s[..n];
        var j := DigitsFound(items[1..], s, n);
        SearchFindsAMatch(items[1..], s[j..]);
        assert s[..j] == s[..n][..j];
        assert ([s[..j]] + Search(items[1..], s[j..]).value)[1..] == Search(items[1..], s[j..]).value;
      case Anything =>
        var j := AnythingFound(items[1..], s, 1);
        SearchFindsAMatch(items[1..], s[j..]);
    }
  }

  /** Where there is a match, one is found. */
  lemma {:induction false} SearchFindsAll(items: seq<Item>, s: string, groups: seq<string>)
    requires Matches(items, s, groups)
    ensures Search(items, s).Some?
    decreases |items|
  {
    if items != [] {
      match items[0]
      case Char(_) => SearchFindsAll(items[1..], s[1..], groups);
      case Digits =>
        var m := |groups[0]|;
        SearchFindsAll(items[1..], s[m..], groups[1..]);
        assert s[0..m] == groups[0];
        DigitsReach(s, 0, m);
        assert s[0..DigitsEnd(s, 0)] == s[..DigitsEnd(s, 0)];
        var j := DigitsAreGreedy(items[1..], s, DigitsEnd(s, 0), m);
      case Anything =>
        var m: nat :| 1 <= m <= |s| && Matches(items[1..], s[m..], groups);
        SearchFindsAll(items[1..], s[m..], groups);
        var j := AnythingIsLazy(items[1..], s, 1, m);
    }
  }

  lemma {:induction false} SearchText(r: string, items: seq<Item>, s: string)
    ensures Search(Chars(r) + items, s) == if r <= s then Search(items, s[|r|..]) else None
  {
    if r == "" {
      assert Chars(r) + items == items && s[0..] == s;
    } else {
      assert (Chars(r) + items)[1..] == Chars(r[1..]) + items;
      if s != "" {
        SearchText(r[1..], items, s[1..]);
        assert |r| <= |s| ==> s[1..][|r| - 1..] == s[|r|..];
        assert r <= s <==> r[0] == s[0] && r[1..] <= s[1..];
      }
    }
  }

  /** A group takes at least any digits after which the rest can be found. */
  lemma GroupIsLongest(items: seq<Item>, s: string, m: nat) returns (j: nat)
    requires 1 <= m <= |s| && AllDigits(s[..m]) && Search(items, s[m..]).Some?
    ensures m <= j <= |s| && AllDigits(s[..j]) && Search(items, s[j..]).Some?
    ensures Search([Digits] + items, s) == Some([s[..j]] + Search(items, s[j..]).value)
  {
    assert ([Digits] + items)[1..] == items;
    assert s[0..m] == s[..m] && s[0..DigitsEnd(s, 0)] == s[..DigitsEnd(s, 0)];
    DigitsReach(s, 0, m);
    j := DigitsAreGreedy(items, s, DigitsEnd(s, 0), m);
    assert s[..j] == s[..DigitsEnd(s, 0)][..j];
  }

  /** The rest is found at or before a place where it can be found. */
  lemma WildcardGivesWay(items: seq<Item>, extra: string, first: string, more: string) returns (left: string)
    requires first != "" && Search(items, more).Some?
    ensures Search([Anything] + items, (extra + first) + more) == Search(items, left + more)
  {
    var s, m := (extra + first) + more, |extra + first|;
    assert ([Anything] + items)[1..] == items && s[m..] == more;
    var j := AnythingIsLazy(items, s, 1, m);
    left := (extra + first)[j..];
    assert s[j..] == left + more;
  }

  lemma CharGivesWay(items: seq<Item>, extra: string, c: char, more: string)
    requires Search([Char(c)] + items, (extra + [c]) + more).Some?
    ensures Search([Char(c)] + items, (extra + [c]) + more) == Search(items, (extra + [c])[1..] + more)
  {
    assert ([Char(c)] + items)[1..] == items;
    assert ((extra + [c]) + more)[1..] == (extra + [c])[1..] + more;
  }

  lemma ShortestWildcard(items: seq<Item>, s: string)
    requires s != "" && Search(items, s[1..]).Some?
    ensures Search([Anything] + items, s) == Search(items, s[1..])
  {
    assert ([Anything] + items)[1..] == items;
  }

  lemma MatchingChar(items: seq<Item>, s: string)
    requires s != ""
    ensures Search([Char(s[0])] + items, s) == Search(items, s[1..])
  {
    assert ([Char(s[0])] + items)[1..] == items;
  }

  /** Behind some extra text, the wildcards of a pattern end no later than what they
      printed, so the rest is looked for at or before its place. */
  lemma {:induction false} DatesGiveWay(
    pre: seq<Token>, date: DateText, k: nat, items: seq<Item>, x: string, extra: string) returns (extra': string)
    requires Clean(pre) && Numbers(pre, k) == [] && DatesShow(pre, date) && Search(items, x).Some?
    requires Search(Items(pre) + items, extra + (Print(pre, date, k) + x)).Some?
    ensures Search(Items(pre) + items, extra + (Print(pre, date, k) + x)) == Search(items, extra' + x)
  {
    hide Search;
    if pre == [] {
      assert Items(pre) + items == items && "" + x == x;
      extra' := extra;
    } else {
      var first, more := Text(pre[0], date, k), Print(pre[1..], date, k) + x;
      var rest := Items(pre[1..]) + items;
      assert Items(pre) + items == [ItemOf(pre[0])] + rest;
      assert extra + (Print(pre, date, k) + x) == (extra + first) + more;
      var left: string;
      if pre[0].Date? {
        PartFound(pre[1..], date, k, items, x);
        left := WildcardGivesWay(rest, extra, first, more);
      } else {
        CharGivesWay(rest, extra, pre[0].c, more);
        left := (extra + first)[1..];
      }
      extra' := DatesGiveWay(pre[1..], date, k, items, x, left);
    }
  }

  /** What is printed, and then what the rest finds, is found. */
  lemma PartFound(pre: seq<Token>, date: DateText, k: nat, items: seq<Item>, x: string)
    requires Clean(pre) && Numbers(pre, k) == [] && DatesShow(pre, date) && Search(items, x).Some?
    ensures Search(Items(pre) + items, Print(pre, date, k) + x).Some?
  {
    var groups := Search(items, x).value;
    PrintedMatches(pre, date, k);
    SearchFindsAMatch(items, x);
    JoinMatches(Items(pre), items, Print(pre, date, k), x, [], groups);
    assert [] + groups == groups;
    SearchFindsAll(Items(pre) + items, Print(pre, date, k) + x, groups);
  }

  lemma {:induction false} JoinMatches(
    a: seq<Item>, b: seq<Item>, s: string, t: string, groups: seq<string>, more: seq<string>)
    requires Matches(a, s, groups) && Matches(b, t, more)
    ensures Matches(a + b, s + t, groups + more)
    decreases |a|
  {
    if a == [] {
      assert a + b == b && s + t == t && groups + more == more;
    } else {
      assert (a + b)[1..] == a[1..] + b;
      match a[0]
      case Char(_) =>
        JoinMatches(a[1..], b, s[1..], t, groups, more);
        assert (s + t)[1..] == s[1..] + t;
      case Digits =>
        var n := |groups[0]|;
        JoinMatches(a[1..], b, s[n..], t, groups[1..], more);
        assert (s + t)[n..] == s[n..] + t && (groups + more)[1..] == groups[1..] + more;
      case Anything =>
        var n :| 1 <= n <= |s| && Matches(a[1..], s[n..], groups);
        JoinMatches(a[1..], b, s[n..], t, groups, more);
        assert (s + t)[n..] == s[n..] + t;
    }
  }

  // ----- The index that is read

  /** The number that the only group gives; the code reads nothing when there are more. */
  function IndexIn(items: seq<Item>, s: string): Option<nat> {
    var r := Search(items, s);
    if r.Some? && |r.value| == 1 then Some(Atoi(r.value[0])) else None
  }
}
