// Archive name patterns: printing them and reading the index back.
module RollingPattern {
  import opened Optional

  // ----- Numbers

  predicate IsDigit(c: char) {
    '0' <= c <= '9'
  }

  predicate AllDigits(s: string) {
    forall i :: 0 <= i < |s| ==> IsDigit(s[i])
  }

  function DigitOf(n: nat): (c: char)
    requires n < 10
    ensures IsDigit(c) && c as int - '0' as int == n
  {
    ('0' as int + n) as char
  }

  /** strconv.Itoa for numbers that are not negative. */
  function Itoa(n: nat): (s: string)
    ensures s != "" && AllDigits(s)
  {
    if n < 10 then [DigitOf(n)] else Itoa(n / 10) + [DigitOf(n % 10)]
  }

  /** strconv.Atoi for a string of digits. */
  function Atoi(s: string): nat
    requires AllDigits(s)
  {
    if s == "" then 0 else 10 * Atoi(s[..|s| - 1]) + (s[|s| - 1] as int - '0' as int)
  }

  lemma {:induction false} AtoiInvertsItoa(n: nat)
    ensures Atoi(Itoa(n)) == n
  {
    if n >= 10 {
      AtoiInvertsItoa(n / 10);
      assert Itoa(n)[..|Itoa(n)| - 1] == Itoa(n / 10);
    } else {
      assert Itoa(n)[..0] == "";
    }
  }

  function Zeros(n: int): (s: string)
    ensures AllDigits(s)
  {
    if n <= 0 then "" else Zeros(n - 1) + "0"
  }

  lemma AtoiNext(s: string, c: char)
    requires AllDigits(s) && IsDigit(c)
    ensures AllDigits(s + [c]) && Atoi(s + [c]) == 10 * Atoi(s) + (c as int - '0' as int)
  {
    assert (s + [c])[..|s|] == s;
  }

  lemma {:induction false} ZerosAreNothing(n: int)
    ensures Atoi(Zeros(n)) == 0
  {
    if n > 0 {
      ZerosAreNothing(n - 1);
      AtoiNext(Zeros(n - 1), '0');
    }
  }

  lemma {:induction false} LeadingZeros(z: string, s: string)
    requires AllDigits(z) && AllDigits(s) && Atoi(z) == 0
    ensures AllDigits(z + s) && Atoi(z + s) == Atoi(s)
  {
    if s == "" {
      assert z + s == z;
    } else {
      LeadingZeros(z, s[..|s| - 1]);
      assert (z + s)[..|z + s| - 1] == z + s[..|s| - 1];
    }
  }

  /** The number as %i prints it. */
  function Padded(zeroPad: bool, width: nat, k: nat): (s: string)
    ensures s != "" && AllDigits(s)
  {
    var value := Itoa(k);
    if zeroPad && width > |value| then Zeros(width - |value|) + value else value
  }

  lemma PaddedReadsBack(zeroPad: bool, width: nat, k: nat)
    ensures Atoi(Padded(zeroPad, width, k)) == k
  {
    AtoiInvertsItoa(k);
    if zeroPad && width > |Itoa(k)| {
      ZerosAreNothing(width - |Itoa(k)|);
      LeadingZeros(Zeros(width - |Itoa(k)|), Itoa(k));
    }
  }

  /** Itoa writes no digit too many. */
  lemma {:induction false} ItoaIsShortest(n: nat)
    ensures n < 10 ==> |Itoa(n)| == 1
    ensures n > 0 ==> Itoa(n)[0] != '0'
  {
    if n >= 10 {
      ItoaIsShortest(n / 10);
    }
  }

  lemma {:induction false} ZerosAre(n: nat)
    ensures |Zeros(n)| == n && forall i :: 0 <= i < n ==> Zeros(n)[i] == '0'
  {
    if n > 0 {
      ZerosAre(n - 1);
    }
  }

  /** With padding the number is filled up with zeros to the width, and only then. */
  lemma PaddedIs(zeroPad: bool, width: nat, k: nat)
    ensures var s, value := Padded(zeroPad, width, k), Itoa(k);
            && |s| == (if zeroPad && width > |value| then width else |value|)
            && s[|s| - |value|..] == value
            && forall i :: 0 <= i < |s| - |value| ==> s[i] == '0'
  {
    if zeroPad && width > |Itoa(k)| {
      ZerosAre(width - |Itoa(k)|);
    }
  }

  // ----- Tokens

  datatype Token = Lit(c: char) | Index(zeroPad: bool, width: nat) | Date(option: string) | Bad

  function DigitsEnd(p: string, from: nat): (end: nat)
    requires from <= |p|
    ensures from <= end <= |p| && AllDigits(p[from..end]) && (end < |p| ==> !IsDigit(p[end]))
    decreases |p| - from
  {
    if from < |p| && IsDigit(p[from]) then DigitsEnd(p, from + 1) else from
  }

  function IndexOf(p: string, c: char, from: nat): (at: Option<nat>)
    requires from <= |p|
    ensures at.Some? ==> from <= at.value < |p| && p[at.value] == c
    decreases |p| - from
  {
    if from == |p| then None else if p[from] == c then Some(from) else IndexOf(p, c, from + 1)
  }

  /** The token that starts at offset and where the next one starts. */
  function TokenAt(p: string, offset: nat): (t: (Token, nat))
    requires offset < |p|
    ensures offset < t.1 <= |p|
  {
    if p[offset] != '%' then (Lit(p[offset]), offset + 1)
    else if offset + 1 < |p| && p[offset + 1] == '%' then (Lit('%'), offset + 2)
    else
      var zeroPad := offset + 1 < |p| && p[offset + 1] == '0';
      var start := if zeroPad then offset + 2 else offset + 1;
      var cursor := DigitsEnd(p, start);
      if cursor == |p| then (Bad, |p|)
      else if p[cursor] == 'i' then (Index(zeroPad, Atoi(p[start..cursor])), cursor + 1)
      else if p[cursor] == 'd' then DateAt(p, cursor + 1)
      else (Bad, cursor)
  }

  /** An option in braces may follow %d; without the closing brace the pattern is bad. */
  function DateAt(p: string, cursor: nat): (t: (Token, nat))
    requires cursor <= |p|
    ensures cursor <= t.1 <= |p|
  {
    if cursor < |p| && p[cursor] == '{' then
      var close := IndexOf(p, '}', cursor + 1);
      if close.None? then (Bad, cursor) else (Date(p[cursor + 1..close.value]), close.value + 1)
    else (Date(""), cursor)
  }

  /** text is how the token is written: a character, or "%%"; a percent sign, digits and an
      i, the first 0 asking for padding; or a d, with an option in braces or without. */
  ghost predicate SpellsToken(t: Token, text: string) {
    match t
    case Lit(c) => (c != '%' && text == [c]) || (c == '%' && text == "%%")
    case Index(zeroPad, width) =>
      exists d :: SpellsIndex(zeroPad, width, d) && text == "%" + (if zeroPad then "0" else "") + d + "i"
    case Date(option) =>
      exists d :: AllDigits(d) &&
        ((option == "" && text == "%" + d + "d") || ('}' !in option && text == "%" + d + "d{" + option + "}"))
    case Bad => false
  }

  predicate SpellsIndex(zeroPad: bool, width: nat, d: string) {
    AllDigits(d) && width == Atoi(d) && (zeroPad || d == "" || d[0] != '0')
  }

  lemma {:induction false} FirstClose(p: string, from: nat)
    requires from <= |p|
    ensures IndexOf(p, '}', from).Some? ==> '}' !in p[from..IndexOf(p, '}', from).value]
    ensures IndexOf(p, '}', from).None? <==> '}' !in p[from..]
    decreases |p| - from
  {
    if from < |p| {
      FirstClose(p, from + 1);
      assert p[from..] == [p[from]] + p[from + 1..];
      if p[from] != '}' && IndexOf(p, '}', from).Some? {
        var at := IndexOf(p, '}', from).value;
        assert p[from..at] == [p[from]] + p[from + 1..at];
      }
    }
  }

  lemma Slices(p: string, a: nat, b: nat, c: nat)
    requires a <= b <= c <= |p|
    ensures p[a..c] == p[a..b] + p[b..c]
    ensures c == b + 1 ==> p[a..c] == p[a..b] + [p[b]]
    ensures b == a + 1 ==> p[a..c] == [p[a]] + p[b..c]
  {
  }

  /** A percent sign, perhaps a 0 and digits, and the letter behind them. */
  lemma LetterAfterDigits(p: string, offset: nat, start: nat, cursor: nat)
    requires offset < start <= offset + 2 && start <= cursor < |p| && p[offset] == '%'
    requires start == offset + 2 ==> p[offset + 1] == '0'
    ensures p[offset..cursor + 1] ==
            "%" + (if start == offset + 2 then "0" else "") + p[start..cursor] + [p[cursor]]
  {
    Slices(p, offset, offset + 1, start);
    Slices(p, offset, start, cursor);
    Slices(p, offset, cursor, cursor + 1);
    assert p[offset..start] == "%" + if start == offset + 2 then "0" else "";
  }

  /** The token at an offset is the one that is written there. */
  lemma TokenIsSpelled(p: string, offset: nat)
    requires offset < |p| && !TokenAt(p, offset).0.Bad?
    ensures var t := TokenAt(p, offset); SpellsToken(t.0, p[offset..t.1])
  {
    hide IndexOf;
    var t := TokenAt(p, offset);
    if t.0.Index? {
      var start := if t.0.zeroPad then offset + 2 else offset + 1;
      LetterAfterDigits(p, offset, start, t.1 - 1);
      assert SpellsIndex(t.0.zeroPad, t.0.width, p[start..t.1 - 1]);
    } else if t.0.Date? {
      DateIsSpelled(p, offset);
    } else {
      assert p[offset..t.1] == [p[offset]] || p[offset..t.1] == "%%";
    }
  }

  lemma DateIsSpelled(p: string, offset: nat)
    requires offset < |p| && TokenAt(p, offset).0.Date?
    ensures var t := TokenAt(p, offset); SpellsToken(t.0, p[offset..t.1])
  {
    hide SpellsToken, IndexOf, DigitsEnd;
    var zeroPad := p[offset + 1] == '0';
    var start := if zeroPad then offset + 2 else offset + 1;
    var cursor := DigitsEnd(p, start);
    var d := (if zeroPad then "0" else "") + p[start..cursor];
    LetterAfterDigits(p, offset, start, cursor);
    assert p[offset..cursor + 1] == "%" + d + "d";
    OptionIsSpelled(p, offset, cursor + 1, d);
  }

  lemma OptionIsSpelled(p: string, offset: nat, at: nat, d: string)
    requires offset <= at <= |p| && p[offset..at] == "%" + d + "d" && AllDigits(d) && !DateAt(p, at).0.Bad?
    ensures var t := DateAt(p, at); SpellsToken(t.0, p[offset..t.1])
  {
    hide AllDigits, DateAt;
    var t := DateAt(p, at);
    OptionInBraces(p, at);
    if t.1 > at {
      Slices(p, offset, at, t.1);
      assert p[offset..t.1] == "%" + d + "d{" + t.0.option + "}";
    }
  }

  lemma OptionInBraces(p: string, at: nat)
    requires at <= |p| && !DateAt(p, at).0.Bad?
    ensures var t := DateAt(p, at);
            && t.0.Date? && (t.1 == at ==> t.0.option == "")
            && (t.1 > at ==> '}' !in t.0.option && p[at..t.1] == "{" + t.0.option + "}")
  {
    var t := DateAt(p, at);
    if t.1 > at {
      FirstClose(p, at + 1);
      Slices(p, at, at + 1, t.1);
      Slices(p, at + 1, t.1 - 1, t.1);
    }
  }

  /** A token is bad when a percent sign is followed, behind any digits, by neither an i nor a
      d, or by a d whose option is not closed. */
  lemma TokenIsBad(p: string, offset: nat)
    requires offset < |p|
    ensures TokenAt(p, offset).0.Bad? <==>
              && p[offset] == '%' && !(offset + 1 < |p| && p[offset + 1] == '%')
              && var c := DigitsEnd(p, offset + 1);
                 || c == |p| || (p[c] != 'i' && p[c] != 'd')
                 || (p[c] == 'd' && c + 1 < |p| && p[c + 1] == '{' && '}' !in p[c + 2..])
  {
    if p[offset] == '%' {
      var c := DigitsEnd(p, offset + 1);
      FirstClose(p, if c + 2 <= |p| then c + 2 else |p|);
      if offset + 1 < |p| && p[offset + 1] == '0' {
        assert c == DigitsEnd(p, offset + 2);
      }
    }
  }

  function Tokens(p: string, offset: nat): seq<Token>
    requires offset <= |p|
    decreases |p| - offset
  {
    if offset == |p| then [] else [TokenAt(p, offset).0] + Tokens(p, TokenAt(p, offset).1)
  }

  predicate Clean(ts: seq<Token>) {
    Bad !in ts
  }

  /** date stands for formatting the time of the rollover. */
  type DateText = string -> string

  function Text(t: Token, date: DateText, k: nat): string
    requires !t.Bad?
  {
    match t
    case Lit(c) => [c]
    case Index(zeroPad, width) => Padded(zeroPad, width, k)
    case Date(option) => date(option)
  }

  function Print(ts: seq<Token>, date: DateText, k: nat): string
    requires Clean(ts)
  {
    if ts == [] then "" else Text(ts[0], date, k) + Print(ts[1..], date, k)
  }

  /** builder holds the tokens before offset; the rest is still to be printed. */
  ghost predicate Printed(p: string, date: DateText, k: nat, builder: string, offset: nat)
    requires offset <= |p|
  {
    var all, rest := Tokens(p, 0), Tokens(p, offset);
    && (Clean(all) <==> Clean(rest))
    && (Clean(rest) ==> Clean(all) && Print(all, date, k) == builder + Print(rest, date, k))
  }

  lemma PrintOne(p: string, date: DateText, k: nat, builder: string, offset: nat)
    requires offset < |p| && Printed(p, date, k, builder, offset)
    ensures var t := TokenAt(p, offset);
            if t.0.Bad? then !Clean(Tokens(p, 0)) else Printed(p, date, k, builder + Text(t.0, date, k), t.1)
  {
    var t := TokenAt(p, offset);
    var rest := Tokens(p, t.1);
    assert Tokens(p, offset) == [t.0] + rest && Tokens(p, offset)[1..] == rest;
    if !t.0.Bad? && Clean(rest) {
      var text, more := Text(t.0, date, k), Print(rest, date, k);
      assert builder + (text + more) == builder + text + more;
    }
  }

  /** FormatPattern: prints the tokens one by one, or fails at the first bad one. */
  method FormatPattern(p: string, date: DateText, k: nat) returns (r: Option<string>)
    ensures r.Some? <==> Clean(Tokens(p, 0))
    ensures r.Some? ==> r.value == Print(Tokens(p, 0), date, k)
  {
    var builder, offset := "", 0;
    while offset < |p|
      invariant offset <= |p| && Printed(p, date, k, builder, offset)
    {
      PrintOne(p, date, k, builder, offset);
      var t := TokenAt(p, offset);
      if t.0.Bad? {
        return None;
      }
      builder, offset := builder + Text(t.0, date, k), t.1;
    }
    return Some(builder);
  }

  /** No date is printed as nothing. */
  ghost predicate DatesShow(ts: seq<Token>, date: DateText) {
    forall i :: 0 <= i < |ts| && ts[i].Date? ==> date(ts[i].option) != ""
  }

  /** Every date prints the same text. */
  function Always(d: string): DateText {
    (_: string) => d
  }

  // ----- Compressed archives

  function Lower(c: char): char {
    if 'A' <= c <= 'Z' then (c as int + 32) as char else c
  }

  /** The lower-case text ends with ".gz". */
  predicate EndsGz(s: string) {
    |s| >= 3 && s[|s| - 3] == '.' && Lower(s[|s| - 2]) == 'g' && Lower(s[|s| - 1]) == 'z'
  }

  /** The ending counts in any case of its letters. */
  lemma EndsGzIs(s: string)
    ensures EndsGz(s) <==> |s| >= 3 && s[|s| - 3..] in {".gz", ".gZ", ".Gz", ".GZ"}
  {
    if |s| >= 3 {
      assert s[|s| - 3..] == [s[|s| - 3], s[|s| - 2], s[|s| - 1]];
    }
  }

  function TokensOf(s: string): seq<Token> {
    seq(|s|, i requires 0 <= i < |s| => Lit(s[i]))
  }

  lemma CleanParts(a: seq<Token>, b: seq<Token>)
    ensures Clean(a + b) <==> Clean(a) && Clean(b)
  {
  }

  lemma Regroup(a: string, b: string, c: string)
    ensures a + (b + c) == a + b + c
  {
  }

  lemma {:induction false} PrintAppend(a: seq<Token>, b: seq<Token>, date: DateText, k: nat)
    requires Clean(a + b)
    ensures Clean(a) && Clean(b) && Print(a + b, date, k) == Print(a, date, k) + Print(b, date, k)
  {
    CleanParts(a, b);
    if a == [] {
      assert a + b == b;
    } else {
      var all := a + b;
      assert all[0] == a[0] && all[1..] == a[1..] + b;
      CleanParts([a[0]], all[1..]);
      assert all == [a[0]] + all[1..];
      PrintAppend(a[1..], b, date, k);
      Regroup(Text(a[0], date, k), Print(a[1..], date, k), Print(b, date, k));
    }
  }

  lemma {:induction false} PrintTokensOf(s: string, date: DateText, k: nat)
    ensures Clean(TokensOf(s)) && Print(TokensOf(s), date, k) == s
  {
    if s != "" {
      PrintTokensOf(s[1..], date, k);
      assert TokensOf(s)[1..] == TokensOf(s[1..]);
    }
  }

  /** No token but a literal ends with one of these. */
  predicate Ordinary(s: string) {
    forall i :: 0 <= i < |s| ==> s[i] !in "%id}" && !IsDigit(s[i])
  }

  /** The printed text may end with the first n characters of ".gz" and end there only
      because of a date. */
  predicate DateMayEnd(ts: seq<Token>, n: nat)
    requires n <= 3
  {
    && n > 0 && ts != []
    && var last := ts[|ts| - 1];
       last.Date? || (last.Lit? && Lower(last.c) == ".gz"[n - 1] && DateMayEnd(ts[..|ts| - 1], n - 1))
  }

  /** A text that ends with none of the letters of ".gz". */
  predicate PlainEnd(s: string) {
    s != "" && Lower(s[|s| - 1]) !in ".gz"
  }

  ghost predicate PlainDates(ts: seq<Token>, date: DateText) {
    forall i :: 0 <= i < |ts| && ts[i].Date? ==> PlainEnd(date(ts[i].option))
  }

  lemma {:induction false} OrdinaryTokens(p: string, m: nat)
    requires m <= |p| && Ordinary(p[m..])
    ensures Tokens(p, m) == TokensOf(p[m..])
    decreases |p| - m
  {
    if m < |p| {
      assert p[m] == p[m..][0] && p[m + 1..] == p[m..][1..];
      OrdinaryTokens(p, m + 1);
      assert TokensOf(p[m..])[1..] == TokensOf(p[m + 1..]);
    }
  }

  /** A token does not reach into an ordinary tail. */
  lemma TokenEndsBefore(p: string, offset: nat, m: nat)
    requires offset < m <= |p| && Ordinary(p[m..])
    requires !TokenAt(p, offset).0.Bad?
    ensures TokenAt(p, offset).1 <= m
  {
    TokenEnd(p, offset);
    assert forall i :: m <= i < |p| ==> p[i] == p[m..][i - m];
  }

  lemma TokenEnd(p: string, offset: nat)
    requires offset < |p| && !TokenAt(p, offset).0.Bad?
    ensures var e := TokenAt(p, offset).1; e == offset + 1 || p[e - 1] in "%id}"
  {
  }

  /** The tokens of a pattern with an ordinary tail end with that tail, letter by letter. */
  lemma {:induction false} OrdinaryTail(p: string, offset: nat, m: nat) returns (before: seq<Token>)
    requires offset <= m <= |p| && Ordinary(p[m..]) && Clean(Tokens(p, offset))
    ensures Tokens(p, offset) == before + TokensOf(p[m..])
    decreases |p| - offset
  {
    if offset == m {
      before := [];
      OrdinaryTokens(p, m);
    } else {
      var t := TokenAt(p, offset);
      var all, rest := Tokens(p, offset), Tokens(p, t.1);
      assert all == [t.0] + rest && all[0] == t.0;
      assert forall i :: 0 <= i < |rest| ==> all[i + 1] == rest[i];
      TokenEndsBefore(p, offset, m);
      var more := OrdinaryTail(p, t.1, m);
      before := [t.0] + more;
    }
  }

  lemma {:induction false} LitsAreSpelledOut(p: string, offset: nat, tail: string)
    requires offset <= |p| && Ordinary(tail) && Tokens(p, offset) == TokensOf(tail)
    ensures p[offset..] == tail
    decreases |p| - offset
  {
    if offset < |p| {
      var t := TokenAt(p, offset);
      var all := Tokens(p, offset);
      assert all[0] == t.0 == Lit(tail[0]) && all[1..] == Tokens(p, t.1);
      assert all[1..] == TokensOf(tail[1..]);
      LitsAreSpelledOut(p, t.1, tail[1..]);
      assert p[offset..] == [p[offset]] + p[offset + 1..];
      assert tail == [tail[0]] + tail[1..];
    }
  }

  lemma {:induction false} TailIsSpelledOut(p: string, offset: nat, before: seq<Token>, tail: string)
    requires offset <= |p| && Ordinary(tail) && Tokens(p, offset) == before + TokensOf(tail)
    ensures offset + |tail| <= |p| && p == p[..|p| - |tail|] + tail
    decreases |p| - offset
  {
    if before == [] {
      assert before + TokensOf(tail) == TokensOf(tail);
      LitsAreSpelledOut(p, offset, tail);
    } else {
      var all := Tokens(p, offset);
      assert all[1..] == Tokens(p, TokenAt(p, offset).1);
      assert all[1..] == before[1..] + TokensOf(tail);
      TailIsSpelledOut(p, TokenAt(p, offset).1, before[1..], tail);
    }
  }

  /** The start of ".gz", in any case of the letters. */
  predicate StartsGz(tail: string) {
    |tail| <= 3 && forall i :: 0 <= i < |tail| ==> Lower(tail[i]) == ".gz"[i]
  }

  lemma StartsGzIsOrdinary(tail: string)
    requires StartsGz(tail)
    ensures Ordinary(tail) && forall i :: 0 <= i < |tail| ==> Lower(tail[i]) in ".gz"
    ensures |tail| == 3 ==> EndsGz(tail)
  {
  }

  lemma StillStartsGz(tail: string)
    requires StartsGz(tail) && tail != ""
    ensures StartsGz(tail[..|tail| - 1])
  {
  }

  /** What keeps a date from ending the name carries over to the tokens before the last. */
  lemma EndCarries(init: seq<Token>, last: Token, date: DateText, n: nat)
    requires 0 < n <= 3 && (!DateMayEnd(init + [last], n) || PlainDates(init + [last], date))
    ensures last.Date? ==> PlainEnd(date(last.option))
    ensures last.Lit? && Lower(last.c) == ".gz"[n - 1] ==> !DateMayEnd(init, n - 1) || PlainDates(init, date)
  {
    var all := init + [last];
    assert all[|init|] == last && all[..|init|] == init;
    assert forall i :: 0 <= i < |init| ==> all[i] == init[i];
  }

  lemma OneMoreToken(c: char, r: string)
    ensures TokensOf([c] + r) == [Lit(c)] + TokensOf(r)
    ensures TokensOf(r + [c]) == TokensOf(r) + [Lit(c)]
  {
  }

  lemma Rejoin(a: seq<Token>, b: seq<Token>, c: seq<Token>)
    ensures a + b + c == a + (b + c)
  {
  }

  lemma PrintLast(init: seq<Token>, last: Token, date: DateText, k: nat)
    requires Clean(init + [last])
    ensures Clean(init) && !last.Bad? && Print(init + [last], date, k) == Print(init, date, k) + Text(last, date, k)
  {
    PrintAppend(init, [last], date, k);
    assert Print([last], date, k) == Text(last, date, k) + "";
  }

  lemma {:induction false} PrintedTail(ts: seq<Token>, date: DateText, k: nat, s: string, tail: string)
    returns (before: seq<Token>)
    requires Clean(ts) && StartsGz(tail) && Print(ts, date, k) == s + tail
    requires !DateMayEnd(ts, |tail|) || PlainDates(ts, date)
    ensures ts == before + TokensOf(tail)
  {
    hide StartsGz, DateMayEnd, PlainDates, Text;
    if tail == "" {
      before := ts;
      assert TokensOf(tail) == [];
    } else {
      var init, last := ts[..|ts| - 1], ts[|ts| - 1];
      assert ts == init + [last];
      PrintLast(init, last, date, k);
      PrintedLast(init, last, date, k, s, tail);
      StillStartsGz(tail);
      before := PrintedTail(init, date, k, s, tail[..|tail| - 1]);
      OneMoreToken(last.c, tail[..|tail| - 1]);
      assert tail == tail[..|tail| - 1] + [last.c];
      Rejoin(before, TokensOf(tail[..|tail| - 1]), [last]);
    }
  }

  lemma PrintedLast(init: seq<Token>, last: Token, date: DateText, k: nat, s: string, tail: string)
    requires !last.Bad? && Clean(init) && StartsGz(tail) && tail != ""
    requires Print(init, date, k) + Text(last, date, k) == s + tail
    requires !DateMayEnd(init + [last], |tail|) || PlainDates(init + [last], date)
    ensures last == Lit(tail[|tail| - 1]) && Print(init, date, k) == s + tail[..|tail| - 1]
    ensures !DateMayEnd(init, |tail| - 1) || PlainDates(init, date)
  {
    hide Print, DateMayEnd, PlainDates;
    var text := Text(last, date, k);
    StartsGzIsOrdinary(tail);
    EndCarries(init, last, date, |tail|);
    assert text != "";
    LastChar(Print(init, date, k), text, s, tail);
  }

  lemma LastChar(a: string, b: string, s: string, tail: string)
    requires a + b == s + tail && b != "" && tail != ""
    ensures b[|b| - 1] == tail[|tail| - 1]
    ensures |b| == 1 ==> a == s + tail[..|tail| - 1]
  {
    var all := a + b;
    assert all[|all| - 1] == b[|b| - 1] && all[|all| - 1] == (s + tail)[|s + tail| - 1];
    if |b| == 1 {
      assert a == all[..|all| - 1];
    }
  }

  lemma LastThree(s: string, tail: string)
    requires |tail| == 3
    ensures EndsGz(s + tail) <==> EndsGz(tail)
    ensures EndsGz(tail) ==> Ordinary(tail) && StartsGz(tail)
  {
    var all := s + tail;
    assert forall i :: 0 <= i < 3 ==> all[|s| + i] == tail[i];
  }

  lemma PatternGzIsPrinted(p: string, date: DateText, k: nat)
    requires Clean(Tokens(p, 0)) && EndsGz(p)
    ensures EndsGz(Print(Tokens(p, 0), date, k))
  {
    var head, tail := p[..|p| - 3], p[|p| - 3..];
    assert p == head + tail;
    LastThree(head, tail);
    var before := OrdinaryTail(p, 0, |p| - 3);
    PrintAppend(before, TokensOf(tail), date, k);
    PrintTokensOf(tail, date, k);
    LastThree(Print(before, date, k), tail);
  }

  lemma TailGz(p: string, before: seq<Token>, tail: string)
    requires |tail| == 3 && EndsGz(tail) && Ordinary(tail) && Tokens(p, 0) == before + TokensOf(tail)
    ensures EndsGz(p)
  {
    TailIsSpelledOut(p, 0, before, tail);
    LastThree(p[..|p| - 3], tail);
  }

  lemma PrintedGzIsInPattern(p: string, date: DateText, k: nat)
    requires Clean(Tokens(p, 0)) && EndsGz(Print(Tokens(p, 0), date, k))
    requires !DateMayEnd(Tokens(p, 0), 3) || PlainDates(Tokens(p, 0), date)
    ensures EndsGz(p)
  {
    var target := Print(Tokens(p, 0), date, k);
    var head, tail := target[..|target| - 3], target[|target| - 3..];
    assert target == head + tail;
    LastThree(head, tail);
    var before := PrintedTail(Tokens(p, 0), date, k, head, tail);
    TailGz(p, before, tail);
  }

  /** Whether ".gz" is looked for in the printed path or in the pattern comes to the same. */
  ghost predicate GzAgrees(p: string, date: DateText, k: nat)
    requires Clean(Tokens(p, 0))
  {
    EndsGz(Print(Tokens(p, 0), date, k)) <==> EndsGz(p)
  }

  lemma GzAgreesFor(p: string, date: DateText, k: nat)
    requires Clean(Tokens(p, 0)) && (!DateMayEnd(Tokens(p, 0), 3) || PlainDates(Tokens(p, 0), date))
    ensures GzAgrees(p, date, k)
  {
    if EndsGz(p) {
      PatternGzIsPrinted(p, date, k);
    }
    if EndsGz(Print(Tokens(p, 0), date, k)) {
      PrintedGzIsInPattern(p, date, k);
    }
  }

  lemma OneMoreOfGz(a: string, c: char, n: nat)
    requires 0 < n <= 3 && n - 1 <= |a| && StartsGz(a[|a| - (n - 1)..]) && Lower(c) == ".gz"[n - 1]
    ensures StartsGz((a + [c])[|a| + 1 - n..])
  {
    assert (a + [c])[|a| + 1 - n..] == a[|a| - (n - 1)..] + [c];
  }

  /** A date that prints what is missing of ".gz". */
  lemma {:induction false} DateEnds(ts: seq<Token>, k: nat, n: nat) returns (d: string)
    requires Clean(ts) && n <= 3 && DateMayEnd(ts, n)
    ensures d != "" && |Print(ts, Always(d), k)| >= n
    ensures var s := Print(ts, Always(d), k); StartsGz(s[|s| - n..])
  {
    hide StartsGz, Print, Text;
    var init, last := ts[..|ts| - 1], ts[|ts| - 1];
    assert ts == init + [last];
    if last.Date? {
      d := ".gz"[..n];
      DateAtEnd(init, last, d, k, n);
    } else {
      d := DateEnds(init, k, n - 1);
      PrintLast(init, last, Always(d), k);
      LiteralPrints(last, Always(d), k);
      OneMoreOfGz(Print(init, Always(d), k), last.c, n);
    }
  }

  lemma LiteralPrints(t: Token, date: DateText, k: nat)
    requires t.Lit?
    ensures Text(t, date, k) == [t.c]
  {
  }

  lemma DateAtEnd(init: seq<Token>, last: Token, d: string, k: nat, n: nat)
    requires Clean(init + [last]) && last.Date? && n <= 3 && d == ".gz"[..n]
    ensures var s := Print(init + [last], Always(d), k); |s| >= n && StartsGz(s[|s| - n..])
  {
    hide StartsGz, Print;
    PrintLast(init, last, Always(d), k);
    EndOf(Print(init, Always(d), k), d);
    GzPart(n);
  }

  lemma EndOf(a: string, b: string)
    ensures (a + b)[|a + b| - |b|..] == b
  {
  }

  lemma GzPart(n: nat)
    requires n <= 3
    ensures StartsGz(".gz"[..n])
  {
  }

  lemma {:induction false} LiteralEnd(before: seq<Token>, tail: string)
    requires |tail| <= 3
    ensures !DateMayEnd(before + TokensOf(tail), |tail|)
  {
    if tail != "" {
      var all, init := before + TokensOf(tail), tail[..|tail| - 1];
      assert all[..|all| - 1] == before + TokensOf(init);
      LiteralEnd(before, init);
    }
  }

  /** They agree for all dates and indexes exactly when no date stands where it could end
      the name in ".gz". */
  lemma GzAgreesExactlyWhen(p: string)
    requires Clean(Tokens(p, 0))
    ensures (forall date: DateText, k: nat :: DatesShow(Tokens(p, 0), date) ==> GzAgrees(p, date, k)) <==>
            !DateMayEnd(Tokens(p, 0), 3)
  {
    var ts := Tokens(p, 0);
    if DateMayEnd(ts, 3) {
      var d := DateEnds(ts, 0, 3);
      var s := Print(ts, Always(d), 0);
      var tail := s[|s| - 3..];
      assert s == s[..|s| - 3] + tail;
      StartsGzIsOrdinary(tail);
      LastThree(s[..|s| - 3], tail);
      if EndsGz(p) {
        LastThree(p[..|p| - 3], p[|p| - 3..]);
        assert p == p[..|p| - 3] + p[|p| - 3..];
        var before := OrdinaryTail(p, 0, |p| - 3);
        LiteralEnd(before, p[|p| - 3..]);
      }
      assert DatesShow(ts, Always(d)) && !GzAgrees(p, Always(d), 0);
    } else {
      forall date: DateText, k: nat | DatesShow(ts, date) ensures GzAgrees(p, date, k) {
        GzAgreesFor(p, date, k);
      }
    }
  }
}
