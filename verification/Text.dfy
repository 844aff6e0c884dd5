// Names: trimming, dotted prefixes and their order.
module Text {

  /** Go's unicode.IsSpace. */
  predicate IsSpace(c: char) {
    c in {'\t', '\n', '\U{000B}', '\U{000C}', '\r', ' ', '\U{0085}', '\U{00A0}', '\U{1680}',
          '\U{2028}', '\U{2029}', '\U{202F}', '\U{205F}', '\U{3000}'}
    || '\U{2000}' <= c <= '\U{200A}'
  }

  function TrimLeft(s: string): string {
    if s != "" && IsSpace(s[0]) then TrimLeft(s[1..]) else s
  }

  function TrimRight(s: string): string {
    if s != "" && IsSpace(s[|s| - 1]) then TrimRight(s[..|s| - 1]) else s
  }

  function TrimSpace(s: string): string {
    TrimRight(TrimLeft(s))
  }

  predicate Trimmed(s: string) {
    s == "" || (!IsSpace(s[0]) && !IsSpace(s[|s| - 1]))
  }

  lemma TrimRightKeepsHead(s: string)
    requires s != "" && !IsSpace(s[0])
    ensures TrimRight(s) != "" && TrimRight(s)[0] == s[0]
  {
    if IsSpace(s[|s| - 1]) {
      TrimRightKeepsHead(s[..|s| - 1]);
    }
  }

  lemma TrimLeftEnds(s: string)
    ensures TrimLeft(s) == "" || !IsSpace(TrimLeft(s)[0])
  {
  }

  lemma TrimRightEnds(s: string)
    ensures TrimRight(s) == "" || !IsSpace(TrimRight(s)[|TrimRight(s)| - 1])
  {
  }

  lemma TrimSpaceIsTrimmed(s: string)
    ensures Trimmed(TrimSpace(s))
    ensures Trimmed(s) ==> TrimSpace(s) == s
  {
    TrimLeftEnds(s);
    TrimRightEnds(TrimLeft(s));
    if TrimLeft(s) != "" {
      TrimRightKeepsHead(TrimLeft(s));
    }
  }

  predicate AllSpace(s: string) {
    forall i :: 0 <= i < |s| ==> IsSpace(s[i])
  }

  lemma {:induction false} TrimLeftCuts(s: string) returns (a: string)
    ensures s == a + TrimLeft(s) && AllSpace(a)
  {
    a := "";
    if s != "" && IsSpace(s[0]) {
      a := TrimLeftCuts(s[1..]);
      a := [s[0]] + a;
      assert s == [s[0]] + s[1..];
    }
  }

  lemma {:induction false} TrimRightCuts(s: string) returns (b: string)
    ensures s == TrimRight(s) + b && AllSpace(b)
  {
    b := "";
    if s != "" && IsSpace(s[|s| - 1]) {
      b := TrimRightCuts(s[..|s| - 1]);
      assert s == s[..|s| - 1] + [s[|s| - 1]];
      b := b + [s[|s| - 1]];
    }
  }

  /** Nothing but space is taken away, at both ends. */
  lemma TrimSpaceCuts(s: string) returns (a: string, b: string)
    ensures s == a + TrimSpace(s) + b && AllSpace(a) && AllSpace(b)
  {
    a := TrimLeftCuts(s);
    b := TrimRightCuts(TrimLeft(s));
    assert a + (TrimSpace(s) + b) == a + TrimSpace(s) + b;
  }

  // ----- Dotted names

  predicate HasPrefix(s: string, prefix: string) {
    prefix <= s
  }

  /** A rule covers its own name and every name below it. */
  predicate Covers(rule: string, name: string) {
    name == rule || HasPrefix(name, rule + ".")
  }

  function CountDots(s: string): nat {
    if s == "" then 0 else (if s[0] == '.' then 1 else 0) + CountDots(s[1..])
  }

  lemma CountDotsConcat(a: string, b: string)
    ensures CountDots(a + b) == CountDots(a) + CountDots(b)
  {
    if a == "" {
      assert a + b == b;
    } else {
      assert (a + b)[1..] == a[1..] + b;
    }
  }

  /** The length of the UTF-8 encoding, which is what Go's len counts. */
  function ByteLength(s: string): nat {
    if s == "" then 0
    else
      var c := s[0] as int;
      (if c < 0x80 then 1 else if c < 0x800 then 2 else if c < 0x10000 then 3 else 4) + ByteLength(s[1..])
  }

  lemma {:induction false} ByteLengthConcat(a: string, b: string)
    ensures ByteLength(a + b) == ByteLength(a) + ByteLength(b)
  {
    if a == "" {
      assert a + b == b;
    } else {
      ByteLengthConcat(a[1..], b);
      assert (a + b)[1..] == a[1..] + b;
    }
  }

  lemma CoversTransitive(a: string, b: string, c: string)
    requires Covers(a, b) && Covers(b, c)
    ensures Covers(a, c)
  {
    if a != b && b != c {
      assert (a + ".") <= b <= b + "." <= c;
    }
  }

  /** Two rules that cover one name cover one another. */
  lemma CoversChain(a: string, b: string, name: string)
    requires Covers(a, name) && Covers(b, name)
    ensures Covers(a, b) || Covers(b, a)
  {
    if |a| < |b| {
      assert (a + ".") <= name && b <= name;
      assert (a + ".") == b[..|a| + 1];
    } else if |b| < |a| {
      assert (b + ".") <= name && a <= name;
      assert (b + ".") == a[..|b| + 1];
    } else {
      assert a == name[..|a|] && b == name[..|b|];
    }
  }

  function LastDot(s: string): (i: int)
    ensures -1 <= i < |s|
    ensures i >= 0 ==> s[i] == '.'
    ensures forall j :: i < j < |s| ==> s[j] != '.'
  {
    if s == "" then -1
    else if s[|s| - 1] == '.' then |s| - 1
    else LastDot(s[..|s| - 1])
  }

  predicate HasParent(name: string) {
    LastDot(name) >= 0
  }

  function Parent(name: string): (p: string)
    requires HasParent(name)
    ensures |p| < |name|
  {
    name[..LastDot(name)]
  }

  /** The rules above a name are those that cover its parent. */
  lemma CoversParent(rule: string, name: string)
    requires rule != name
    ensures Covers(rule, name) <==> HasParent(name) && Covers(rule, Parent(name))
  {
    var i := LastDot(name);
    if HasPrefix(name, rule + ".") {
      assert name[|rule|] == '.';
      assert rule == name[..|rule|];
      if |rule| < i {
        assert rule + "." == name[..i][..|rule| + 1];
      }
    }
    if i >= 0 && Covers(rule, name[..i]) {
      if rule == name[..i] {
        assert rule + "." == name[..i + 1];
      } else {
        assert rule + "." <= name[..i] <= name;
      }
    }
  }
}
