// Dotted attribute paths: compiling them into a tree and writing the tree.
module StructuredPaths {
  import opened Text

  const MAX_DEPTH := 16

  // ----- Paths

  predicate NoDots(parts: seq<string>) {
    forall p :: p in parts ==> '.' !in p
  }

  /** strings.Split at the dots. */
  function Split(s: string): (parts: seq<string>)
    ensures parts != [] && NoDots(parts)
  {
    if s == "" then [""]
    else
      var rest := Split(s[1..]);
      if s[0] == '.' then [""] + rest else [[s[0]] + rest[0]] + rest[1..]
  }

  function Join(parts: seq<string>): string {
    if parts == [] then "" else if |parts| == 1 then parts[0] else parts[0] + "." + Join(parts[1..])
  }

  lemma {:induction false} JoinInvertsSplit(s: string)
    ensures Join(Split(s)) == s
  {
    if s != "" {
      var rest := Split(s[1..]);
      JoinInvertsSplit(s[1..]);
      if s[0] == '.' {
        assert Split(s)[1..] == rest;
      } else {
        assert Split(s)[1..] == rest[1..];
      }
    }
  }

  lemma {:induction false} SplitOne(p: string)
    requires '.' !in p
    ensures Split(p) == [p]
  {
    if p != "" {
      assert p[0] in p && forall c :: c in p[1..] ==> c in p;
      SplitOne(p[1..]);
      assert p == [p[0]] + p[1..];
    }
  }

  /** A dot between two texts is a cut. */
  lemma {:induction false} SplitAtDot(a: string, b: string)
    ensures Split(a + "." + b) == Split(a) + Split(b)
  {
    hide Split;
    if a == "" {
      SplitStep('.', b);
      SplitOne("");
      assert "" + "." + b == ['.'] + b;
    } else {
      SplitAtDot(a[1..], b);
      SplitStep(a[0], a[1..]);
      SplitStep(a[0], a[1..] + "." + b);
      assert a == [a[0]] + a[1..];
      assert a + "." + b == [a[0]] + (a[1..] + "." + b);
      var rest, all := Split(a[1..]), Split(a[1..]) + Split(b);
      assert all[0] == rest[0] && all[1..] == rest[1..] + Split(b);
    }
  }

  lemma SplitStep(c: char, t: string)
    ensures var rest := Split(t);
            Split([c] + t) == if c == '.' then [""] + rest else [[c] + rest[0]] + rest[1..]
  {
    assert ([c] + t)[1..] == t;
  }

  /** No other dot-free parts make up the path. */
  lemma {:induction false} SplitIsOnly(parts: seq<string>)
    requires parts != [] && NoDots(parts)
    ensures Split(Join(parts)) == parts
  {
    if |parts| == 1 {
      SplitOne(parts[0]);
    } else {
      assert NoDots(parts[1..]);
      SplitIsOnly(parts[1..]);
      SplitAtDot(parts[0], Join(parts[1..]));
      SplitOne(parts[0]);
      assert parts == [parts[0]] + parts[1..];
    }
  }

  /** The names are the trimmed parts between the dots of the path. */
  ghost predicate CutAtDots(path: string, segs: seq<string>) {
    exists parts :: parts != [] && NoDots(parts) && Join(parts) == path && segs == Trims(parts)
  }

  /** joinStructuredPath with the delimiter ".". */
  function JoinPath(prefix: string, name: string): string {
    var p, n := TrimSpace(prefix), TrimSpace(name);
    if p == "" then n
    else if n == "" then p
    else if p[|p| - 1] == '.' || HasPrefix(n, ".") then p + n
    else p + "." + n
  }

  /** A prefix and a name are cut apart at one dot: one that is put between them, or one that
      ends the prefix or starts the name. With both there is an empty part between them. */
  lemma JoinPathCuts(prefix: string, name: string)
    ensures var p, n, r := TrimSpace(prefix), TrimSpace(name), JoinPath(prefix, name);
            && (p == "" ==> r == n) && (n == "" ==> r == p)
            && (p != "" && n != "" ==>
                  var dotted, dots := p[|p| - 1] == '.', n[0] == '.';
                  Split(r) == Split(if dotted then p[..|p| - 1] else p)
                              + (if dotted && dots then [""] else []) + Split(if dots then n[1..] else n))
  {
    var p, n := TrimSpace(prefix), TrimSpace(name);
    if p != "" && n != "" {
      JoinedCuts(p, n);
    }
  }

  lemma JoinedCuts(p: string, n: string)
    requires p != "" && n != ""
    ensures var dotted, dots := p[|p| - 1] == '.', n[0] == '.';
            Split(if dotted || dots then p + n else p + "." + n) ==
            Split(if dotted then p[..|p| - 1] else p)
            + (if dotted && dots then [""] else []) + Split(if dots then n[1..] else n)
  {
    hide Split;
    var dotted, dots := p[|p| - 1] == '.', n[0] == '.';
    var q, m := if dotted then p[..|p| - 1] else p, if dots then n[1..] else n;
    assert dotted ==> p == q + ".";
    assert dots ==> n == "." + m;
    assert Split(q) + [] + Split(m) == Split(q) + Split(m);
    if dotted && dots {
      assert "" + "." + m == n;
      SplitAtDot("", m);
      SplitOne("");
      SplitAtDot(q, n);
      assert Split(q) + ([""] + Split(m)) == Split(q) + [""] + Split(m);
    } else {
      SplitAtDot(q, m);
      assert (if dotted || dots then p + n else p + "." + n) == q + "." + m;
    }
  }

  function Trims(parts: seq<string>): (segs: seq<string>)
    ensures |segs| == |parts|
  {
    seq(|parts|, i requires 0 <= i < |parts| => TrimSpace(parts[i]))
  }

  // ----- Trees

  /** path is spelled as in the attribute that created the node. */
  datatype Node = Leaf(name: string, path: string, value: string)
      | Branch(name: string, path: string, children: seq<Node>)

  datatype Result = Fail | Built(nodes: seq<Node>)

  /** insert: what the nodes of one level become. done holds the parts of the levels above. */
  function Insert(nodes: seq<Node>, done: seq<string>, parts: seq<string>, value: string): Result
    requires parts != []
    decreases |parts|, |nodes|
  {
    var name, here := TrimSpace(parts[0]), done + [parts[0]];
    if name == "" then Fail
    else if nodes == [] then
      if |parts| == 1 then Built([Leaf(name, Join(here), value)])
      else
        var below := Insert([], here, parts[1..], value);
        if below.Fail? then Fail else Built([Branch(name, Join(here), below.nodes)])
    else if nodes[0].name != name then
      var beside := Insert(nodes[1..], done, parts, value);
      if beside.Fail? then Fail else Built([nodes[0]] + beside.nodes)
    else if nodes[0].Leaf? || |parts| == 1 then Fail
    else
      var below := Insert(nodes[0].children, here, parts[1..], value);
      if below.Fail? then Fail else Built([nodes[0].(children := below.nodes)] + nodes[1..])
  }

  datatype Entry = Entry(segs: seq<string>, path: string, value: string)

  function Under(name: string, es: seq<Entry>): (r: seq<Entry>)
    ensures |r| == |es|
  {
    seq(|es|, i requires 0 <= i < |es| => es[i].(segs := [name] + es[i].segs))
  }

  function FlattenNode(n: Node): seq<Entry>
    decreases n, 0
  {
    match n
    case Leaf(name, path, value) => [Entry([name], path, value)]
    case Branch(name, _, children) => Under(name, Flatten(children))
  }

  /** All values of a tree with the names that lead to them. */
  function Flatten(nodes: seq<Node>): seq<Entry> {
    if nodes == [] then [] else FlattenNode(nodes[0]) + Flatten(nodes[1..])
  }

  function NamesOf(nodes: seq<Node>): set<string> {
    set n | n in nodes :: n.name
  }

  predicate NodeOk(n: Node)
    decreases n, 0
  {
    && n.name != "" && Trimmed(n.name)
    && (n.Leaf? ==> TrimSpace(n.path) != "")
    && (n.Branch? ==> n.children != [] && WellFormed(n.children))
  }

  predicate WellFormed(nodes: seq<Node>) {
    nodes != [] ==> NodeOk(nodes[0]) && nodes[0].name !in NamesOf(nodes[1..]) && WellFormed(nodes[1..])
  }

  // ----- When an insertion succeeds

  /** One path is a prefix of the other, or they are the same. */
  predicate Comparable(a: seq<string>, b: seq<string>) {
    a <= b || b <= a
  }

  ghost predicate Free(es: seq<Entry>, segs: seq<string>) {
    forall e :: e in es ==> !Comparable(e.segs, segs)
  }

  predicate NoBlank(segs: seq<string>) {
    forall i :: 0 <= i < |segs| ==> segs[i] != ""
  }

  lemma {:induction false} HeadsAreNames(nodes: seq<Node>, e: Entry)
    requires e in Flatten(nodes)
    ensures e.segs != [] && e.segs[0] in NamesOf(nodes)
  {
    if e in FlattenNode(nodes[0]) {
      assert nodes[0] in nodes;
    } else {
      HeadsAreNames(nodes[1..], e);
      assert NamesOf(nodes[1..]) <= NamesOf(nodes);
    }
  }

  lemma OtherNamesAreFree(nodes: seq<Node>, segs: seq<string>)
    requires segs != [] && segs[0] !in NamesOf(nodes)
    ensures Free(Flatten(nodes), segs)
  {
    forall e | e in Flatten(nodes) ensures !Comparable(e.segs, segs) {
      HeadsAreNames(nodes, e);
    }
  }

  lemma FreeBelow(name: string, es: seq<Entry>, segs: seq<string>)
    ensures Free(Under(name, es), [name] + segs) <==> Free(es, segs)
  {
    var under := Under(name, es);
    forall i | 0 <= i < |es| ensures Comparable(under[i].segs, [name] + segs) <==> Comparable(es[i].segs, segs) {
      ComparableBelow(name, es[i].segs, segs);
    }
    if Free(under, [name] + segs) {
      forall e | e in es ensures !Comparable(e.segs, segs) {
        var i :| 0 <= i < |es| && es[i] == e;
        assert under[i] in under;
      }
    }
  }

  lemma ComparableBelow(name: string, a: seq<string>, b: seq<string>)
    ensures Comparable([name] + a, [name] + b) <==> Comparable(a, b)
  {
    PrefixBelow(name, a, b);
    PrefixBelow(name, b, a);
  }

  lemma PrefixBelow(name: string, a: seq<string>, b: seq<string>)
    ensures [name] + a <= [name] + b <==> a <= b
  {
    var x, y := [name] + a, [name] + b;
    if x <= y {
      forall i | 0 <= i < |a| ensures a[i] == b[i] {
        assert x[i + 1] == y[i + 1];
      }
    }
  }

  /** Something is found below every branch. */
  lemma {:induction false} BranchIsInhabited(nodes: seq<Node>)
    requires nodes != [] && WellFormed(nodes)
    ensures Flatten(nodes) != []
    decreases nodes
  {
    if nodes[0].Branch? {
      BranchIsInhabited(nodes[0].children);
    }
  }

  /** What the level's first node leaves open to a path under its own name. */
  lemma SameNameFree(nodes: seq<Node>, segs: seq<string>)
    requires nodes != [] && WellFormed(nodes) && segs != [] && segs[0] == nodes[0].name
    ensures Free(Flatten(nodes), segs) <==>
            |segs| > 1 && nodes[0].Branch? && Free(Flatten(nodes[0].children), segs[1..])
  {
    OtherNamesAreFree(nodes[1..], segs);
    assert Free(Flatten(nodes), segs) <==> Free(FlattenNode(nodes[0]), segs);
    assert segs == [nodes[0].name] + segs[1..];
    match nodes[0]
    case Leaf(name, path, value) =>
      assert Entry([name], path, value) in FlattenNode(nodes[0]) && Comparable([name], segs);
    case Branch(name, _, children) =>
      FreeBelow(name, Flatten(children), segs[1..]);
      if |segs| == 1 {
        BranchIsInhabited(children);
        var e := Flatten(children)[0];
        assert e in Flatten(children) && Comparable(e.segs, segs[1..]);
      }
  }

  /** A path is accepted exactly when none of its segments is blank and no path of the
      tree is equal to it, above it or below it. */
  lemma {:induction false} InsertSucceedsWhen(nodes: seq<Node>, done: seq<string>, parts: seq<string>, value: string)
    requires parts != [] && WellFormed(nodes)
    ensures Insert(nodes, done, parts, value).Built? <==> NoBlank(Trims(parts)) && Free(Flatten(nodes), Trims(parts))
    decreases |parts|, |nodes|
  {
    var segs, here := Trims(parts), done + [parts[0]];
    if segs[0] != "" {
      assert |parts| > 1 ==> Trims(parts[1..]) == segs[1..];
      assert NoBlank(segs) <==> NoBlank(segs[1..]);
      if nodes == [] {
        if |parts| > 1 {
          InsertSucceedsWhen([], here, parts[1..], value);
        }
      } else if nodes[0].name != segs[0] {
        InsertSucceedsWhen(nodes[1..], done, parts, value);
        OtherNamesAreFree([nodes[0]], segs);
        assert Flatten([nodes[0]]) == FlattenNode(nodes[0]);
      } else {
        SameNameFree(nodes, segs);
        if nodes[0].Branch? && |parts| > 1 {
          InsertSucceedsWhen(nodes[0].children, here, parts[1..], value);
        }
      }
    }
  }

  // ----- What an insertion adds

  function Inserted(es: seq<Entry>, at: nat, e: Entry): seq<Entry>
    requires at <= |es|
  {
    es[..at] + [e] + es[at..]
  }

  lemma InsertedUnder(name: string, es: seq<Entry>, at: nat, e: Entry)
    requires at <= |es|
    ensures Under(name, Inserted(es, at, e)) == Inserted(Under(name, es), at, e.(segs := [name] + e.segs))
  {
  }

  lemma InsertedFirst(first: seq<Entry>, rest: seq<Entry>, at: nat, e: Entry)
    requires at <= |first|
    ensures Inserted(first + rest, at, e) == Inserted(first, at, e) + rest
  {
    assert (first + rest)[..at] == first[..at] && (first + rest)[at..] == first[at..] + rest;
  }

  lemma InsertedLater(first: seq<Entry>, rest: seq<Entry>, at: nat, e: Entry)
    requires at <= |rest|
    ensures Inserted(first + rest, |first| + at, e) == first + Inserted(rest, at, e)
  {
    assert (first + rest)[..|first| + at] == first + rest[..at] && (first + rest)[|first| + at..] == rest[at..];
  }

  lemma JoinSteps(done: seq<string>, parts: seq<string>)
    requires parts != []
    ensures done + [parts[0]] + parts[1..] == done + parts
  {
  }

  function NewEntry(done: seq<string>, parts: seq<string>, value: string): Entry {
    Entry(Trims(parts), Join(done + parts), value)
  }

  lemma NewEntryBelow(done: seq<string>, parts: seq<string>, value: string)
    requires |parts| > 1
    ensures var e := NewEntry(done + [parts[0]], parts[1..], value);
            NewEntry(done, parts, value) == e.(segs := [TrimSpace(parts[0])] + e.segs)
  {
    JoinSteps(done, parts);
    assert Trims(parts) == [TrimSpace(parts[0])] + Trims(parts[1..]);
  }

  /** The entries of a new branch or leaf. */
  lemma NewNodeHolds(done: seq<string>, parts: seq<string>, value: string, below: seq<Node>)
    requires parts != []
    requires |parts| > 1 ==> Flatten(below) == [NewEntry(done + [parts[0]], parts[1..], value)]
    ensures var name, path := TrimSpace(parts[0]), Join(done + [parts[0]]);
            var n := if |parts| == 1 then Leaf(name, path, value) else Branch(name, path, below);
            Flatten([n]) == [NewEntry(done, parts, value)]
  {
    var name, path := TrimSpace(parts[0]), Join(done + [parts[0]]);
    var n := if |parts| == 1 then Leaf(name, path, value) else Branch(name, path, below);
    assert Flatten([n]) == FlattenNode(n);
    if |parts| == 1 {
      assert parts == [parts[0]] && Trims(parts) == [name];
    } else {
      NewEntryBelow(done, parts, value);
    }
  }

  /** The new value joins the others at one position; all others stay where they are. */
  lemma {:induction false} InsertAddsOne(nodes: seq<Node>, done: seq<string>, parts: seq<string>, value: string)
    returns (at: nat)
    requires parts != [] && Insert(nodes, done, parts, value).Built?
    ensures at <= |Flatten(nodes)|
    ensures Flatten(Insert(nodes, done, parts, value).nodes)
         == Inserted(Flatten(nodes), at, NewEntry(done, parts, value))
    decreases |parts|, |nodes|
  {
    var name, here, e := TrimSpace(parts[0]), done + [parts[0]], NewEntry(done, parts, value);
    var after := Insert(nodes, done, parts, value).nodes;
    if nodes == [] {
      at := 0;
      var below := [];
      if |parts| > 1 {
        below := Insert([], here, parts[1..], value).nodes;
        var k := InsertAddsOne([], here, parts[1..], value);
      }
      NewNodeHolds(done, parts, value, below);
    } else {
      var first, rest := FlattenNode(nodes[0]), Flatten(nodes[1..]);
      if nodes[0].name != name {
        var k := InsertAddsOne(nodes[1..], done, parts, value);
        assert after[1..] == Insert(nodes[1..], done, parts, value).nodes;
        InsertedLater(first, rest, k, e);
        at := |first| + k;
      } else {
        at := InsertAddsOne(nodes[0].children, here, parts[1..], value);
        assert after[1..] == nodes[1..];
        NewEntryBelow(done, parts, value);
        InsertedUnder(name, Flatten(nodes[0].children), at, NewEntry(here, parts[1..], value));
        InsertedFirst(first, rest, at, e);
      }
    }
  }

  // ----- Well-formedness

  lemma {:induction false} JoinEndsWith(parts: seq<string>, last: string)
    ensures |Join(parts + [last])| >= |last|
    ensures Join(parts + [last])[|Join(parts + [last])| - |last|..] == last
  {
    if parts != [] {
      JoinEndsWith(parts[1..], last);
      assert (parts + [last])[1..] == parts[1..] + [last];
    }
  }

  lemma TrimLeftBlank(s: string)
    ensures AllSpace(s) <==> TrimLeft(s) == ""
    ensures AllSpace(s) <==> AllSpace(TrimLeft(s))
  {
    if s != "" {
      TrimLeftBlank(s[1..]);
      assert AllSpace(s) <==> IsSpace(s[0]) && AllSpace(s[1..]);
    }
  }

  lemma TrimRightBlank(s: string)
    ensures AllSpace(s) <==> TrimRight(s) == ""
  {
    if s != "" {
      TrimRightBlank(s[..|s| - 1]);
      assert AllSpace(s) <==> IsSpace(s[|s| - 1]) && AllSpace(s[..|s| - 1]);
    }
  }

  lemma TrimSpaceBlank(s: string)
    ensures AllSpace(s) <==> TrimSpace(s) == ""
  {
    TrimLeftBlank(s);
    TrimRightBlank(TrimLeft(s));
  }

  lemma PathIsNotBlank(done: seq<string>, part: string)
    requires TrimSpace(part) != ""
    ensures TrimSpace(Join(done + [part])) != ""
  {
    var path := Join(done + [part]);
    JoinEndsWith(done, part);
    TrimSpaceBlank(part);
    TrimSpaceBlank(path);
    var i :| 0 <= i < |part| && !IsSpace(part[i]);
    assert path[|path| - |part|..][i] == path[|path| - |part| + i];
  }

  lemma {:induction false} InsertKeepsWellFormed(nodes: seq<Node>, done: seq<string>, parts: seq<string>, value: string)
    requires parts != [] && WellFormed(nodes) && Insert(nodes, done, parts, value).Built?
    ensures var after := Insert(nodes, done, parts, value).nodes;
            after != [] && WellFormed(after) && NamesOf(after) == NamesOf(nodes) + {TrimSpace(parts[0])}
    decreases |parts|, |nodes|
  {
    var name, here := TrimSpace(parts[0]), done + [parts[0]];
    var after := Insert(nodes, done, parts, value).nodes;
    TrimSpaceIsTrimmed(parts[0]);
    PathIsNotBlank(done, parts[0]);
    if nodes == [] {
      if |parts| > 1 {
        InsertKeepsWellFormed([], here, parts[1..], value);
      }
      assert after == [after[0]];
    } else {
      assert nodes == [nodes[0]] + nodes[1..] && after == [after[0]] + after[1..];
      assert NamesOf(nodes) == {nodes[0].name} + NamesOf(nodes[1..]);
      assert NamesOf(after) == {after[0].name} + NamesOf(after[1..]);
      if nodes[0].name != name {
        InsertKeepsWellFormed(nodes[1..], done, parts, value);
      } else {
        InsertKeepsWellFormed(nodes[0].children, here, parts[1..], value);
      }
    }
  }

  // ----- Compiling all attributes

  datatype Attr = Attr(key: string, value: string)

  function EntryOf(path: string, value: string): Entry {
    Entry(Trims(Split(path)), path, value)
  }

  /** The paths asked for; an attribute without one is skipped. */
  function EntriesOf(prefix: string, attrs: seq<Attr>): seq<Entry> {
    if attrs == [] then []
    else
      var last := attrs[|attrs| - 1];
      var path := JoinPath(prefix, last.key);
      EntriesOf(prefix, attrs[..|attrs| - 1]) + if path == "" then [] else [EntryOf(path, last.value)]
  }

  lemma {:induction false} EntriesAreCut(prefix: string, attrs: seq<Attr>, e: Entry)
    requires e in EntriesOf(prefix, attrs)
    ensures CutAtDots(e.path, e.segs)
  {
    var n := |attrs| - 1;
    if e in EntriesOf(prefix, attrs[..n]) {
      EntriesAreCut(prefix, attrs[..n], e);
    } else {
      JoinInvertsSplit(e.path);
    }
  }

  predicate SegmentsOk(e: Entry) {
    |e.segs| <= MAX_DEPTH && NoBlank(e.segs)
  }

  /** No path is blank in part or too deep, and none equals or extends another. */
  ghost predicate Usable(es: seq<Entry>) {
    && (forall i :: 0 <= i < |es| ==> SegmentsOk(es[i]))
    && (forall i, j :: 0 <= i < j < |es| ==> !Comparable(es[i].segs, es[j].segs))
  }

  lemma UsableNext(es: seq<Entry>, e: Entry)
    requires Usable(es)
    ensures Usable(es + [e]) <==> SegmentsOk(e) && Free(es, e.segs)
  {
    if Usable(es + [e]) {
      var all := es + [e];
      assert all[|es|] == e;
      forall f | f in es ensures !Comparable(f.segs, e.segs) {
        var i :| 0 <= i < |es| && es[i] == f;
        assert !Comparable(all[i].segs, all[|es|].segs);
      }
    }
  }

  lemma {:induction false} UsablePrefix(prefix: string, attrs: seq<Attr>, n: nat)
    requires n <= |attrs| && Usable(EntriesOf(prefix, attrs))
    ensures Usable(EntriesOf(prefix, attrs[..n]))
  {
    if n == |attrs| {
      assert attrs[..n] == attrs;
    } else {
      var shorter := attrs[..|attrs| - 1];
      assert EntriesOf(prefix, shorter) <= EntriesOf(prefix, attrs);
      UsablePrefix(prefix, shorter, n);
      assert shorter[..n] == attrs[..n];
    }
  }

  /** The tree of the entries so far. */
  ghost predicate Holds(nodes: seq<Node>, es: seq<Entry>) {
    WellFormed(nodes) && multiset(Flatten(nodes)) == multiset(es)
  }

  lemma SameFree(a: seq<Entry>, b: seq<Entry>, segs: seq<string>)
    requires multiset(a) == multiset(b)
    ensures Free(a, segs) <==> Free(b, segs)
  {
    assert forall e :: e in a <==> e in multiset(a);
    assert forall e :: e in b <==> e in multiset(b);
  }

  lemma InsertedOnce(es: seq<Entry>, at: nat, e: Entry)
    requires at <= |es|
    ensures multiset(Inserted(es, at, e)) == multiset(es) + multiset{e}
  {
    assert es == es[..at] + es[at..];
  }

  lemma InsertHolds(nodes: seq<Node>, es: seq<Entry>, path: string, value: string)
    requires Holds(nodes, es)
    ensures var r, e := Insert(nodes, [], Split(path), value), EntryOf(path, value);
            && (r.Built? <==> NoBlank(e.segs) && Free(es, e.segs))
            && (r.Built? ==> Holds(r.nodes, es + [e]))
  {
    var parts, e := Split(path), EntryOf(path, value);
    var r := Insert(nodes, [], parts, value);
    InsertSucceedsWhen(nodes, [], parts, value);
    SameFree(Flatten(nodes), es, e.segs);
    if r.Built? {
      var at := InsertAddsOne(nodes, [], parts, value);
      JoinInvertsSplit(path);
      assert [] + parts == parts;
      assert NewEntry([], parts, value) == e;
      InsertKeepsWellFormed(nodes, [], parts, value);
      InsertedOnce(Flatten(nodes), at, e);
    }
  }

  /** The first n attributes are usable and the tree holds them. */
  ghost predicate Tracks(nodes: seq<Node>, prefix: string, attrs: seq<Attr>, n: nat)
    requires n <= |attrs|
  {
    Holds(nodes, EntriesOf(prefix, attrs[..n])) && Usable(EntriesOf(prefix, attrs[..n]))
  }

  lemma NextAttr(nodes: seq<Node>, prefix: string, attrs: seq<Attr>, n: nat)
    requires n < |attrs| && Tracks(nodes, prefix, attrs, n)
    ensures var path := JoinPath(prefix, attrs[n].key);
            var next := Insert(nodes, [], Split(path), attrs[n].value);
            if path == "" then Tracks(nodes, prefix, attrs, n + 1)
            else if |Split(path)| <= MAX_DEPTH && next.Built? then Tracks(next.nodes, prefix, attrs, n + 1)
            else !Usable(EntriesOf(prefix, attrs))
  {
    var path, es := JoinPath(prefix, attrs[n].key), EntriesOf(prefix, attrs[..n]);
    var e := EntryOf(path, attrs[n].value);
    assert attrs[..n + 1][..n] == attrs[..n];
    if path != "" {
      assert EntriesOf(prefix, attrs[..n + 1]) == es + [e];
      UsableNext(es, e);
      InsertHolds(nodes, es, path, attrs[n].value);
      if Usable(EntriesOf(prefix, attrs)) {
        UsablePrefix(prefix, attrs, n + 1);
      }
    }
  }

  /** compileStructuredPaths: succeeds exactly for usable paths, and then the tree holds
      exactly the given paths and values. */
  method Compile(attrs: seq<Attr>, prefix: string) returns (r: Result)
    ensures r.Built? <==> Usable(EntriesOf(prefix, attrs))
    ensures r.Built? ==> Holds(r.nodes, EntriesOf(prefix, attrs))
    ensures forall e :: e in EntriesOf(prefix, attrs) ==> CutAtDots(e.path, e.segs)
  {
    forall e | e in EntriesOf(prefix, attrs) ensures CutAtDots(e.path, e.segs) {
      EntriesAreCut(prefix, attrs, e);
    }
    var root: seq<Node> := [];
    for i := 0 to |attrs|
      invariant Tracks(root, prefix, attrs, i)
    {
      NextAttr(root, prefix, attrs, i);
      var path := JoinPath(prefix, attrs[i].key);
      if path == "" {
        continue;
      }
      var parts := Split(path);
      if |parts| > MAX_DEPTH {
        return Fail;
      }
      var next := Insert(root, [], parts, attrs[i].value);
      if next.Fail? {
        return Fail;
      }
      root := next.nodes;
    }
    assert attrs[..|attrs|] == attrs;
    return Built(root);
  }
}
