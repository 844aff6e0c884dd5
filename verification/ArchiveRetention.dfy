// Which archives retention deletes.
module ArchiveRetention {
  import opened Optional

  datatype Archive = Archive(path: string, name: string, size: nat, modTime: int)

  predicate DistinctPaths(xs: seq<Archive>) {
    forall i, j :: 0 <= i < j < |xs| ==> xs[i].path != xs[j].path
  }

  function Total(xs: seq<Archive>): nat {
    if xs == [] then 0 else Total(xs[..|xs| - 1]) + xs[|xs| - 1].size
  }

  lemma {:induction false} TotalAppend(a: seq<Archive>, b: seq<Archive>)
    ensures Total(a + b) == Total(a) + Total(b)
  {
    if b == [] {
      assert a + b == a;
    } else {
      TotalAppend(a, b[..|b| - 1]);
      assert (a + b)[..|a + b| - 1] == a + b[..|b| - 1];
    }
  }

  // ----- Sorting; sort.Slice is stood in for by insertion

  /** The order of Go strings. */
  predicate NameLess(a: string, b: string) {
    b != "" && (a == "" || a[0] < b[0] || (a[0] == b[0] && NameLess(a[1..], b[1..])))
  }

  lemma NameLessIsTotal(a: string, b: string)
    ensures NameLess(a, b) || NameLess(b, a) || a == b
    ensures !(NameLess(a, b) && NameLess(b, a)) && !NameLess(a, a)
  {
    if a != "" && b != "" && a[0] == b[0] {
      NameLessIsTotal(a[1..], b[1..]);
      assert a == [a[0]] + a[1..] && b == [b[0]] + b[1..];
    }
    if a != "" {
      NameLessIsTotal(a[1..], a[1..]);
    }
  }

  lemma NameLessIsTransitive(a: string, b: string, c: string)
    requires NameLess(a, b) && NameLess(b, c)
    ensures NameLess(a, c)
  {
    if a != "" && a[0] == b[0] == c[0] {
      NameLessIsTransitive(a[1..], b[1..], c[1..]);
    }
  }

  predicate ByName(a: Archive, b: Archive) {
    !NameLess(b.name, a.name)
  }

  /** Newest first, and by descending name among equals. */
  predicate ByAge(a: Archive, b: Archive) {
    a.modTime > b.modTime || (a.modTime == b.modTime && !NameLess(a.name, b.name))
  }

  ghost predicate Order(le: (Archive, Archive) -> bool) {
    && (forall a, b :: le(a, b) || le(b, a))
    && (forall a, b, c :: le(a, b) && le(b, c) ==> le(a, c))
  }

  lemma InOrder(le: (Archive, Archive) -> bool, a: Archive, b: Archive, c: Archive)
    requires Order(le)
    ensures (le(a, b) || le(b, a)) && (le(a, b) && le(b, c) ==> le(a, c))
  {
  }

  lemma NameOrders()
    ensures Order(ByName) && Order(ByAge)
  {
    forall a: Archive, b: Archive ensures (ByName(a, b) || ByName(b, a)) && (ByAge(a, b) || ByAge(b, a)) {
      NameLessIsTotal(a.name, b.name);
    }
    forall a: Archive, b: Archive, c: Archive
      ensures ByName(a, b) && ByName(b, c) ==> ByName(a, c)
      ensures ByAge(a, b) && ByAge(b, c) ==> ByAge(a, c)
    {
      NotLessIsTransitive(a.name, b.name, c.name);
      NotLessIsTransitive(c.name, b.name, a.name);
    }
  }

  lemma NotLessIsTransitive(a: string, b: string, c: string)
    ensures !NameLess(b, a) && !NameLess(c, b) ==> !NameLess(c, a)
  {
    NameLessIsTotal(a, b);
    NameLessIsTotal(b, c);
    if !NameLess(b, a) && !NameLess(c, b) && NameLess(c, a) && a != b && b != c {
      NameLessIsTransitive(a, b, c);
      NameLessIsTotal(a, c);
    }
  }

  ghost predicate Sorted(le: (Archive, Archive) -> bool, xs: seq<Archive>) {
    forall i, j :: 0 <= i < j < |xs| ==> le(xs[i], xs[j])
  }

  function Insert(le: (Archive, Archive) -> bool, x: Archive, xs: seq<Archive>): seq<Archive> {
    if xs == [] || le(x, xs[0]) then [x] + xs else [xs[0]] + Insert(le, x, xs[1..])
  }

  function Sort(le: (Archive, Archive) -> bool, xs: seq<Archive>): seq<Archive> {
    if xs == [] then [] else Insert(le, xs[0], Sort(le, xs[1..]))
  }

  lemma {:induction false} InsertSorts(le: (Archive, Archive) -> bool, x: Archive, xs: seq<Archive>)
    requires Order(le) && Sorted(le, xs)
    ensures Sorted(le, Insert(le, x, xs)) && multiset(Insert(le, x, xs)) == multiset(xs) + multiset{x}
  {
    hide Order;
    if xs == [] || le(x, xs[0]) {
      forall j | 0 <= j < |xs| ensures le(x, xs[j]) {
        InOrder(le, x, xs[0], xs[j]);
      }
    } else {
      var more := Insert(le, x, xs[1..]);
      InsertSorts(le, x, xs[1..]);
      InOrder(le, x, xs[0], x);
      assert xs == [xs[0]] + xs[1..];
      forall j | 0 <= j < |more| ensures le(xs[0], more[j]) {
        assert more[j] in multiset(more);
        assert more[j] in xs[1..] || more[j] == x;
      }
    }
  }

  lemma {:induction false} InsertKeepsPaths(le: (Archive, Archive) -> bool, x: Archive, xs: seq<Archive>)
    requires DistinctPaths([x] + xs)
    ensures DistinctPaths(Insert(le, x, xs))
    ensures forall p :: p in Insert(le, x, xs) <==> p == x || p in xs
  {
    var all := [x] + xs;
    assert DistinctPaths(xs) by {
      forall i, j | 0 <= i < j < |xs| ensures xs[i].path != xs[j].path {
        assert all[i + 1].path != all[j + 1].path;
      }
    }
    if xs != [] && !le(x, xs[0]) {
      assert all[0].path != all[1].path;
      assert [x] + xs[1..] == all[1 := x][1..];
      InsertKeepsPaths(le, x, xs[1..]);
      assert xs == [xs[0]] + xs[1..];
      var more := Insert(le, x, xs[1..]);
      forall j | 0 <= j < |more| ensures more[j].path != xs[0].path {
        assert more[j] == x || more[j] in xs[1..];
      }
    }
  }

  /** Sort returns the same archives in order. */
  lemma {:induction false} SortSorts(le: (Archive, Archive) -> bool, xs: seq<Archive>)
    requires Order(le)
    ensures Sorted(le, Sort(le, xs)) && multiset(Sort(le, xs)) == multiset(xs)
  {
    if xs != [] {
      SortSorts(le, xs[1..]);
      InsertSorts(le, xs[0], Sort(le, xs[1..]));
      assert xs == [xs[0]] + xs[1..];
    }
  }

  lemma {:induction false} SortKeepsPaths(le: (Archive, Archive) -> bool, xs: seq<Archive>)
    requires DistinctPaths(xs)
    ensures DistinctPaths(Sort(le, xs))
    ensures forall p :: p in Sort(le, xs) <==> p in xs
  {
    if xs != [] {
      assert xs == [xs[0]] + xs[1..];
      SortKeepsPaths(le, xs[1..]);
      var rest := Sort(le, xs[1..]);
      forall j | 0 <= j < |rest| ensures rest[j].path != xs[0].path {
        assert rest[j] in rest && rest[j] in xs[1..];
      }
      InsertKeepsPaths(le, xs[0], rest);
    }
  }

  // ----- Delete actions: age, count and total size, newest first

  /** cutoff None: no limit on the age; 0: no limit on count or size. */
  datatype Limits = Limits(cutoff: Option<int>, maxCount: nat, maxSize: nat)

  predicate TooOld(limits: Limits, a: Archive) {
    limits.cutoff.Some? && a.modTime < limits.cutoff.value
  }

  /** All of these may be kept together. */
  predicate Within(limits: Limits, xs: seq<Archive>) {
    && (limits.cutoff.Some? ==> forall i :: 0 <= i < |xs| ==> xs[i].modTime >= limits.cutoff.value)
    && (limits.maxCount > 0 ==> |xs| <= limits.maxCount)
    && (limits.maxSize > 0 ==> Total(xs) <= limits.maxSize)
  }

  /** What keeps the archive at i from being deleted: nothing about the ones after it. */
  predicate Keeps(limits: Limits, xs: seq<Archive>, i: nat)
    requires i < |xs|
  {
    && !TooOld(limits, xs[i])
    && (limits.maxCount > 0 ==> i < limits.maxCount)
    && (limits.maxSize > 0 ==> Total(xs[..i + 1]) <= limits.maxSize)
  }

  lemma {:induction false} KeepsMeansWithin(limits: Limits, xs: seq<Archive>, i: nat)
    requires Sorted(ByAge, xs) && i < |xs|
    ensures Keeps(limits, xs, i) <==> Within(limits, xs[..i + 1])
  {
    var prefix := xs[..i + 1];
    assert prefix[i] == xs[i];
    forall j | 0 <= j <= i ensures prefix[j].modTime >= xs[i].modTime {
      assert j < i ==> ByAge(xs[j], xs[i]);
    }
  }

  lemma WithinIsPrefixClosed(limits: Limits, xs: seq<Archive>, i: nat, j: nat)
    requires i <= j <= |xs| && Within(limits, xs[..j])
    ensures Within(limits, xs[..i])
  {
    assert xs[..j] == xs[..i] + xs[i..j];
    TotalAppend(xs[..i], xs[i..j]);
    forall k | 0 <= k < i ensures xs[..i][k] == xs[..j][k] {
      assert xs[..j][k] == xs[k];
    }
  }

  /** How many of the newest archives may be kept together. */
  function Kept(limits: Limits, xs: seq<Archive>): (k: nat)
    ensures k <= |xs|
  {
    if xs == [] then 0
    else
      var k := Kept(limits, xs[..|xs| - 1]);
      if k == |xs| - 1 && Keeps(limits, xs, |xs| - 1) then |xs| else k
  }

  /** Kept decides for each archive on its own. */
  lemma {:induction false} KeptDecides(limits: Limits, xs: seq<Archive>, i: nat)
    requires Sorted(ByAge, xs) && i < |xs|
    ensures Keeps(limits, xs, i) <==> i < Kept(limits, xs)
  {
    var n := |xs| - 1;
    var init := xs[..n];
    var k := Kept(limits, init);
    if i < n {
      KeptDecides(limits, init, i);
      assert init[..i + 1] == xs[..i + 1];
    } else if k < n {
      KeptDecides(limits, init, k);
      assert init[..k + 1] == xs[..k + 1];
      KeepsMeansWithin(limits, xs, k);
      KeepsMeansWithin(limits, xs, n);
      if Keeps(limits, xs, n) {
        WithinIsPrefixClosed(limits, xs, k + 1, n + 1);
      }
    }
  }

  /** Kept is the longest newest-first prefix within the limits. */
  lemma KeptIsLongest(limits: Limits, xs: seq<Archive>, j: nat)
    requires Sorted(ByAge, xs) && j <= |xs|
    ensures Within(limits, xs[..j]) <==> j <= Kept(limits, xs)
  {
    if j > 0 {
      KeptDecides(limits, xs, j - 1);
      KeepsMeansWithin(limits, xs, j - 1);
    }
  }

  ghost predicate Deletes(xs: seq<Archive>, k: nat, deleted: set<string>) {
    forall i :: 0 <= i < |xs| ==> (xs[i].path in deleted <==> i >= k)
  }

  lemma SamePathSameArchive(xs: seq<Archive>, ys: seq<Archive>, i: nat)
    requires DistinctPaths(xs) && multiset(xs) == multiset(ys) && i < |ys|
    ensures exists j :: 0 <= j < |xs| && xs[j] == ys[i] &&
              forall k :: 0 <= k < |xs| && xs[k].path == ys[i].path ==> k == j
  {
    assert ys[i] in multiset(ys);
    assert ys[i] in xs;
  }

  /** The count limit has been applied up to c and the size limit up to s. */
  predicate Marked(limits: Limits, xs: seq<Archive>, c: nat, s: nat, i: nat)
    requires i < |xs|
  {
    || TooOld(limits, xs[i])
    || (limits.maxCount > 0 && limits.maxCount <= i < c)
    || (limits.maxSize > 0 && i < s && Total(xs[..i + 1]) > limits.maxSize)
  }

  ghost predicate Marks(limits: Limits, xs: seq<Archive>, c: nat, s: nat, deleted: set<string>) {
    forall i :: 0 <= i < |xs| ==> (xs[i].path in deleted <==> Marked(limits, xs, c, s, i))
  }

  lemma MarkOne(limits: Limits, xs: seq<Archive>, c: nat, s: nat, c': nat, s': nat, deleted: set<string>, i: nat)
    requires DistinctPaths(xs) && i < |xs| && Marks(limits, xs, c, s, deleted)
    requires (c' == c + 1 && c == i && s' == s) || (s' == s + 1 && s == i && c' == c)
    ensures Marks(limits, xs, c', s', if Marked(limits, xs, c', s', i) then deleted + {xs[i].path} else deleted)
  {
  }

  lemma AllMarked(limits: Limits, xs: seq<Archive>, deleted: set<string>)
    requires Sorted(ByAge, xs) && Marks(limits, xs, |xs|, |xs|, deleted)
    ensures Deletes(xs, Kept(limits, xs), deleted)
  {
    forall i | 0 <= i < |xs| ensures xs[i].path in deleted <==> i >= Kept(limits, xs) {
      KeptDecides(limits, xs, i);
    }
  }

  /** The age pass goes over the candidates before they are sorted. */
  method MarkOld(candidates: seq<Archive>, limits: Limits) returns (deleted: set<string>)
    requires DistinctPaths(candidates)
    ensures Marks(limits, Sort(ByAge, candidates), 0, 0, deleted)
  {
    deleted := {};
    for i := 0 to |candidates|
      invariant forall j :: 0 <= j < |candidates| ==>
                  (candidates[j].path in deleted <==> j < i && TooOld(limits, candidates[j]))
    {
      if TooOld(limits, candidates[i]) {
        deleted := deleted + {candidates[i].path};
      }
    }
    NameOrders();
    SortSorts(ByAge, candidates);
    var sorted := Sort(ByAge, candidates);
    forall i | 0 <= i < |sorted| ensures sorted[i].path in deleted <==> TooOld(limits, sorted[i]) {
      SamePathSameArchive(candidates, sorted, i);
    }
  }

  method MarkSurplus(xs: seq<Archive>, limits: Limits, old0: set<string>) returns (deleted: set<string>)
    requires DistinctPaths(xs) && limits.maxCount > 0 && Marks(limits, xs, 0, 0, old0)
    ensures Marks(limits, xs, |xs|, 0, deleted)
  {
    deleted := old0;
    for i := 0 to |xs|
      invariant Marks(limits, xs, i, 0, deleted)
    {
      MarkOne(limits, xs, i, 0, i + 1, 0, deleted, i);
      if i >= limits.maxCount {
        deleted := deleted + {xs[i].path};
      } else if TooOld(limits, xs[i]) {
        assert deleted + {xs[i].path} == deleted;
      }
    }
  }

  method MarkOversize(xs: seq<Archive>, limits: Limits, old0: set<string>) returns (deleted: set<string>)
    requires DistinctPaths(xs) && limits.maxSize > 0 && Marks(limits, xs, |xs|, 0, old0)
    ensures Marks(limits, xs, |xs|, |xs|, deleted)
  {
    deleted := old0;
    var accumulated := 0;
    for i := 0 to |xs|
      invariant accumulated == Total(xs[..i]) && Marks(limits, xs, |xs|, i, deleted)
    {
      assert xs[..i + 1][..i] == xs[..i];
      accumulated := accumulated + xs[i].size;
      MarkOne(limits, xs, |xs|, i, |xs|, i + 1, deleted, i);
      if accumulated > limits.maxSize {
        deleted := deleted + {xs[i].path};
      } else if Marked(limits, xs, |xs|, i + 1, i) {
        assert Marked(limits, xs, |xs|, i, i);
        assert deleted + {xs[i].path} == deleted;
      }
    }
  }

  lemma LimitOff(limits: Limits, xs: seq<Archive>, c: nat, s: nat, c': nat, s': nat, deleted: set<string>)
    requires Marks(limits, xs, c, s, deleted)
    requires limits.maxCount == 0 || c == c'
    requires limits.maxSize == 0 || s == s'
    ensures Marks(limits, xs, c', s', deleted)
  {
    forall i | 0 <= i < |xs| ensures Marked(limits, xs, c, s, i) <==> Marked(limits, xs, c', s', i) {
    }
  }

  /** deleteArchiveCandidates: exactly the longest newest-first prefix within all three
      limits survives, although each limit is applied on its own. */
  method DeleteCandidates(candidates: seq<Archive>, limits: Limits) returns (deleted: set<string>)
    requires DistinctPaths(candidates)
    ensures var sorted := Sort(ByAge, candidates);
            Sorted(ByAge, sorted) && Deletes(sorted, Kept(limits, sorted), deleted)
    ensures var sorted := Sort(ByAge, candidates);
            && multiset(sorted) == multiset(candidates)
            && forall i, j :: 0 <= i < j < |sorted| ==> sorted[i].modTime >= sorted[j].modTime
  {
    deleted := MarkOld(candidates, limits);
    var sorted := Sort(ByAge, candidates);
    NameOrders();
    SortSorts(ByAge, candidates);
    SortKeepsPaths(ByAge, candidates);
    if limits.maxCount > 0 {
      deleted := MarkSurplus(sorted, limits, deleted);
    }
    LimitOff(limits, sorted, if limits.maxCount > 0 then |sorted| else 0, 0, |sorted|, 0, deleted);
    if limits.maxSize > 0 {
      deleted := MarkOversize(sorted, limits, deleted);
    }
    LimitOff(limits, sorted, |sorted|, if limits.maxSize > 0 then |sorted| else 0, |sorted|, |sorted|, deleted);
    AllMarked(limits, sorted, deleted);
  }
}
