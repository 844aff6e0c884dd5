// Retention of the rolling appender itself: by count, age and total size, over the
// archives in the order of their names.
module ExpiredArchives {
  import opened Optional
  import opened ArchiveRetention

  /** cap 0: no limit on the total size. */
  datatype Policy = Policy(maxBackups: nat, cutoff: Option<int>, cap: nat)

  function Surplus(policy: Policy, xs: seq<Archive>): nat {
    if |xs| > policy.maxBackups then |xs| - policy.maxBackups else 0
  }

  predicate Expired(policy: Policy, a: Archive) {
    policy.cutoff.Some? && a.modTime < policy.cutoff.value
  }

  /** Removed for the count or for its age. */
  predicate Gone(policy: Policy, xs: seq<Archive>, i: nat)
    requires i < |xs|
  {
    i < Surplus(policy, xs) || Expired(policy, xs[i])
  }

  /** The total size of the archives from i on that count and age leave. */
  function LiveFrom(policy: Policy, xs: seq<Archive>, i: nat): nat
    requires i <= |xs|
    decreases |xs| - i
  {
    if i == |xs| then 0
    else LiveFrom(policy, xs, i + 1) + if Gone(policy, xs, i) then 0 else xs[i].size
  }

  /** Kept with everything live that comes after it, and the whole fits. */
  predicate Survives(policy: Policy, xs: seq<Archive>, i: nat)
    requires i < |xs|
  {
    !Gone(policy, xs, i) && (policy.cap == 0 || LiveFrom(policy, xs, i) <= policy.cap)
  }

  function SurvivorTotal(policy: Policy, xs: seq<Archive>, i: nat): nat
    requires i <= |xs|
    decreases |xs| - i
  {
    if i == |xs| then 0
    else SurvivorTotal(policy, xs, i + 1) + if Survives(policy, xs, i) then xs[i].size else 0
  }

  function SurvivorCount(policy: Policy, xs: seq<Archive>, i: nat): nat
    requires i <= |xs|
    decreases |xs| - i
  {
    if i == |xs| then 0
    else SurvivorCount(policy, xs, i + 1) + if Survives(policy, xs, i) then 1 else 0
  }

  lemma {:induction false} SurvivorsFit(policy: Policy, xs: seq<Archive>, i: nat)
    requires policy.cap > 0 && i <= |xs|
    ensures SurvivorTotal(policy, xs, i) <= policy.cap
    ensures LiveFrom(policy, xs, i) <= policy.cap ==> SurvivorTotal(policy, xs, i) == LiveFrom(policy, xs, i)
    decreases |xs| - i
  {
    if i < |xs| {
      SurvivorsFit(policy, xs, i + 1);
    }
  }

  lemma {:induction false} SurvivorsAreFew(policy: Policy, xs: seq<Archive>, i: nat)
    requires i <= |xs|
    ensures SurvivorCount(policy, xs, i) <= policy.maxBackups && SurvivorCount(policy, xs, i) <= |xs| - i
    decreases |xs| - i
  {
    if i < |xs| {
      SurvivorsAreFew(policy, xs, i + 1);
    }
  }

  /** What is left meets all limits. */
  lemma SurvivorsMeetLimits(policy: Policy, xs: seq<Archive>)
    ensures SurvivorCount(policy, xs, 0) <= policy.maxBackups
    ensures policy.cap > 0 ==> SurvivorTotal(policy, xs, 0) <= policy.cap
    ensures policy.cutoff.Some? ==>
              forall i :: 0 <= i < |xs| && Survives(policy, xs, i) ==> xs[i].modTime >= policy.cutoff.value
  {
    SurvivorsAreFew(policy, xs, 0);
    if policy.cap > 0 {
      SurvivorsFit(policy, xs, 0);
    }
  }

  ghost predicate DeletesGone(policy: Policy, xs: seq<Archive>, n: nat, deleted: set<string>) {
    forall i :: 0 <= i < |xs| ==> (xs[i].path in deleted <==> i < n && Gone(policy, xs, i))
  }

  method DeleteByCountAndAge(policy: Policy, xs: seq<Archive>) returns (deleted: set<string>)
    requires DistinctPaths(xs)
    ensures DeletesGone(policy, xs, |xs|, deleted)
  {
    deleted := {};
    var surplus := Surplus(policy, xs);
    for i := 0 to surplus
      invariant DeletesGone(policy, xs, i, deleted)
    {
      deleted := deleted + {xs[i].path};
    }
    if policy.cutoff.None? {
      assert forall i :: surplus <= i < |xs| ==> !Gone(policy, xs, i);
      return;
    }
    for i := surplus to |xs|
      invariant DeletesGone(policy, xs, i, deleted)
    {
      if Expired(policy, xs[i]) {
        deleted := deleted + {xs[i].path};
      }
    }
  }

  ghost predicate DeletesBefore(policy: Policy, xs: seq<Archive>, n: nat, deleted: set<string>) {
    forall i :: 0 <= i < |xs| ==> (xs[i].path in deleted <==> Gone(policy, xs, i) || i < n)
  }

  method LiveTotal(policy: Policy, xs: seq<Archive>, removed: set<string>) returns (total: nat)
    requires DeletesGone(policy, xs, |xs|, removed)
    ensures total == LiveFrom(policy, xs, 0)
  {
    total := 0;
    for i := |xs| downto 0
      invariant total == LiveFrom(policy, xs, i)
    {
      if xs[i].path !in removed {
        total := total + xs[i].size;
      }
    }
  }

  lemma {:induction false} LiveFromFalls(policy: Policy, xs: seq<Archive>, i: nat, j: nat)
    requires i <= j <= |xs|
    ensures LiveFrom(policy, xs, j) <= LiveFrom(policy, xs, i)
    decreases j - i
  {
    if i < j {
      LiveFromFalls(policy, xs, i + 1, j);
    }
  }

  /** Removes live archives in name order until the rest fits. */
  method DeleteBySize(policy: Policy, xs: seq<Archive>, removed: set<string>) returns (deleted: set<string>)
    requires DistinctPaths(xs) && policy.cap > 0 && DeletesGone(policy, xs, |xs|, removed)
    ensures forall i :: 0 <= i < |xs| ==> (xs[i].path in deleted <==> !Survives(policy, xs, i))
  {
    deleted := removed;
    var total := LiveTotal(policy, xs, removed);
    var n := 0;
    while n < |xs| && total > policy.cap
      invariant n <= |xs| && total == LiveFrom(policy, xs, n)
      invariant DeletesBefore(policy, xs, n, deleted)
      invariant forall i :: 0 <= i < n ==> LiveFrom(policy, xs, i) > policy.cap
    {
      if xs[n].path !in removed {
        deleted := deleted + {xs[n].path};
        total := total - xs[n].size;
      }
      n := n + 1;
    }
    forall i | n <= i < |xs| ensures LiveFrom(policy, xs, i) <= policy.cap {
      LiveFromFalls(policy, xs, n, i);
    }
  }

  /** deleteExpiredArchives: an archive is deleted exactly when it is surplus or expired, or
      when it and the live archives after it in name order exceed the cap. */
  method DeleteExpired(policy: Policy, archives: seq<Archive>) returns (deleted: set<string>)
    requires DistinctPaths(archives)
    ensures var xs := Sort(ByName, archives);
            Sorted(ByName, xs) && forall i :: 0 <= i < |xs| ==> (xs[i].path in deleted <==> !Survives(policy, xs, i))
  {
    NameOrders();
    SortSorts(ByName, archives);
    SortKeepsPaths(ByName, archives);
    SortKeepsLength(ByName, archives);
    var xs := Sort(ByName, archives);
    if |archives| <= policy.maxBackups && policy.cutoff.None? && policy.cap == 0 {
      return {};
    }
    deleted := DeleteByCountAndAge(policy, xs);
    if policy.cap > 0 {
      deleted := DeleteBySize(policy, xs, deleted);
    }
  }

  lemma {:induction false} SortKeepsLength(le: (Archive, Archive) -> bool, xs: seq<Archive>)
    ensures |Sort(le, xs)| == |xs|
  {
    if xs != [] {
      SortKeepsLength(le, xs[1..]);
      InsertKeepsLength(le, xs[0], Sort(le, xs[1..]));
    }
  }

  lemma {:induction false} InsertKeepsLength(le: (Archive, Archive) -> bool, x: Archive, xs: seq<Archive>)
    ensures |Insert(le, x, xs)| == |xs| + 1
  {
    if xs != [] && !le(x, xs[0]) {
      InsertKeepsLength(le, x, xs[1..]);
    }
  }

  // ----- Names stand in for age

  /** Nothing that is deleted is newer than something that is kept. */
  ghost predicate KeepsNewest(policy: Policy, xs: seq<Archive>) {
    forall i, j :: 0 <= i < |xs| && 0 <= j < |xs| && !Survives(policy, xs, i) && Survives(policy, xs, j) ==>
      xs[i].modTime <= xs[j].modTime
  }

  ghost predicate NamesFollowAge(xs: seq<Archive>) {
    forall i, j :: 0 <= i < j < |xs| ==> xs[i].modTime <= xs[j].modTime
  }

  lemma OrderedNamesKeepNewest(policy: Policy, xs: seq<Archive>)
    requires NamesFollowAge(xs)
    ensures KeepsNewest(policy, xs)
  {
    forall i, j | 0 <= i < |xs| && 0 <= j < |xs| && !Survives(policy, xs, i) && Survives(policy, xs, j)
      ensures xs[i].modTime <= xs[j].modTime
    {
      if j < i {
        LiveFromFalls(policy, xs, j, i);
      }
    }
  }

  /** Retention keeps the newest archives, whatever its count, age and size limits are,
      exactly when the order of the names is the order of the ages. */
  lemma RetentionFollowsNames(xs: seq<Archive>)
    ensures (forall policy: Policy :: KeepsNewest(policy, xs)) <==> NamesFollowAge(xs)
  {
    if NamesFollowAge(xs) {
      forall policy: Policy ensures KeepsNewest(policy, xs) {
        OrderedNamesKeepNewest(policy, xs);
      }
    }
    if forall policy: Policy :: KeepsNewest(policy, xs) {
      forall i, j | 0 <= i < j < |xs| ensures xs[i].modTime <= xs[j].modTime {
        var policy := Policy(|xs| - i - 1, None, 0);
        assert KeepsNewest(policy, xs);
        assert !Survives(policy, xs, i) && Survives(policy, xs, j);
      }
    }
  }

  /** A newer archive can be deleted before an older one. */
  lemma NewerCanGoFirst()
    ensures var newer, older := Archive("app.1", "app.1", 1, 20), Archive("app.2", "app.2", 1, 10);
            var xs, policy := [newer, older], Policy(1, None, 0);
            Sorted(ByName, xs) && !Survives(policy, xs, 0) && Survives(policy, xs, 1)
  {
    var a, b := "app.1", "app.2";
    assert a[1..][1..][1..][1..] == "1" && b[1..][1..][1..][1..] == "2";
    NameLessIsTotal(a, b);
    assert NameLess("1", "2");
    assert NameLess(a[1..][1..][1..], b[1..][1..][1..]);
    assert NameLess(a[1..][1..], b[1..][1..]);
    assert NameLess(a[1..], b[1..]);
  }
}
