// Runtime level overrides on top of an immutable base configuration.
module RouterOverrides {
  import opened Optional
  import opened Text
  import opened RouterLevels

  predicate SameRouting(a: Route, b: Route) {
    a.appenders == b.appenders && a.filters == b.filters && a.includeLocation == b.includeLocation
  }

  function RootLevel(configured: Level, levels: map<string, Level>): Level {
    if ROOT in levels then levels[ROOT] else configured
  }

  ghost predicate HasLogger(loggers: seq<Logger>, name: string) {
    exists i :: 0 <= i < |loggers| && loggers[i].name == name
  }

  ghost predicate TrimmedNames(config: Config) {
    forall l :: l in config.loggers ==> Trimmed(l.name)
  }

  /** The base of a router: as built from options with distinct logger names. */
  ghost predicate GoodBase(base: Config) {
    WellFormed(base) && TrimmedNames(base)
  }

  ghost predicate TrimmedKeys(levels: map<string, Level>) {
    forall n :: n in levels ==> Trimmed(n)
  }

  /** Levels named by the configuration or by an override; ROOT names no rule. */
  function Table(base: Config, levels: map<string, Level>): map<string, Level> {
    Configured(base.loggers) + (levels - {ROOT})
  }

  /** config is base with the levels of overrides put in force, ties in the rule
      order broken in any way. */
  ghost predicate OverrideOf(base: Config, levels: map<string, Level>, config: Config) {
    && config.globalFilters == base.globalFilters && config.all == base.all
    && config.includeLocation == base.includeLocation
    && config.root == base.root.(level := RootLevel(base.root.level, levels))
    && WellFormed(config) && TrimmedNames(config)
    && (forall n :: HasLogger(config.loggers, n) <==> HasLogger(base.loggers, n) || (n in levels && n != ROOT))
    && (forall l :: l in config.loggers ==> SameRouting(l.route, RoutePlan(base, l.name).route))
    && Configured(config.loggers) == Table(base, levels)
  }

  /** The appenders, filters and location flag are those of the deepest rule that covers the
      name, or of the root when no rule does. */
  ghost predicate RoutedAsNearest(config: Config, name: string, route: Route) {
    || (exists l :: Nearest(config.loggers, name, l) && SameRouting(route, l.route))
    || ((forall l :: l in config.loggers ==> !Covers(l.name, name)) && SameRouting(route, config.root))
  }

  /** The plan of a name is the route of the deepest rule that covers it. */
  lemma PlanIsNearest(config: Config, name: string)
    requires WellFormed(config)
    ensures RoutedAsNearest(config, TrimSpace(name), RoutePlan(config, name).route)
    ensures RoutePlan(config, name).globalFilters == config.globalFilters
  {
    FirstMatchIsNearest(config.loggers, TrimSpace(name));
  }

  lemma OwnPlan(config: Config, l: Logger)
    requires WellFormed(config) && l in config.loggers && Trimmed(l.name)
    ensures RoutePlan(config, l.name).route == l.route
  {
    TrimSpaceIsTrimmed(l.name);
    FirstMatchIsNearest(config.loggers, l.name);
    var m := FirstMatch(config.loggers, l.name).value;
    assert Covers(l.name, m.name);
    CoversBothWays(l.name, m.name);
  }

  /** Without overrides the base itself is in force. */
  lemma NoOverrides(base: Config)
    requires GoodBase(base)
    ensures OverrideOf(base, map[], base)
  {
    forall l | l in base.loggers ensures SameRouting(l.route, RoutePlan(base, l.name).route) {
      OwnPlan(base, l);
    }
    var none: map<string, Level> := map[];
    assert none - {ROOT} == none;
    assert Table(base, none) == Configured(base.loggers);
  }

  /** Overrides never change where events go: the plan of every name keeps its
      appenders, filters and location flag, inserted rules included. */
  lemma OverridesKeepRouting(base: Config, levels: map<string, Level>, config: Config, name: string)
    requires GoodBase(base) && OverrideOf(base, levels, config)
    ensures SameRouting(RoutePlan(config, name).route, RoutePlan(base, name).route)
    ensures RoutePlan(config, name).globalFilters == RoutePlan(base, name).globalFilters
  {
    var n := TrimSpace(name);
    FirstMatchIsNearest(config.loggers, n);
    var m := FirstMatch(config.loggers, n);
    if m.Some? {
      assert Trimmed(m.value.name);
      TrimSpaceIsTrimmed(m.value.name);
      SameBaseMatch(base, config, n, m.value);
    } else {
      forall l | l in base.loggers ensures !Covers(l.name, n) {
        assert HasLogger(base.loggers, l.name);
        var i :| 0 <= i < |config.loggers| && config.loggers[i].name == l.name;
        assert config.loggers[i] in config.loggers;
      }
    }
  }

  /** A name and the nearest overridden rule above it match the same base rule. */
  lemma SameBaseMatch(base: Config, config: Config, n: string, m: Logger)
    requires WellFormed(base) && Nearest(config.loggers, n, m)
    requires forall k :: HasLogger(base.loggers, k) ==> HasLogger(config.loggers, k)
    ensures FirstMatch(base.loggers, n) == FirstMatch(base.loggers, m.name)
  {
    forall l | l in base.loggers ensures Covers(l.name, n) <==> Covers(l.name, m.name) {
      assert HasLogger(base.loggers, l.name);
      var i :| 0 <= i < |config.loggers| && config.loggers[i].name == l.name;
      assert config.loggers[i] in config.loggers;
      if Covers(l.name, m.name) {
        CoversTransitive(l.name, m.name, n);
      }
    }
    SameMatches(base.loggers, n, m.name);
  }

  lemma {:induction false} SameMatches(loggers: seq<Logger>, a: string, b: string)
    requires forall l :: l in loggers ==> (Covers(l.name, a) <==> Covers(l.name, b))
    ensures FirstMatch(loggers, a) == FirstMatch(loggers, b)
  {
    if loggers != [] {
      assert loggers[0] in loggers;
      if !Covers(loggers[0].name, a) {
        forall l | l in loggers[1..] ensures Covers(l.name, a) <==> Covers(l.name, b) {
          assert l in loggers;
        }
        SameMatches(loggers[1..], a, b);
      }
    }
  }

  /** The level planned for any name is that of its nearest dotted ancestor, or
      itself, with an override or a configured level, else the root level. */
  lemma OverridesSetLevels(base: Config, levels: map<string, Level>, config: Config, name: string)
    requires OverrideOf(base, levels, config)
    ensures RoutePlan(config, name).route.level ==
            NearestLevel(RootLevel(base.root.level, levels), Table(base, levels), TrimSpace(name))
  {
    PlannedLevel(config, name);
  }

  /** How the unstable sort breaks ties cannot be observed. */
  lemma SnapshotIsDetermined(base: Config, levels: map<string, Level>, a: Config, b: Config, name: string)
    requires GoodBase(base) && OverrideOf(base, levels, a) && OverrideOf(base, levels, b)
    ensures RoutePlan(a, name) == RoutePlan(b, name)
  {
    OverridesKeepRouting(base, levels, a, name);
    OverridesKeepRouting(base, levels, b, name);
    OverridesSetLevels(base, levels, a, name);
    OverridesSetLevels(base, levels, b, name);
  }

  // ----- The rewrite

  /** For lists without repeated names: b is a reordering of a. */
  ghost predicate Permuted(a: seq<Logger>, b: seq<Logger>) {
    |a| == |b| && DistinctNames(b) && forall l :: l in b <==> l in a
  }

  function InsertAt(r: seq<Logger>, x: Logger, j: nat): (r': seq<Logger>)
    requires j <= |r|
    ensures |r'| == |r| + 1
    ensures forall k :: 0 <= k < |r'| ==> r'[k] == if k < j then r[k] else if k == j then x else r[k - 1]
  {
    r[..j] + [x] + r[j..]
  }

  lemma InsertKeepsElements(r: seq<Logger>, x: Logger, j: nat)
    requires j <= |r|
    ensures forall l :: l in InsertAt(r, x, j) <==> l in r || l == x
  {
    var r' := InsertAt(r, x, j);
    forall l | l in r || l == x ensures l in r' {
      if l == x {
        assert r'[j] == x;
      } else {
        var k :| 0 <= k < |r| && r[k] == l;
        assert r'[if k < j then k else k + 1] == l;
      }
    }
  }

  lemma InsertInOrder(r: seq<Logger>, x: Logger, j: nat)
    requires Sorted(r) && j <= |r|
    requires forall k :: j <= k < |r| ==> Specificity(r[k].name) < Specificity(x.name)
    requires j > 0 ==> Specificity(r[j - 1].name) >= Specificity(x.name)
    ensures Sorted(InsertAt(r, x, j))
  {
    var r' := InsertAt(r, x, j);
    forall p, q | 0 <= p < q < |r'| ensures Specificity(r'[p].name) >= Specificity(r'[q].name) {
      if q == j {
        assert p == j - 1 || Specificity(r[p].name) >= Specificity(r[j - 1].name);
      } else if p == j {
        assert q - 1 >= j;
      }
    }
  }

  lemma InsertDistinct(r: seq<Logger>, x: Logger, j: nat)
    requires DistinctNames(r) && (forall l :: l in r ==> l.name != x.name) && j <= |r|
    ensures DistinctNames(InsertAt(r, x, j))
  {
  }

  /** Any order by descending specificity, as the library sort may produce. */
  method SortBySpecificity(loggers: seq<Logger>) returns (r: seq<Logger>)
    ensures Sorted(r) && |r| == |loggers| && forall l :: l in r <==> l in loggers
    ensures DistinctNames(loggers) ==> Permuted(loggers, r)
  {
    hide Specificity, InsertAt;
    r := [];
    for i := 0 to |loggers|
      invariant |r| == i && Sorted(r) && forall l :: l in r <==> l in loggers[..i]
      invariant DistinctNames(loggers) ==> DistinctNames(r)
    {
      var x := loggers[i];
      var j := |r|;
      while j > 0 && Specificity(r[j - 1].name) < Specificity(x.name)
        invariant 0 <= j <= |r|
        invariant forall k :: j <= k < |r| ==> Specificity(r[k].name) < Specificity(x.name)
      {
        j := j - 1;
      }
      assert loggers[..i + 1] == loggers[..i] + [x];
      InsertInOrder(r, x, j);
      if DistinctNames(loggers) {
        InsertDistinct(r, x, j);
      }
      InsertKeepsElements(r, x, j);
      r := InsertAt(r, x, j);
    }
    assert loggers[..|loggers|] == loggers;
  }

  /** The copied rule list while overrides are being entered, before sorting:
      done are the override names handled so far. */
  ghost predicate Entered(base: Config, levels: map<string, Level>, done: set<string>, loggers: seq<Logger>) {
    && done <= levels.Keys && DistinctNames(loggers)
    && (forall l :: l in loggers ==> Trimmed(l.name) && SameRouting(l.route, RoutePlan(base, l.name).route))
    && (forall n :: HasLogger(loggers, n) <==> HasLogger(base.loggers, n) || (n in done && n != ROOT))
    && (forall l :: l in loggers ==>
          l.configuredLevel ==
            if l.name in done && l.name != ROOT then Some(levels[l.name]) else BaseLevel(base, l.name))
  }

  function BaseLevel(base: Config, name: string): Option<Level> {
    var table := Configured(base.loggers);
    if name in table then Some(table[name]) else None
  }

  lemma BaseEntered(base: Config, levels: map<string, Level>)
    requires GoodBase(base)
    ensures Entered(base, levels, {}, base.loggers)
  {
    ConfiguredIs(base.loggers);
    forall l | l in base.loggers
      ensures SameRouting(l.route, RoutePlan(base, l.name).route) && l.configuredLevel == BaseLevel(base, l.name)
    {
      OwnPlan(base, l);
      if l.name in Configured(base.loggers) {
        var m :| m in base.loggers && m.name == l.name && m.configuredLevel == Some(Configured(base.loggers)[l.name]);
      }
    }
  }

  lemma ReplaceKeepsNames(loggers: seq<Logger>, i: nat, l: Logger)
    requires DistinctNames(loggers) && i < |loggers| && loggers[i].name == l.name
    ensures DistinctNames(loggers[i := l])
    ensures forall n :: HasLogger(loggers[i := l], n) <==> HasLogger(loggers, n)
    ensures forall m :: m in loggers[i := l] ==> m == l || (m in loggers && m.name != l.name)
  {
    var loggers' := loggers[i := l];
    forall n ensures HasLogger(loggers', n) <==> HasLogger(loggers, n) {
      if HasLogger(loggers, n) {
        var k :| 0 <= k < |loggers| && loggers[k].name == n;
        assert loggers'[k].name == n;
      }
      if HasLogger(loggers', n) {
        var k :| 0 <= k < |loggers| && loggers'[k].name == n;
        assert loggers[k].name == n;
      }
    }
  }

  lemma ReplacedEntered(
    base: Config, levels: map<string, Level>, done: set<string>, loggers: seq<Logger>, i: nat, name: string, l: Logger)
    requires Entered(base, levels, done, loggers) && i < |loggers| && loggers[i].name == name == l.name
    requires name in levels && name != ROOT && name !in done
    requires l.configuredLevel == Some(levels[name]) && SameRouting(l.route, loggers[i].route)
    ensures Entered(base, levels, done + {name}, loggers[i := l])
  {
    ReplaceKeepsNames(loggers, i, l);
    assert loggers[i] in loggers;
    assert HasLogger(loggers, name);
  }

  lemma InsertedEntered(
    base: Config, levels: map<string, Level>, done: set<string>, loggers: seq<Logger>, name: string, l: Logger)
    requires Entered(base, levels, done, loggers) && !HasLogger(loggers, name) && l.name == name && Trimmed(name)
    requires name in levels && name != ROOT
    requires l.configuredLevel == Some(levels[name]) && SameRouting(l.route, RoutePlan(base, name).route)
    ensures Entered(base, levels, done + {name}, loggers + [l])
  {
    var loggers' := loggers + [l];
    forall n ensures HasLogger(loggers', n) <==> HasLogger(loggers, n) || n == name {
      if HasLogger(loggers, n) {
        var k :| 0 <= k < |loggers| && loggers[k].name == n;
        assert loggers'[k].name == n;
      }
      assert loggers'[|loggers|].name == name;
    }
    forall m | m in loggers ensures m.name != name {
      var k :| 0 <= k < |loggers| && loggers[k] == m;
    }
  }

  lemma SkippedEntered(base: Config, levels: map<string, Level>, done: set<string>, loggers: seq<Logger>)
    requires Entered(base, levels, done, loggers) && ROOT in levels
    ensures Entered(base, levels, done + {ROOT}, loggers)
  {
  }

  ghost predicate SameRules(a: seq<Logger>, b: seq<Logger>) {
    |a| == |b| && forall i :: 0 <= i < |a| ==> a[i].name == b[i].name && a[i].configuredLevel == b[i].configuredLevel
  }

  lemma {:induction false} EffectiveIgnoresRoutes(root: Level, name: string, a: seq<Logger>, b: seq<Logger>)
    requires SameRules(a, b)
    ensures EffectiveLevel(root, name, a) == EffectiveLevel(root, name, b)
  {
    if a != [] {
      EffectiveIgnoresRoutes(root, name, a[1..], b[1..]);
    }
  }

  /** Reordering keeps what was entered. */
  lemma PermutedEntered(base: Config, levels: map<string, Level>, done: set<string>, a: seq<Logger>, b: seq<Logger>)
    requires Entered(base, levels, done, a) && Permuted(a, b)
    ensures Entered(base, levels, done, b)
  {
    forall n ensures HasLogger(b, n) <==> HasLogger(a, n) {
      if HasLogger(a, n) {
        SameNames(a, b, n);
      }
      if HasLogger(b, n) {
        SameNames(b, a, n);
      }
    }
  }

  lemma SameNames(a: seq<Logger>, b: seq<Logger>, n: string)
    requires (forall l :: l in a ==> l in b) && HasLogger(a, n)
    ensures HasLogger(b, n)
  {
    var i :| 0 <= i < |a| && a[i].name == n;
    assert a[i] in b;
    var j :| 0 <= j < |b| && b[j] == a[i];
  }

  lemma SameRulesSameNames(a: seq<Logger>, b: seq<Logger>, n: string)
    requires SameRules(a, b)
    ensures HasLogger(a, n) <==> HasLogger(b, n)
  {
    if HasLogger(a, n) {
      var i :| 0 <= i < |a| && a[i].name == n;
      assert b[i].name == n;
    }
    if HasLogger(b, n) {
      var i :| 0 <= i < |b| && b[i].name == n;
      assert a[i].name == n;
    }
  }

  /** every rule of t is the rule of sorted at its place with the level in force. */
  ghost predicate LevelsPut(root: Level, sorted: seq<Logger>, t: seq<Logger>) {
    && |t| == |sorted|
    && forall i :: 0 <= i < |t| ==> t[i] == WithLevel(sorted[i], EffectiveLevel(root, sorted[i].name, sorted))
  }

  function WithLevel(l: Logger, level: Level): Logger {
    l.(route := l.route.(level := level))
  }

  lemma LevelsPutInForce(base: Config, levels: map<string, Level>, root: Level, sorted: seq<Logger>,
      t: seq<Logger>, l: Logger)
    requires Entered(base, levels, levels.Keys, sorted) && LevelsPut(root, sorted, t) && l in t
    ensures l.route.level == EffectiveLevel(root, l.name, t)
    ensures Trimmed(l.name) && SameRouting(l.route, RoutePlan(base, l.name).route)
  {
    var i :| 0 <= i < |t| && t[i] == l;
    assert sorted[i] in sorted;
    EffectiveIgnoresRoutes(root, l.name, t, sorted);
  }

  /** Sorting the entered rules and putting every effective level in force
      completes the override. */
  lemma FinishOverride(base: Config, levels: map<string, Level>, sorted: seq<Logger>, config: Config)
    requires GoodBase(base) && Entered(base, levels, levels.Keys, sorted) && Sorted(sorted)
    requires config == base.(root := base.root.(level := RootLevel(base.root.level, levels)), loggers := config.loggers)
    requires LevelsPut(config.root.level, sorted, config.loggers)
    ensures OverrideOf(base, levels, config)
  {
    var loggers := config.loggers;
    forall l | l in loggers
      ensures l.route.level == EffectiveLevel(config.root.level, l.name, loggers)
      ensures Trimmed(l.name) && SameRouting(l.route, RoutePlan(base, l.name).route)
    {
      LevelsPutInForce(base, levels, config.root.level, sorted, loggers, l);
    }
    forall n ensures HasLogger(loggers, n) <==> HasLogger(sorted, n) {
      SameRulesSameNames(loggers, sorted, n);
    }
    SameTable(base, levels, sorted, loggers);
  }

  lemma TableLevelIsEntered(base: Config, levels: map<string, Level>, sorted: seq<Logger>, k: string)
    returns (l: Logger)
    requires GoodBase(base) && Entered(base, levels, levels.Keys, sorted) && k in Table(base, levels)
    ensures l in sorted && l.name == k && l.configuredLevel == Some(Table(base, levels)[k])
  {
    ConfiguredIs(base.loggers);
    if k !in levels || k == ROOT {
      var m :| m in base.loggers && m.name == k;
      NamesALogger(base.loggers, m);
    }
    assert HasLogger(sorted, k);
    var i :| 0 <= i < |sorted| && sorted[i].name == k;
    l := sorted[i];
    assert BaseLevel(base, k).Some? || (k in levels && k != ROOT);
  }

  lemma NamesALogger(loggers: seq<Logger>, l: Logger)
    requires l in loggers
    ensures HasLogger(loggers, l.name)
  {
  }

  lemma EnteredLevelIsInTable(base: Config, levels: map<string, Level>, sorted: seq<Logger>, l: Logger)
    requires GoodBase(base) && Entered(base, levels, levels.Keys, sorted) && l in sorted && l.configuredLevel.Some?
    ensures l.name in Table(base, levels) && l.configuredLevel.value == Table(base, levels)[l.name]
  {
  }

  lemma SameTable(base: Config, levels: map<string, Level>, sorted: seq<Logger>, loggers: seq<Logger>)
    requires GoodBase(base) && Entered(base, levels, levels.Keys, sorted) && SameRules(loggers, sorted)
    ensures Configured(loggers) == Table(base, levels)
  {
    hide HasLogger, RoutePlan, BaseLevel, Table, Configured;
    SameRulesSameTable(loggers, sorted);
    ConfiguredIs(sorted);
    forall k | k in Configured(sorted)
      ensures k in Table(base, levels) && Configured(sorted)[k] == Table(base, levels)[k]
    {
      var l :| l in sorted && l.name == k && l.configuredLevel == Some(Configured(sorted)[k]);
      EnteredLevelIsInTable(base, levels, sorted, l);
    }
    forall k | k in Table(base, levels) ensures k in Configured(sorted) {
      var l := TableLevelIsEntered(base, levels, sorted, k);
    }
  }

  lemma {:induction false} SameRulesSameTable(a: seq<Logger>, b: seq<Logger>)
    requires SameRules(a, b)
    ensures Configured(a) == Configured(b)
  {
    if a != [] {
      SameRulesSameTable(a[1..], b[1..]);
    }
  }

  /** Enters one override into the copied rules. */
  method EnterOverride(base: Config, levels: map<string, Level>, ghost done: set<string>, loggers: seq<Logger>,
      name: string)
    returns (r: seq<Logger>)
    requires Entered(base, levels, done, loggers) && name in levels && name !in done && Trimmed(name)
    ensures Entered(base, levels, done + {name}, r)
  {
    if name == ROOT {
      SkippedEntered(base, levels, done, loggers);
      return loggers;
    }
    var index := 0;
    while index < |loggers| && loggers[index].name != name
      invariant 0 <= index <= |loggers|
      invariant forall k :: 0 <= k < index ==> loggers[k].name != name
    {
      index := index + 1;
    }
    if index < |loggers| {
      var l := WithLevel(loggers[index], levels[name]).(configuredLevel := Some(levels[name]));
      ReplacedEntered(base, levels, done, loggers, index, name, l);
      r := loggers[index := l];
    } else {
      var l := Logger(name, Some(levels[name]), RoutePlan(base, name).route);
      InsertedEntered(base, levels, done, loggers, name, l);
      r := loggers + [l];
    }
  }

  /** Puts the effective level of every rule in force, in place. */
  method PutLevels(root: Level, sorted: seq<Logger>) returns (loggers: seq<Logger>)
    ensures LevelsPut(root, sorted, loggers)
  {
    loggers := sorted;
    for i := 0 to |sorted|
      invariant |loggers| == |sorted|
      invariant forall k :: i <= k < |sorted| ==> loggers[k] == sorted[k]
      invariant forall k :: 0 <= k < i ==>
                  loggers[k] == WithLevel(sorted[k], EffectiveLevel(root, sorted[k].name, sorted))
    {
      EffectiveIgnoresRoutes(root, loggers[i].name, loggers, sorted);
      loggers := loggers[i := WithLevel(loggers[i], EffectiveLevel(root, loggers[i].name, loggers))];
    }
  }

  /** applyLevelOverrides. The base is a value and stays as it is. */
  method ApplyLevelOverrides(base: Config, levels: map<string, Level>) returns (config: Config)
    requires GoodBase(base) && TrimmedKeys(levels)
    ensures OverrideOf(base, levels, config)
    ensures levels == map[] ==> config == base
  {
    if levels == map[] {
      NoOverrides(base);
      return base;
    }
    var loggers := base.loggers;
    var names := levels.Keys;
    BaseEntered(base, levels);
    assert levels.Keys - names == {};
    while names != {}
      invariant names <= levels.Keys
      invariant Entered(base, levels, levels.Keys - names, loggers)
      decreases |names|
    {
      var name :| name in names;
      loggers := EnterOverride(base, levels, levels.Keys - names, loggers, name);
      assert levels.Keys - (names - {name}) == levels.Keys - names + {name};
      names := names - {name};
    }
    assert levels.Keys - names == levels.Keys;
    var sorted := SortBySpecificity(loggers);
    PermutedEntered(base, levels, levels.Keys, loggers, sorted);
    var root := base.root.(level := RootLevel(base.root.level, levels));
    var effective := PutLevels(root.level, sorted);
    config := base.(root := root, loggers := effective);
    FinishOverride(base, levels, sorted, config);
  }
}
