// Logger rules, the first-match plan and the runtime level overrides.
module RouterLevels {
  import opened Optional
  import opened Text

  type Level = int
  type FilterId = int

  /** An installed output: id tells instances apart, async marks those closed first. */
  datatype Appender = Appender(id: nat, name: string, async: bool)

  datatype Control = Control(
    appender: Appender, level: Option<Level>, includeLocation: Option<bool>, filters: seq<FilterId>)

  datatype Route = Route(level: Level, appenders: seq<Control>, filters: seq<FilterId>, includeLocation: bool)

  datatype Logger = Logger(name: string, configuredLevel: Option<Level>, route: Route)

  datatype Config = Config(
    root: Route, loggers: seq<Logger>, globalFilters: seq<FilterId>, all: seq<Appender>, includeLocation: bool)

  datatype Plan = Plan(route: Route, globalFilters: seq<FilterId>)

  const ROOT := "ROOT"

  // ----- Rules and the first match

  function Specificity(name: string): nat {
    CountDots(name) * 1024 + ByteLength(name)
  }

  /** A rule strictly above another is strictly less specific. */
  lemma CoveringIsLessSpecific(a: string, b: string)
    requires Covers(a, b) && a != b
    ensures Specificity(a) < Specificity(b)
  {
    var rest := b[|a| + 1..];
    assert b == a + "." + rest;
    CountDotsConcat(a + ".", rest);
    CountDotsConcat(a, ".");
    ByteLengthConcat(a + ".", rest);
    ByteLengthConcat(a, ".");
    assert CountDots(".") == 1 && ByteLength(".") == 1;
  }

  ghost predicate Sorted(loggers: seq<Logger>) {
    forall i, j :: 0 <= i < j < |loggers| ==> Specificity(loggers[i].name) >= Specificity(loggers[j].name)
  }

  ghost predicate DistinctNames(loggers: seq<Logger>) {
    forall i, j :: 0 <= i < j < |loggers| ==> loggers[i].name != loggers[j].name
  }

  function FirstMatch(loggers: seq<Logger>, name: string): (r: Option<Logger>)
    ensures r.Some? ==> r.value in loggers && Covers(r.value.name, name)
    ensures r.None? ==> forall l :: l in loggers ==> !Covers(l.name, name)
  {
    if loggers == [] then None
    else if Covers(loggers[0].name, name) then Some(loggers[0])
    else FirstMatch(loggers[1..], name)
  }

  /** l covers name, and every other rule that does lies above l. */
  ghost predicate Nearest(loggers: seq<Logger>, name: string, l: Logger) {
    && l in loggers && Covers(l.name, name)
    && forall r :: r in loggers && Covers(r.name, name) ==> Covers(r.name, l.name)
  }

  lemma HeadIsDeepest(loggers: seq<Logger>, r: Logger, name: string)
    requires Sorted(loggers) && r in loggers && Covers(loggers[0].name, name) && Covers(r.name, name)
    ensures Covers(r.name, loggers[0].name)
  {
    var i :| 0 <= i < |loggers| && loggers[i] == r;
    assert Specificity(loggers[0].name) >= Specificity(r.name);
    CoversChain(r.name, loggers[0].name, name);
    if loggers[0].name != r.name && Covers(loggers[0].name, r.name) {
      CoveringIsLessSpecific(loggers[0].name, r.name);
    }
  }

  /** However ties in the lossy specificity number are ordered, the first match is
      the longest matching rule: rules that match one name never tie. */
  lemma {:induction false} FirstMatchIsNearest(loggers: seq<Logger>, name: string)
    requires Sorted(loggers) && DistinctNames(loggers)
    ensures FirstMatch(loggers, name).Some? ==> Nearest(loggers, name, FirstMatch(loggers, name).value)
  {
    if loggers == [] {
    } else if Covers(loggers[0].name, name) {
      forall r | r in loggers && Covers(r.name, name) ensures Covers(r.name, loggers[0].name) {
        HeadIsDeepest(loggers, r, name);
      }
    } else {
      FirstMatchIsNearest(loggers[1..], name);
      if FirstMatch(loggers, name).Some? {
        var l := FirstMatch(loggers, name).value;
        assert l in loggers[1..];
        forall r | r in loggers && Covers(r.name, name) ensures Covers(r.name, l.name) {
          assert r in loggers[1..];
        }
      }
    }
  }

  lemma CoversBothWays(a: string, b: string)
    requires Covers(a, b) && Covers(b, a)
    ensures a == b
  {
  }

  function RoutePlan(config: Config, name: string): Plan {
    var m := FirstMatch(config.loggers, TrimSpace(name));
    Plan(if m.Some? then m.value.route else config.root, config.globalFilters)
  }

  // ----- Levels

  function EffectiveLevel(root: Level, name: string, loggers: seq<Logger>): Level {
    if loggers == [] then root
    else if loggers[0].configuredLevel.Some? && Covers(loggers[0].name, name) then loggers[0].configuredLevel.value
    else EffectiveLevel(root, name, loggers[1..])
  }

  /** The level of the nearest dotted ancestor (or the name itself) in a table. */
  function NearestLevel(root: Level, table: map<string, Level>, name: string): Level
    decreases |name|
  {
    if name in table then table[name]
    else if HasParent(name) then NearestLevel(root, table, Parent(name))
    else root
  }

  /** Explicitly configured levels, by logger name. */
  function Configured(loggers: seq<Logger>): map<string, Level> {
    if loggers == [] then map[]
    else
      var rest := Configured(loggers[1..]);
      if loggers[0].configuredLevel.Some? then rest[loggers[0].name := loggers[0].configuredLevel.value] else rest
  }

  lemma {:induction false} ConfiguredIs(loggers: seq<Logger>)
    requires DistinctNames(loggers)
    ensures forall l :: l in loggers && l.configuredLevel.Some? ==>
                          l.name in Configured(loggers) && Configured(loggers)[l.name] == l.configuredLevel.value
    ensures forall k :: k in Configured(loggers) ==>
                          exists l :: l in loggers && l.name == k && l.configuredLevel == Some(Configured(loggers)[k])
  {
    if loggers != [] {
      ConfiguredIs(loggers[1..]);
      forall l | l in loggers && l.configuredLevel.Some?
        ensures l.name in Configured(loggers) && Configured(loggers)[l.name] == l.configuredLevel.value
      {
        assert l == loggers[0] || l in loggers[1..];
      }
      forall k | k in Configured(loggers)
        ensures exists l :: l in loggers && l.name == k && l.configuredLevel == Some(Configured(loggers)[k])
      {
        if loggers[0].configuredLevel.Some? && k == loggers[0].name {
          assert loggers[0] in loggers;
        } else {
          var l :| l in loggers[1..] && l.name == k && l.configuredLevel == Some(Configured(loggers[1..])[k]);
          assert l in loggers;
        }
      }
    }
  }

  lemma {:induction false} NearestLevelIs(root: Level, table: map<string, Level>, name: string, k: string)
    requires k in table && Covers(k, name)
    requires forall r :: r in table && Covers(r, name) ==> Covers(r, k)
    ensures NearestLevel(root, table, name) == table[k]
    decreases |name|
  {
    if name in table {
      CoversBothWays(name, k);
    } else {
      CoversParent(k, name);
      forall r | r in table && Covers(r, Parent(name)) ensures Covers(r, k) {
        CoversParent(r, name);
      }
      NearestLevelIs(root, table, Parent(name), k);
    }
  }

  lemma {:induction false} NearestLevelNone(root: Level, table: map<string, Level>, name: string)
    requires forall r :: r in table ==> !Covers(r, name)
    ensures NearestLevel(root, table, name) == root
    decreases |name|
  {
    if HasParent(name) {
      forall r | r in table ensures !Covers(r, Parent(name)) {
        CoversParent(r, name);
      }
      NearestLevelNone(root, table, Parent(name));
    }
  }

  /** The scan over the sorted rules finds the nearest configured ancestor. */
  lemma {:induction false} EffectiveIsNearest(root: Level, name: string, loggers: seq<Logger>)
    requires Sorted(loggers) && DistinctNames(loggers)
    ensures EffectiveLevel(root, name, loggers) == NearestLevel(root, Configured(loggers), name)
  {
    if loggers == [] {
      NearestLevelNone(root, map[], name);
      return;
    }
    ConfiguredIs(loggers);
    var table := Configured(loggers);
    var head := loggers[0];
    if head.configuredLevel.Some? && Covers(head.name, name) {
      forall r | r in table && Covers(r, name) ensures Covers(r, head.name) {
        var l :| l in loggers && l.name == r;
        HeadIsDeepest(loggers, l, name);
      }
      NearestLevelIs(root, table, name, head.name);
    } else {
      EffectiveIsNearest(root, name, loggers[1..]);
      UncoveredKeyIsIgnored(root, Configured(loggers[1..]), table, head.name, name);
    }
  }

  lemma {:induction false} UncoveredKeyIsIgnored(
    root: Level, table: map<string, Level>, table': map<string, Level>, k: string, name: string)
    requires table' == table || (k in table' && table' == table[k := table'[k]] && !Covers(k, name))
    ensures NearestLevel(root, table', name) == NearestLevel(root, table, name)
    decreases |name|
  {
    if table' != table && name !in table && HasParent(name) {
      CoversParent(k, name);
      UncoveredKeyIsIgnored(root, table, table', k, Parent(name));
    }
  }

  /** The level at a name and at the nearest rule covering it agree, when every
      configured name is a rule. */
  lemma LevelAtNearestRule(root: Level, loggers: seq<Logger>, name: string, l: Logger)
    requires DistinctNames(loggers) && Nearest(loggers, name, l)
    ensures NearestLevel(root, Configured(loggers), name) == NearestLevel(root, Configured(loggers), l.name)
  {
    var table := Configured(loggers);
    ConfiguredIs(loggers);
    forall r | r in table ensures Covers(r, name) <==> Covers(r, l.name) {
      var m :| m in loggers && m.name == r;
      if Covers(r, l.name) {
        CoversTransitive(r, l.name, name);
      }
    }
    SameCoveringKeys(root, table, name, l.name);
  }

  lemma {:induction false} SameCoveringKeys(root: Level, table: map<string, Level>, name: string, upper: string)
    requires Covers(upper, name) && forall r :: r in table ==> (Covers(r, name) <==> Covers(r, upper))
    ensures NearestLevel(root, table, name) == NearestLevel(root, table, upper)
    decreases |name|
  {
    if name != upper {
      CoversParent(upper, name);
      if name in table {
        CoversBothWays(name, upper);
      }
      forall r | r in table ensures Covers(r, Parent(name)) <==> Covers(r, upper) {
        CoversParent(r, name);
        if r == name && Covers(r, upper) {
          CoversBothWays(name, upper);
        }
      }
      SameCoveringKeys(root, table, Parent(name), upper);
    }
  }

  // ----- Configurations as built

  /** Every rule carries the level of its nearest configured ancestor. */
  ghost predicate LevelsInForce(config: Config) {
    forall l :: l in config.loggers ==>
      l.route.level == EffectiveLevel(config.root.level, l.name, config.loggers)
  }

  ghost predicate WellFormed(config: Config) {
    Sorted(config.loggers) && DistinctNames(config.loggers) && LevelsInForce(config)
  }

  /** The planned level of any name is that of its nearest configured ancestor. */
  lemma PlannedLevel(config: Config, name: string)
    requires WellFormed(config)
    ensures RoutePlan(config, name).route.level ==
            NearestLevel(config.root.level, Configured(config.loggers), TrimSpace(name))
  {
    var n := TrimSpace(name);
    var m := FirstMatch(config.loggers, n);
    FirstMatchIsNearest(config.loggers, n);
    ConfiguredIs(config.loggers);
    if m.Some? {
      EffectiveIsNearest(config.root.level, m.value.name, config.loggers);
      LevelAtNearestRule(config.root.level, config.loggers, n, m.value);
    } else {
      NearestLevelNone(config.root.level, Configured(config.loggers), n);
    }
  }
}
