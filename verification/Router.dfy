// The router: an atomically replaced snapshot and the ownership of its outputs.
module Router {
  import opened Optional
  import opened Text
  import opened RouterLevels
  import opened RouterOverrides
  import opened RouterConfig

  // ----- Closing a list of appenders, asynchronous ones first

  function AsyncIds(all: seq<Appender>): seq<nat> {
    if all == [] then []
    else
      var init, last := AsyncIds(all[..|all| - 1]), all[|all| - 1];
      if last.async then init + [last.id] else init
  }

  function SyncIds(all: seq<Appender>): seq<nat> {
    if all == [] then []
    else
      var init, last := SyncIds(all[..|all| - 1]), all[|all| - 1];
      if last.async then init else init + [last.id]
  }

  function Ids(all: seq<Appender>): seq<nat> {
    seq(|all|, i requires 0 <= i < |all| => all[i].id)
  }

  /** Calls of Close that one list receives, in order. */
  function CloseOrder(all: seq<Appender>): seq<nat> {
    AsyncIds(all) + SyncIds(all)
  }

  /** Closing a list closes each of its appenders exactly once. */
  lemma {:induction false} CloseOrderIsComplete(all: seq<Appender>)
    ensures multiset(CloseOrder(all)) == multiset(Ids(all))
  {
    if all != [] {
      var n := |all| - 1;
      CloseOrderIsComplete(all[..n]);
      assert Ids(all) == Ids(all[..n]) + [all[n].id];
    }
  }

  /** The positions, in order, of the appenders that are async, or of those that are not. */
  ghost predicate Selects(all: seq<Appender>, async: bool, ks: seq<nat>) {
    AllOfKind(all, async, ks) && NoneMissing(all, async, ks)
  }

  ghost predicate AllOfKind(all: seq<Appender>, async: bool, ks: seq<nat>) {
    && (forall j :: 0 <= j < |ks| ==> ks[j] < |all| && all[ks[j]].async == async)
    && (forall i, j :: 0 <= i < j < |ks| ==> ks[i] < ks[j])
  }

  ghost predicate NoneMissing(all: seq<Appender>, async: bool, ks: seq<nat>) {
    forall k :: 0 <= k < |all| && all[k].async == async ==> k in ks
  }

  ghost predicate IdsAt(all: seq<Appender>, ks: seq<nat>, ids: seq<nat>) {
    |ids| == |ks| && forall j :: 0 <= j < |ks| ==> ks[j] < |all| && ids[j] == all[ks[j]].id
  }

  lemma SelectsMore(all: seq<Appender>, last: Appender, async: bool, ks: seq<nat>)
    requires Selects(all, async, ks)
    ensures Selects(all + [last], async, if last.async == async then ks + [|all|] else ks)
  {
    AllOfKindMore(all, last, async, ks);
    NoneMissingMore(all, last, async, ks);
  }

  lemma AllOfKindMore(all: seq<Appender>, last: Appender, async: bool, ks: seq<nat>)
    requires AllOfKind(all, async, ks)
    ensures AllOfKind(all + [last], async, if last.async == async then ks + [|all|] else ks)
  {
  }

  lemma NoneMissingMore(all: seq<Appender>, last: Appender, async: bool, ks: seq<nat>)
    requires NoneMissing(all, async, ks)
    ensures NoneMissing(all + [last], async, if last.async == async then ks + [|all|] else ks)
  {
  }

  lemma IdsAtMore(all: seq<Appender>, last: Appender, ks: seq<nat>, ids: seq<nat>)
    requires IdsAt(all, ks, ids)
    ensures IdsAt(all + [last], ks, ids) && IdsAt(all + [last], ks + [|all|], ids + [last.id])
  {
  }

  lemma {:induction false} SelectedIds(all: seq<Appender>) returns (a: seq<nat>, s: seq<nat>)
    ensures Selects(all, true, a) && IdsAt(all, a, AsyncIds(all))
    ensures Selects(all, false, s) && IdsAt(all, s, SyncIds(all))
  {
    hide Selects, IdsAt;
    if all == [] {
      a, s := [], [];
      NothingSelected(true);
      NothingSelected(false);
    } else {
      var n := |all| - 1;
      a, s := SelectedIds(all[..n]);
      assert all == all[..n] + [all[n]];
      SelectsMore(all[..n], all[n], true, a);
      SelectsMore(all[..n], all[n], false, s);
      IdsAtMore(all[..n], all[n], a, AsyncIds(all[..n]));
      IdsAtMore(all[..n], all[n], s, SyncIds(all[..n]));
      if all[n].async {
        a := a + [n];
      } else {
        s := s + [n];
      }
    }
  }

  lemma NothingSelected(async: bool)
    ensures Selects([], async, []) && IdsAt([], [], [])
  {
  }

  /** The async appenders are closed before the others, each kind in the order of the list. */
  lemma AsyncFirst(all: seq<Appender>) returns (a: seq<nat>, s: seq<nat>)
    ensures Selects(all, true, a) && Selects(all, false, s)
    ensures IdsAt(all, a + s, CloseOrder(all))
  {
    a, s := SelectedIds(all);
  }

  ghost predicate AsyncNamed(all: seq<Appender>, name: string) {
    exists k :: 0 <= k < |all| && all[k].async && all[k].name == name
  }

  ghost predicate NamesOfAsync(closed: set<string>, all: seq<Appender>) {
    forall n :: n in closed <==> AsyncNamed(all, n)
  }

  lemma AsyncNamedExtends(all: seq<Appender>, a: Appender, name: string)
    ensures AsyncNamed(all + [a], name) <==> AsyncNamed(all, name) || (a.async && a.name == name)
  {
    var more := all + [a];
    if k :| 0 <= k < |all| && all[k].async && all[k].name == name {
      assert more[k] == all[k];
    }
    assert more[|all|] == a;
  }

  lemma OneMoreName(closed: set<string>, all: seq<Appender>, i: nat)
    requires i < |all| && NamesOfAsync(closed, all[..i])
    ensures NamesOfAsync(if all[i].async then closed + {all[i].name} else closed, all[..i + 1])
  {
    assert all[..i + 1] == all[..i] + [all[i]];
    forall n ensures AsyncNamed(all[..i + 1], n) <==> AsyncNamed(all[..i], n) || (all[i].async && all[i].name == n) {
      AsyncNamedExtends(all[..i], all[i], n);
    }
  }

  /** The first pass of runtimeConfig.close; what it closed is remembered by name. */
  method CloseAsync(all: seq<Appender>) returns (order: seq<nat>, closed: set<string>)
    ensures order == AsyncIds(all) && NamesOfAsync(closed, all)
  {
    order := [];
    closed := {};
    for i := 0 to |all|
      invariant order == AsyncIds(all[..i]) && NamesOfAsync(closed, all[..i])
    {
      assert all[..i + 1][..i] == all[..i];
      OneMoreName(closed, all, i);
      if all[i].async {
        closed := closed + {all[i].name};
        order := order + [all[i].id];
      }
    }
    assert all[..|all|] == all;
  }

  lemma ClosedIffAsync(closed: set<string>, all: seq<Appender>, i: nat)
    requires UniqueNames(all) && NamesOfAsync(closed, all) && i < |all|
    ensures all[i].name in closed <==> all[i].async
  {
    if all[i].name in closed {
      var k :| 0 <= k < |all| && all[k].async && all[k].name == all[i].name;
      assert k == i;
    }
  }

  /** runtimeConfig.close. */
  method CloseAll(all: seq<Appender>) returns (order: seq<nat>)
    requires UniqueNames(all)
    ensures order == CloseOrder(all)
  {
    var first, closed := CloseAsync(all);
    order := first;
    for i := 0 to |all|
      invariant order == first + SyncIds(all[..i])
    {
      assert all[..i + 1][..i] == all[..i];
      ClosedIffAsync(closed, all, i);
      if all[i].name !in closed {
        order := order + [all[i].id];
      }
    }
    assert all[..|all|] == all;
  }

  // ----- History

  type TrimmedName = s: string | Trimmed(s)

  datatype Setting = Setting(name: TrimmedName, level: Option<Level>)

  /** The latest setting made for a name; None also when it was cleared. */
  function LastSetting(history: seq<Setting>, name: string): Option<Level> {
    if history == [] then None
    else if history[|history| - 1].name == name then history[|history| - 1].level
    else LastSetting(history[..|history| - 1], name)
  }

  function CloseLog(lists: seq<seq<Appender>>): seq<nat> {
    if lists == [] then [] else CloseLog(lists[..|lists| - 1]) + CloseOrder(lists[|lists| - 1])
  }

  function EqualFoldRoot(name: string): bool {
    |name| == 4 && name[0] in "rR" && name[1] in "oO" && name[2] in "oO" && name[3] in "tT"
  }

  function NormalizeLevelName(name: string): TrimmedName {
    TrimSpaceIsTrimmed(name);
    var n := TrimSpace(name);
    if EqualFoldRoot(n) then ROOT else n
  }

  function LowerCase(s: string): string {
    seq(|s|, i requires 0 <= i < |s| => if 'A' <= s[i] <= 'Z' then (s[i] as int + 32) as char else s[i])
  }

  /** "root" in any case of the letters stands for the root, any other name for itself
      without the spaces around it. */
  lemma NormalizedIs(name: string)
    ensures LowerCase(TrimSpace(name)) == "root" ==> NormalizeLevelName(name) == ROOT
    ensures LowerCase(TrimSpace(name)) != "root" ==> NormalizeLevelName(name) == TrimSpace(name)
  {
    var n, l := TrimSpace(name), LowerCase(TrimSpace(name));
    if |n| == 4 {
      assert l == [l[0], l[1], l[2], l[3]];
    }
  }

  datatype Failure = EmptyName | RouterClosed | BadOptions(error: Error)

  datatype Outcome = Done | Failed(failure: Failure)

  /** The snapshot to store for a base and its overrides. */
  method Snapshot(base: Config, levels: map<string, Level>) returns (current: Config)
    requires Installable(base) && TrimmedKeys(levels)
    ensures InForce(Some(base), levels, current) && current.all == base.all
  {
    current := ApplyLevelOverrides(base, levels);
    OverrideKeepsLocation(base, levels, current);
  }

  function AfterSetting(levels: map<string, Level>, n: string, level: Option<Level>): map<string, Level> {
    if level.None? then levels - {n} else levels[n := level.value]
  }

  /** The override map that settings made one after another leave behind. */
  function NetLevels(history: seq<Setting>): (levels: map<string, Level>)
    ensures TrimmedKeys(levels)
  {
    if history == [] then map[]
    else
      var last := history[|history| - 1];
      AfterSetting(NetLevels(history[..|history| - 1]), last.name, last.level)
  }

  /** A name is overridden exactly when its last setting was a level, and then by that. */
  lemma {:induction false} LastSettingCounts(history: seq<Setting>, name: string)
    ensures name in NetLevels(history) <==> LastSetting(history, name).Some?
    ensures name in NetLevels(history) ==> LastSetting(history, name) == Some(NetLevels(history)[name])
  {
    if history != [] {
      LastSettingCounts(history[..|history| - 1], name);
    }
  }

  lemma NextSetting(history: seq<Setting>, s: Setting)
    ensures NetLevels(history + [s]) == AfterSetting(NetLevels(history), s.name, s.level)
  {
    assert (history + [s])[..|history|] == history;
  }

  /** The snapshot is the last base with the overrides in force. */
  ghost predicate InForce(base: Option<Config>, levels: map<string, Level>, current: Config) {
    && GoodAppenders(current.all) && LocationSound(current) && WellFormed(current)
    && (base.Some? ==>
          && Installable(base.value)
          && OverrideOf(base.value, levels, current)
          && (levels == map[] ==> current == base.value))
  }

  lemma InForceKeepsAppenders(base: Option<Config>, levels: map<string, Level>, current: Config)
    requires base.Some? && InForce(base, levels, current)
    ensures current.all == base.value.all
  {
  }

  /** A changed override map and the snapshot it puts in force. */
  method ApplySetting(
    base: Option<Config>, levels: map<string, Level>, current: Config, ghost history: seq<Setting>,
    n: TrimmedName, level: Option<Level>)
    returns (changed: map<string, Level>, snapshot: Config)
    requires base.Some? && InForce(base, levels, current)
    requires levels == NetLevels(history)
    ensures changed == AfterSetting(levels, n, level) == NetLevels(history + [Setting(n, level)])
    ensures InForce(base, changed, snapshot) && snapshot.all == current.all
  {
    hide GoodAppenders, LocationSound, OverrideOf;
    InForceKeepsAppenders(base, levels, current);
    NextSetting(history, Setting(n, level));
    changed := AfterSetting(levels, n, level);
    snapshot := Snapshot(base.value, changed);
  }

  /** Lists closed so far: every replaced list, and the last one once closed. */
  ghost predicate Owned(
    open: bool, current: seq<Appender>, closeLog: seq<nat>, installed: seq<seq<Appender>>, retired: seq<seq<Appender>>)
  {
    && installed != [] && current == installed[|installed| - 1]
    && closeLog == CloseLog(retired)
    && (if open then retired == installed[..|installed| - 1] else installed <= retired)
  }

  lemma Retire(lists: seq<seq<Appender>>, list: seq<Appender>)
    ensures CloseLog(lists + [list]) == CloseLog(lists) + CloseOrder(list)
  {
    assert (lists + [list])[..|lists|] == lists;
  }

  lemma OwnedAfterInstall(
    current: seq<Appender>, closeLog: seq<nat>, installed: seq<seq<Appender>>, retired: seq<seq<Appender>>,
        next: seq<Appender>)
    requires Owned(true, current, closeLog, installed, retired)
    ensures Owned(true, next, closeLog + CloseOrder(current), installed + [next], retired + [current])
  {
    Retire(retired, current);
    assert installed == installed[..|installed| - 1] + [current];
    assert (installed + [next])[..|installed|] == installed;
  }

  lemma OwnedAfterReject(
    current: seq<Appender>, closeLog: seq<nat>, installed: seq<seq<Appender>>, retired: seq<seq<Appender>>,
        list: seq<Appender>)
    requires Owned(false, current, closeLog, installed, retired)
    ensures Owned(false, current, closeLog + CloseOrder(list), installed, retired + [list])
  {
    Retire(retired, list);
  }

  lemma OwnedAfterClose(
    current: seq<Appender>, closeLog: seq<nat>, installed: seq<seq<Appender>>, retired: seq<seq<Appender>>)
    requires Owned(true, current, closeLog, installed, retired)
    ensures Owned(false, current, closeLog + CloseOrder(current), installed, retired + [current])
    ensures retired + [current] == installed
  {
    Retire(retired, current);
    assert installed == installed[..|installed| - 1] + [current];
  }

  class Router {
    var base: Option<Config>
    var levels: map<string, Level>
    var current: Config
    /** The calls of Close the appenders have received. */
    var closeLog: seq<nat>
    /** Settings accepted, appender lists installed and lists closed so far. */
    ghost var history: seq<Setting>
    ghost var installed: seq<seq<Appender>>
    ghost var retired: seq<seq<Appender>>

    ghost predicate Valid()
      reads this
    {
      && levels == NetLevels(history)
      && InForce(base, levels, current)
      && Owned(base.Some?, current.all, closeLog, installed, retired)
    }

    /** New, for options that build and whose rules have distinct names. */
    constructor (config: Config)
      requires Installable(config)
      ensures Valid() && base == Some(config) && current == config && levels == map[] && closeLog == []
      ensures history == [] && installed == [config.all] && retired == []
    {
      base, levels, current, closeLog := Some(config), map[], config, [];
      history, installed, retired := [], [config.all], [];
      new;
      NoOverrides(config);
    }

    method SetLevel(name: string, level: Option<Level>) returns (o: Outcome)
      requires Valid()
      modifies this`levels, this`current, this`history
      ensures Valid()
      ensures o == Done <==> NormalizeLevelName(name) != "" && base.Some?
      ensures o == Done ==> levels == AfterSetting(old(levels), NormalizeLevelName(name), level)
      ensures o == Done ==> history == old(history) + [Setting(NormalizeLevelName(name), level)]
      ensures o != Done ==> history == old(history) && levels == old(levels) && current == old(current)
    {
      var n := NormalizeLevelName(name);
      if n == "" {
        return Failed(EmptyName);
      }
      if base.None? {
        return Failed(RouterClosed);
      }
      Put(n, level);
      return Done;
    }

    /** The part of SetLevel under the lock. */
    method Put(n: TrimmedName, level: Option<Level>)
      requires Valid() && base.Some?
      modifies this`levels, this`current, this`history
      ensures Valid() && levels == AfterSetting(old(levels), n, level)
      ensures history == old(history) + [Setting(n, level)]
    {
      hide InForce, Owned;
      var changed, snapshot := ApplySetting(base, levels, current, history, n, level);
      history, levels, current := history + [Setting(n, level)], changed, snapshot;
    }

    /** The swap inside Replace, followed by the close of the old list. */
    method Install(config: Config)
      requires Valid() && base.Some? && Installable(config)
      modifies this
      ensures Valid() && base == Some(config) && levels == old(levels) && history == old(history)
      ensures installed == old(installed) + [config.all]
      ensures closeLog == old(closeLog) + CloseOrder(old(current).all)
    {
      hide LocationSound, OverrideOf, Owned;
      var previous := current.all;
      var snapshot := Snapshot(config, levels);
      var order := CloseAll(previous);
      OwnedAfterInstall(previous, closeLog, installed, retired, config.all);
      base, current, closeLog := Some(config), snapshot, closeLog + order;
      retired, installed := retired + [previous], installed + [config.all];
    }

    /** A configuration that arrives after Close is closed at once. */
    method Reject(config: Config)
      requires Valid() && base.None? && Installable(config)
      modifies this`closeLog, this`retired
      ensures Valid() && closeLog == old(closeLog) + CloseOrder(config.all)
    {
      var order := CloseAll(config.all);
      OwnedAfterReject(current.all, closeLog, installed, retired, config.all);
      closeLog, retired := closeLog + order, retired + [config.all];
    }

    /** Replace: builds first, then swaps the snapshot, then closes the old list. */
    method Replace(options: Options) returns (o: Outcome)
      requires Valid() && DistinctRules(options.rules)
      modifies this
      ensures Valid() && levels == old(levels) && history == old(history)
      ensures o == Done ==>
                && old(base).Some? && base.Some? && Describes(options, base.value)
                && installed == old(installed) + [options.appenders]
                && closeLog == old(closeLog) + CloseOrder(old(current).all)
      ensures o == Failed(RouterClosed) ==>
                && old(base).None? && base.None? && current == old(current) && installed == old(installed)
                && closeLog == old(closeLog) + CloseOrder(options.appenders)
      ensures o != Done && o != Failed(RouterClosed) ==>
                && o.failure.BadOptions? && base == old(base) && current == old(current)
                && installed == old(installed) && closeLog == old(closeLog)
    {
      var built := BuildRuntimeConfig(options);
      if built.Err? {
        return Failed(BadOptions(built.error));
      }
      if base.None? {
        Reject(built.value);
        return Failed(RouterClosed);
      }
      Install(built.value);
      return Done;
    }

    /** Close: closes the current list once; closing again does nothing. */
    method Close()
      requires Valid()
      modifies this
      ensures Valid() && base.None? && current == old(current) && levels == old(levels) && installed == old(installed)
      ensures old(base).Some? ==> closeLog == old(closeLog) + CloseOrder(old(current).all) && retired == installed
      ensures old(base).None? ==> closeLog == old(closeLog)
      ensures history == old(history)
    {
      if base.None? {
        return;
      }
      var order := CloseAll(current.all);
      OwnedAfterClose(current.all, closeLog, installed, retired);
      base, closeLog, retired := None, closeLog + order, retired + [current.all];
    }

    method PlanFor(name: string) returns (p: Plan)
      requires Valid()
      ensures p == RoutePlan(current, name) && RoutedAsNearest(current, TrimSpace(name), p.route)
      ensures base.Some? ==>
                && RoutedAsNearest(base.value, TrimSpace(name), p.route)
                && p.globalFilters == base.value.globalFilters
                && p.route.level == NearestLevel(
                     if ROOT in levels then levels[ROOT] else base.value.root.level,
                     Table(base.value, levels), TrimSpace(name))
    {
      p := RoutePlan(current, name);
      PlanIsNearest(current, name);
      if base.Some? {
        PlanIsNearest(base.value, name);
        OverridesKeepRouting(base.value, levels, current, name);
        OverridesSetLevels(base.value, levels, current, name);
      }
    }

    /** The early exit on the summary flag never hides a route that wants locations. */
    method IncludeLocation(name: string) returns (r: bool)
      requires Valid()
      ensures r == RoutePlan(current, name).route.includeLocation
    {
      if !current.includeLocation {
        return false;
      }
      return RoutePlan(current, name).route.includeLocation;
    }
  }

  lemma OverrideKeepsLocation(base: Config, levels: map<string, Level>, config: Config)
    requires GoodBase(base) && LocationSound(base) && OverrideOf(base, levels, config)
    ensures LocationSound(config)
  {
    forall l | l in config.loggers && !config.includeLocation ensures !l.route.includeLocation {
      var m := FirstMatch(base.loggers, TrimSpace(l.name));
    }
  }

  // ----- Ownership over whole lives

  function Flatten(lists: seq<seq<Appender>>): seq<nat> {
    if lists == [] then [] else Flatten(lists[..|lists| - 1]) + Ids(lists[|lists| - 1])
  }

  lemma {:induction false} CloseLogCounts(lists: seq<seq<Appender>>)
    ensures multiset(CloseLog(lists)) == multiset(Flatten(lists))
  {
    if lists != [] {
      CloseLogCounts(lists[..|lists| - 1]);
      CloseOrderIsComplete(lists[|lists| - 1]);
    }
  }

  ghost predicate Fresh(lists: seq<seq<Appender>>) {
    forall id :: multiset(Flatten(lists))[id] <= 1
  }

  /** With fresh appenders throughout, an open router has closed every appender of
      the replaced lists exactly once and none of the current list; a closed one
      has closed every appender it ever installed exactly once. */
  lemma ClosedExactlyOnce(r: Router, id: nat)
    requires r.Valid() && Fresh(r.installed)
    ensures r.base.Some? && id in Ids(r.current.all) ==> multiset(r.closeLog)[id] == 0
    ensures r.base.Some? && id in Flatten(r.installed[..|r.installed| - 1]) ==> multiset(r.closeLog)[id] == 1
    ensures r.base.None? && Fresh(r.retired) && id in Flatten(r.installed) ==> multiset(r.closeLog)[id] == 1
  {
    assert Owned(r.base.Some?, r.current.all, r.closeLog, r.installed, r.retired);
    OwnedOnce(r.base.Some?, r.current.all, r.closeLog, r.installed, r.retired, id);
  }

  lemma OwnedOnce(
    open: bool, current: seq<Appender>, closeLog: seq<nat>, installed: seq<seq<Appender>>, retired: seq<seq<Appender>>,
    id: nat)
    requires Owned(open, current, closeLog, installed, retired) && Fresh(installed)
    ensures open && id in Ids(current) ==> multiset(closeLog)[id] == 0
    ensures open && id in Flatten(installed[..|installed| - 1]) ==> multiset(closeLog)[id] == 1
    ensures !open && Fresh(retired) && id in Flatten(installed) ==> multiset(closeLog)[id] == 1
  {
    CloseLogCounts(retired);
    if open {
      FlattenedApart(installed, id);
    } else if id in Flatten(installed) {
      PrefixFlattens(installed, retired, id);
      InFlattenCounts(retired, id);
    }
  }

  lemma InFlattenCounts(lists: seq<seq<Appender>>, id: nat)
    requires id in Flatten(lists)
    ensures multiset(Flatten(lists))[id] > 0
  {
  }

  lemma FlattenedApart(lists: seq<seq<Appender>>, id: nat)
    requires lists != [] && multiset(Flatten(lists))[id] <= 1
    ensures id in Ids(lists[|lists| - 1]) ==> multiset(Flatten(lists[..|lists| - 1]))[id] == 0
    ensures id in Flatten(lists[..|lists| - 1]) ==> multiset(Flatten(lists[..|lists| - 1]))[id] == 1
  {
    var before, last := Flatten(lists[..|lists| - 1]), Ids(lists[|lists| - 1]);
    assert Flatten(lists) == before + last;
    InBoth(before, last, multiset(Flatten(lists)), id);
  }

  lemma InBoth(a: seq<nat>, b: seq<nat>, both: multiset<nat>, id: nat)
    requires both == multiset(a) + multiset(b) && both[id] <= 1
    ensures id in b ==> multiset(a)[id] == 0
    ensures id in a ==> multiset(a)[id] == 1
  {
    assert id in a <==> multiset(a)[id] > 0;
    assert id in b <==> multiset(b)[id] > 0;
  }

  lemma {:induction false} PrefixFlattens(a: seq<seq<Appender>>, b: seq<seq<Appender>>, id: nat)
    requires a <= b && id in Flatten(a)
    ensures id in Flatten(b)
    decreases |b|
  {
    if |a| < |b| {
      PrefixFlattens(a, b[..|b| - 1], id);
    } else {
      assert a == b;
    }
  }
}
