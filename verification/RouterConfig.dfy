// Building the runtime configuration: appender table, additivity and levels.
module RouterConfig {
  import opened Optional
  import opened Text
  import opened RouterLevels
  import opened RouterOverrides

  datatype Ref = Ref(ref: string, level: Option<Level>, includeLocation: Option<bool>, filters: seq<FilterId>)

  datatype RootRule = RootRule(level: Level, refs: seq<Ref>, filters: seq<FilterId>, includeLocation: bool)

  /** additive: additivity after its default has been applied. */
  datatype Rule = Rule(
    name: string, level: Option<Level>, refs: seq<Ref>, filters: seq<FilterId>,
    additive: bool, includeLocation: Option<bool>)

  datatype Options = Options(appenders: seq<Appender>, filters: seq<FilterId>, root: RootRule, rules: seq<Rule>)

  datatype Error =
    | NoAppender | EmptyAppenderName | DuplicateAppender | EmptyRef | UnknownAppender | EmptyLoggerName | NoOutput

  datatype Result<+T> = Ok(value: T) | Err(error: Error)

  // ----- Merging a logger's own outputs with the root's

  predicate Named(cs: seq<Control>, name: string) {
    exists i :: 0 <= i < |cs| && cs[i].appender.name == name
  }

  /** The first control of every non-empty appender name, in order. */
  function UniqueControls(cs: seq<Control>): seq<Control> {
    if cs == [] then []
    else
      var rest, last := UniqueControls(cs[..|cs| - 1]), cs[|cs| - 1];
      if last.appender.name == "" || Named(rest, last.appender.name) then rest else rest + [last]
  }

  ghost predicate DistinctControls(cs: seq<Control>) {
    forall i, j :: 0 <= i < j < |cs| ==> cs[i].appender.name != cs[j].appender.name
  }

  /** No output is written twice, none is lost, and a logger's own control wins
      over the root's control of the same appender. */
  lemma {:induction false} UniqueControlsIs(cs: seq<Control>)
    ensures DistinctControls(UniqueControls(cs))
    ensures forall n :: Named(UniqueControls(cs), n) <==> n != "" && Named(cs, n)
    ensures forall c :: c in UniqueControls(cs) ==> FirstNamed(cs, c)
  {
    if cs == [] {
      return;
    }
    var n := |cs| - 1;
    var init, last := cs[..n], cs[n];
    UniqueControlsIs(init);
    var rest, u := UniqueControls(init), UniqueControls(cs);
    forall m ensures Named(u, m) <==> m != "" && Named(cs, m) {
      UniqueKeepsNames(cs, m);
    }
    forall c | c in u ensures FirstNamed(cs, c) {
      UniqueIsFirst(cs, c);
    }
  }

  ghost predicate FirstNamed(cs: seq<Control>, c: Control) {
    exists i :: 0 <= i < |cs| && cs[i] == c && !Named(cs[..i], c.appender.name)
  }

  lemma {:induction false} UniqueIsFirst(cs: seq<Control>, c: Control)
    requires c in UniqueControls(cs)
    ensures FirstNamed(cs, c)
  {
    var n := |cs| - 1;
    var init, rest := cs[..n], UniqueControls(cs[..n]);
    if c in rest {
      UniqueIsFirst(init, c);
      var i :| 0 <= i < |init| && init[i] == c && !Named(init[..i], c.appender.name);
      assert cs[..i] == init[..i] && cs[i] == c;
    } else {
      UniqueKeepsNames(init, c.appender.name);
      assert cs[n] == c && !Named(cs[..n], c.appender.name);
    }
  }

  lemma {:induction false} UniqueKeepsNames(cs: seq<Control>, m: string)
    ensures Named(UniqueControls(cs), m) <==> m != "" && Named(cs, m)
  {
    if cs != [] {
      var init, last := cs[..|cs| - 1], cs[|cs| - 1];
      UniqueKeepsNames(init, m);
      assert cs == init + [last];
      NamedExtends(init, last, m);
      NamedExtends(UniqueControls(init), last, m);
    }
  }

  lemma NamedExtends(cs: seq<Control>, c: Control, m: string)
    ensures Named(cs + [c], m) <==> Named(cs, m) || c.appender.name == m
  {
    var cs' := cs + [c];
    if Named(cs, m) {
      var i :| 0 <= i < |cs| && cs[i].appender.name == m;
      assert cs'[i].appender.name == m;
    }
    assert cs'[|cs|].appender.name == c.appender.name;
  }

  /** seen holds the names of kept. */
  ghost predicate Seen(seen: set<string>, kept: seq<Control>) {
    forall m :: m in seen <==> Named(kept, m)
  }

  lemma SeeOneMore(seen: set<string>, kept: seq<Control>, c: Control)
    requires Seen(seen, kept)
    ensures Seen(seen + {c.appender.name}, kept + [c])
  {
    forall m ensures Named(kept + [c], m) <==> Named(kept, m) || m == c.appender.name {
      NamedExtends(kept, c, m);
    }
  }

  /** out holds the first control of every name in cs, in the order of cs. */
  ghost predicate FirstOfEach(out: seq<Control>, cs: seq<Control>) {
    && (forall n :: Named(out, n) <==> n != "" && Named(cs, n))
    && exists ks: seq<nat> :: PicksFirst(out, cs, ks)
  }

  ghost predicate PicksFirst(out: seq<Control>, cs: seq<Control>, ks: seq<nat>) {
    && |ks| == |out|
    && (forall j :: 0 <= j < |ks| ==> ks[j] < |cs| && out[j] == cs[ks[j]])
    && (forall j :: 0 <= j < |ks| ==> !Named(cs[..ks[j]], out[j].appender.name))
    && (forall i, j :: 0 <= i < j < |ks| ==> ks[i] < ks[j])
  }

  lemma PicksInMore(out: seq<Control>, cs: seq<Control>, ks: seq<nat>, c: Control)
    requires PicksFirst(out, cs, ks)
    ensures PicksFirst(out, cs + [c], ks)
  {
    hide Named;
    forall j | 0 <= j < |ks| ensures ks[j] < |cs + [c]| && out[j] == (cs + [c])[ks[j]]
                                     && !Named((cs + [c])[..ks[j]], out[j].appender.name) {
      assert (cs + [c])[..ks[j]] == cs[..ks[j]];
    }
  }

  lemma PicksOneMore(out: seq<Control>, cs: seq<Control>, ks: seq<nat>, c: Control)
    requires PicksFirst(out, cs + [c], ks) && !Named(cs, c.appender.name)
    requires forall j :: 0 <= j < |ks| ==> ks[j] < |cs|
    ensures PicksFirst(out + [c], cs + [c], ks + [|cs|])
  {
    hide Named;
    assert (cs + [c])[..|cs|] == cs;
  }

  lemma {:induction false} UniquePicksFirst(cs: seq<Control>) returns (ks: seq<nat>)
    ensures PicksFirst(UniqueControls(cs), cs, ks)
  {
    hide PicksFirst, Named;
    if cs == [] {
      ks := [];
      PicksNothing();
    } else {
      var init, last := cs[..|cs| - 1], cs[|cs| - 1];
      assert cs == init + [last];
      var before := UniquePicksFirst(init);
      PicksBelow(UniqueControls(init), init, before);
      PicksInMore(UniqueControls(init), init, before, last);
      UniqueKeepsNames(init, last.appender.name);
      UniqueOfOneMore(init, last);
      ks := before;
      if last.appender.name != "" && !Named(UniqueControls(init), last.appender.name) {
        PicksOneMore(UniqueControls(init), init, before, last);
        ks := before + [|init|];
      }
    }
  }

  lemma PicksNothing()
    ensures PicksFirst([], [], []) && UniqueControls([]) == []
  {
  }

  lemma PicksBelow(out: seq<Control>, cs: seq<Control>, ks: seq<nat>)
    requires PicksFirst(out, cs, ks)
    ensures forall j :: 0 <= j < |ks| ==> ks[j] < |cs|
  {
  }

  /** Deduplication keeps the first control of every name, in order. */
  lemma UniqueIsFirstOfEach(cs: seq<Control>)
    ensures FirstOfEach(UniqueControls(cs), cs)
  {
    forall n ensures Named(UniqueControls(cs), n) <==> n != "" && Named(cs, n) {
      UniqueKeepsNames(cs, n);
    }
    var ks := UniquePicksFirst(cs);
  }

  lemma UniqueOfOneMore(cs: seq<Control>, c: Control)
    ensures UniqueControls(cs + [c]) ==
            if c.appender.name == "" || Named(UniqueControls(cs), c.appender.name) then UniqueControls(cs)
            else UniqueControls(cs) + [c]
  {
    assert (cs + [c])[..|cs|] == cs;
  }

  lemma NothingSeen()
    ensures Seen({}, []) && UniqueControls([]) == []
  {
  }

  /** First half: dst is compacted in place, the written index never passing the
      read index. */
  method Compact(dst: array<Control>) returns (written: nat, seen: set<string>)
    modifies dst
    ensures written <= dst.Length && dst[..written] == UniqueControls(old(dst[..]))
    ensures Seen(seen, dst[..written])
  {
    hide Named, UniqueControls;
    seen := {};
    ghost var before := dst[..];
    written := 0;
    NothingSeen();
    for i := 0 to dst.Length
      invariant written <= i
      invariant dst[i..] == before[i..]
      invariant dst[..written] == UniqueControls(before[..i])
      invariant Seen(seen, dst[..written])
    {
      var control := dst[i];
      assert control == dst[i..][0] == before[i];
      assert before[..i + 1] == before[..i] + [control];
      assert dst[i + 1..] == dst[i..][1..] == before[i + 1..];
      UniqueOfOneMore(before[..i], control);
      if control.appender.name != "" && control.appender.name !in seen {
        ghost var kept := dst[..written];
        SeeOneMore(seen, kept, control);
        seen := seen + {control.appender.name};
        dst[written] := control;
        written := written + 1;
        assert dst[..written] == kept + [control];
        assert dst[i + 1..] == before[i + 1..];
      }
    }
    assert before[..dst.Length] == before;
  }

  /** appendUniqueAppenderControls: the second half appends src behind dst. */
  method AppendUnique(dst: array<Control>, src: seq<Control>) returns (out: seq<Control>)
    modifies dst
    ensures out == UniqueControls(old(dst[..]) + src)
  {
    ghost var before := dst[..];
    var written, seen := Compact(dst);
    out := dst[..written];
    assert before + src[..0] == before;
    for i := 0 to |src|
      invariant out == UniqueControls(before + src[..i])
      invariant Seen(seen, out)
    {
      var control := src[i];
      assert before + src[..i + 1] == before + src[..i] + [control];
      UniqueOfOneMore(before + src[..i], control);
      if control.appender.name != "" && control.appender.name !in seen {
        SeeOneMore(seen, out, control);
        seen := seen + {control.appender.name};
        out := out + [control];
      }
    }
    assert src[..|src|] == src;
  }

  // ----- The appender table and references

  ghost predicate UniqueNames(all: seq<Appender>) {
    forall i, j :: 0 <= i < j < |all| ==> TrimSpace(all[i].name) != TrimSpace(all[j].name)
  }

  ghost predicate GoodAppenders(all: seq<Appender>) {
    all != [] && UniqueNames(all) && forall i :: 0 <= i < |all| ==> TrimSpace(all[i].name) != ""
  }

  ghost predicate IsTable(table: map<string, Appender>, all: seq<Appender>) {
    && (forall i :: 0 <= i < |all| ==> TrimSpace(all[i].name) in table && table[TrimSpace(all[i].name)] == all[i])
    && (forall n :: n in table ==> table[n] in all && TrimSpace(table[n].name) == n)
  }

  /** The appenders by trimmed name. */
  ghost function TableOf(all: seq<Appender>): map<string, Appender> {
    if all == [] then map[] else TableOf(all[..|all| - 1])[TrimSpace(all[|all| - 1].name) := all[|all| - 1]]
  }

  lemma IndexOneMore(table: map<string, Appender>, all: seq<Appender>, a: Appender)
    requires IsTable(table, all)
    ensures TrimSpace(a.name) !in table ==>
              IsTable(table[TrimSpace(a.name) := a], all + [a]) && (UniqueNames(all) ==> UniqueNames(all + [a]))
    ensures TrimSpace(a.name) in table ==> exists k :: 0 <= k < |all| && TrimSpace(all[k].name) == TrimSpace(a.name)
  {
    var n := TrimSpace(a.name);
    if n in table {
      var k :| 0 <= k < |all| && all[k] == table[n];
    } else {
      var all' := all + [a];
      assert forall m :: m in all ==> m in all';
      assert all'[|all|] == a;
    }
  }

  /** The first appenders are in the table, and nothing is wrong with their names. */
  ghost predicate Indexed(table: map<string, Appender>, all: seq<Appender>) {
    && table == TableOf(all) && IsTable(table, all) && UniqueNames(all)
    && forall k :: 0 <= k < |all| ==> TrimSpace(all[k].name) != ""
  }

  lemma IndexNext(table: map<string, Appender>, all: seq<Appender>, i: nat)
    requires i < |all| && Indexed(table, all[..i])
    ensures var name := TrimSpace(all[i].name);
            if name == "" || name in table then !GoodAppenders(all) else Indexed(table[name := all[i]], all[..i + 1])
  {
    hide TrimSpace, IsTable;
    var name := TrimSpace(all[i].name);
    var before, after := all[..i], all[..i + 1];
    assert after == before + [all[i]] && after[..i] == before;
    IndexOneMore(table, before, all[i]);
    if name != "" && name in table {
      var k :| 0 <= k < |before| && TrimSpace(before[k].name) == name;
      assert before[k] == all[k];
    }
  }

  method IndexAppenders(all: seq<Appender>) returns (r: Result<map<string, Appender>>)
    ensures r.Ok? <==> GoodAppenders(all)
    ensures r.Ok? ==> r.value == TableOf(all) && IsTable(r.value, all)
  {
    if |all| == 0 {
      return Err(NoAppender);
    }
    var table: map<string, Appender> := map[];
    for i := 0 to |all|
      invariant Indexed(table, all[..i])
    {
      IndexNext(table, all, i);
      var name := TrimSpace(all[i].name);
      if name == "" {
        return Err(EmptyAppenderName);
      }
      if name in table {
        return Err(DuplicateAppender);
      }
      table := table[name := all[i]];
    }
    assert all[..|all|] == all;
    return Ok(table);
  }

  /** NewAppenderControl. */
  function ResolveRef(table: map<string, Appender>, ref: Ref): Result<Control> {
    var name := TrimSpace(ref.ref);
    if name == "" then Err(EmptyRef)
    else if name !in table then Err(UnknownAppender)
    else Ok(Control(table[name], ref.level, ref.includeLocation, ref.filters))
  }

  function Resolved(table: map<string, Appender>, refs: seq<Ref>): Result<seq<Control>> {
    if refs == [] then Ok([])
    else
      var init := Resolved(table, refs[..|refs| - 1]);
      if init.Err? then init
      else
        var last := ResolveRef(table, refs[|refs| - 1]);
        if last.Err? then Err(last.error) else Ok(init.value + [last.value])
  }

  /** The reference names an appender of the table. */
  predicate Known(table: map<string, Appender>, ref: Ref) {
    TrimSpace(ref.ref) != "" && TrimSpace(ref.ref) in table
  }

  /** The control is for the appender that is named, with all that the reference adds. */
  predicate RefersTo(table: map<string, Appender>, ref: Ref, c: Control) {
    && Known(table, ref) && c.appender == table[TrimSpace(ref.ref)]
    && c.level == ref.level && c.includeLocation == ref.includeLocation && c.filters == ref.filters
  }

  /** One control per reference, in order, or the error of the first bad reference. */
  ghost predicate ResolvesTo(table: map<string, Appender>, refs: seq<Ref>, r: Result<seq<Control>>) {
    if r.Ok? then
      |r.value| == |refs| && forall i :: 0 <= i < |refs| ==> RefersTo(table, refs[i], r.value[i])
    else
      exists i :: FirstBad(table, refs, i, r.error)
  }

  ghost predicate FirstBad(table: map<string, Appender>, refs: seq<Ref>, i: int, error: Error) {
    && 0 <= i < |refs| && !Known(table, refs[i])
    && error == (if TrimSpace(refs[i].ref) == "" then EmptyRef else UnknownAppender)
    && forall j :: 0 <= j < i ==> Known(table, refs[j])
  }

  lemma ResolveRefIs(table: map<string, Appender>, ref: Ref)
    ensures var r := ResolveRef(table, ref);
            && (r.Ok? <==> Known(table, ref)) && (r.Ok? ==> RefersTo(table, ref, r.value))
            && (r.Err? ==> r.error == if TrimSpace(ref.ref) == "" then EmptyRef else UnknownAppender)
  {
  }

  lemma {:induction false} ResolvedIs(table: map<string, Appender>, refs: seq<Ref>)
    ensures ResolvesTo(table, refs, Resolved(table, refs))
  {
    hide ResolveRef, Known, TrimSpace;
    if refs != [] {
      var n := |refs| - 1;
      var init := refs[..n];
      var before := Resolved(table, init);
      ResolvedIs(table, init);
      ResolveRefIs(table, refs[n]);
      assert forall j :: 0 <= j < n ==> init[j] == refs[j];
      if before.Err? {
        var i :| FirstBad(table, init, i, before.error);
        assert FirstBad(table, refs, i, before.error);
      } else if ResolveRef(table, refs[n]).Err? {
        assert FirstBad(table, refs, n, ResolveRef(table, refs[n]).error);
      }
    }
  }

  method ResolveRefs(table: map<string, Appender>, refs: seq<Ref>) returns (r: Result<seq<Control>>)
    ensures r == Resolved(table, refs) && ResolvesTo(table, refs, r)
  {
    ResolvedIs(table, refs);
    var controls := [];
    for i := 0 to |refs|
      invariant Resolved(table, refs[..i]) == Ok(controls)
    {
      var control := ResolveRef(table, refs[i]);
      assert refs[..i + 1][..i] == refs[..i];
      if control.Err? {
        FailureSticks(table, refs, i + 1);
        return Err(control.error);
      }
      controls := controls + [control.value];
    }
    assert refs[..|refs|] == refs;
    return Ok(controls);
  }

  lemma {:induction false} FailureSticks(table: map<string, Appender>, refs: seq<Ref>, n: nat)
    requires n <= |refs| && Resolved(table, refs[..n]).Err?
    ensures Resolved(table, refs) == Resolved(table, refs[..n])
    decreases |refs|
  {
    if n == |refs| {
      assert refs[..n] == refs;
    } else {
      assert refs[..|refs| - 1][..n] == refs[..n];
      FailureSticks(table, refs[..|refs| - 1], n);
    }
  }

  predicate WantsLocation(controls: seq<Control>) {
    exists i :: 0 <= i < |controls| && controls[i].includeLocation == Some(true)
  }

  predicate RequiresLocation(includeLocation: bool, controls: seq<Control>) {
    includeLocation || WantsLocation(controls)
  }

  // ----- One logger

  function OwnLocation(root: RootRule, rule: Rule): bool {
    if rule.includeLocation.Some? then rule.includeLocation.value else root.includeLocation
  }

  /** What a rule means once its own references are resolved. */
  function LoggerOf(root: RootRule, rootRoute: Route, rule: Rule, own: seq<Control>): Logger {
    var outputs := if rule.additive then UniqueControls(own + rootRoute.appenders) else own;
    var filters := if rule.additive then rule.filters + rootRoute.filters else rule.filters;
    Logger(TrimSpace(rule.name), rule.level,
           Route(if rule.level.Some? then rule.level.value else root.level, outputs, filters,
                 RequiresLocation(OwnLocation(root, rule), outputs)))
  }

  method BuildLogger(table: map<string, Appender>, root: RootRule, rootRoute: Route, rule: Rule)
    returns (r: Result<Logger>)
    ensures r.Ok? <==> RuleAccepted(table, rule)
    ensures r.Ok? ==> BuiltFrom(table, root, rootRoute, rule, r.value)
    ensures r.Ok? ==> MeansRule(table, root, rootRoute, rule, r.value)
    ensures r.Ok? ==> r.value.route.level == if rule.level.Some? then rule.level.value else root.level
  {
    hide MeansRule;
    if TrimSpace(rule.name) == "" {
      return Err(EmptyLoggerName);
    }
    var own := ResolveRefs(table, rule.refs);
    if own.Err? {
      return Err(own.error);
    }
    if !rule.additive && |own.value| == 0 {
      return Err(NoOutput);
    }
    var outputs, filters := own.value, rule.filters;
    if rule.additive {
      var dst := new Control[|outputs|](i requires 0 <= i < |outputs| => outputs[i]);
      assert dst[..] == outputs;
      outputs := AppendUnique(dst, rootRoute.appenders);
      filters := filters + rootRoute.filters;
    }
    var level := if rule.level.Some? then rule.level.value else root.level;
    var route := Route(level, outputs, filters, RequiresLocation(OwnLocation(root, rule), outputs));
    r := Ok(Logger(TrimSpace(rule.name), rule.level, route));
    BuiltFromMeans(table, root, rootRoute, rule, r.value);
  }

  // ----- The whole configuration

  ghost predicate DistinctRules(rules: seq<Rule>) {
    forall i, j :: 0 <= i < j < |rules| ==> TrimSpace(rules[i].name) != TrimSpace(rules[j].name)
  }

  function RootRefs(options: Options): seq<Ref>
    requires options.appenders != []
  {
    if options.root.refs == [] then [Ref(options.appenders[0].name, None, None, [])] else options.root.refs
  }

  /** The logger built from a rule, ignoring its level, which inheritance decides. */
  ghost predicate BuiltFrom(table: map<string, Appender>, root: RootRule, rootRoute: Route, rule: Rule, l: Logger) {
    && Resolved(table, rule.refs).Ok?
    && var spec := LoggerOf(root, rootRoute, rule, Resolved(table, rule.refs).value);
       l.name == spec.name && l.configuredLevel == spec.configuredLevel && SameRouting(l.route, spec.route)
  }

  /** What a rule asks for, level inheritance apart: its own controls in the order of its
      references, then, if it is additive, the root's controls and filters; a location when
      the rule, or else the root, or one of its controls wants one. */
  ghost predicate MeansRule(table: map<string, Appender>, root: RootRule, rootRoute: Route, rule: Rule, l: Logger) {
    && l.name == TrimSpace(rule.name) && l.configuredLevel == rule.level
    && l.route.filters == rule.filters + (if rule.additive then rootRoute.filters else [])
    && (exists own: seq<Control> :: ResolvesTo(table, rule.refs, Ok(own)) &&
          if rule.additive then FirstOfEach(l.route.appenders, own + rootRoute.appenders)
          else l.route.appenders == own)
    && (l.route.includeLocation <==>
          || rule.includeLocation == Some(true)
          || (rule.includeLocation.None? && root.includeLocation)
          || exists i :: 0 <= i < |l.route.appenders| && l.route.appenders[i].includeLocation == Some(true))
  }

  lemma BuiltFromMeans(table: map<string, Appender>, root: RootRule, rootRoute: Route, rule: Rule, l: Logger)
    requires BuiltFrom(table, root, rootRoute, rule, l)
    ensures MeansRule(table, root, rootRoute, rule, l)
  {
    var own := Resolved(table, rule.refs).value;
    ResolvedIs(table, rule.refs);
    UniqueIsFirstOfEach(own + rootRoute.appenders);
    assert rule.filters + [] == rule.filters;
  }

  /** A rule is accepted with a name, with known references, and with an output of its own
      unless it is additive. */
  lemma AcceptedMeans(table: map<string, Appender>, rule: Rule)
    ensures RuleAccepted(table, rule) <==>
              && TrimSpace(rule.name) != ""
              && (forall i :: 0 <= i < |rule.refs| ==> Known(table, rule.refs[i]))
              && (rule.additive || rule.refs != [])
  {
    ResolvedIs(table, rule.refs);
  }

  /** Without references of its own the root gets the first appender. */
  lemma RootDefault(options: Options)
    requires GoodAppenders(options.appenders) && options.root.refs == []
    ensures Resolved(TableOf(options.appenders), RootRefs(options)) ==
            Ok([Control(options.appenders[0], None, None, [])])
  {
    var table, refs := TableOf(options.appenders), RootRefs(options);
    TableIsRight(options.appenders);
    ResolvedIs(table, refs);
    assert RefersTo(table, refs[0], Control(options.appenders[0], None, None, []));
    var r := Resolved(table, refs);
    assert r.Ok? ==> r.value == [r.value[0]];
  }

  lemma {:induction false} TableIsRight(all: seq<Appender>)
    requires UniqueNames(all)
    ensures IsTable(TableOf(all), all)
  {
    if all != [] {
      var n := |all| - 1;
      TableIsRight(all[..n]);
      IndexOneMore(TableOf(all[..n]), all[..n], all[n]);
      assert all == all[..n] + [all[n]];
    }
  }

  /** A cleared location flag means that no route collects locations. */
  ghost predicate LocationSound(config: Config) {
    !config.includeLocation ==>
      !config.root.includeLocation && forall l :: l in config.loggers ==> !l.route.includeLocation
  }

  /** A configuration fit to be installed in a router. */
  ghost predicate Installable(config: Config) {
    LocationSound(config) && GoodAppenders(config.all) && GoodBase(config)
  }

  ghost predicate RuleAccepted(table: map<string, Appender>, rule: Rule) {
    && TrimSpace(rule.name) != "" && Resolved(table, rule.refs).Ok?
    && (rule.additive || Resolved(table, rule.refs).value != [])
  }

  ghost predicate Accepted(table: map<string, Appender>, options: Options)
    requires options.appenders != []
  {
    Resolved(table, RootRefs(options)).Ok? && RulesAccepted(table, options.rules)
  }

  /** The loggers of a configuration are exactly those the rules describe. */
  ghost predicate LoggersOfRules(table: map<string, Appender>, options: Options, root: Route, loggers: seq<Logger>) {
    && (forall l :: l in loggers ==> OfSomeRule(table, options, root, l))
    && (forall k :: 0 <= k < |options.rules| ==> HasLoggerOf(table, options, root, loggers, options.rules[k]))
  }

  ghost predicate OfSomeRule(table: map<string, Appender>, options: Options, root: Route, l: Logger) {
    exists k :: 0 <= k < |options.rules| && BuiltFrom(table, options.root, root, options.rules[k], l)
  }

  ghost predicate HasLoggerOf(table: map<string, Appender>, options: Options, root: Route,
      loggers: seq<Logger>, rule: Rule) {
    exists l :: l in loggers && BuiltFrom(table, options.root, root, rule, l)
  }

  /** The loggers of the first k rules, in rule order, before sorting. */
  ghost predicate BuiltSoFar(table: map<string, Appender>, options: Options, root: Route, loggers: seq<Logger>) {
    && |loggers| <= |options.rules|
    && forall i :: 0 <= i < |loggers| ==> BuiltFrom(table, options.root, root, options.rules[i], loggers[i])
  }

  lemma BuiltExtends(table: map<string, Appender>, options: Options, root: Route, loggers: seq<Logger>, l: Logger)
    requires BuiltSoFar(table, options, root, loggers) && |loggers| < |options.rules|
    requires BuiltFrom(table, options.root, root, options.rules[|loggers|], l)
    ensures BuiltSoFar(table, options, root, loggers + [l])
  {
  }

  /** A cleared flag means that neither the root nor the loggers collect locations. */
  ghost predicate FlagCovers(flag: bool, root: Route, loggers: seq<Logger>) {
    !flag ==> !root.includeLocation && forall i :: 0 <= i < |loggers| ==> !loggers[i].route.includeLocation
  }

  ghost predicate RulesAccepted(table: map<string, Appender>, rules: seq<Rule>) {
    forall k :: 0 <= k < |rules| ==> RuleAccepted(table, rules[k])
  }

  lemma AcceptedExtends(table: map<string, Appender>, rules: seq<Rule>, k: nat)
    requires k < |rules| && RulesAccepted(table, rules[..k])
    ensures RuleAccepted(table, rules[k]) ==> RulesAccepted(table, rules[..k + 1])
    ensures !RuleAccepted(table, rules[k]) ==> !RulesAccepted(table, rules)
  {
  }

  lemma FlagExtends(flag: bool, root: Route, loggers: seq<Logger>, l: Logger)
    requires FlagCovers(flag, root, loggers)
    ensures FlagCovers(flag || l.route.includeLocation, root, loggers + [l])
  {
  }

  method BuildLoggers(table: map<string, Appender>, options: Options, root: Route)
    returns (r: Result<seq<Logger>>, includeLocation: bool)
    ensures r.Ok? <==> RulesAccepted(table, options.rules)
    ensures r.Ok? ==> |r.value| == |options.rules| && BuiltSoFar(table, options, root, r.value)
    ensures r.Ok? ==> FlagCovers(includeLocation, root, r.value)
  {
    includeLocation := root.includeLocation;
    var loggers: seq<Logger> := [];
    for k := 0 to |options.rules|
      invariant |loggers| == k && BuiltSoFar(table, options, root, loggers)
      invariant RulesAccepted(table, options.rules[..k])
      invariant FlagCovers(includeLocation, root, loggers)
    {
      var l := BuildLogger(table, options.root, root, options.rules[k]);
      AcceptedExtends(table, options.rules, k);
      if l.Err? {
        return Err(l.error), includeLocation;
      }
      BuiltExtends(table, options, root, loggers, l.value);
      FlagExtends(includeLocation, root, loggers, l.value);
      includeLocation := includeLocation || l.value.route.includeLocation;
      loggers := loggers + [l.value];
    }
    assert options.rules[..|options.rules|] == options.rules;
    return Ok(loggers), includeLocation;
  }

  function RootRoute(options: Options, controls: seq<Control>): Route {
    Route(options.root.level, controls, options.root.filters,
          RequiresLocation(options.root.includeLocation, controls))
  }

  /** The configuration says what the options say. */
  ghost predicate Describes(options: Options, config: Config) {
    && options.appenders != []
    && var table := TableOf(options.appenders);
       && Resolved(table, RootRefs(options)).Ok?
       && config.root == RootRoute(options, Resolved(table, RootRefs(options)).value)
       && config.all == options.appenders && config.globalFilters == options.filters
       && |config.loggers| == |options.rules|
       && LoggersOfRules(table, options, config.root, config.loggers)
  }

  /** The root is what the options ask for; it wants a location when they say so or one of
      its controls does. */
  lemma RootIsAsAsked(options: Options, config: Config)
    requires Describes(options, config)
    ensures config.root.level == options.root.level && config.root.filters == options.root.filters
    ensures options.root.refs != [] ==>
              ResolvesTo(TableOf(options.appenders), options.root.refs, Ok(config.root.appenders))
    ensures config.root.includeLocation <==>
              || options.root.includeLocation
              || exists i :: 0 <= i < |config.root.appenders| &&
                   config.root.appenders[i].includeLocation == Some(true)
  {
    ResolvedIs(TableOf(options.appenders), RootRefs(options));
  }

  /** buildRuntimeConfig. Rules with equal trimmed names are accepted; the rule
      order is only meaningful when there are none. */
  method BuildRuntimeConfig(options: Options) returns (r: Result<Config>)
    ensures r.Ok? <==> GoodAppenders(options.appenders) && Accepted(TableOf(options.appenders), options)
    ensures r.Ok? ==> Describes(options, r.value) && LocationSound(r.value)
    ensures r.Ok? && DistinctRules(options.rules) ==> GoodBase(r.value)
    ensures r.Ok? && options.root.refs == [] ==>
              r.value.root.appenders == [Control(options.appenders[0], None, None, [])]
  {
    var indexed := IndexAppenders(options.appenders);
    if indexed.Err? {
      return Err(indexed.error);
    }
    var byName := indexed.value;
    if options.root.refs == [] {
      RootDefault(options);
    }
    var rootControls := ResolveRefs(byName, RootRefs(options));
    if rootControls.Err? {
      return Err(rootControls.error);
    }
    var root := Route(options.root.level, rootControls.value, options.root.filters,
                      RequiresLocation(options.root.includeLocation, rootControls.value));
    var loggers, includeLocation := BuildLoggers(byName, options, root);
    if loggers.Err? {
      return Err(loggers.error);
    }
    var sorted := SortBySpecificity(loggers.value);
    var effective := PutLevels(root.level, sorted);
    r := Ok(Config(root, effective, options.filters, options.appenders, includeLocation));
    BuiltIsGood(byName, options, root, loggers.value, sorted, r.value);
  }

  lemma SortedLoggerIsBuilt(
    table: map<string, Appender>, options: Options, root: Route, loggers: seq<Logger>, sorted: seq<Logger>,
    t: seq<Logger>, l: Logger) returns (k: nat)
    requires BuiltSoFar(table, options, root, loggers) && LevelsPut(root.level, sorted, t) && l in t
    requires forall m :: m in sorted ==> m in loggers
    ensures k < |loggers| && BuiltFrom(table, options.root, root, options.rules[k], l)
    ensures l.route.level == EffectiveLevel(root.level, l.name, t) && Trimmed(l.name)
    ensures l.route.includeLocation == loggers[k].route.includeLocation
  {
    var i :| 0 <= i < |t| && t[i] == l;
    EffectiveIgnoresRoutes(root.level, l.name, t, sorted);
    assert sorted[i] in loggers;
    k :| 0 <= k < |loggers| && loggers[k] == sorted[i];
    assert BuiltFrom(table, options.root, root, options.rules[k], loggers[k]);
    TrimSpaceIsTrimmed(options.rules[k].name);
  }

  lemma EveryRuleHasALogger(
    table: map<string, Appender>, options: Options, root: Route, loggers: seq<Logger>, sorted: seq<Logger>,
    t: seq<Logger>, k: nat)
    requires k < |options.rules| == |loggers| && BuiltSoFar(table, options, root, loggers)
    requires LevelsPut(root.level, sorted, t) && loggers[k] in sorted
    ensures HasLoggerOf(table, options, root, t, options.rules[k])
  {
    var i :| 0 <= i < |sorted| && sorted[i] == loggers[k];
    assert t[i] in t && BuiltFrom(table, options.root, root, options.rules[k], t[i]);
  }

  lemma LevelsPutKeepsRules(root: Level, sorted: seq<Logger>, t: seq<Logger>)
    requires LevelsPut(root, sorted, t) && Sorted(sorted)
    ensures Sorted(t) && (DistinctNames(sorted) ==> DistinctNames(t))
  {
    hide Specificity, EffectiveLevel;
  }

  lemma BuiltIsGood(
    table: map<string, Appender>, options: Options, root: Route, loggers: seq<Logger>, sorted: seq<Logger>,
        config: Config)
    requires |loggers| == |options.rules| && BuiltSoFar(table, options, root, loggers)
    requires Sorted(sorted) && |sorted| == |loggers| && forall l :: l in sorted <==> l in loggers
    requires DistinctNames(loggers) ==> Permuted(loggers, sorted)
    requires config.root == root && LevelsPut(root.level, sorted, config.loggers)
    requires FlagCovers(config.includeLocation, root, loggers)
    ensures LocationSound(config)
    ensures DistinctRules(options.rules) ==> GoodBase(config)
    ensures LoggersOfRules(table, options, root, config.loggers)
  {
    hide BuiltFrom, LevelsPut, EffectiveLevel, Specificity, TrimSpace, HasLoggerOf;
    var t := config.loggers;
    LevelsPutKeepsRules(root.level, sorted, t);
    forall l | l in t
      ensures l.route.level == EffectiveLevel(root.level, l.name, t) && Trimmed(l.name)
      ensures !config.includeLocation ==> !l.route.includeLocation
      ensures OfSomeRule(table, options, root, l)
    {
      var k := SortedLoggerIsBuilt(table, options, root, loggers, sorted, t, l);
    }
    forall k | 0 <= k < |options.rules| ensures HasLoggerOf(table, options, root, t, options.rules[k]) {
      EveryRuleHasALogger(table, options, root, loggers, sorted, t, k);
    }
    if DistinctRules(options.rules) {
      DistinctBuilt(table, options, root, loggers);
    }
  }

  lemma DistinctBuilt(table: map<string, Appender>, options: Options, root: Route, loggers: seq<Logger>)
    requires BuiltSoFar(table, options, root, loggers) && DistinctRules(options.rules)
    ensures DistinctNames(loggers)
  {
    forall i, j | 0 <= i < j < |loggers| ensures loggers[i].name != loggers[j].name {
      assert BuiltFrom(table, options.root, root, options.rules[i], loggers[i]);
      assert BuiltFrom(table, options.root, root, options.rules[j], loggers[j]);
    }
  }
}
