// Building configured appenders: concrete ones first, then composite ones in
// rounds until every reference is satisfied.
module ConfigAppenders {
  import opened Text
  import opened References
  import opened Sequences

  datatype Kind = Async | Failover | Rewrite

  /** ok: the factory and the filter references of the entry succeed. */
  datatype Spec =
    | Concrete(ok: bool)
    | Composite(kind: Kind, refs: seq<string>, ok: bool)
    | Routing(routes: map<string, string>, fallback: string, ok: bool)

  datatype Error = BadConcrete | BadComposite | Unresolved(waiting: seq<string>)

  /** On failure closed lists the appenders that were closed again. */
  datatype Result = Ok(order: seq<string>) | Err(error: Error, closed: seq<string>)

  predicate ArityOk(kind: Kind, n: nat) {
    match kind
    case Async => n >= 1
    case Failover => n >= 2
    case Rewrite => n == 1
  }

  predicate Blank(s: string) {
    TrimSpace(s) == ""
  }

  function RefsOf(spec: Spec): set<string> {
    match spec
    case Concrete(_) => {}
    case Composite(_, refs, _) => set r | r in refs :: TrimSpace(r)
    case Routing(routes, fallback, _) =>
      (set k | k in routes :: TrimSpace(routes[k])) + if Blank(fallback) then {} else {TrimSpace(fallback)}
  }

  function GraphOf(specs: map<string, Spec>): Graph {
    map n | n in specs :: RefsOf(specs[n])
  }

  /** Nothing but the order of construction can keep the entry from being built. */
  predicate Buildable(specs: map<string, Spec>, spec: Spec) {
    && spec.ok
    && (spec.Composite? ==> ArityOk(spec.kind, |spec.refs|))
    && (spec.Routing? ==> forall k :: k in spec.routes ==> !Blank(k))
    && forall r :: r in RefsOf(spec) ==> r != "" && r in specs
  }

  /** The names an entry refers to: each reference, each target of a route, and the fallback
      when there is one. */
  lemma RefsOfIs(spec: Spec, r: string)
    ensures r in RefsOf(spec) <==>
              || (spec.Composite? && exists k :: 0 <= k < |spec.refs| && TrimSpace(spec.refs[k]) == r)
              || (spec.Routing? && exists k :: k in spec.routes && TrimSpace(spec.routes[k]) == r)
              || (spec.Routing? && r != "" && TrimSpace(spec.fallback) == r)
  {
  }

  /** An entry can be built when its factory succeeds, all its references are configured, and
      it has an output: one or more for async, two or more for failover, one for rewrite;
      routes have keys. */
  lemma BuildableIs(specs: map<string, Spec>, spec: Spec)
    ensures Buildable(specs, spec) <==>
              && spec.ok
              && (spec.Composite? && spec.kind.Async? ==> |spec.refs| >= 1)
              && (spec.Composite? && spec.kind.Failover? ==> |spec.refs| >= 2)
              && (spec.Composite? && spec.kind.Rewrite? ==> |spec.refs| == 1)
              && (spec.Routing? ==> forall k :: k in spec.routes ==> TrimSpace(k) != "")
              && forall r :: r in RefsOf(spec) ==> r != "" && r in specs
  {
  }

  ghost predicate AllBuildable(specs: map<string, Spec>) {
    forall n :: n in specs ==> Buildable(specs, specs[n])
  }

  // ----- One attempt at a composite

  datatype Attempt = Built | Waiting | Failed

  /** resolveCompositeAppenderRef. */
  function ResolveRef(specs: map<string, Spec>, built: set<string>, ref: string): Attempt {
    var r := TrimSpace(ref);
    if r == "" then Failed
    else if r in built then Built
    else if r in specs then Waiting
    else Failed
  }

  /** resolveCompositeAppenderRefs: stops at the first reference that is not built. */
  function ResolveRefs(specs: map<string, Spec>, built: set<string>, refs: seq<string>): Attempt {
    if refs == [] then Built
    else
      var head := ResolveRef(specs, built, refs[0]);
      if head.Built? then ResolveRefs(specs, built, refs[1..]) else head
  }

  lemma ResolveRefsIs(specs: map<string, Spec>, built: set<string>, refs: seq<string>)
    ensures var a := ResolveRefs(specs, built, refs);
            && (a.Built? <==> forall r :: r in refs ==> !Blank(r) && TrimSpace(r) in built)
            && (a.Waiting? ==> exists r :: r in refs && TrimSpace(r) in specs && TrimSpace(r) !in built)
            && (a.Failed? ==> exists r :: r in refs && (TrimSpace(r) == "" || TrimSpace(r) !in specs))
  {
    if refs != [] {
      ResolveRefsIs(specs, built, refs[1..]);
      assert refs[0] in refs;
      assert forall r :: r in refs <==> r == refs[0] || r in refs[1..];
    }
  }

  /** resolveRoutingRoutes: the map is visited in no particular order. */
  method ResolveRoutes(specs: map<string, Spec>, built: set<string>, routes: map<string, string>) returns (a: Attempt)
    ensures a.Built? ==> forall k :: k in routes ==> !Blank(k) && !Blank(routes[k]) && TrimSpace(routes[k]) in built
    ensures a.Waiting? ==> exists k :: k in routes && TrimSpace(routes[k]) in specs && TrimSpace(routes[k]) !in built
    ensures a.Failed? ==> exists k :: k in routes && (Blank(k) || Blank(routes[k]) || TrimSpace(routes[k]) !in specs)
  {
    var keys := routes.Keys;
    while keys != {}
      invariant keys <= routes.Keys
      invariant forall k :: k in routes && k !in keys ==>
                  !Blank(k) && !Blank(routes[k]) && TrimSpace(routes[k]) in built
      decreases |keys|
    {
      var k :| k in keys;
      if Blank(k) {
        return Failed;
      }
      a := ResolveRef(specs, built, routes[k]);
      if !a.Built? {
        return;
      }
      keys := keys - {k};
    }
    return Built;
  }

  /** buildCompositeAppender: an error, a wait for a reference, or an appender. */
  method AttemptComposite(specs: map<string, Spec>, built: set<string>, name: string) returns (a: Attempt)
    requires name in specs && !specs[name].Concrete? && built <= specs.Keys
    ensures a.Built? ==> Buildable(specs, specs[name]) && RefsOf(specs[name]) <= built
    ensures a.Waiting? ==> exists r :: r in RefsOf(specs[name]) && r in specs && r !in built
    ensures a.Failed? ==> !Buildable(specs, specs[name])
    ensures var spec := specs[name];
            spec.Composite? && spec.ok ==>
              a == if ArityOk(spec.kind, |spec.refs|) then ResolveRefs(specs, built, spec.refs) else Failed
  {
    var spec := specs[name];
    match spec {
    case Composite(kind, refs, ok) =>
      if !ArityOk(kind, |refs|) {
        return Failed;
      }
      ResolveRefsIs(specs, built, refs);
      a := ResolveRefs(specs, built, refs);
      if a.Waiting? {
        var r :| r in refs && TrimSpace(r) in specs && TrimSpace(r) !in built;
        assert TrimSpace(r) in RefsOf(spec);
      } else if a.Failed? {
        var r :| r in refs && (TrimSpace(r) == "" || TrimSpace(r) !in specs);
        assert TrimSpace(r) in RefsOf(spec);
      }
    case Routing(routes, fallback, ok) =>
      a := ResolveRoutes(specs, built, routes);
      if a.Waiting? {
        var k :| k in routes && TrimSpace(routes[k]) in specs && TrimSpace(routes[k]) !in built;
        assert TrimSpace(routes[k]) in RefsOf(spec);
      } else if a.Failed? {
        var k :| k in routes && (Blank(k) || Blank(routes[k]) || TrimSpace(routes[k]) !in specs);
        assert TrimSpace(routes[k]) in RefsOf(spec);
      } else if !Blank(fallback) {
        assert TrimSpace(fallback) in RefsOf(spec);
        a := ResolveRef(specs, built, fallback);
      }
    case Concrete(_) =>
    }
    if a.Built? && !spec.ok {
      a := Failed;
    }
  }

  // ----- Rounds

  /** order is a dependency order of buildable entries. */
  ghost predicate Sound(specs: map<string, Spec>, order: seq<string>) {
    && DependencyOrder(GraphOf(specs), order)
    && forall n :: n in order ==> n in specs && Buildable(specs, specs[n])
  }

  lemma NothingIsSound(specs: map<string, Spec>)
    ensures Sound(specs, [])
  {
  }

  function SetOf(xs: seq<string>): set<string> {
    set x | x in xs
  }

  lemma AppendSound(specs: map<string, Spec>, order: seq<string>, n: string)
    requires Sound(specs, order) && n in specs && n !in order
    requires Buildable(specs, specs[n]) && RefsOf(specs[n]) <= SetOf(order)
    ensures Sound(specs, order + [n]) && SetOf(order + [n]) == SetOf(order) + {n}
  {
    var order' := order + [n];
    forall i | 0 <= i < |order'|
      ensures forall r :: r in GraphOf(specs)[order'[i]] ==> r in order'[..i]
    {
      assert order'[..i] == order[..i];
      if i == |order| {
        assert order[..i] == order;
      }
    }
  }

  /** Names that still wait, in an array prefix, together with the built ones. */
  ghost predicate Pending(specs: map<string, Spec>, order: seq<string>, waiting: seq<string>) {
    && Distinct(waiting)
    && (forall n :: n in waiting ==> n in specs && !specs[n].Concrete? && n !in order)
    && (forall n :: n in specs ==> n in order || n in waiting)
  }

  ghost predicate WaitsFor(specs: map<string, Spec>, built: set<string>, n: string) {
    n in specs && exists r :: r in RefsOf(specs[n]) && r in specs && r !in built
  }

  lemma WaiterRefersInto(specs: map<string, Spec>, order: seq<string>, waiting: seq<string>, n: string)
    requires Pending(specs, order, waiting) && WaitsFor(specs, SetOf(order), n)
    ensures RefersInto(GraphOf(specs), n, SetOf(waiting))
  {
    var r :| r in RefsOf(specs[n]) && r in specs && r !in SetOf(order);
    assert r in SetOf(waiting) && Edge(GraphOf(specs), n, r);
  }

  /** A round that builds nothing exhibits a cycle. */
  lemma NoProgressIsCyclic(specs: map<string, Spec>, order: seq<string>, waiting: seq<string>)
    requires Pending(specs, order, waiting) && waiting != []
    requires AllWait(specs, order, waiting)
    ensures Cyclic(GraphOf(specs))
  {
    hide Pending, WaitsFor, RefersInto;
    var names := SetOf(waiting);
    assert waiting[0] in names;
    forall n | n in names ensures RefersInto(GraphOf(specs), n, names) {
      WaiterRefersInto(specs, order, waiting, n);
    }
    StuckIsCyclic(GraphOf(specs), names);
  }

  lemma FinishedIsAcyclic(specs: map<string, Spec>, order: seq<string>)
    requires Sound(specs, order) && forall n :: n in specs ==> n in order
    ensures AllBuildable(specs) && !Cyclic(GraphOf(specs))
  {
    OrderedIsAcyclic(GraphOf(specs), order);
  }

  /** Part of a round that began with order start: kept waits, unread is still to come. */
  ghost predicate MidRound(
    specs: map<string, Spec>, start: seq<string>, order: seq<string>, kept: seq<string>, unread: seq<string>)
  {
    && Sound(specs, order)
    && Pending(specs, order, kept + unread)
    && start <= order
    && (order == start ==> AllWait(specs, start, kept))
  }

  ghost predicate AllWait(specs: map<string, Spec>, order: seq<string>, names: seq<string>) {
    forall n :: n in names ==> WaitsFor(specs, SetOf(order), n)
  }

  /** MidRound on the shared storage: names[..written] was kept and
      names[read..count] is still to come. */
  ghost predicate InPlace(
    specs: map<string, Spec>, start: seq<string>, order: seq<string>,
    names: seq<string>, written: nat, read: nat, count: nat)
  {
    && written <= read <= count <= |names|
    && |order| == |start| + read - written
    && MidRound(specs, start, order, names[..written], names[read..count])
  }

  lemma NextName(
    specs: map<string, Spec>, start: seq<string>, order: seq<string>,
    names: seq<string>, written: nat, read: nat, count: nat)
    requires read < count && InPlace(specs, start, order, names, written, read, count)
    ensures var n := names[read]; n in specs && !specs[n].Concrete? && n !in order
    ensures SetOf(order) <= specs.Keys
  {
    assert (names[..written] + names[read..count])[written] == names[read];
  }

  /** Writing the name back never touches a name that is still to be read. */
  lemma KeepName(
    specs: map<string, Spec>, start: seq<string>, order: seq<string>,
    names: seq<string>, written: nat, read: nat, count: nat)
    requires read < count && InPlace(specs, start, order, names, written, read, count)
    requires WaitsFor(specs, SetOf(order), names[read])
    ensures InPlace(specs, start, order, names[written := names[read]], written + 1, read + 1, count)
  {
    hide Sound, Pending, WaitsFor;
    var after := names[written := names[read]];
    assert after[..written + 1] == names[..written] + [names[read]];
    assert after[read + 1..count] == names[read..count][1..];
    assert names[..written] + [names[read]] + names[read..count][1..] == names[..written] + names[read..count];
  }

  lemma BuildName(
    specs: map<string, Spec>, start: seq<string>, order: seq<string>,
    names: seq<string>, written: nat, read: nat, count: nat)
    requires read < count && InPlace(specs, start, order, names, written, read, count)
    requires Buildable(specs, specs[names[read]]) && RefsOf(specs[names[read]]) <= SetOf(order)
    ensures InPlace(specs, start, order + [names[read]], names, written, read + 1, count)
  {
    hide Sound, Pending, AllWait, Buildable;
    var n := names[read];
    NextName(specs, start, order, names, written, read, count);
    AppendSound(specs, order, n);
    assert names[read..count] == [n] + names[read + 1..count];
    DropName(specs, order, names[..written], n, names[read + 1..count]);
  }

  lemma DropName(specs: map<string, Spec>, order: seq<string>, kept: seq<string>, n: string, unread: seq<string>)
    requires Pending(specs, order, kept + ([n] + unread))
    ensures Pending(specs, order + [n], kept + unread)
  {
    var before, after := kept + ([n] + unread), kept + unread;
    assert before[|kept|] == n;
    assert forall m :: m in before <==> m == n || m in after;
    forall i, j | 0 <= i < j < |after| ensures after[i] != after[j] {
      var i', j' := if i < |kept| then i else i + 1, if j < |kept| then j else j + 1;
      assert before[i'] == after[i] && before[j'] == after[j];
    }
    forall i | 0 <= i < |after| ensures after[i] != n {
      assert before[if i < |kept| then i else i + 1] == after[i];
    }
  }

  /** The body of a round: the name at read is built, fails, or is written back at
      written, at or before the position it was read from. */
  method Visit(
    specs: map<string, Spec>, names: array<string>, written: nat, read: nat, count: nat,
    ghost start: seq<string>, order: seq<string>)
    returns (attempt: Attempt)
    requires read < count && InPlace(specs, start, order, names[..], written, read, count)
    modifies names
    ensures attempt.Failed? ==> !AllBuildable(specs)
    ensures attempt.Waiting? ==> InPlace(specs, start, order, names[..], written + 1, read + 1, count)
    ensures attempt.Built? ==> names[..] == old(names[..])
    ensures attempt.Built? ==> InPlace(specs, start, order + [names[read]], names[..], written, read + 1, count)
  {
    var name := names[read];
    NextName(specs, start, order, names[..], written, read, count);
    attempt := AttemptComposite(specs, SetOf(order), name);
    if attempt.Waiting? {
      ghost var after := names[..][written := name];
      KeepName(specs, start, order, names[..], written, read, count);
      names[written] := name;
      assert names[..] == after;
    } else if attempt.Built? {
      BuildName(specs, start, order, names[..], written, read, count);
    }
  }

  /** One pass over the names left, compacting them in place. */
  method Round(specs: map<string, Spec>, names: array<string>, count: nat, order: seq<string>)
    returns (written: nat, order': seq<string>, failed: bool)
    requires count <= names.Length && MidRound(specs, order, order, [], names[..count])
    modifies names
    ensures Sound(specs, order')
    ensures failed ==> !AllBuildable(specs)
    ensures !failed ==> written <= count && MidRound(specs, order, order', names[..written], [])
    ensures !failed && written == count ==> order' == order
  {
    written, order', failed := 0, order, false;
    assert names[..][..0] == [] && names[..][0..count] == names[..count];
    for read := 0 to count
      invariant InPlace(specs, order, order', names[..], written, read, count)
    {
      var attempt := Visit(specs, names, written, read, count, order, order');
      match attempt {
      case Failed =>
        failed := true;
        return;
      case Waiting =>
        written := written + 1;
      case Built =>
        order' := order' + [names[read]];
      }
    }
    assert names[..][..written] == names[..written] && names[..][count..count] == [];
  }

  lemma NextRound(specs: map<string, Spec>, start: seq<string>, order: seq<string>, kept: seq<string>)
    requires MidRound(specs, start, order, kept, [])
    ensures MidRound(specs, order, order, [], kept)
    ensures start == order && kept != [] ==> Cyclic(GraphOf(specs))
    ensures kept == [] ==> AllBuildable(specs) && !Cyclic(GraphOf(specs))
  {
    assert kept + [] == kept && [] + kept == kept;
    if kept == [] {
      FinishedIsAcyclic(specs, order);
    } else if start == order {
      NoProgressIsCyclic(specs, order, kept);
    }
  }

  /** Splits the configured names: every concrete entry is built at once. */
  method BuildConcrete(specs: map<string, Spec>, names: seq<string>)
    returns (order: seq<string>, rest: seq<string>, failed: bool)
    requires Distinct(names) && SetOf(names) == specs.Keys
    ensures failed ==> !AllBuildable(specs)
    ensures Sound(specs, order)
    ensures !failed ==> MidRound(specs, order, order, [], rest)
  {
    hide Sound;
    order, rest, failed := [], [], false;
    NothingIsSound(specs);
    for i := 0 to |names|
      invariant Sound(specs, order) && Distinct(rest)
      invariant forall n :: n in order ==> n in names[..i] && specs[n].Concrete?
      invariant forall n :: n in rest ==> n in names[..i] && n in specs && !specs[n].Concrete?
      invariant forall n :: n in names[..i] ==> n in order || n in rest
    {
      var n := names[i];
      assert n in SetOf(names);
      assert names[..i + 1] == names[..i] + [n];
      assert n !in names[..i];
      if !specs[n].Concrete? {
        rest := rest + [n];
        continue;
      }
      if !specs[n].ok {
        failed := true;
        return;
      }
      AppendSound(specs, order, n);
      order := order + [n];
    }
    assert names[..|names|] == names;
    assert [] + rest == rest;
    assert forall n :: n in specs ==> n in SetOf(names);
  }

  /** buildAppenders, for the configured names in any order. With known references
      and succeeding factories it succeeds exactly on acyclic references, and what
      it returns is a dependency order of all entries. */
  method BuildAppenders(specs: map<string, Spec>, names: seq<string>) returns (r: Result)
    requires Distinct(names) && SetOf(names) == specs.Keys
    ensures r.Ok? <==> AllBuildable(specs) && !Cyclic(GraphOf(specs))
    ensures r.Ok? ==> DependencyOrder(GraphOf(specs), r.order) && SetOf(r.order) == specs.Keys
    ensures r.Err? ==> Sound(specs, r.closed)
    ensures r.Err? && r.error.Unresolved? ==> Cyclic(GraphOf(specs))
  {
    var order, rest, failed := BuildConcrete(specs, names);
    if failed {
      return Err(BadConcrete, order);
    }
    var composites := new string[|rest|](i requires 0 <= i < |rest| => rest[i]);
    var count := |rest|;
    assert composites[..count] == rest;
    assert rest == [] ==> [] + rest == rest + [];
    while count > 0
      invariant count <= composites.Length && MidRound(specs, order, order, [], composites[..count])
      invariant Sound(specs, order)
      decreases count
    {
      var written, order', bad := Round(specs, composites, count, order);
      if bad {
        return Err(BadComposite, order');
      }
      NextRound(specs, order, order', composites[..written]);
      if written == count {
        return Err(Unresolved(composites[..written]), order');
      }
      count, order := written, order';
    }
    NextRound(specs, order, order, composites[..0]);
    return Ok(order);
  }
}
