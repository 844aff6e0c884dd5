// Building configured filters: a depth-first construction that remembers what it
// has built and detects references back into the names being built.
module ConfigFilters {
  import opened Optional
  import opened Text
  import opened References

  /** ok: the filter type is known and its factory succeeds. */
  datatype Spec = Spec(refs: seq<string>, ok: bool)

  /** One factory invocation. A filter is identified by the position of the
      invocation that made it, so nested lists the positions of the nested filters. */
  datatype Call = Call(name: string, nested: seq<nat>)

  datatype Error = CyclicRefs(name: string) | Unknown(name: string) | BlankRef(owner: string) | BadFilter(name: string)

  datatype Outcome = Ok(filter: nat) | Err(error: Error)

  function RefsOf(spec: Spec): set<string> {
    set r | r in spec.refs :: TrimSpace(r)
  }

  function GraphOf(specs: map<string, Spec>): Graph {
    map n | n in specs :: RefsOf(specs[n])
  }

  /** Nothing but a cycle can keep the filter from being built. */
  predicate Buildable(specs: map<string, Spec>, spec: Spec) {
    spec.ok && forall r :: r in RefsOf(spec) ==> r != "" && r in specs
  }

  ghost predicate AllBuildable(specs: map<string, Spec>) {
    forall n :: n in specs ==> Buildable(specs, specs[n])
  }

  /** The error names something that is wrong with the configuration. */
  ghost predicate Justified(specs: map<string, Spec>, error: Error) {
    match error
    case CyclicRefs(_) => Cyclic(GraphOf(specs))
    case Unknown(name) => name !in specs && exists m :: Edge(GraphOf(specs), m, name)
    case BlankRef(owner) => owner in specs && "" in RefsOf(specs[owner])
    case BadFilter(name) => name in specs && !specs[name].ok
  }

  function Names(calls: seq<Call>): (names: seq<string>)
    ensures |names| == |calls| && forall i :: 0 <= i < |calls| ==> names[i] == calls[i].name
  {
    seq(|calls|, i requires 0 <= i < |calls| => calls[i].name)
  }

  /** nested holds the filters the first references stand for, in their order. */
  ghost predicate Resolves(filters: map<string, nat>, refs: seq<string>, nested: seq<nat>) {
    && |nested| <= |refs|
    && forall k :: 0 <= k < |nested| ==> TrimSpace(refs[k]) in filters && nested[k] == filters[TrimSpace(refs[k])]
  }

  ghost predicate CallFits(specs: map<string, Spec>, filters: map<string, nat>, call: Call) {
    && call.name in specs
    && Buildable(specs, specs[call.name])
    && |call.nested| == |specs[call.name].refs|
    && Resolves(filters, specs[call.name].refs, call.nested)
  }

  /** The remembered filters and the factory invocations are the same thing: each name
      was built once, after everything it refers to, from the filters of its references. */
  ghost predicate Consistent(specs: map<string, Spec>, filters: map<string, nat>, calls: seq<Call>) {
    && DependencyOrder(GraphOf(specs), Names(calls))
    && (forall n :: n in filters ==> filters[n] < |calls| && calls[filters[n]].name == n)
    && (forall i :: 0 <= i < |calls| ==> calls[i].name in filters && filters[calls[i].name] == i)
    && (forall i :: 0 <= i < |calls| ==> CallFits(specs, filters, calls[i]))
  }

  /** Later states keep every filter and every invocation. */
  ghost predicate Extends(filters: map<string, nat>, calls: seq<Call>, filters': map<string, nat>, calls': seq<Call>) {
    && calls <= calls'
    && forall n :: n in filters ==> n in filters' && filters'[n] == filters[n]
  }

  lemma ExtendsIsTransitive(
    f0: map<string, nat>, c0: seq<Call>, f1: map<string, nat>, c1: seq<Call>, f2: map<string, nat>, c2: seq<Call>)
    requires Extends(f0, c0, f1, c1) && Extends(f1, c1, f2, c2)
    ensures Extends(f0, c0, f2, c2)
  {
  }

  lemma InvokeKeepsOrder(specs: map<string, Spec>, filters: map<string, nat>, calls: seq<Call>, call: Call)
    requires Consistent(specs, filters, calls) && call.name !in filters
    requires CallFits(specs, filters, call)
    ensures DependencyOrder(GraphOf(specs), Names(calls + [call]))
  {
    var g, order, order' := GraphOf(specs), Names(calls), Names(calls + [call]);
    assert order' == order + [call.name];
    forall i | 0 <= i < |order'|
      ensures forall r :: r in g[order'[i]] ==> r in order'[..i]
    {
      assert order'[..i] == order[..i];
      if i == |order| {
        forall r | r in g[call.name] ensures r in order'[..i] {
          var k :| 0 <= k < |specs[call.name].refs| && r == TrimSpace(specs[call.name].refs[k]);
          assert order[filters[r]] == r;
        }
      }
    }
  }

  lemma InvokeIsConsistent(specs: map<string, Spec>, filters: map<string, nat>, calls: seq<Call>, call: Call)
    requires Consistent(specs, filters, calls) && call.name !in filters
    requires CallFits(specs, filters, call)
    ensures Consistent(specs, filters[call.name := |calls|], calls + [call])
  {
    var filters', calls' := filters[call.name := |calls|], calls + [call];
    InvokeKeepsOrder(specs, filters, calls, call);
    forall i | 0 <= i < |calls'| ensures CallFits(specs, filters', calls'[i]) {
      var c := calls'[i];
      assert CallFits(specs, filters, c);
    }
  }

  /** The names on the stack refer to each other in turn, the last one to name. */
  ghost predicate Reaches(specs: map<string, Spec>, stack: seq<string>, name: string) {
    IsPath(GraphOf(specs), stack + [name])
  }

  ghost predicate Visiting(visiting: set<string>, stack: seq<string>) {
    forall n :: n in visiting <==> n in stack
  }

  lemma BackReferenceIsCyclic(specs: map<string, Spec>, stack: seq<string>, name: string)
    requires Reaches(specs, stack, name) && name in stack
    ensures Cyclic(GraphOf(specs))
  {
    var i :| 0 <= i < |stack| && stack[i] == name;
    var p := stack + [name];
    assert p[i] == p[|stack|];
    Slice(GraphOf(specs), p, i, |stack|);
  }

  lemma BlankIsWrong(specs: map<string, Spec>, owner: string, k: nat)
    requires owner in specs && k < |specs[owner].refs| && TrimSpace(specs[owner].refs[k]) == ""
    ensures Justified(specs, BlankRef(owner))
  {
    assert TrimSpace(specs[owner].refs[k]) in RefsOf(specs[owner]);
  }

  lemma ReferenceExtends(specs: map<string, Spec>, stack: seq<string>, name: string, ref: string)
    requires Reaches(specs, stack, name) && name in specs && ref in specs[name].refs
    ensures Reaches(specs, stack + [name], TrimSpace(ref))
    ensures Edge(GraphOf(specs), name, TrimSpace(ref))
  {
    Extend(GraphOf(specs), stack + [name], TrimSpace(ref));
  }

  /** A resolved reference joins the ones before it, which later builds leave alone. */
  lemma ResolveNext(
    filters: map<string, nat>, calls: seq<Call>, filters': map<string, nat>, calls': seq<Call>,
    refs: seq<string>, nested: seq<nat>)
    requires Extends(filters, calls, filters', calls') && |nested| < |refs|
    requires Resolves(filters, refs, nested) && NoBlank(refs[..|nested|])
    requires TrimSpace(refs[|nested|]) != "" && TrimSpace(refs[|nested|]) in filters'
    ensures Resolves(filters', refs, nested + [filters'[TrimSpace(refs[|nested|])]])
    ensures NoBlank(refs[..|nested| + 1])
  {
  }

  lemma AllResolvedFits(specs: map<string, Spec>, filters: map<string, nat>, calls: seq<Call>, name: string,
      nested: seq<nat>)
    requires Consistent(specs, filters, calls) && name in specs && |nested| == |specs[name].refs|
    requires Resolves(filters, specs[name].refs, nested) && NoBlank(specs[name].refs[..|nested|])
    ensures specs[name].ok ==> CallFits(specs, filters, Call(name, nested))
  {
    var refs := specs[name].refs;
    assert refs[..|nested|] == refs;
    forall r | r in RefsOf(specs[name]) ensures r != "" && r in specs {
      var k :| 0 <= k < |refs| && r == TrimSpace(refs[k]);
      assert r in filters && CallFits(specs, filters, calls[filters[r]]);
    }
  }

  class Builder {
    const specs: map<string, Spec>
    var filters: map<string, nat>
    var visiting: set<string>
    var calls: seq<Call>

    ghost predicate Valid()
      reads this
    {
      && Consistent(specs, filters, calls)
      && visiting <= specs.Keys
      && visiting !! filters.Keys
    }

    constructor (specs: map<string, Spec>)
      ensures Valid() && this.specs == specs && filters == map[] && visiting == {} && calls == []
    {
      this.specs, filters, visiting, calls := specs, map[], {}, [];
    }

    /** Invokes the factory of a name whose references are all built. */
    method Invoke(name: string, nested: seq<nat>) returns (r: Outcome)
      requires Valid() && name in specs && name in visiting
      requires CallFits(specs, filters, Call(name, nested)) <== specs[name].ok
      modifies `filters, `calls, `visiting
      ensures Valid() && visiting == old(visiting) - {name}
      ensures Extends(old(filters), old(calls), filters, calls)
      ensures r.Err? <==> !specs[name].ok
      ensures r.Err? ==> Justified(specs, r.error) && filters == old(filters) && calls == old(calls)
      ensures r.Ok? ==> filters == old(filters)[name := r.filter] && calls == old(calls) + [Call(name, nested)]
    {
      if !specs[name].ok {
        visiting := visiting - {name};
        return Err(BadFilter(name));
      }
      InvokeIsConsistent(specs, filters, calls, Call(name, nested));
      r := Ok(|calls|);
      filters, calls, visiting := filters[name := |calls|], calls + [Call(name, nested)], visiting - {name};
    }

    /** buildFilter: the remembered filter, or a new one after its references. The
        names being visited are the same when it returns as when it was called. */
    method Build(name: string, ghost stack: seq<string>) returns (r: Outcome)
      requires Valid() && Visiting(visiting, stack) && Reaches(specs, stack, name)
      requires stack == [] ==> name in specs
      modifies `filters, `calls, `visiting
      ensures Valid() && visiting == old(visiting)
      ensures Extends(old(filters), old(calls), filters, calls)
      ensures r.Ok? ==> name in filters && filters[name] == r.filter
      ensures r.Err? ==> Justified(specs, r.error)
      decreases specs.Keys - visiting, 1, 0
    {
      if name in filters {
        return Ok(filters[name]);
      }
      if name in visiting {
        BackReferenceIsCyclic(specs, stack, name);
        return Err(CyclicRefs(name));
      }
      if name !in specs {
        assert Edge(GraphOf(specs), (stack + [name])[|stack| - 1], (stack + [name])[|stack|]);
        return Err(Unknown(name));
      }
      visiting := visiting + {name};
      assert specs.Keys - visiting < specs.Keys - old(visiting);
      var error, nested := ResolveNested(name, stack);
      if error.Some? {
        visiting := visiting - {name};
        return Err(error.value);
      }
      r := Invoke(name, nested);
    }

    /** resolveNestedFilters: builds the references of a name in their order. */
    method ResolveNested(name: string, ghost stack: seq<string>) returns (error: Option<Error>, nested: seq<nat>)
      requires Valid() && name in specs && name in visiting
      requires Visiting(visiting, stack + [name]) && Reaches(specs, stack, name)
      modifies `filters, `calls, `visiting
      ensures Valid() && visiting == old(visiting)
      ensures Extends(old(filters), old(calls), filters, calls)
      ensures error.Some? ==> Justified(specs, error.value)
      ensures error.None? && specs[name].ok ==> CallFits(specs, filters, Call(name, nested))
      decreases specs.Keys - visiting, 2, 0
    {
      hide Visiting, Reaches, Justified, CallFits;
      var refs := specs[name].refs;
      nested := [];
      for k := 0 to |refs|
        invariant Valid() && visiting == old(visiting) && |nested| == k
        invariant Extends(old(filters), old(calls), filters, calls)
        invariant Resolves(filters, refs, nested) && NoBlank(refs[..k])
      {
        var ref := TrimSpace(refs[k]);
        if ref == "" {
          BlankIsWrong(specs, name, k);
          return Some(BlankRef(name)), nested;
        }
        ReferenceExtends(specs, stack, name, refs[k]);
        ghost var f, c := filters, calls;
        var r := Build(ref, stack + [name]);
        ExtendsIsTransitive(old(filters), old(calls), f, c, filters, calls);
        if r.Err? {
          return Some(r.error), nested;
        }
        ResolveNext(f, c, filters, calls, refs, nested);
        nested := nested + [r.filter];
      }
      AllResolvedFits(specs, filters, calls, name, nested);
      return None, nested;
    }

    /** buildFilters, for the configured names in any order: it succeeds exactly when
        every reference exists, every factory succeeds and no filter refers back to
        itself, and then it has invoked one factory per name, references first. */
    method BuildFilters(names: seq<string>) returns (error: Option<Error>)
      requires filters == map[] && visiting == {} && calls == []
      requires forall n :: n in names <==> n in specs
      modifies `filters, `calls, `visiting
      ensures error.None? <==> AllBuildable(specs) && !Cyclic(GraphOf(specs))
      ensures Consistent(specs, filters, calls) && visiting == {}
      ensures error.None? ==> filters.Keys == specs.Keys
      ensures error.Some? ==> Justified(specs, error.value)
    {
      for k := 0 to |names|
        invariant Valid() && visiting == {}
        invariant forall n :: n in names[..k] ==> n in filters
      {
        ghost var f, c := filters, calls;
        var r := Build(names[k], []);
        if r.Err? {
          JustifiedIsFatal(specs, r.error);
          return Some(r.error);
        }
        assert names[..k + 1] == names[..k] + [names[k]];
      }
      assert names[..|names|] == names;
      AllBuilt(specs, filters, calls);
      return None;
    }
  }

  lemma JustifiedIsFatal(specs: map<string, Spec>, error: Error)
    requires Justified(specs, error)
    ensures !AllBuildable(specs) || Cyclic(GraphOf(specs))
  {
    match error
    case Unknown(name) =>
      var m :| Edge(GraphOf(specs), m, name);
      assert !Buildable(specs, specs[m]);
    case BlankRef(owner) =>
      assert !Buildable(specs, specs[owner]);
    case BadFilter(name) =>
      assert !Buildable(specs, specs[name]);
    case CyclicRefs(_) =>
  }

  lemma AllBuilt(specs: map<string, Spec>, filters: map<string, nat>, calls: seq<Call>)
    requires Consistent(specs, filters, calls) && forall n :: n in specs ==> n in filters
    ensures AllBuildable(specs) && !Cyclic(GraphOf(specs)) && filters.Keys == specs.Keys
  {
    var order := Names(calls);
    forall n | n in filters ensures n in specs && Buildable(specs, specs[n]) && n in order {
      assert CallFits(specs, filters, calls[filters[n]]);
      assert order[filters[n]] == n;
    }
    OrderedIsAcyclic(GraphOf(specs), order);
  }

  // ----- What was built

  ghost predicate Grounded(calls: seq<Call>) {
    forall i, k :: 0 <= i < |calls| && 0 <= k < |calls[i].nested| ==> calls[i].nested[k] < i
  }

  /** Children are built before their parents. */
  lemma ConsistentIsGrounded(specs: map<string, Spec>, filters: map<string, nat>, calls: seq<Call>)
    requires Consistent(specs, filters, calls)
    ensures Grounded(calls)
  {
    forall i, k | 0 <= i < |calls| && 0 <= k < |calls[i].nested| ensures calls[i].nested[k] < i {
      assert CallFits(specs, filters, calls[i]);
      var r := TrimSpace(specs[calls[i].name].refs[k]);
      assert r in GraphOf(specs)[Names(calls)[i]];
      var j :| 0 <= j < i && Names(calls)[j] == r;
    }
  }

  /** A filter with everything below it. */
  datatype Tree = Tree(name: string, nested: seq<Tree>)

  ghost function TreeOf(calls: seq<Call>, i: nat): Tree
    requires Grounded(calls) && i < |calls|
  {
    var nested := calls[i].nested;
    Tree(calls[i].name, seq(|nested|, k requires 0 <= k < |nested| => TreeOf(calls, nested[k])))
  }

  /** However the names were ordered, a name stands for the same tree of filters. */
  lemma {:induction false} OrderDoesNotMatter(
    specs: map<string, Spec>, name: string,
    f0: map<string, nat>, c0: seq<Call>, f1: map<string, nat>, c1: seq<Call>)
    requires Consistent(specs, f0, c0) && Consistent(specs, f1, c1) && Grounded(c0) && Grounded(c1)
    requires name in f0 && name in f1
    ensures TreeOf(c0, f0[name]) == TreeOf(c1, f1[name])
    decreases f0[name]
  {
    var a, b := c0[f0[name]], c1[f1[name]];
    assert CallFits(specs, f0, a) && CallFits(specs, f1, b);
    forall k | 0 <= k < |a.nested|
      ensures TreeOf(c0, a.nested[k]) == TreeOf(c1, b.nested[k])
    {
      OrderDoesNotMatter(specs, TrimSpace(specs[name].refs[k]), f0, c0, f1, c1);
    }
    assert TreeOf(c0, f0[name]).nested == TreeOf(c1, f1[name]).nested;
  }

  /** Every configured filter's factory runs exactly once. */
  lemma InvokedOnce(specs: map<string, Spec>, filters: map<string, nat>, calls: seq<Call>, name: string)
    requires Consistent(specs, filters, calls) && filters.Keys == specs.Keys && name in specs
    ensures exists i :: 0 <= i < |calls| && calls[i].name == name &&
              forall j :: 0 <= j < |calls| && calls[j].name == name ==> j == i
  {
    assert calls[filters[name]].name == name;
  }

  predicate NoBlank(refs: seq<string>) {
    forall r :: r in refs ==> TrimSpace(r) != ""
  }
}
