// Reference graphs: cycles, dependency orders, and sets that cannot be ordered.
module References {
  import opened Sequences

  type Graph = map<string, set<string>>

  ghost predicate Edge(g: Graph, a: string, b: string) {
    a in g && b in g[a]
  }

  ghost predicate IsPath(g: Graph, p: seq<string>) {
    |p| >= 1 && forall i :: 0 <= i < |p| - 1 ==> Edge(g, p[i], p[i + 1])
  }

  ghost predicate Cyclic(g: Graph) {
    exists p :: |p| >= 2 && IsPath(g, p) && p[0] == p[|p| - 1]
  }

  /** Every name comes after all names it refers to. */
  ghost predicate DependencyOrder(g: Graph, order: seq<string>) {
    && Distinct(order)
    && forall i :: 0 <= i < |order| ==> order[i] in g && forall r :: r in g[order[i]] ==> r in order[..i]
  }

  lemma PathDescends(g: Graph, order: seq<string>, p: seq<string>, i: nat)
    requires DependencyOrder(g, order) && IsPath(g, p)
    requires i < |order| && order[i] == p[0]
    ensures exists j :: 0 <= j <= i && order[j] == p[|p| - 1] && (|p| >= 2 ==> j < i)
  {
    if |p| >= 2 {
      assert Edge(g, p[0], p[1]);
      var k :| 0 <= k < |order[..i]| && order[..i][k] == p[1];
      assert order[k] == p[1];
      var q := p[1..];
      forall m | 0 <= m < |q| - 1 ensures Edge(g, q[m], q[m + 1]) {
        assert Edge(g, p[m + 1], p[m + 2]);
      }
      PathDescends(g, order, q, k);
    }
  }

  /** A graph all of whose names can be put in dependency order has no cycle. */
  lemma OrderedIsAcyclic(g: Graph, order: seq<string>)
    requires DependencyOrder(g, order) && forall n :: n in g ==> n in order
    ensures !Cyclic(g)
  {
    if p :| |p| >= 2 && IsPath(g, p) && p[0] == p[|p| - 1] {
      assert Edge(g, p[0], p[1]);
      var i :| 0 <= i < |order| && order[i] == p[0];
      PathDescends(g, order, p, i);
    }
  }

  lemma Extend(g: Graph, p: seq<string>, n: string)
    requires IsPath(g, p) && Edge(g, p[|p| - 1], n)
    ensures IsPath(g, p + [n])
  {
  }

  ghost predicate RefersInto(g: Graph, n: string, names: set<string>) {
    exists r :: r in names && Edge(g, n, r)
  }

  ghost predicate Stuck(g: Graph, names: set<string>) {
    forall n :: n in names ==> RefersInto(g, n, names)
  }

  /** A walk of any length that never leaves a set in which every name has a successor. */
  lemma {:induction false} Walk(g: Graph, names: set<string>, start: string, k: nat) returns (p: seq<string>)
    requires start in names && Stuck(g, names)
    ensures |p| == k + 1 && IsPath(g, p) && forall x :: x in p ==> x in names
  {
    if k == 0 {
      p := [start];
    } else {
      var q := Walk(g, names, start, k - 1);
      var last := q[|q| - 1];
      assert last in q && RefersInto(g, last, names);
      var r :| r in names && Edge(g, last, r);
      Extend(g, q, r);
      p := q + [r];
    }
  }

  lemma {:induction false} Pigeonhole(p: seq<string>, names: set<string>)
    requires |p| > |names| && forall x :: x in p ==> x in names
    ensures !Distinct(p)
  {
    var last := p[|p| - 1];
    var init := p[..|p| - 1];
    assert last in names;
    if last in init {
      var i :| 0 <= i < |init| && init[i] == last;
      assert p[i] == p[|p| - 1];
    } else {
      Pigeonhole(init, names - {last});
      var i, j :| 0 <= i < j < |init| && init[i] == init[j];
      assert p[i] == p[j];
    }
  }

  lemma SliceIsPath(g: Graph, p: seq<string>, i: nat, j: nat)
    requires IsPath(g, p) && i < j < |p|
    ensures IsPath(g, p[i..j + 1])
  {
    hide Edge;
    var q := p[i..j + 1];
    forall m | 0 <= m < |q| - 1 ensures Edge(g, q[m], q[m + 1]) {
      assert q[m] == p[i + m] && q[m + 1] == p[i + m + 1];
      assert Edge(g, p[i + m], p[i + m + 1]);
    }
  }

  lemma Slice(g: Graph, p: seq<string>, i: nat, j: nat)
    requires IsPath(g, p) && i < j < |p| && p[i] == p[j]
    ensures Cyclic(g)
  {
    hide IsPath, Cyclic;
    SliceIsPath(g, p, i, j);
    LoopIsCycle(g, p[i..j + 1]);
  }

  lemma LoopIsCycle(g: Graph, q: seq<string>)
    requires |q| >= 2 && IsPath(g, q) && q[0] == q[|q| - 1]
    ensures Cyclic(g)
  {
  }

  /** When every name of a non-empty set refers to a name of the set, there is a cycle. */
  lemma StuckIsCyclic(g: Graph, names: set<string>)
    requires names != {} && Stuck(g, names)
    ensures Cyclic(g)
  {
    var start :| start in names;
    var p := Walk(g, names, start, |names|);
    Pigeonhole(p, names);
    var i, j :| 0 <= i < j < |p| && p[i] == p[j];
    Slice(g, p, i, j);
  }
}
