// The writer's record of used keys: one shared array cut into segments, one per open
// object, and a set per object for keys that no longer fit.
module KeyScopes {

  const KEYS := 32
  const DEPTH := 16

  /** The table that claimKey, beginObjectIf and endObject work on. */
  datatype Table = Table(
    keys: seq<string>, starts: seq<int>, counts: seq<int>, depth: nat, cursor: int, overflow: map<int, set<string>>)

  function OverflowAt(t: Table, d: int): set<string> {
    if d in t.overflow then t.overflow[d] else {}
  }

  /** The segments of the open objects follow each other from 0 to the cursor. */
  ghost predicate Layered(t: Table) {
    && |t.keys| == KEYS && |t.starts| == DEPTH && |t.counts| == DEPTH && t.depth < DEPTH
    && t.starts[0] == 0
    && (forall d :: 0 <= d <= t.depth ==> 0 <= t.starts[d] && 0 <= t.counts[d] && t.starts[d] + t.counts[d] <= t.cursor)
    && (forall d, e :: 0 <= d < e <= t.depth ==> t.starts[d] + t.counts[d] <= t.starts[e])
    && (forall d :: 0 <= d < t.depth ==> t.starts[d + 1] == t.starts[d] + t.counts[d])
    && t.cursor == t.starts[t.depth] + t.counts[t.depth] <= KEYS
    && (forall d :: d in t.overflow ==> 0 <= d <= t.depth)
  }

  function Segment(t: Table, d: int): seq<string>
    requires Layered(t) && 0 <= d <= t.depth
  {
    t.keys[t.starts[d]..t.starts[d] + t.counts[d]]
  }

  /** The keys used in the open object at depth d. */
  ghost predicate Holds(t: Table, d: int, names: set<string>)
    requires Layered(t) && 0 <= d <= t.depth
  {
    forall k :: k in names <==> k in Segment(t, d) || k in OverflowAt(t, d)
  }

  /** The table stands for one set of names per open object, innermost last. */
  ghost predicate Represents(t: Table, stack: seq<set<string>>) {
    && Layered(t)
    && |stack| == t.depth + 1
    && forall d :: 0 <= d <= t.depth ==> Holds(t, d, stack[d])
  }

  function Fresh(): Table {
    Table(seq(KEYS, _ => ""), seq(DEPTH, _ => 0), seq(DEPTH, _ => 0), 0, 0, map[])
  }

  lemma FreshIsEmpty(t: Table)
    requires |t.keys| == KEYS && |t.starts| == DEPTH && |t.counts| == DEPTH
    requires t.starts[0] == 0 && t.counts[0] == 0 && t.depth == 0 && t.cursor == 0 && t.overflow == map[]
    ensures Represents(t, [{}])
  {
    assert Holds(t, 0, {});
  }

  function Claimed(t: Table, key: string): Table
    requires Layered(t)
  {
    if t.cursor < KEYS then
      t.(keys := t.keys[t.cursor := key], counts := t.counts[t.depth := t.counts[t.depth] + 1], cursor := t.cursor + 1)
    else
      t.(overflow := t.overflow[t.depth := OverflowAt(t, t.depth) + {key}])
  }

  lemma OuterSegmentsStay(t: Table, t': Table, d: int)
    requires Layered(t) && Layered(t') && 0 <= d <= t.depth && d <= t'.depth
    requires t'.starts[d] == t.starts[d] && t'.counts[d] == t.counts[d]
    requires forall i :: 0 <= i < t.starts[d] + t.counts[d] ==> t'.keys[i] == t.keys[i]
    ensures Segment(t', d) == Segment(t, d)
  {
  }

  lemma ClaimedIsLayered(t: Table, key: string)
    requires Layered(t)
    ensures Layered(Claimed(t, key))
  {
  }

  lemma ClaimedSegments(t: Table, key: string, d: int)
    requires Layered(t) && 0 <= d <= t.depth
    ensures Layered(Claimed(t, key))
    ensures Segment(Claimed(t, key), d) == Segment(t, d) + if d == t.depth && t.cursor < KEYS then [key] else []
  {
    ClaimedIsLayered(t, key);
    if d < t.depth || t.cursor == KEYS {
      OuterSegmentsStay(t, Claimed(t, key), d);
    }
  }

  /** A claim adds the key to the innermost object only. */
  lemma ClaimAdds(t: Table, stack: seq<set<string>>, key: string)
    requires Represents(t, stack)
    ensures Represents(Claimed(t, key), stack[t.depth := stack[t.depth] + {key}])
  {
    hide Layered, Segment;
    var t', stack' := Claimed(t, key), stack[t.depth := stack[t.depth] + {key}];
    ClaimedSegments(t, key, t.depth);
    forall d | 0 <= d <= t.depth ensures Holds(t', d, stack'[d]) {
      assert Holds(t, d, stack[d]);
      ClaimedSegments(t, key, d);
    }
  }

  function Pushed(t: Table): Table
    requires Layered(t) && t.depth + 1 < DEPTH
  {
    t.(depth := t.depth + 1, starts := t.starts[t.depth + 1 := t.cursor], counts := t.counts[t.depth + 1 := 0])
  }

  lemma PushOpens(t: Table, stack: seq<set<string>>)
    requires Represents(t, stack) && t.depth + 1 < DEPTH
    ensures Represents(Pushed(t), stack + [{}])
  {
    var t' := Pushed(t);
    assert Layered(t');
    forall d | 0 <= d <= t'.depth ensures Holds(t', d, (stack + [{}])[d]) {
      if d <= t.depth {
        assert Holds(t, d, stack[d]);
        OuterSegmentsStay(t, t', d);
      }
    }
  }

  function Popped(t: Table): Table
    requires Layered(t) && t.depth > 0
  {
    Table(t.keys, t.starts, t.counts[t.depth := 0], t.depth - 1, t.starts[t.depth], t.overflow - {t.depth})
  }

  /** Closing an object forgets its keys, wherever they were stored, and no others. */
  lemma PopCloses(t: Table, stack: seq<set<string>>)
    requires Represents(t, stack) && t.depth > 0
    ensures Represents(Popped(t), stack[..t.depth])
  {
    var t' := Popped(t);
    assert t.starts[t.depth - 1 + 1] == t.starts[t.depth - 1] + t.counts[t.depth - 1];
    assert Layered(t');
    forall d | 0 <= d <= t'.depth ensures Holds(t', d, stack[..t.depth][d]) {
      assert Holds(t, d, stack[d]);
      OuterSegmentsStay(t, t', d);
    }
  }
}
