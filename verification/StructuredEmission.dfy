// Writing a compiled tree of attribute paths through the structured writer.
module StructuredEmission {
  import opened Text
  import opened Json
  import opened KeyScopes
  import opened OpenObjects
  import W = StructuredWriter
  import P = StructuredPaths

  /** What writing one node, or one level of nodes, adds to the open objects. */
  function AddNode(layout: W.Layout, frames: seq<Frame>, n: P.Node): (r: seq<Frame>)
    requires frames != []
    ensures |r| == |frames|
    decreases n, 0
  {
    match n
    case Leaf(name, path, value) => W.Add(layout, frames, path, name, Scalar(value))
    case Branch(name, path, children) =>
      if W.CanBegin(layout, frames, path, name)
      then Pop(AddNodes(layout, W.Begin(layout, frames, path, name), children))
      else frames
  }

  function AddNodes(layout: W.Layout, frames: seq<Frame>, nodes: seq<P.Node>): (r: seq<Frame>)
    requires frames != []
    ensures |r| == |frames|
    decreases nodes
  {
    if nodes == [] then frames else AddNodes(layout, AddNode(layout, frames, nodes[0]), nodes[1..])
  }

  /** addStructuredPaths. */
  method AddStructuredPaths(w: W.Writer, nodes: seq<P.Node>)
    requires w.Valid()
    modifies w, w.keys, w.scopeStarts, w.scopeCounts
    ensures w.Valid() && w.frames == AddNodes(w.layout, old(w.frames), nodes)
    decreases nodes
  {
    for i := 0 to |nodes|
      invariant w.Valid()
      invariant AddNodes(w.layout, w.frames, nodes[i..]) == AddNodes(w.layout, old(w.frames), nodes)
    {
      assert nodes[i..][0] == nodes[i] && nodes[i..][1..] == nodes[i + 1..];
      AddStructuredNode(w, nodes[i]);
    }
  }

  method AddStructuredNode(w: W.Writer, n: P.Node)
    requires w.Valid()
    modifies w, w.keys, w.scopeStarts, w.scopeCounts
    ensures w.Valid() && w.frames == AddNode(w.layout, old(w.frames), n)
    decreases n, 0
  {
    hide Holds, Written, OpenObjects.Unambiguous, TrimSpace;
    match n
    case Leaf(name, path, value) =>
      w.AddPath(path, name, Scalar(value));
    case Branch(name, path, children) =>
      var ok := w.BeginObject(path, name);
      if ok {
        AddStructuredPaths(w, children);
        w.EndObject();
      }
  }

  // ----- Nothing is lost when nothing is filtered

  /** The tree as JSON members. */
  function MemberOf(n: P.Node): Member
    decreases n, 0
  {
    match n
    case Leaf(name, _, value) => Member(name, Scalar(value))
    case Branch(name, _, children) => Member(name, Object(MembersOf(children)))
  }

  function MembersOf(nodes: seq<P.Node>): seq<Member> {
    if nodes == [] then [] else [MemberOf(nodes[0])] + MembersOf(nodes[1..])
  }

  predicate Unfiltered(layout: W.Layout) {
    layout.only == {} && layout.exclude == {} && layout.rename == map[]
  }

  function PutAll(frames: seq<Frame>, ms: seq<Member>): seq<Frame>
    requires frames != []
  {
    frames[..|frames| - 1] + [Innermost(frames).(members := Innermost(frames).members + ms)]
  }

  /** No path of the tree is too long for the objects that are already open. */
  ghost predicate Fits(nodes: seq<P.Node>, open: nat) {
    forall e :: e in P.Flatten(nodes) ==> |e.segs| + open <= DEPTH + 1
  }

  lemma FitsParts(nodes: seq<P.Node>, open: nat)
    requires nodes != [] && Fits(nodes, open)
    ensures Fits([nodes[0]], open) && Fits(nodes[1..], open)
  {
    assert P.Flatten([nodes[0]]) == P.FlattenNode(nodes[0]);
  }

  lemma FitsBelow(n: P.Node, open: nat)
    requires n.Branch? && P.NodeOk(n) && Fits([n], open)
    ensures open < DEPTH && Fits(n.children, open + 1)
  {
    var inner := P.Flatten(n.children);
    var outer := P.Under(n.name, inner);
    assert P.Flatten([n]) == outer;
    P.BranchIsInhabited(n.children);
    forall i | 0 <= i < |inner| ensures |inner[i].segs| + 1 + open <= DEPTH + 1 {
      assert outer[i] in outer;
    }
    assert inner[0] in inner;
    P.HeadsAreNames(n.children, inner[0]);
  }

  lemma {:induction false} NodeIsWritten(layout: W.Layout, frames: seq<Frame>, n: P.Node)
    requires Unfiltered(layout) && frames != [] && P.NodeOk(n) && Fits([n], |frames|)
    requires n.name !in TopNames(frames)
    ensures AddNode(layout, frames, n) == Put(frames, MemberOf(n))
    decreases n, 0
  {
    match n
    case Leaf(name, path, value) =>
      TrimSpaceIsTrimmed(name);
    case Branch(name, path, children) =>
      FitsBelow(n, |frames|);
      var inside := Push(frames, name);
      NodesAreWritten(layout, inside, children);
      var all := PutAll(inside, MembersOf(children));
      assert all[..|all| - 1] == frames;
      assert Innermost(all) == Frame(name, MembersOf(children));
  }

  lemma NamesStayApart(frames: seq<Frame>, nodes: seq<P.Node>)
    requires frames != [] && nodes != [] && P.WellFormed(nodes) && P.NamesOf(nodes) !! TopNames(frames)
    ensures P.NodeOk(nodes[0]) && P.WellFormed(nodes[1..])
    ensures nodes[0].name !in TopNames(frames)
    ensures P.NamesOf(nodes[1..]) !! TopNames(Put(frames, MemberOf(nodes[0])))
  {
    assert nodes[0] in nodes && P.NamesOf(nodes[1..]) <= P.NamesOf(nodes);
    NamesGrow(Innermost(frames).members, MemberOf(nodes[0]));
  }

  lemma PutAllAfterPut(frames: seq<Frame>, m: Member, ms: seq<Member>)
    requires frames != []
    ensures PutAll(Put(frames, m), ms) == PutAll(frames, [m] + ms)
  {
    var frames' := Put(frames, m);
    assert frames'[..|frames'| - 1] == frames[..|frames| - 1];
    assert Innermost(frames).members + [m] + ms == Innermost(frames).members + ([m] + ms);
  }

  /** Without filters, renames or taken names, exactly the tree is written: the writer
      never meets its depth limit. */
  lemma {:induction false} NodesAreWritten(layout: W.Layout, frames: seq<Frame>, nodes: seq<P.Node>)
    requires Unfiltered(layout) && frames != [] && P.WellFormed(nodes) && Fits(nodes, |frames|)
    requires P.NamesOf(nodes) !! TopNames(frames)
    ensures AddNodes(layout, frames, nodes) == PutAll(frames, MembersOf(nodes))
    decreases nodes
  {
    hide AddNode, MemberOf, Fits, P.WellFormed, P.NamesOf, TopNames;
    if nodes != [] {
      var m := MemberOf(nodes[0]);
      FitsParts(nodes, |frames|);
      NamesStayApart(frames, nodes);
      NodeIsWritten(layout, frames, nodes[0]);
      NodesAreWritten(layout, Put(frames, m), nodes[1..]);
      PutAllAfterPut(frames, m, MembersOf(nodes[1..]));
    } else {
      assert Innermost(frames).members + [] == Innermost(frames).members;
    }
  }

  // ----- From attributes to text and back

  /** A value and the names that lead to it. */
  datatype Found = Found(segs: seq<string>, text: string)

  function FoundUnder(name: string, fs: seq<Found>): seq<Found> {
    seq(|fs|, i requires 0 <= i < |fs| => fs[i].(segs := [name] + fs[i].segs))
  }

  /** All scalars of an object, in the order of its text. */
  function Scalars(ms: seq<Member>): seq<Found> {
    if ms == [] then []
    else ScalarsOf(ms[0]) + Scalars(ms[1..])
  }

  function ScalarsOf(m: Member): seq<Found>
    decreases m, 0
  {
    match m.value
    case Scalar(text) => [Found([m.name], text)]
    case Strings(_) => []
    case Object(ms) => FoundUnder(m.name, Scalars(ms))
  }

  function Plain(es: seq<P.Entry>): seq<Found> {
    seq(|es|, i requires 0 <= i < |es| => Found(es[i].segs, es[i].value))
  }

  lemma PlainAppend(a: seq<P.Entry>, b: seq<P.Entry>)
    ensures Plain(a + b) == Plain(a) + Plain(b)
  {
  }

  lemma PlainUnder(name: string, es: seq<P.Entry>)
    ensures Plain(P.Under(name, es)) == FoundUnder(name, Plain(es))
  {
  }

  lemma {:induction false} ScalarsAreEntries(nodes: seq<P.Node>)
    ensures Scalars(MembersOf(nodes)) == Plain(P.Flatten(nodes))
    decreases nodes
  {
    if nodes != [] {
      ScalarsAreEntries(nodes[1..]);
      PlainAppend(P.FlattenNode(nodes[0]), P.Flatten(nodes[1..]));
      match nodes[0]
      case Leaf(_, _, _) =>
      case Branch(name, _, children) =>
        ScalarsAreEntries(children);
        PlainUnder(name, P.Flatten(children));
    }
  }

  /** Usable attributes survive compiling, writing and reading back: the text is one
      object whose scalars are a rearrangement of the paths and values asked for. */
  lemma AttributesReadBack(layout: W.Layout, nodes: seq<P.Node>, es: seq<P.Entry>)
    requires Unfiltered(layout) && P.Holds(nodes, es) && P.Usable(es)
    ensures var frames, ms := AddNodes(layout, [Frame("", [])], nodes), MembersOf(nodes);
            && |frames| == 1
            && Parse([Open] + Written(frames) + [Close]) == Parsed(Object(ms), [])
            && Scalars(ms) == Plain(P.Flatten(nodes))
            && multiset(P.Flatten(nodes)) == multiset(es)
  {
    var start, ms := [Frame("", [])], MembersOf(nodes);
    forall e | e in P.Flatten(nodes) ensures |e.segs| + 1 <= DEPTH + 1 {
      assert e in multiset(es) && e in es;
      var i :| 0 <= i < |es| && es[i] == e;
      assert P.SegmentsOk(es[i]);
    }
    assert Fits(nodes, |start|);
    assert TopNames(start) == {};
    NodesAreWritten(layout, start, nodes);
    var frames := AddNodes(layout, start, nodes);
    assert [] + ms == ms;
    WrittenReadsBack(frames, []);
    assert [Open] + Written(frames) + [Close] + [] == [Open] + Written(frames) + [Close];
    ScalarsAreEntries(nodes);
  }
}
