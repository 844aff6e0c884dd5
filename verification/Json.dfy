// JSON objects as trees and as tokens (sections 4 and 5 of RFC 8259).
module Json {

  /** A scalar is kept as its encoded text; strings is an array of encoded strings. */
  datatype Value = Scalar(text: string) | Strings(items: seq<string>) | Object(members: seq<Member>)

  datatype Member = Member(name: string, value: Value)

  /** Key stands for the quoted name and the colon after it. */
  datatype Token = Open | Close | Comma | Key(name: string) | Literal(text: string) | StringList(items: seq<string>)

  function Names(ms: seq<Member>): set<string> {
    set i | 0 <= i < |ms| :: ms[i].name
  }

  /** No object, at any depth, holds a name twice. */
  predicate Unambiguous(v: Value) {
    v.Object? ==> UnambiguousMembers(v.members)
  }

  predicate UnambiguousMembers(ms: seq<Member>) {
    && (forall i, j :: 0 <= i < j < |ms| ==> ms[i].name != ms[j].name)
    && (forall i :: 0 <= i < |ms| ==> Unambiguous(ms[i].value))
  }

  // ----- Rendering

  function Render(v: Value): (ts: seq<Token>)
    ensures |ts| >= 1
  {
    match v
    case Scalar(text) => [Literal(text)]
    case Strings(items) => [StringList(items)]
    case Object(ms) => [Open] + RenderMembers(ms) + [Close]
  }

  function RenderMember(m: Member): seq<Token>
    decreases m, 0
  {
    [Key(m.name)] + Render(m.value)
  }

  function RenderRest(ms: seq<Member>): seq<Token> {
    if ms == [] then [] else [Comma] + RenderMember(ms[0]) + RenderRest(ms[1..])
  }

  function RenderMembers(ms: seq<Member>): seq<Token> {
    if ms == [] then [] else RenderMember(ms[0]) + RenderRest(ms[1..])
  }

  function Separator(ms: seq<Member>): seq<Token> {
    if ms == [] then [] else [Comma]
  }

  lemma {:induction false} RenderRestAppend(ms: seq<Member>, m: Member)
    ensures RenderRest(ms + [m]) == RenderRest(ms) + [Comma] + RenderMember(m)
  {
    if ms == [] {
      assert RenderRest([m]) == [Comma] + RenderMember(m) + RenderRest([]);
    } else {
      RenderRestAppend(ms[1..], m);
      assert (ms + [m])[1..] == ms[1..] + [m];
    }
  }

  /** Members can be written one after another, each but the first after a comma. */
  lemma RenderAppend(ms: seq<Member>, m: Member)
    ensures RenderMembers(ms + [m]) == RenderMembers(ms) + Separator(ms) + RenderMember(m)
  {
    if ms == [] {
      assert ([m])[1..] == [];
    } else {
      RenderRestAppend(ms[1..], m);
      assert (ms + [m])[1..] == ms[1..] + [m];
    }
  }

  // ----- Parsing

  datatype Parsed<T> = Fail | Parsed(value: T, rest: seq<Token>)

  function Parse(ts: seq<Token>): (r: Parsed<Value>)
    ensures r.Parsed? ==> |r.rest| < |ts|
    decreases |ts|, 0
  {
    if ts == [] then Fail
    else match ts[0]
      case Literal(text) => Parsed(Scalar(text), ts[1..])
      case StringList(items) => Parsed(Strings(items), ts[1..])
      case Open =>
        if |ts| >= 2 && ts[1] == Close then Parsed(Object([]), ts[2..])
        else
          var ms := ParseMembers(ts[1..]);
          if ms.Fail? then Fail else Parsed(Object(ms.value), ms.rest)
      case _ => Fail
  }

  /** One or more members and the closing brace. */
  function ParseMembers(ts: seq<Token>): (r: Parsed<seq<Member>>)
    ensures r.Parsed? ==> |r.rest| < |ts|
    decreases |ts|, 1
  {
    if ts == [] || !ts[0].Key? then Fail
    else
      var v := Parse(ts[1..]);
      if v.Fail? || v.rest == [] then Fail
      else
        var m := Member(ts[0].name, v.value);
        match v.rest[0]
        case Close => Parsed([m], v.rest[1..])
        case Comma =>
          var ms := ParseMembers(v.rest[1..]);
          if ms.Fail? then Fail else Parsed([m] + ms.value, ms.rest)
        case _ => Fail
  }

  lemma Regroup<T>(a: seq<T>, b: seq<T>, c: seq<T>, d: seq<T>)
    ensures a + b + c + d == a + (b + (c + d))
  {
  }

  lemma FirstMember(ms: seq<Member>, rest: seq<Token>)
    requires ms != []
    ensures RenderMembers(ms) + rest == [Key(ms[0].name)] + (Render(ms[0].value) + (RenderRest(ms[1..]) + rest))
  {
    Regroup([Key(ms[0].name)], Render(ms[0].value), RenderRest(ms[1..]), rest);
  }

  lemma LaterMember(ms: seq<Member>, rest: seq<Token>)
    requires ms != []
    ensures RenderRest(ms) + rest == [Comma] + (RenderMembers(ms) + rest)
  {
    Regroup([Comma], RenderMember(ms[0]), RenderRest(ms[1..]), rest);
    assert [Comma] + RenderMembers(ms) + rest == [Comma] + (RenderMembers(ms) + rest);
  }

  lemma EmptyObject(rest: seq<Token>)
    ensures Render(Object([])) + rest == [Open, Close] + rest
  {
    assert RenderMembers([]) == [];
  }

  lemma OpenObject(ms: seq<Member>, rest: seq<Token>)
    ensures Render(Object(ms)) + rest == [Open] + (RenderMembers(ms) + ([Close] + rest))
  {
  }

  /** Reading back what was written gives the same value, whatever follows it. */
  lemma {:induction false} ParseInvertsRender(v: Value, rest: seq<Token>)
    ensures Parse(Render(v) + rest) == Parsed(v, rest)
    decreases v
  {
    var ts := Render(v) + rest;
    match v
    case Object(ms) =>
      if ms == [] {
        EmptyObject(rest);
      } else {
        OpenObject(ms, rest);
        FirstMember(ms, [Close] + rest);
        ParseInvertsMembers(ms, rest);
      }
    case Scalar(text) => assert ts == [Literal(text)] + rest;
    case Strings(items) => assert ts == [StringList(items)] + rest;
  }

  lemma {:induction false} ParseInvertsMembers(ms: seq<Member>, rest: seq<Token>)
    requires ms != []
    ensures ParseMembers(RenderMembers(ms) + ([Close] + rest)) == Parsed(ms, rest)
    decreases ms
  {
    var m, more := ms[0], ms[1..];
    var ts := RenderMembers(ms) + ([Close] + rest);
    var tail := RenderRest(more) + ([Close] + rest);
    FirstMember(ms, [Close] + rest);
    assert ts[1..] == Render(m.value) + tail;
    ParseInvertsRender(m.value, tail);
    if more == [] {
      assert tail == [Close] + rest && tail[1..] == rest;
      assert ms == [m];
    } else {
      ParseInvertsMembers(more, rest);
      LaterMember(more, [Close] + rest);
      assert tail[1..] == RenderMembers(more) + ([Close] + rest);
      assert ms == [m] + more;
    }
  }
}
