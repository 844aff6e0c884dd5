// The reference view of a writer at work: the objects that are still open, each with
// the members it has so far, and what writing them down looks like.
module OpenObjects {
  import opened Json

  /** key is the name under which the object was opened; the outermost has none. */
  datatype Frame = Frame(key: string, members: seq<Member>)

  function Innermost(frames: seq<Frame>): Frame
    requires frames != []
  {
    frames[|frames| - 1]
  }

  function Put(frames: seq<Frame>, m: Member): seq<Frame>
    requires frames != []
  {
    frames[..|frames| - 1] + [Innermost(frames).(members := Innermost(frames).members + [m])]
  }

  function Push(frames: seq<Frame>, key: string): seq<Frame> {
    frames + [Frame(key, [])]
  }

  function Pop(frames: seq<Frame>): seq<Frame>
    requires |frames| >= 2
  {
    Put(frames[..|frames| - 1], Member(Innermost(frames).key, Object(Innermost(frames).members)))
  }

  // ----- Names in use

  /** The names taken in object d, counting the one its inner object was opened under. */
  function NamesAt(frames: seq<Frame>, d: nat): set<string>
    requires d < |frames|
  {
    Names(frames[d].members) + if d + 1 < |frames| then {frames[d + 1].key} else {}
  }

  function NameStack(frames: seq<Frame>): seq<set<string>> {
    seq(|frames|, d requires 0 <= d < |frames| => NamesAt(frames, d))
  }

  function TopNames(frames: seq<Frame>): set<string>
    requires frames != []
  {
    Names(Innermost(frames).members)
  }

  lemma NamesGrow(ms: seq<Member>, m: Member)
    ensures Names(ms + [m]) == Names(ms) + {m.name}
  {
    var all := ms + [m];
    assert all[|ms|] == m;
    forall n | n in Names(ms) ensures n in Names(all) {
      var i :| 0 <= i < |ms| && ms[i].name == n;
      assert all[i].name == n;
    }
  }

  lemma PutNames(frames: seq<Frame>, m: Member)
    requires frames != []
    ensures var d := |frames| - 1;
            NameStack(Put(frames, m)) == NameStack(frames)[d := NameStack(frames)[d] + {m.name}]
  {
    NamesGrow(Innermost(frames).members, m);
    var d := |frames| - 1;
    var stack, stack' := NameStack(frames), NameStack(Put(frames, m));
    forall e | 0 <= e < |frames| ensures stack'[e] == stack[d := stack[d] + {m.name}][e] {
    }
  }

  lemma PushNames(frames: seq<Frame>, key: string)
    requires frames != []
    ensures var d := |frames| - 1;
            NameStack(Push(frames, key)) == NameStack(frames)[d := NameStack(frames)[d] + {key}] + [{}]
  {
    var d := |frames| - 1;
    var stack, stack' := NameStack(frames), NameStack(Push(frames, key));
    forall e | 0 <= e <= |frames| ensures stack'[e] == (stack[d := stack[d] + {key}] + [{}])[e] {
    }
  }

  lemma PopNames(frames: seq<Frame>)
    requires |frames| >= 2
    ensures NameStack(Pop(frames)) == NameStack(frames)[..|frames| - 1]
  {
    NamesGrow(frames[|frames| - 2].members, Member(Innermost(frames).key, Object(Innermost(frames).members)));
    forall e | 0 <= e < |frames| - 1 ensures NameStack(Pop(frames))[e] == NameStack(frames)[e] {
    }
  }

  /** No name is taken twice in any object, open or closed. */
  ghost predicate Unambiguous(frames: seq<Frame>) {
    && (forall d :: 0 <= d < |frames| ==> UnambiguousMembers(frames[d].members))
    && (forall d :: 0 <= d < |frames| - 1 ==> frames[d + 1].key !in Names(frames[d].members))
  }

  lemma PutUnambiguous(frames: seq<Frame>, m: Member)
    requires frames != [] && Unambiguous(frames) && m.name !in TopNames(frames) && Json.Unambiguous(m.value)
    ensures Unambiguous(Put(frames, m))
  {
    var ms := Innermost(frames).members;
    forall i | 0 <= i < |ms| ensures ms[i].name in Names(ms) {
    }
    assert UnambiguousMembers(ms + [m]);
  }

  lemma PopUnambiguous(frames: seq<Frame>)
    requires |frames| >= 2 && Unambiguous(frames)
    ensures Unambiguous(Pop(frames))
  {
    var outer := frames[..|frames| - 1];
    var inner := Innermost(frames);
    assert frames[|frames| - 2 + 1].key !in Names(frames[|frames| - 2].members);
    assert UnambiguousMembers(inner.members);
    PutUnambiguous(outer, Member(inner.key, Object(inner.members)));
  }

  // ----- Text written so far

  /** What has been written: complete members, and open braces without their ends. */
  function Written(frames: seq<Frame>): seq<Token> {
    if frames == [] then []
    else if |frames| == 1 then RenderMembers(frames[0].members)
    else
      var outer := frames[..|frames| - 1];
      Written(outer) + Separator(Innermost(outer).members) + [Key(Innermost(frames).key), Open]
      + RenderMembers(Innermost(frames).members)
  }

  /** What precedes the members of the innermost object. */
  function Preamble(frames: seq<Frame>): seq<Token>
    requires frames != []
  {
    if |frames| == 1 then []
    else
      var outer := frames[..|frames| - 1];
      Written(outer) + Separator(Innermost(outer).members) + [Key(Innermost(frames).key), Open]
  }

  lemma WrittenSplits(frames: seq<Frame>)
    requires frames != []
    ensures Written(frames) == Preamble(frames) + RenderMembers(Innermost(frames).members)
  {
  }

  lemma PutWrites(frames: seq<Frame>, m: Member)
    requires frames != []
    ensures Written(Put(frames, m)) == Written(frames) + Separator(Innermost(frames).members) + RenderMember(m)
  {
    var ms := Innermost(frames).members;
    var after := Put(frames, m);
    assert after[..|frames| - 1] == frames[..|frames| - 1];
    assert Preamble(after) == Preamble(frames);
    WrittenSplits(frames);
    WrittenSplits(after);
    RenderAppend(ms, m);
    Regroup(Preamble(frames), RenderMembers(ms), Separator(ms), RenderMember(m));
    assert RenderMembers(ms + [m]) == RenderMembers(ms) + (Separator(ms) + RenderMember(m));
  }

  lemma PushWrites(frames: seq<Frame>, key: string)
    requires frames != []
    ensures Written(Push(frames, key)) == Written(frames) + Separator(Innermost(frames).members) + [Key(key), Open]
  {
    assert Push(frames, key)[..|frames|] == frames;
  }

  lemma PopWrites(frames: seq<Frame>)
    requires |frames| >= 2
    ensures Written(Pop(frames)) == Written(frames) + [Close]
  {
    var outer, inner := frames[..|frames| - 1], Innermost(frames);
    PutWrites(outer, Member(inner.key, Object(inner.members)));
    CloseObject(Written(outer) + Separator(Innermost(outer).members), inner.key, inner.members);
  }

  lemma CloseObject(before: seq<Token>, key: string, ms: seq<Member>)
    ensures before + RenderMember(Member(key, Object(ms))) == before + [Key(key), Open] + RenderMembers(ms) + [Close]
  {
    assert RenderMember(Member(key, Object(ms))) == [Key(key), Open] + (RenderMembers(ms) + [Close]);
    Regroup(before, [Key(key), Open], RenderMembers(ms), [Close]);
  }

  /** Once every object is closed, the text between the outer braces reads back as
      exactly the members that were added. */
  lemma WrittenReadsBack(frames: seq<Frame>, rest: seq<Token>)
    requires |frames| == 1
    ensures Parse([Open] + Written(frames) + [Close] + rest) == Parsed(Object(frames[0].members), rest)
  {
    ParseInvertsRender(Object(frames[0].members), rest);
  }
}
