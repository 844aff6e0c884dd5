// The structured JSON writer: it appends to a buffer and keeps its used keys in fixed
// arrays, yet it behaves like a stack of objects with one set of names each.
module StructuredWriter {
  import opened Text
  import opened Json
  import opened KeyScopes
  import opened OpenObjects

  datatype Layout = Layout(only: set<string>, exclude: set<string>, rename: map<string, string>)
  {
    predicate Enabled(path: string) {
      path !in exclude && (only == {} || path in only)
    }

    predicate ObjectEnabled(path: string) {
      path !in exclude && (only == {} || exists p :: p in only && (p == path || HasPrefix(p, path + ".")))
    }

    function Renamed(path: string, key: string): string {
      if path in rename && rename[path] != "" then rename[path] else key
    }
  }

  // ----- What each call does to the open objects

  /** addPath: the first writer of a name wins. */
  function Add(layout: Layout, frames: seq<Frame>, path: string, key: string, value: Value): seq<Frame>
    requires frames != []
  {
    var p := TrimSpace(path);
    var k := layout.Renamed(p, TrimSpace(key));
    if p == "" || !layout.Enabled(p) || k in TopNames(frames) then frames else Put(frames, Member(k, value))
  }

  /** addStrings: path and key are used as they are. */
  function AddList(layout: Layout, frames: seq<Frame>, path: string, key: string, values: seq<string>): seq<Frame>
    requires frames != []
  {
    var k := layout.Renamed(path, key);
    if values == [] || !layout.Enabled(path) || k in TopNames(frames) then frames
    else Put(frames, Member(k, Strings(values)))
  }

  predicate CanBegin(layout: Layout, frames: seq<Frame>, path: string, key: string)
    requires frames != []
  {
    layout.ObjectEnabled(path) && |frames| < DEPTH && layout.Renamed(path, key) !in TopNames(frames)
  }

  function Begin(layout: Layout, frames: seq<Frame>, path: string, key: string): seq<Frame>
    requires frames != []
  {
    if CanBegin(layout, frames, path, key) then Push(frames, layout.Renamed(path, key)) else frames
  }

  /** An exclusion wins over everything; with a list of paths to keep, only these are kept. */
  ghost predicate Filtered(layout: Layout, path: string) {
    path in layout.exclude || (layout.only != {} && path !in layout.only)
  }

  /** The name that the layout gives to a path. */
  ghost predicate NamedAs(layout: Layout, path: string, key: string, name: string) {
    if path in layout.rename && layout.rename[path] != "" then name == layout.rename[path] else name == key
  }

  /** One member more, under the name that the layout gives it, unless its path is blank or
      filtered out, or its name is taken. */
  lemma AddIs(layout: Layout, frames: seq<Frame>, path: string, key: string, value: Value)
    requires frames != []
    ensures var p, after := TrimSpace(path), Add(layout, frames, path, key, value);
            && (p == "" || Filtered(layout, p) ==> after == frames)
            && (p != "" && !Filtered(layout, p) ==>
                  exists k :: NamedAs(layout, p, TrimSpace(key), k) &&
                    after == if k in TopNames(frames) then frames else Put(frames, Member(k, value)))
  {
    var p := TrimSpace(path);
    assert NamedAs(layout, p, TrimSpace(key), layout.Renamed(p, TrimSpace(key)));
  }

  lemma AddListIs(layout: Layout, frames: seq<Frame>, path: string, key: string, values: seq<string>)
    requires frames != []
    ensures var after := AddList(layout, frames, path, key, values);
            && (values == [] || Filtered(layout, path) ==> after == frames)
            && (values != [] && !Filtered(layout, path) ==>
                  exists k :: NamedAs(layout, path, key, k) &&
                    after == if k in TopNames(frames) then frames else Put(frames, Member(k, Strings(values))))
  {
    assert NamedAs(layout, path, key, layout.Renamed(path, key));
  }

  /** An object is wanted when nothing excludes it and it, or a path inside it, is kept. */
  ghost predicate Wanted(layout: Layout, path: string) {
    && path !in layout.exclude
    && (layout.only == {} || path in layout.only || exists p :: p in layout.only && path + "." <= p)
  }

  lemma BeginIs(layout: Layout, frames: seq<Frame>, path: string, key: string)
    requires frames != []
    ensures exists k :: NamedAs(layout, path, key, k) &&
              (CanBegin(layout, frames, path, key) <==>
                 Wanted(layout, path) && |frames| < DEPTH && k !in TopNames(frames)) &&
              Begin(layout, frames, path, key) ==
                if CanBegin(layout, frames, path, key) then Push(frames, k) else frames
  {
    assert NamedAs(layout, path, key, layout.Renamed(path, key));
  }

  /** The table once a new name was claimed for the innermost object. */
  ghost predicate Claims(t: Table, frames: seq<Frame>, key: string) {
    && frames != [] && OpenObjects.Unambiguous(frames) && key !in TopNames(frames)
    && var d, stack := |frames| - 1, NameStack(frames);
       Represents(t, stack[d := stack[d] + {key}])
  }

  lemma EnterOpens(t: Table, frames: seq<Frame>, key: string)
    requires Claims(t, frames, key) && t.depth + 1 < DEPTH
    ensures Represents(Pushed(t), NameStack(Push(frames, key)))
    ensures OpenObjects.Unambiguous(Push(frames, key))
    ensures Written(Push(frames, key)) == Written(frames) + Separator(Innermost(frames).members) + [Key(key), Open]
  {
    hide Layered, Holds, NamesAt, Written;
    var d, stack := |frames| - 1, NameStack(frames);
    PushOpens(t, stack[d := stack[d] + {key}]);
    PushNames(frames, key);
    PushWrites(frames, key);
  }

  class Writer {
    const layout: Layout
    const keys: array<string>
    const scopeStarts: array<int>
    const scopeCounts: array<int>
    var buf: seq<Token>
    var comma: bool
    var depth: nat
    var keyCursor: int
    var overflowKeys: map<int, set<string>>
    ghost var frames: seq<Frame>

    ghost function Used(): Table
      reads this, keys, scopeStarts, scopeCounts
    {
      Table(keys[..], scopeStarts[..], scopeCounts[..], depth, keyCursor, overflowKeys)
    }

    ghost predicate Valid()
      reads this, keys, scopeStarts, scopeCounts
    {
      && scopeStarts != scopeCounts
      && frames != []
      && OpenObjects.Unambiguous(frames)
      && Represents(Used(), NameStack(frames))
      && buf == Written(frames)
      && (comma <==> Innermost(frames).members != [])
    }

    constructor (layout: Layout)
      ensures Valid() && fresh(keys) && fresh(scopeStarts) && fresh(scopeCounts)
      ensures this.layout == layout && frames == [Frame("", [])]
    {
      this.layout := layout;
      keys := new string[KEYS](_ => "");
      scopeStarts := new int[DEPTH](_ => 0);
      scopeCounts := new int[DEPTH](_ => 0);
      buf, comma, depth, keyCursor, overflowKeys := [], false, 0, 0, map[];
      frames := [Frame("", [])];
      new;
      FreshIsEmpty(Used());
      assert NameStack(frames)[0] == {} && NameStack(frames) == [{}];
    }

    /** Searches the segment of the innermost object. */
    method InSegment(key: string) returns (found: bool)
      requires Layered(Used())
      ensures found <==> key in Segment(Used(), depth)
    {
      var start, count := scopeStarts[depth], scopeCounts[depth];
      for index := start to start + count
        invariant key !in keys[start..index]
      {
        if keys[index] == key {
          assert Segment(Used(), depth)[index - start] == key;
          return true;
        }
        assert keys[start..index + 1] == keys[start..index] + [keys[index]];
      }
      assert Segment(Used(), depth) == keys[start..start + count];
      return false;
    }

    /** claimKey: succeeds exactly for a name that is new in the innermost object. */
    method ClaimKey(key: string, ghost stack: seq<set<string>>) returns (ok: bool)
      requires scopeStarts != scopeCounts && Represents(Used(), stack)
      modifies keys, scopeCounts, `keyCursor, `overflowKeys
      ensures ok <==> key !in stack[depth]
      ensures Represents(Used(), if ok then stack[depth := stack[depth] + {key}] else stack)
    {
      assert Holds(Used(), depth, stack[depth]);
      var found := InSegment(key);
      if found || (depth in overflowKeys && key in overflowKeys[depth]) {
        return false;
      }
      ghost var claimed := Claimed(Used(), key);
      ClaimAdds(Used(), stack, key);
      if keyCursor < keys.Length {
        keys[keyCursor] := key;
        keyCursor := keyCursor + 1;
        scopeCounts[depth] := scopeCounts[depth] + 1;
      } else {
        overflowKeys := overflowKeys[depth := (if depth in overflowKeys then overflowKeys[depth] else {}) + {key}];
      }
      assert Used() == claimed;
      return true;
    }

    /** Writes a member whose name was claimed. */
    method Field(key: string, value: Value)
      requires scopeStarts != scopeCounts && Claims(Used(), frames, key) && Json.Unambiguous(value)
      requires buf == Written(frames) && (comma <==> Innermost(frames).members != [])
      modifies `buf, `comma, `frames
      ensures Valid() && frames == Put(old(frames), Member(key, value))
    {
      ghost var m := Member(key, value);
      PutNames(frames, m);
      PutWrites(frames, m);
      PutUnambiguous(frames, m);
      buf, comma, frames := buf + (if comma then [Comma] else []) + ([Key(key)] + Render(value)), true, Put(frames, m);
    }

    method AddPath(path: string, key: string, value: Value)
      requires Valid() && Json.Unambiguous(value)
      modifies this, keys, scopeCounts
      ensures Valid() && frames == Add(layout, old(frames), path, key, value)
    {
      hide Holds, Written, OpenObjects.Unambiguous, TrimSpace;
      var p := TrimSpace(path);
      if p == "" || !layout.Enabled(p) {
        return;
      }
      var k := layout.Renamed(p, TrimSpace(key));
      var ok := ClaimKey(k, NameStack(frames));
      if ok {
        Field(k, value);
      }
    }

    method AddStrings(path: string, key: string, values: seq<string>)
      requires Valid()
      modifies this, keys, scopeCounts
      ensures Valid() && frames == AddList(layout, old(frames), path, key, values)
    {
      hide Holds, Written, OpenObjects.Unambiguous;
      if values == [] || !layout.Enabled(path) {
        return;
      }
      var k := layout.Renamed(path, key);
      var ok := ClaimKey(k, NameStack(frames));
      if ok {
        Field(k, Strings(values));
      }
    }

    /** beginObject: nothing happens when the object is filtered out, too deep, or its
        name is taken. */
    method BeginObject(path: string, key: string) returns (ok: bool)
      requires Valid()
      modifies this, keys, scopeStarts, scopeCounts
      ensures Valid() && ok == CanBegin(layout, old(frames), path, key)
      ensures frames == Begin(layout, old(frames), path, key)
    {
      hide Holds, Written, OpenObjects.Unambiguous;
      if !layout.ObjectEnabled(path) {
        return false;
      }
      var k := layout.Renamed(path, key);
      if depth + 1 >= scopeStarts.Length {
        return false;
      }
      ghost var stack := NameStack(frames);
      ok := ClaimKey(k, stack);
      if ok {
        Enter(k);
      }
    }

    method Enter(key: string)
      requires scopeStarts != scopeCounts && Claims(Used(), frames, key) && depth + 1 < DEPTH
      requires buf == Written(frames) && (comma <==> Innermost(frames).members != [])
      modifies this, scopeStarts, scopeCounts
      ensures Valid() && frames == Push(old(frames), key)
    {
      hide Holds, Written, OpenObjects.Unambiguous, NameStack;
      ghost var pushed := Pushed(Used());
      EnterOpens(Used(), frames, key);
      buf, depth, comma, frames :=
        buf + (if comma then [Comma] else []) + [Key(key), Open], depth + 1, false, Push(frames, key);
      scopeStarts[depth] := keyCursor;
      scopeCounts[depth] := 0;
      assert Used() == pushed;
    }

    method EndObject()
      requires Valid() && depth > 0
      modifies this, scopeCounts
      ensures Valid() && frames == Pop(old(frames))
    {
      hide Holds, Written, OpenObjects.Unambiguous;
      ghost var popped := Popped(Used());
      PopCloses(Used(), NameStack(frames));
      PopNames(frames);
      PopWrites(frames);
      PopUnambiguous(frames);
      scopeCounts[depth] := 0;
      buf, overflowKeys, keyCursor, depth, comma, frames :=
        buf + [Close], overflowKeys - {depth}, scopeStarts[depth], depth - 1, true, Pop(frames);
      assert Used() == popped;
    }

    /** With every object closed, the text reads back as one object holding exactly the
        members that were added, and no object in it has a name twice. */
    lemma DocumentReadsBack()
      requires Valid() && depth == 0
      ensures Parse([Open] + buf + [Close]) == Parsed(Object(frames[0].members), [])
      ensures Json.Unambiguous(Object(frames[0].members))
    {
      assert Represents(Used(), NameStack(frames));
      WrittenReadsBack(frames, []);
      assert [Open] + buf + [Close] + [] == [Open] + buf + [Close];
    }
  }
}
