// Writing an event straight to the JSON appenders, and why nobody can tell.
module FastDispatch {
  import opened Optional
  import P = StructuredPaths

  // ----- Events

  /** A LogValuer computes its value when it is resolved. */
  datatype Value = Plain(text: string) | LogValuer(resolved: string)

  datatype Attr = Attr(key: string, value: Value)

  /** quiet: no attributes, stack, marker or thread name are attached. */
  datatype Context = Context(cancelled: bool, attrs: seq<Attr>, quiet: bool)

  const LOGGER_NAME_KEY := "goark.logger"
  const DEFAULT_LOGGER_NAME := "goark"

  datatype Event = Event(
    time: int, level: int, logger: string, message: string, pc: int, attrs: seq<Attr>, context: Context)

  function Resolve(a: Attr): Attr {
    if a.value.LogValuer? then a.(value := Plain(a.value.resolved)) else a
  }

  function GroupKey(groups: seq<string>, key: string): string {
    if groups == [] then key
    else (if groups[0] == "" then "" else groups[0] + ".") + GroupKey(groups[1..], key)
  }

  /** AppendAttrs. */
  function Collected(groups: seq<string>, attrs: seq<Attr>): seq<Attr> {
    if attrs == [] then []
    else
      var a := Resolve(attrs[|attrs| - 1]);
      Collected(groups, attrs[..|attrs| - 1])
      + if a.key == "" || a.key == LOGGER_NAME_KEY then [] else [a.(key := GroupKey(groups, a.key))]
  }

  predicate CanShare(a: Attr) {
    a.key != "" && a.key != LOGGER_NAME_KEY && !a.value.LogValuer?
  }

  predicate AttrsCanShare(attrs: seq<Attr>) {
    forall i :: 0 <= i < |attrs| ==> CanShare(attrs[i])
  }

  /** MakeAttrs. */
  function MakeAttrs(
    handlerAttrs: seq<Attr>, contextAttrs: seq<Attr>, groups: seq<string>, attrs: seq<Attr>, copy: bool): seq<Attr>
  {
    if !copy && handlerAttrs == [] && contextAttrs == [] && groups == [] && AttrsCanShare(attrs) then attrs
    else Collected([], handlerAttrs) + Collected([], contextAttrs) + Collected(groups, attrs)
  }

  lemma {:induction false} SharedIsCollected(attrs: seq<Attr>)
    requires AttrsCanShare(attrs)
    ensures Collected([], attrs) == attrs
  {
    if attrs != [] {
      SharedIsCollected(attrs[..|attrs| - 1]);
      assert CanShare(attrs[|attrs| - 1]);
    }
  }

  /** Reusing the caller's slice never changes the attributes of an event. */
  lemma SharingIsInvisible(
    handlerAttrs: seq<Attr>, contextAttrs: seq<Attr>, groups: seq<string>, attrs: seq<Attr>)
    ensures MakeAttrs(handlerAttrs, contextAttrs, groups, attrs, false)
         == MakeAttrs(handlerAttrs, contextAttrs, groups, attrs, true)
  {
    if groups == [] && AttrsCanShare(attrs) {
      SharedIsCollected(attrs);
    }
  }

  /** What a caller asks to be logged. */
  datatype Request = Request(
    ctx: Context, logger: string, handlerAttrs: seq<Attr>, groups: seq<string>, time: int, level: int,
    message: string, pc: int)

  function LoggerOf(logger: string): string {
    if logger == "" then DEFAULT_LOGGER_NAME else logger
  }

  /** newEventFromAttrs. */
  function EventOf(q: Request, attrs: seq<Attr>, copy: bool): Event {
    Event(q.time, q.level, LoggerOf(q.logger), q.message, q.pc,
      MakeAttrs(q.handlerAttrs, q.ctx.attrs, q.groups, attrs, copy), q.ctx)
  }

  // ----- What an event carries, read off the request

  predicate Increasing(ks: seq<nat>) {
    forall i, j :: 0 <= i < j < |ks| ==> ks[i] < ks[j]
  }

  predicate Named(a: Attr) {
    a.key != "" && a.key != "goark.logger"
  }

  /** out is made of the attributes with a name of their own, in order: their keys behind the
      groups, their values resolved. */
  ghost predicate Gathers(groups: seq<string>, attrs: seq<Attr>, out: seq<Attr>) {
    exists ks: seq<nat> :: GathersAt(groups, attrs, out, ks)
  }

  ghost predicate GathersAt(groups: seq<string>, attrs: seq<Attr>, out: seq<Attr>, ks: seq<nat>) {
    && |ks| == |out| && Increasing(ks) && (forall k :: k in ks <==> 0 <= k < |attrs| && Named(attrs[k]))
    && forall j :: 0 <= j < |ks| ==> 0 <= ks[j] < |attrs| && Becomes(groups, attrs[ks[j]], out[j])
  }

  predicate Becomes(groups: seq<string>, a: Attr, b: Attr) {
    && b.key == GroupKey(groups, a.key)
    && b.value == Plain(if a.value.LogValuer? then a.value.resolved else a.value.text)
  }

  lemma GathersNothing(groups: seq<string>)
    ensures Gathers(groups, [], [])
  {
    assert GathersAt(groups, [], [], []);
  }

  lemma GathersMore(groups: seq<string>, attrs: seq<Attr>, out: seq<Attr>, ks: seq<nat>, a: Attr, b: Attr)
    requires GathersAt(groups, attrs, out, ks)
    ensures !Named(a) ==> GathersAt(groups, attrs + [a], out, ks)
    ensures Named(a) && Becomes(groups, a, b) ==> GathersAt(groups, attrs + [a], out + [b], ks + [|attrs|])
  {
    hide Named, Becomes;
    var all, n := attrs + [a], |attrs|;
    assert all[n] == a && forall k :: 0 <= k < n ==> all[k] == attrs[k];
    assert forall j :: 0 <= j < |ks| ==> ks[j] in ks && ks[j] < n;
    assert forall k :: k in ks + [n] <==> k in ks || k == n;
  }

  lemma CollectOneMore(groups: seq<string>, attrs: seq<Attr>, a: Attr) returns (b: Attr)
    ensures Becomes(groups, a, b)
    ensures Collected(groups, attrs + [a]) == Collected(groups, attrs) + if Named(a) then [b] else []
  {
    b := Resolve(a).(key := GroupKey(groups, a.key));
    assert (attrs + [a])[..|attrs|] == attrs;
  }

  lemma {:induction false} CollectedGathers(groups: seq<string>, attrs: seq<Attr>)
    ensures Gathers(groups, attrs, Collected(groups, attrs))
  {
    hide GathersAt, Collected, Named, Becomes;
    if attrs == [] {
      GathersNothing(groups);
      NothingCollected(groups);
    } else {
      var init, a := attrs[..|attrs| - 1], attrs[|attrs| - 1];
      assert attrs == init + [a];
      CollectedGathers(groups, init);
      var out := Collected(groups, init);
      var ks :| GathersAt(groups, init, out, ks);
      var b := CollectOneMore(groups, init, a);
      GathersMore(groups, init, out, ks, a, b);
      assert out + [] == out;
    }
  }

  lemma NothingCollected(groups: seq<string>)
    ensures Collected(groups, []) == []
  {
  }

  /** The attributes of the handler, of the context and of the call, in this order. */
  ghost predicate Carries(q: Request, attrs: seq<Attr>, event: Event) {
    && event.time == q.time && event.level == q.level && event.message == q.message && event.pc == q.pc
    && event.context == q.ctx && event.logger == (if q.logger == "" then "goark" else q.logger)
    && exists h, c, a :: GathersAll(q, attrs, h, c, a) && event.attrs == h + c + a
  }

  ghost predicate GathersAll(q: Request, attrs: seq<Attr>, h: seq<Attr>, c: seq<Attr>, a: seq<Attr>) {
    Gathers([], q.handlerAttrs, h) && Gathers([], q.ctx.attrs, c) && Gathers(q.groups, attrs, a)
  }

  /** Copied or shared, an event carries what was asked for. */
  lemma EventCarries(q: Request, attrs: seq<Attr>, copy: bool)
    ensures Carries(q, attrs, EventOf(q, attrs, copy))
  {
    hide Gathers;
    SharingIsInvisible(q.handlerAttrs, q.ctx.attrs, q.groups, attrs);
    CollectedGathers([], q.handlerAttrs);
    CollectedGathers([], q.ctx.attrs);
    CollectedGathers(q.groups, attrs);
    assert GathersAll(q, attrs, Collected([], q.handlerAttrs), Collected([], q.ctx.attrs), Collected(q.groups, attrs));
  }

  /** A key without dots stands behind its groups, each cut off by a dot. */
  lemma {:induction false} GroupKeyCuts(groups: seq<string>, key: string)
    requires P.NoDots(groups) && forall g :: g in groups ==> g != ""
    ensures P.Split(GroupKey(groups, key)) == groups + P.Split(key)
  {
    hide P.Split;
    if groups == [] {
      assert groups + P.Split(key) == P.Split(key);
    } else {
      assert groups[0] in groups && forall g :: g in groups[1..] ==> g in groups;
      GroupKeyCuts(groups[1..], key);
      P.SplitAtDot(groups[0], GroupKey(groups[1..], key));
      P.SplitOne(groups[0]);
      assert groups == [groups[0]] + groups[1..];
      assert GroupKey(groups, key) == groups[0] + "." + GroupKey(groups[1..], key);
    }
  }

  /** Empty groups leave no trace. */
  lemma {:induction false} EmptyGroupsVanish(before: seq<string>, after: seq<string>, key: string)
    ensures GroupKey(before + [""] + after, key) == GroupKey(before + after, key)
  {
    if before == [] {
      assert ([] + [""] + after)[1..] == after && [] + after == after;
    } else {
      assert (before + [""] + after)[1..] == before[1..] + [""] + after;
      assert (before + after)[1..] == before[1..] + after;
      EmptyGroupsVanish(before[1..], after, key);
    }
  }

  // ----- Encoding

  datatype Chunk = Begin | Time(t: int) | Level(l: int) | Logger(name: string) | Message(text: string)
      | Field(attr: Attr) | End

  function Fields(attrs: seq<Attr>): seq<Chunk> {
    if attrs == [] then [] else Fields(attrs[..|attrs| - 1]) + [Field(attrs[|attrs| - 1])]
  }

  function Encoded(time: int, level: int, logger: string, message: string, attrs: seq<Attr>): seq<Chunk> {
    [Begin, Time(time), Level(level), Logger(logger), Message(message)] + Fields(attrs) + [End]
  }

  /** AppendJSONEvent. */
  method AppendJSONEvent(time: int, level: int, logger: string, message: string, attrs: seq<Attr>)
    returns (buf: seq<Chunk>)
    ensures buf == Encoded(time, level, logger, message, attrs)
  {
    ghost var head := [Begin, Time(time), Level(level), Logger(logger), Message(message)];
    buf := [Begin, Time(time), Level(level), Logger(logger), Message(message)];
    for i := 0 to |attrs|
      invariant buf == head + Fields(attrs[..i])
    {
      assert attrs[..i + 1][..i] == attrs[..i];
      buf := buf + [Field(attrs[i])];
    }
    assert attrs[..|attrs|] == attrs;
    buf := buf + [End];
  }

  /** AppendJSONFixedEvent, over an array of three. */
  method AppendJSONFixedEvent(
    time: int, level: int, logger: string, message: string, attrs: array<Attr>, count: nat) returns (buf: seq<Chunk>)
    requires attrs.Length == 3
    ensures buf == Encoded(time, level, logger, message, attrs[..if count < 3 then count else 3])
  {
    ghost var head := [Begin, Time(time), Level(level), Logger(logger), Message(message)];
    buf := [Begin, Time(time), Level(level), Logger(logger), Message(message)];
    var index := 0;
    while index < count && index < attrs.Length
      invariant index <= count && index <= attrs.Length && buf == head + Fields(attrs[..index])
    {
      assert attrs[..index + 1][..index] == attrs[..index];
      buf := buf + [Field(attrs[index])];
      index := index + 1;
    }
    buf := buf + [End];
  }

  // ----- Appenders

  datatype Decision = Neutral | Accept | Deny

  type Filter = Event -> Decision

  function Apply(filters: seq<Filter>, event: Event): Decision {
    if filters == [] then Neutral
    else
      var d := filters[0](event);
      if d.Neutral? then Apply(filters[1..], event) else d
  }

  /** The first filter that is not neutral decides; without one nothing is decided. */
  ghost predicate Decided(filters: seq<Filter>, event: Event, d: Decision) {
    if d.Neutral? then forall i :: 0 <= i < |filters| ==> filters[i](event).Neutral?
    else exists i :: DecidesAt(filters, event, d, i)
  }

  ghost predicate DecidesAt(filters: seq<Filter>, event: Event, d: Decision, i: int) {
    && 0 <= i < |filters| && filters[i](event) == d
    && forall j :: 0 <= j < i ==> filters[j](event).Neutral?
  }

  lemma {:induction false} ApplyDecides(filters: seq<Filter>, event: Event)
    ensures Decided(filters, event, Apply(filters, event))
  {
    if filters != [] {
      var d := filters[0](event);
      if d.Neutral? {
        ApplyDecides(filters[1..], event);
        var r := Apply(filters[1..], event);
        if r.Neutral? {
          assert forall i :: 1 <= i < |filters| ==> filters[i] == filters[1..][i - 1];
        } else {
          var i :| DecidesAt(filters[1..], event, r, i);
          assert forall j :: 1 <= j < |filters| ==> filters[j] == filters[1..][j - 1];
          assert DecidesAt(filters, event, r, i + 1);
        }
      } else {
        assert DecidesAt(filters, event, d, 0);
      }
    }
  }

  lemma OneDecision(filters: seq<Filter>, event: Event, a: Decision, b: Decision)
    requires Decided(filters, event, a) && Decided(filters, event, b)
    ensures a == b
  {
  }

  /** Json writes text; any other appender gets the event. */
  datatype Appender = Json(id: nat) | Other(id: nat)

  datatype Control = Control(
    appender: Option<Appender>, level: Option<int>, filters: seq<Filter>, includeLocation: Option<bool>)

  datatype Route = Route(level: int, controls: seq<Control>, filters: seq<Filter>, includeLocation: bool)

  /** Something an appender or the async pipeline was made to do. */
  datatype Effect = Wrote(id: nat, text: seq<Chunk>) | Delivered(id: nat, event: Event)
      | Queued(event: Event, accepted: bool)

  datatype Error = Failed(effect: Effect) | Cancelled

  /** Everything done so far and the errors joined on the way. */
  datatype World = World(done: seq<Effect>, errors: seq<Error>)

  /** Which effects fail may depend on everything that happened before. */
  type Fate = (seq<Effect>, Effect) -> bool

  function Do(fate: Fate, w: World, e: Effect): World {
    World(w.done + [e], if fate(w.done, e) then w.errors + [Failed(e)] else w.errors)
  }

  /** jsonappender.Append and AppendAttrs differ in nothing but where the attributes are. */
  function WriteJson(fate: Fate, w: World, id: nat, ctx: Context, text: seq<Chunk>): World {
    if ctx.cancelled then w.(errors := w.errors + [Cancelled]) else Do(fate, w, Wrote(id, text))
  }

  function EncodedEvent(e: Event): seq<Chunk> {
    Encoded(e.time, e.level, e.logger, e.message, e.attrs)
  }

  function AppendTo(fate: Fate, w: World, ctx: Context, appender: Appender, event: Event): World {
    match appender
    case Json(id) => WriteJson(fate, w, id, ctx, EncodedEvent(event))
    case Other(id) => Do(fate, w, Delivered(id, event))
  }

  predicate BelowLevel(c: Control, level: int) {
    c.level.Some? && level < c.level.value
  }

  /** AppendResult. */
  function AppendControl(fate: Fate, w: World, ctx: Context, c: Control, event: Event): World {
    if c.appender.None? || BelowLevel(c, event.level) || Apply(c.filters, event).Deny? then w
    else AppendTo(fate, w, ctx, c.appender.value, if c.includeLocation == Some(false) then event.(pc := 0) else event)
  }

  function AppendControls(fate: Fate, w: World, ctx: Context, cs: seq<Control>, event: Event): World {
    if cs == [] then w
    else AppendControl(fate, AppendControls(fate, w, ctx, cs[..|cs| - 1], event), ctx, cs[|cs| - 1], event)
  }

  /** dispatchRoute. */
  function DispatchRoute(fate: Fate, w: World, ctx: Context, route: Route, event: Event): World {
    if Apply(route.filters, event).Deny? then w else AppendControls(fate, w, ctx, route.controls, event)
  }

  // ----- What a dispatch does, control by control

  /** The control has an appender, and its level and filters let the event pass. */
  ghost predicate Passes(c: Control, event: Event) {
    c.appender.Some? && (c.level.Some? ==> event.level >= c.level.value) && !Decided(c.filters, event, Deny)
  }

  /** The text of an event: its fields, and then its attributes one by one. */
  ghost predicate Spells(event: Event, text: seq<Chunk>) {
    && |text| == 6 + |event.attrs|
    && text[..5] == [Begin, Time(event.time), Level(event.level), Logger(event.logger), Message(event.message)]
    && (forall i :: 0 <= i < |event.attrs| ==> text[5 + i] == Field(event.attrs[i]))
    && text[5 + |event.attrs|] == End
  }

  /** A JSON appender writes the text, any other gets the event, without its location when
      the control asks for that. */
  ghost predicate Reached(c: Control, event: Event, e: Effect)
    requires c.appender.Some?
  {
    match c.appender.value
    case Json(id) => e.Wrote? && e.id == id && Spells(event, e.text)
    case Other(id) => e == Delivered(id, if c.includeLocation == Some(false) then event.(pc := 0) else event)
  }

  /** One effect is added, and its error if it fails. */
  ghost predicate Did(fate: Fate, w: World, e: Effect, w': World) {
    w'.done == w.done + [e] && w'.errors == w.errors + if fate(w.done, e) then [Failed(e)] else []
  }

  ghost predicate Served(fate: Fate, ctx: Context, c: Control, event: Event, w: World, w': World) {
    if !Passes(c, event) then w' == w
    else if c.appender.value.Json? && ctx.cancelled then w' == World(w.done, w.errors + [Cancelled])
    else exists e :: Reached(c, event, e) && Did(fate, w, e, w')
  }

  /** The controls are served one after another; ws are the states in between. */
  ghost predicate ServedAll(fate: Fate, ctx: Context, cs: seq<Control>, event: Event, ws: seq<World>) {
    |ws| == |cs| + 1 && forall k :: 0 <= k < |cs| ==> Served(fate, ctx, cs[k], event, ws[k], ws[k + 1])
  }

  lemma {:induction false} FieldsSpell(attrs: seq<Attr>)
    ensures |Fields(attrs)| == |attrs| && forall i :: 0 <= i < |attrs| ==> Fields(attrs)[i] == Field(attrs[i])
  {
    if attrs != [] {
      FieldsSpell(attrs[..|attrs| - 1]);
    }
  }

  lemma EncodedSpells(event: Event)
    ensures Spells(event, EncodedEvent(event))
  {
    FieldsSpell(event.attrs);
  }

  lemma ControlIsServed(fate: Fate, w: World, ctx: Context, c: Control, event: Event)
    ensures Served(fate, ctx, c, event, w, AppendControl(fate, w, ctx, c, event))
  {
    hide Spells, Decided;
    ApplyDecides(c.filters, event);
    DenyIsDecided(c.filters, event);
    if Passes(c, event) && !(c.appender.value.Json? && ctx.cancelled) {
      var located := if c.includeLocation == Some(false) then event.(pc := 0) else event;
      EncodedSpells(event);
      assert EncodedEvent(located) == EncodedEvent(event);
      var e := match c.appender.value
        case Json(id) => Wrote(id, EncodedEvent(event))
        case Other(id) => Delivered(id, located);
      assert w.errors + [] == w.errors;
      assert Reached(c, event, e) && Did(fate, w, e, AppendControl(fate, w, ctx, c, event));
    }
  }

  lemma DenyIsDecided(filters: seq<Filter>, event: Event)
    ensures Decided(filters, event, Deny) <==> Apply(filters, event).Deny?
  {
    ApplyDecides(filters, event);
    if Decided(filters, event, Deny) {
      OneDecision(filters, event, Deny, Apply(filters, event));
    }
  }

  lemma {:induction false} ControlsAreServed(fate: Fate, w: World, ctx: Context, cs: seq<Control>, event: Event)
    returns (ws: seq<World>)
    ensures ServedAll(fate, ctx, cs, event, ws)
    ensures ws[0] == w && ws[|cs|] == AppendControls(fate, w, ctx, cs, event)
  {
    hide Served;
    if cs == [] {
      ws := [w];
    } else {
      var n := |cs| - 1;
      var before := ControlsAreServed(fate, w, ctx, cs[..n], event);
      ControlIsServed(fate, before[n], ctx, cs[n], event);
      ws := before + [AppendControls(fate, w, ctx, cs, event)];
      forall k | 0 <= k < |cs| ensures Served(fate, ctx, cs[k], event, ws[k], ws[k + 1]) {
        if k < n {
          assert cs[..n][k] == cs[k];
        }
      }
    }
  }

  /** The filters of the route decide whether the controls are served at all. */
  ghost predicate Dispatched(fate: Fate, ctx: Context, route: Route, event: Event, w: World, w': World) {
    if Decided(route.filters, event, Deny) then w' == w
    else exists ws :: ServedAll(fate, ctx, route.controls, event, ws) && ws[0] == w && ws[|route.controls|] == w'
  }

  lemma RouteIsDispatched(fate: Fate, w: World, ctx: Context, route: Route, event: Event)
    ensures Dispatched(fate, ctx, route, event, w, DispatchRoute(fate, w, ctx, route, event))
  {
    hide ServedAll, Decided;
    DenyIsDecided(route.filters, event);
    if !Apply(route.filters, event).Deny? {
      var ws := ControlsAreServed(fate, w, ctx, route.controls, event);
    }
  }

  // ----- The fast path

  predicate ControlsAllow(cs: seq<Control>) {
    forall i :: 0 <= i < |cs| ==> cs[i].filters == [] && cs[i].appender.Some? && cs[i].appender.value.Json?
  }

  predicate RouteAllows(q: Request, route: Route) {
    && !route.includeLocation && route.filters == [] && route.controls != []
    && q.handlerAttrs == [] && q.groups == [] && q.ctx.quiet
    && ControlsAllow(route.controls)
  }

  /** A context without attachments has no attributes. */
  predicate ValidContext(ctx: Context) {
    ctx.quiet ==> ctx.attrs == []
  }

  /** One JSON control sees no difference between the event and its parts. */
  lemma JsonControlWrites(fate: Fate, w: World, ctx: Context, c: Control, event: Event)
    requires c.filters == [] && c.appender.Some? && c.appender.value.Json?
    ensures AppendControl(fate, w, ctx, c, event)
         == if BelowLevel(c, event.level) then w else WriteJson(fate, w, c.appender.value.id, ctx, EncodedEvent(event))
  {
  }

  lemma SharedEvent(q: Request, route: Route, attrs: seq<Attr>)
    requires RouteAllows(q, route) && ValidContext(q.ctx) && AttrsCanShare(attrs)
    ensures EventOf(q, attrs, false).attrs == attrs
  {
  }

  /** Some control is not below its level. */
  predicate SomeoneListens(cs: seq<Control>, level: int) {
    exists i :: 0 <= i < |cs| && !BelowLevel(cs[i], level)
  }

  /** DispatchAttrsFast: when it reports the event as handled it has done exactly what
      building the event and dispatching it would do; otherwise it has done nothing. */
  method DispatchAttrsFast(fate: Fate, w: World, q: Request, route: Route, attrs: seq<Attr>)
    returns (handled: bool, w': World)
    requires ValidContext(q.ctx) && w.errors == []
    ensures handled ==> w' == DispatchRoute(fate, w, q.ctx, route, EventOf(q, attrs, false))
    ensures !handled ==> w' == w
    ensures handled <==> RouteAllows(q, route) && AttrsCanShare(attrs) && SomeoneListens(route.controls, q.level)
  {
    w' := w;
    if !RouteAllows(q, route) || !AttrsCanShare(attrs) {
      return false, w;
    }
    ghost var event := EventOf(q, attrs, false);
    SharedEvent(q, route, attrs);
    var logger := if q.logger == "" then DEFAULT_LOGGER_NAME else q.logger;
    var cs := route.controls;
    var wrote := false;
    for i := 0 to |cs|
      invariant w' == AppendControls(fate, w, q.ctx, cs[..i], event)
      invariant if wrote then SomeoneListens(cs[..i], q.level) else w' == w && !SomeoneListens(cs[..i], q.level)
    {
      assert cs[..i + 1][..i] == cs[..i] && cs[..i + 1] == cs[..i] + [cs[i]];
      JsonControlWrites(fate, w', q.ctx, cs[i], event);
      if BelowLevel(cs[i], q.level) {
        continue;
      }
      wrote := true;
      var text := AppendJSONEvent(q.time, q.level, logger, q.message, attrs);
      w' := WriteJson(fate, w', cs[i].appender.value.id, q.ctx, text);
    }
    assert cs[..|cs|] == cs;
    handled := wrote || w'.errors != [];
  }

  /** DispatchFixedAttrsFast: the same for three attributes in an array. */
  method DispatchFixedAttrsFast(fate: Fate, w: World, q: Request, route: Route, a0: Attr, a1: Attr, a2: Attr)
    returns (handled: bool, w': World)
    requires ValidContext(q.ctx) && w.errors == []
    ensures handled ==> w' == DispatchRoute(fate, w, q.ctx, route, EventOf(q, [a0, a1, a2], false))
    ensures !handled ==> w' == w
    ensures handled <==> RouteAllows(q, route) && AttrsCanShare([a0, a1, a2]) && SomeoneListens(route.controls, q.level)
  {
    w' := w;
    assert var three := [a0, a1, a2]; three[0] == a0 && three[1] == a1 && three[2] == a2;
    if !RouteAllows(q, route) || !CanShare(a0) || !CanShare(a1) || !CanShare(a2) {
      return false, w;
    }
    ghost var event := EventOf(q, [a0, a1, a2], false);
    SharedEvent(q, route, [a0, a1, a2]);
    var logger := if q.logger == "" then DEFAULT_LOGGER_NAME else q.logger;
    var fixed := new Attr[] [a0, a1, a2];
    assert fixed[..3] == [a0, a1, a2];
    var cs := route.controls;
    var wrote := false;
    for i := 0 to |cs|
      invariant w' == AppendControls(fate, w, q.ctx, cs[..i], event)
      invariant if wrote then SomeoneListens(cs[..i], q.level) else w' == w && !SomeoneListens(cs[..i], q.level)
      invariant fixed.Length == 3 && fixed[..3] == event.attrs
    {
      assert cs[..i + 1][..i] == cs[..i] && cs[..i + 1] == cs[..i] + [cs[i]];
      JsonControlWrites(fate, w', q.ctx, cs[i], event);
      if BelowLevel(cs[i], q.level) {
        continue;
      }
      wrote := true;
      var text := AppendJSONFixedEvent(q.time, q.level, logger, q.message, fixed, 3);
      w' := WriteJson(fate, w', cs[i].appender.value.id, q.ctx, text);
    }
    assert cs[..|cs|] == cs;
    handled := wrote || w'.errors != [];
  }

  // ----- The handler

  datatype Plan = Plan(globalFilters: seq<Filter>, route: Route)

  /** Logging as it would be without the fast path: the event is always built. */
  function LogSlowly(fate: Fate, w: World, plan: Plan, async: bool, q: Request, attrs: seq<Attr>): World {
    var event := EventOf(q, attrs, async);
    var decision := Apply(plan.globalFilters, event);
    if decision.Deny? || (!decision.Accept? && q.level < plan.route.level) then w
    else if async then Do(fate, w, Queued(event, decision.Accept?))
    else DispatchRoute(fate, w, q.ctx, plan.route, event)
  }

  /** The global filters decide first: Deny drops the event, Accept overrides the level of the
      route, otherwise the level must be high enough. What passes is queued or dispatched. */
  ghost predicate Logged(
    fate: Fate, w: World, plan: Plan, async: bool, q: Request, attrs: seq<Attr>, w': World)
  {
    exists event, d :: Carries(q, attrs, event) && Decided(plan.globalFilters, event, d) &&
      if d.Deny? || (d.Neutral? && q.level < plan.route.level) then w' == w
      else if async then Did(fate, w, Queued(event, d.Accept?), w')
      else Dispatched(fate, q.ctx, plan.route, event, w, w')
  }

  lemma SlowlyLogged(fate: Fate, w: World, plan: Plan, async: bool, q: Request, attrs: seq<Attr>)
    ensures Logged(fate, w, plan, async, q, attrs, LogSlowly(fate, w, plan, async, q, attrs))
  {
    hide Carries, Decided, Dispatched, Apply;
    var event := EventOf(q, attrs, async);
    EventCarries(q, attrs, async);
    ApplyDecides(plan.globalFilters, event);
    RouteIsDispatched(fate, w, q.ctx, plan.route, event);
    assert w.errors + [] == w.errors;
  }

  /** logAttrs. */
  method LogAttrs(fate: Fate, w: World, plan: Plan, async: bool, q: Request, attrs: seq<Attr>) returns (w': World)
    requires ValidContext(q.ctx) && w.errors == []
    ensures w' == LogSlowly(fate, w, plan, async, q, attrs)
    ensures Logged(fate, w, plan, async, q, attrs, w')
  {
    hide Logged;
    SlowlyLogged(fate, w, plan, async, q, attrs);
    if plan.globalFilters == [] {
      if q.level < plan.route.level {
        return w;
      }
      if !async && q.pc == 0 {
        var handled, fast := DispatchAttrsFast(fate, w, q, plan.route, attrs);
        if handled {
          return fast;
        }
      }
    }
    var event := EventOf(q, attrs, async);
    var decision := Apply(plan.globalFilters, event);
    if decision.Deny? || (!decision.Accept? && q.level < plan.route.level) {
      return w;
    }
    if async {
      return Do(fate, w, Queued(event, decision.Accept?));
    }
    return DispatchRoute(fate, w, q.ctx, plan.route, event);
  }

  /** log3Attrs: both fast paths together still cannot be told from the slow one. */
  method Log3Attrs(fate: Fate, w: World, plan: Plan, async: bool, q: Request, a0: Attr, a1: Attr, a2: Attr)
    returns (w': World)
    requires ValidContext(q.ctx) && w.errors == []
    ensures w' == LogSlowly(fate, w, plan, async, q, [a0, a1, a2])
    ensures Logged(fate, w, plan, async, q, [a0, a1, a2], w')
  {
    hide Logged;
    SlowlyLogged(fate, w, plan, async, q, [a0, a1, a2]);
    if plan.globalFilters == [] {
      if q.level < plan.route.level {
        return w;
      }
      if !async && q.pc == 0 {
        var handled, fast := DispatchFixedAttrsFast(fate, w, q, plan.route, a0, a1, a2);
        if handled {
          return fast;
        }
      }
    }
    w' := LogAttrs(fate, w, plan, async, q, [a0, a1, a2]);
  }
}
