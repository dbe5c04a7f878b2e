/** What a configuration binds: the events of its tree in document order, and what they come to when
    the last writer wins. */
module Bindings {
  import opened CxxStrings
  import opened ConfigTree
  import opened StackMachine

  // ---------- what the finished tree says ----------

  datatype Event =
    | SetsPort(port: int)
    | SetsRoot(location: string, handlerType: string, value: string)
    | SetsKey(location: string, handlerType: string, value: string)
    | Resets(location: string, handlerType: string)

  /** The event of the pair of words `key value`, inside a block whose statement has the words `parent`. */
  function PairEvents(key: string, value: string, parent: seq<string>): seq<Event> {
    if key == "listen" then [SetsPort(SafePort(value))]
    else if Location(parent) == "" || HandlerType(parent) == "" then []
    else if key == "root" || key == "data_path" then [SetsRoot(Location(parent), HandlerType(parent), value)]
    else if key == "api-key" then [SetsKey(Location(parent), HandlerType(parent), value)]
    else []
  }

  function TokenEvents(tokens: seq<string>, parent: seq<string>): seq<Event> {
    if |tokens| < 2 then []
    else TokenEvents(Front(tokens), parent) + PairEvents(tokens[|tokens| - 2], Last(tokens), parent)
  }

  function ChildEvents(tokens: seq<string>, child: Child): seq<Event>
    decreases child
  {
    match child
    case NoBlock => []
    case Block(statements) =>
      if statements != [] then ConfigEvents(statements, tokens)
      else if IsLocation(tokens) then [Resets(Location(tokens), HandlerType(tokens))]
      else []
  }

  /** The events of a block in document order. */
  function ConfigEvents(config: seq<Statement>, parent: seq<string>): seq<Event>
    decreases config
  {
    if config == [] then [] else
      var s := config[|config| - 1];
      ConfigEvents(config[..|config| - 1], parent) + TokenEvents(s.tokens, parent) + ChildEvents(s.tokens, s.child)
  }

  function Apply(env: Env, e: Event): Env {
    match e
    case SetsPort(port) => env.(port := port)
    case Resets(l, t) => env.(addrs := env.addrs[l := ConfigArg(t, l, "", "")])
    case SetsRoot(l, t, v) =>
      var prior := if l in env.addrs then env.addrs[l] else ConfigArg("", "", "", "");
      env.(addrs := env.addrs[l := ConfigArg(t, l, v, prior.apiKey)])
    case SetsKey(l, t, v) =>
      var prior := if l in env.addrs then env.addrs[l] else ConfigArg("", "", "", "");
      env.(addrs := env.addrs[l := ConfigArg(t, l, prior.root, v)])
  }

  function ApplyAll(env: Env, events: seq<Event>): Env {
    if events == [] then env else Apply(ApplyAll(env, Front(events)), Last(events))
  }

  lemma {:induction false} ApplyAppend(env: Env, es: seq<Event>, fs: seq<Event>)
    ensures ApplyAll(env, es + fs) == ApplyAll(ApplyAll(env, es), fs)
    decreases |fs|
  {
    if fs == [] {
      assert es + fs == es;
    } else {
      assert Front(es + fs) == es + Front(fs);
      ApplyAppend(env, es, Front(fs));
    }
  }

  // ---------- the parser's updates are these events ----------

  lemma BindIsApply(tokens: seq<string>, parent: seq<string>, w: string, env: Env)
    requires tokens != [] && BindWord(tokens, parent, w, env).Some?
    ensures BindWord(tokens, parent, w, env).value == ApplyAll(env, PairEvents(Last(tokens), w, parent))
  {
    var es := PairEvents(Last(tokens), w, parent);
    if es != [] {
      assert es == [es[0]] && Front(es) == [];
    }
  }

  lemma CloseEffect(env: Env, tokens: seq<string>, top: seq<Statement>)
    ensures top == [] ==> BindEmptyBlock(tokens, env) == ApplyAll(env, ChildEvents(tokens, Block(top)))
    ensures top != [] ==> ChildEvents(tokens, Block(top)) == ConfigEvents(top, tokens)
  {
    var es := ChildEvents(tokens, Block(top));
    if top == [] && IsLocation(tokens) {
      assert es == [Resets(Location(tokens), HandlerType(tokens))] && Front(es) == [];
    }
  }

  // ---------- what document order means: the last writer wins ----------

  predicate Concerns(e: Event, l: string) {
    !e.SetsPort? && e.location == l
  }

  /** `i` is the position of the last event that satisfies `p`. */
  ghost predicate IsLast(events: seq<Event>, p: Event -> bool, i: int) {
    0 <= i < |events| && p(events[i]) && forall j :: i < j < |events| ==> !p(events[j])
  }

  function IsPort(): Event -> bool {
    (e: Event) => e.SetsPort?
  }

  function IsAbout(l: string): Event -> bool {
    (e: Event) => Concerns(e, l)
  }

  /** An empty block takes a location's root and key away. */
  function WritesRoot(l: string): Event -> bool {
    (e: Event) => Concerns(e, l) && !e.SetsKey?
  }

  function WritesKey(l: string): Event -> bool {
    (e: Event) => Concerns(e, l) && !e.SetsRoot?
  }

  lemma {:induction false} LastIsUnchanged(es: seq<Event>, e: Event, p: Event -> bool, i: int)
    ensures IsLast(es + [e], p, i) <==> (if p(e) then i == |es| else IsLast(es, p, i))
  {
    var fs := es + [e];
    assert fs[|es|] == e && forall j :: 0 <= j < |es| ==> fs[j] == es[j];
    assert p(fs[|es|]) == p(e);
  }

  function ValueOf(e: Event): string
    requires !e.SetsPort?
  {
    if e.Resets? then "" else e.value
  }

  /** The port is the value of the last `listen`. */
  lemma {:induction false} PortMeaning(events: seq<Event>, env: Env, i: int)
    ensures IsLast(events, IsPort(), i) ==> ApplyAll(env, events).port == events[i].port
    ensures (forall e :: e in events ==> !e.SetsPort?) ==> ApplyAll(env, events).port == env.port
    decreases |events|
  {
    if events != [] {
      assert events == Front(events) + [Last(events)];
      LastIsUnchanged(Front(events), Last(events), IsPort(), i);
      PortMeaning(Front(events), env, i);
      assert Last(events) in events;
    }
  }

  /** No event is of the kind `p`. */
  ghost predicate NoneSatisfies(events: seq<Event>, p: Event -> bool) {
    forall e :: e in events ==> !p(e)
  }

  lemma NoneSnoc(es: seq<Event>, e: Event, p: Event -> bool)
    ensures NoneSatisfies(es + [e], p) <==> NoneSatisfies(es, p) && !p(e)
  {
    assert forall f :: f in es + [e] <==> f in es || f == e;
  }

  /** The record of a location. */
  function RecordOf(addrs: map<string, ConfigArg>, l: string): ConfigArg {
    if l in addrs then addrs[l] else ConfigArg("", l, "", "")
  }

  /** Filled in by events on top of `base`: a location is in the map exactly when it was or an event names
      it, its handler type is that of the last such event, its root and key are the last ones given since
      its last empty block; what no event writes is as it was. */
  ghost predicate RecordOk(base: map<string, ConfigArg>, addrs: map<string, ConfigArg>, events: seq<Event>, l: string,
                           i: int)
  {
    var was, now := RecordOf(base, l), RecordOf(addrs, l);
    var unnamed := NoneSatisfies(events, IsAbout(l));
    && (l in addrs <==> l in base || !unnamed)
    && now.location == (if unnamed then was.location else l)
    && (IsLast(events, IsAbout(l), i) ==> now.handlerType == events[i].handlerType)
    && (unnamed ==> now.handlerType == was.handlerType)
    && (IsLast(events, WritesRoot(l), i) ==> now.root == ValueOf(events[i]))
    && (NoneSatisfies(events, WritesRoot(l)) ==> now.root == was.root)
    && (IsLast(events, WritesKey(l), i) ==> now.apiKey == ValueOf(events[i]))
    && (NoneSatisfies(events, WritesKey(l)) ==> now.apiKey == was.apiKey)
  }

  lemma {:induction false} RecordMeaning(base: map<string, ConfigArg>, events: seq<Event>, l: string, i: int)
    ensures RecordOk(base, ApplyAll(Env(-1, base), events).addrs, events, l, i)
    decreases |events|
  {
    if events != [] {
      var es, e := Front(events), Last(events);
      RecordMeaning(base, es, l, i);
      RecordStep(base, ApplyAll(Env(-1, base), es), es, e, l, i);
      assert es + [e] == events;
    }
  }

  lemma RecordStep(base: map<string, ConfigArg>, env: Env, es: seq<Event>, e: Event, l: string, i: int)
    requires RecordOk(base, env.addrs, es, l, i)
    ensures RecordOk(base, Apply(env, e).addrs, es + [e], l, i)
  {
    NoneSnoc(es, e, IsAbout(l));
    NoneSnoc(es, e, WritesRoot(l));
    NoneSnoc(es, e, WritesKey(l));
    LastIsUnchanged(es, e, IsAbout(l), i);
    LastIsUnchanged(es, e, WritesRoot(l), i);
    LastIsUnchanged(es, e, WritesKey(l), i);
  }

  // ---------- what the last writers say ----------

  lemma {:induction false} LastExists(events: seq<Event>, p: Event -> bool) returns (i: int)
    ensures IsLast(events, p, i) || NoneSatisfies(events, p)
    decreases |events|
  {
    i := 0;
    if events != [] {
      var es, e := Front(events), Last(events);
      assert es + [e] == events;
      NoneSnoc(es, e, p);
      i := LastExists(es, p);
      LastIsUnchanged(es, e, p, i);
      if p(e) {
        i := |es|;
      }
    }
  }

  /** `v` is the port of the last `listen`, -1 without one. */
  ghost predicate PortSaid(events: seq<Event>, v: int) {
    || (exists i :: IsLast(events, IsPort(), i) && events[i].port == v)
    || (v == -1 && NoneSatisfies(events, IsPort()))
  }

  /** `v` is the handler type in the last event about `l`, or without one that in `base`. */
  ghost predicate TypeSaid(base: map<string, ConfigArg>, events: seq<Event>, l: string, v: string) {
    || (exists i :: IsLast(events, IsAbout(l), i) && events[i].handlerType == v)
    || (l in base && v == base[l].handlerType && NoneSatisfies(events, IsAbout(l)))
  }

  /** `v` is the location that the record of `l` carries. */
  ghost predicate LocationSaid(base: map<string, ConfigArg>, events: seq<Event>, l: string, v: string) {
    v == if NoneSatisfies(events, IsAbout(l)) then RecordOf(base, l).location else l
  }

  ghost predicate RootSaid(base: map<string, ConfigArg>, events: seq<Event>, l: string, v: string) {
    || (exists i :: IsLast(events, WritesRoot(l), i) && ValueOf(events[i]) == v)
    || (v == RecordOf(base, l).root && NoneSatisfies(events, WritesRoot(l)))
  }

  ghost predicate KeySaid(base: map<string, ConfigArg>, events: seq<Event>, l: string, v: string) {
    || (exists i :: IsLast(events, WritesKey(l), i) && ValueOf(events[i]) == v)
    || (v == RecordOf(base, l).apiKey && NoneSatisfies(events, WritesKey(l)))
  }

  lemma SaidPort(base: map<string, ConfigArg>, events: seq<Event>, v: int)
    ensures PortSaid(events, v) <==> ApplyAll(Env(-1, base), events).port == v
  {
    var i := LastExists(events, IsPort());
    PortMeaning(events, Env(-1, base), i);
    assert (forall e :: e in events ==> !IsPort()(e)) <==> NoneSatisfies(events, IsPort());
  }

  lemma OneLast(events: seq<Event>, p: Event -> bool, i: int)
    requires IsLast(events, p, i)
    ensures !NoneSatisfies(events, p) && forall j :: IsLast(events, p, j) ==> j == i
  {
    assert events[i] in events;
  }

  lemma SaidType(base: map<string, ConfigArg>, events: seq<Event>, l: string, v: string)
    ensures var addrs := ApplyAll(Env(-1, base), events).addrs;
            TypeSaid(base, events, l, v) <==> l in addrs && addrs[l].handlerType == v
  {
    var i := LastExists(events, IsAbout(l));
    RecordMeaning(base, events, l, i);
    if IsLast(events, IsAbout(l), i) {
      OneLast(events, IsAbout(l), i);
    }
  }

  lemma SaidRoot(base: map<string, ConfigArg>, events: seq<Event>, l: string, v: string)
    ensures RootSaid(base, events, l, v) <==> RecordOf(ApplyAll(Env(-1, base), events).addrs, l).root == v
  {
    var i := LastExists(events, WritesRoot(l));
    RecordMeaning(base, events, l, i);
    if IsLast(events, WritesRoot(l), i) {
      OneLast(events, WritesRoot(l), i);
    }
  }

  lemma SaidKey(base: map<string, ConfigArg>, events: seq<Event>, l: string, v: string)
    ensures KeySaid(base, events, l, v) <==> RecordOf(ApplyAll(Env(-1, base), events).addrs, l).apiKey == v
  {
    var i := LastExists(events, WritesKey(l));
    RecordMeaning(base, events, l, i);
    if IsLast(events, WritesKey(l), i) {
      OneLast(events, WritesKey(l), i);
    }
  }

  /** On top of `base` the last writers in two lists of events agree on the port, and on type, location,
      root and key of every location. */
  ghost predicate SameLastWriters(base: map<string, ConfigArg>, es: seq<Event>, fs: seq<Event>) {
    && (forall v :: PortSaid(es, v) <==> PortSaid(fs, v))
    && (forall l, v :: TypeSaid(base, es, l, v) <==> TypeSaid(base, fs, l, v))
    && (forall l, v :: LocationSaid(base, es, l, v) <==> LocationSaid(base, fs, l, v))
    && (forall l, v :: RootSaid(base, es, l, v) <==> RootSaid(base, fs, l, v))
    && (forall l, v :: KeySaid(base, es, l, v) <==> KeySaid(base, fs, l, v))
  }

  lemma SameRecord(base: map<string, ConfigArg>, es: seq<Event>, fs: seq<Event>, l: string)
    requires SameLastWriters(base, es, fs)
    ensures var a, b := ApplyAll(Env(-1, base), es).addrs, ApplyAll(Env(-1, base), fs).addrs;
            (l in a <==> l in b) && (l in a ==> a[l] == b[l])
  {
    var a, b := ApplyAll(Env(-1, base), es).addrs, ApplyAll(Env(-1, base), fs).addrs;
    var r, s := RecordOf(a, l), RecordOf(b, l);
    SaidType(base, es, l, r.handlerType);
    SaidType(base, fs, l, r.handlerType);
    SaidType(base, es, l, s.handlerType);
    SaidType(base, fs, l, s.handlerType);
    SaidRoot(base, es, l, r.root);
    SaidRoot(base, fs, l, r.root);
    SaidKey(base, es, l, r.apiKey);
    SaidKey(base, fs, l, r.apiKey);
    RecordMeaning(base, es, l, 0);
    RecordMeaning(base, fs, l, 0);
    assert LocationSaid(base, es, l, r.location) && LocationSaid(base, fs, l, s.location);
  }

  lemma SameSaid(base: map<string, ConfigArg>, es: seq<Event>, fs: seq<Event>, l: string, v: string)
    requires ApplyAll(Env(-1, base), es) == ApplyAll(Env(-1, base), fs)
    ensures TypeSaid(base, es, l, v) <==> TypeSaid(base, fs, l, v)
    ensures LocationSaid(base, es, l, v) <==> LocationSaid(base, fs, l, v)
    ensures RootSaid(base, es, l, v) <==> RootSaid(base, fs, l, v)
    ensures KeySaid(base, es, l, v) <==> KeySaid(base, fs, l, v)
  {
    SaidType(base, es, l, v);
    SaidType(base, fs, l, v);
    SaidRoot(base, es, l, v);
    SaidRoot(base, fs, l, v);
    SaidKey(base, es, l, v);
    SaidKey(base, fs, l, v);
    RecordMeaning(base, es, l, 0);
    RecordMeaning(base, fs, l, 0);
  }

  /** On top of any map, two lists of events bind the same exactly when their last writers agree. */
  lemma BindSame(base: map<string, ConfigArg>, es: seq<Event>, fs: seq<Event>)
    ensures ApplyAll(Env(-1, base), es) == ApplyAll(Env(-1, base), fs) <==> SameLastWriters(base, es, fs)
  {
    var a, b := ApplyAll(Env(-1, base), es), ApplyAll(Env(-1, base), fs);
    if SameLastWriters(base, es, fs) {
      SaidPort(base, es, a.port);
      SaidPort(base, fs, a.port);
      forall l
        ensures (l in a.addrs <==> l in b.addrs) && (l in a.addrs ==> a.addrs[l] == b.addrs[l])
      {
        SameRecord(base, es, fs, l);
      }
      assert a.addrs == b.addrs;
    }
    if a == b {
      forall l: string, v: string
        ensures TypeSaid(base, es, l, v) <==> TypeSaid(base, fs, l, v)
        ensures LocationSaid(base, es, l, v) <==> LocationSaid(base, fs, l, v)
        ensures RootSaid(base, es, l, v) <==> RootSaid(base, fs, l, v)
        ensures KeySaid(base, es, l, v) <==> KeySaid(base, fs, l, v)
      {
        SameSaid(base, es, fs, l, v);
      }
      forall v
        ensures PortSaid(es, v) <==> PortSaid(fs, v)
      {
        SaidPort(base, es, v);
        SaidPort(base, fs, v);
      }
    }
  }
}
