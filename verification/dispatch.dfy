/** From a configuration text to the handler that answers a request. */
module Dispatch {
  import opened CxxStrings
  import opened ConfigTree
  import opened Scanner
  import opened StackMachine
  import opened Bindings
  import opened AddressMap
  import opened RoundTrip
  import opened Routing

  datatype HandlerKind = Static | Echo | Crud | Blocking | Health | TextGen | Missing

  /** `t` is the configuration's name for `kind`; a handler of any other name answers "not found". */
  predicate NamesKind(t: string, kind: HandlerKind) {
    match kind
    case Static => t == "StaticHandler"
    case Echo => t == "EchoHandler"
    case Crud => t == "CrudHandler"
    case Blocking => t == "BlockHandler"
    case Health => t == "HealthHandler"
    case TextGen => t == "TextGenHandler"
    case Missing =>
      t !in ["StaticHandler", "EchoHandler", "CrudHandler", "BlockHandler", "HealthHandler", "TextGenHandler"]
  }

  datatype Factory = Factory(kind: HandlerKind, arg: ConfigArg)

  /** A handler object: its kind, URL prefix and directory, and the key a text-generation handler gets. */
  datatype Handler = Handler(kind: HandlerKind, prefix: string, dir: string, apiKey: string)

  function Create(f: Factory): Handler {
    Handler(f.kind, f.arg.location, f.arg.root, if f.kind == TextGen then f.arg.apiKey else "")
  }

  /** A factory for the record, of the kind that its type names. */
  predicate IsFactoryFor(f: Factory, arg: ConfigArg) {
    f.arg == arg && NamesKind(arg.handlerType, f.kind)
  }

  /** One factory for each record. */
  ghost predicate IsTableOf(routes: map<string, Factory>, addrs: map<string, ConfigArg>) {
    routes.Keys == addrs.Keys && forall l :: l in addrs ==> IsFactoryFor(routes[l], addrs[l])
  }

  /** `routes` is `was` with factories for the records of `keys` put in. */
  ghost predicate HasFactories(routes: map<string, Factory>, was: map<string, Factory>,
                               addrs: map<string, ConfigArg>, keys: set<string>)
  {
    && keys <= addrs.Keys && routes.Keys == was.Keys + keys
    && (forall l :: l in was && l !in keys ==> routes[l] == was[l])
    && (forall l :: l in keys ==> IsFactoryFor(routes[l], addrs[l]))
  }

  lemma OneFactoryMore(routes: map<string, Factory>, was: map<string, Factory>, addrs: map<string, ConfigArg>,
                       keys: set<string>, l: string, f: Factory)
    requires HasFactories(routes, was, addrs, keys) && l in addrs && IsFactoryFor(f, addrs[l])
    ensures HasFactories(routes[l := f], was, addrs, keys + {l})
  {
  }

  lemma KindsByName(f: Factory, arg: ConfigArg)
    requires IsFactoryFor(f, arg)
    ensures f.arg == arg
    ensures f.kind == Static <==> arg.handlerType == "StaticHandler"
    ensures f.kind == Echo <==> arg.handlerType == "EchoHandler"
    ensures f.kind == Crud <==> arg.handlerType == "CrudHandler"
    ensures f.kind == Blocking <==> arg.handlerType == "BlockHandler"
    ensures f.kind == Health <==> arg.handlerType == "HealthHandler"
    ensures f.kind == TextGen <==> arg.handlerType == "TextGenHandler"
  {
  }

  const HANDLER_TYPES: set<string> := {
    "StaticHandler", "EchoHandler", "NotFoundHandler", "CrudHandler", "BlockHandler", "HealthHandler", "TextGenHandler"
  }

  /** The main program starts the server only if every record has one of these types. */
  predicate Starts(addrs: map<string, ConfigArg>) {
    forall l :: l in addrs ==> addrs[l].handlerType in HANDLER_TYPES
  }

  /** The main program's test of the records, whatever the order they come in. */
  method CheckHandlerTypes(addrmap: map<string, ConfigArg>) returns (validHandler: bool)
    ensures validHandler <==> forall l :: l in addrmap ==>
              || addrmap[l].handlerType == "StaticHandler" || addrmap[l].handlerType == "EchoHandler"
              || addrmap[l].handlerType == "NotFoundHandler" || addrmap[l].handlerType == "CrudHandler"
              || addrmap[l].handlerType == "BlockHandler" || addrmap[l].handlerType == "HealthHandler"
              || addrmap[l].handlerType == "TextGenHandler"
    ensures validHandler <==> Starts(addrmap)
  {
    validHandler := true;
    var rest := addrmap.Keys;
    while rest != {}
      invariant rest <= addrmap.Keys
      invariant validHandler <==> forall l :: l in addrmap && l !in rest ==> addrmap[l].handlerType in HANDLER_TYPES
      decreases rest
    {
      var location :| location in rest;
      if addrmap[location].handlerType !in HANDLER_TYPES {
        validHandler := false;
      }
      rest := rest - {location};
    }
  }

  lemma SearchFindsRoute(routes: set<string>, target: string)
    ensures RouteOf(routes, target).Some? ==> RouteOf(routes, target).value in routes
  {
    LongestBoundaryMatch(routes, target);
  }

  /** The server's table of routes. */
  class RouteTable {
    var routes: map<string, Factory>

    constructor ()
      ensures routes == map[]
    {
      routes := map[];
    }

    /** One factory for each record, whatever the order they come in. */
    method CreateDispatcher(addrmap: map<string, ConfigArg>)
      modifies this
      ensures routes.Keys == old(routes.Keys) + addrmap.Keys
      ensures forall l :: l in old(routes) && l !in addrmap ==> routes[l] == old(routes)[l]
      ensures forall l :: l in addrmap ==>
                && routes[l].arg == addrmap[l]
                && (routes[l].kind == Static <==> addrmap[l].handlerType == "StaticHandler")
                && (routes[l].kind == Echo <==> addrmap[l].handlerType == "EchoHandler")
                && (routes[l].kind == Crud <==> addrmap[l].handlerType == "CrudHandler")
                && (routes[l].kind == Blocking <==> addrmap[l].handlerType == "BlockHandler")
                && (routes[l].kind == Health <==> addrmap[l].handlerType == "HealthHandler")
                && (routes[l].kind == TextGen <==> addrmap[l].handlerType == "TextGenHandler")
      ensures old(routes) == map[] ==> IsTableOf(routes, addrmap)
    {
      ghost var was := routes;
      var rest := addrmap.Keys;
      while rest != {}
        invariant rest <= addrmap.Keys
        invariant HasFactories(routes, was, addrmap, addrmap.Keys - rest)
        decreases rest
      {
        var location :| location in rest;
        var arg := addrmap[location];
        var handlerType := arg.handlerType;
        ghost var before, done := routes, addrmap.Keys - rest;
        if handlerType == "StaticHandler" {
          routes := routes[location := Factory(Static, arg)];
        } else if handlerType == "EchoHandler" {
          routes := routes[location := Factory(Echo, arg)];
        } else if handlerType == "CrudHandler" {
          routes := routes[location := Factory(Crud, arg)];
        } else if handlerType == "BlockHandler" {
          routes := routes[location := Factory(Blocking, arg)];
        } else if handlerType == "HealthHandler" {
          routes := routes[location := Factory(Health, arg)];
        } else if handlerType == "TextGenHandler" {
          routes := routes[location := Factory(TextGen, arg)];
        } else {
          routes := routes[location := Factory(Missing, arg)];
        }
        OneFactoryMore(before, was, addrmap, done, location, routes[location]);
        rest := rest - {location};
        assert addrmap.Keys - rest == done + {location};
      }
      KindsInTable(routes, addrmap);
    }

    /** The handler made for a target; `None` is a bad request. */
    method HandlerFor(target: string) returns (handler: Option<Handler>)
      ensures match RouteOf(routes.Keys, target)
              case None => handler == None
              case Some(l) => l in routes && handler == Some(Create(routes[l]))
    {
      SearchFindsRoute(routes.Keys, target);
      var found, location := SearchAddrBinding(routes.Keys, target + "/");
      if found {
        return Some(Create(routes[location]));
      }
      return None;
    }
  }

  lemma KindsInTable(routes: map<string, Factory>, addrs: map<string, ConfigArg>)
    requires forall l :: l in addrs ==> l in routes && IsFactoryFor(routes[l], addrs[l])
    ensures forall l :: l in addrs ==>
              && routes[l].arg == addrs[l]
              && (routes[l].kind == Static <==> addrs[l].handlerType == "StaticHandler")
              && (routes[l].kind == Echo <==> addrs[l].handlerType == "EchoHandler")
              && (routes[l].kind == Crud <==> addrs[l].handlerType == "CrudHandler")
              && (routes[l].kind == Blocking <==> addrs[l].handlerType == "BlockHandler")
              && (routes[l].kind == Health <==> addrs[l].handlerType == "HealthHandler")
              && (routes[l].kind == TextGen <==> addrs[l].handlerType == "TextGenHandler")
  {
    forall l | l in addrs
      ensures var f, t := routes[l], addrs[l].handlerType;
              && f.arg == addrs[l]
              && (f.kind == Static <==> t == "StaticHandler") && (f.kind == Echo <==> t == "EchoHandler")
              && (f.kind == Crud <==> t == "CrudHandler") && (f.kind == Blocking <==> t == "BlockHandler")
              && (f.kind == Health <==> t == "HealthHandler") && (f.kind == TextGen <==> t == "TextGenHandler")
    {
      KindsByName(routes[l], addrs[l]);
    }
  }

  /** What the factory of a record makes: the kind is the one that its type names, the location and the
      directory are its own, and its key goes to a text-generation handler only. */
  lemma HandlerMade(routes: map<string, Factory>, addrs: map<string, ConfigArg>, l: string)
    requires IsTableOf(routes, addrs) && KeysMatch(addrs) && l in addrs
    ensures var h, t := Create(routes[l]), addrs[l].handlerType;
            && h.prefix == l && h.dir == addrs[l].root
            && h.apiKey == (if t == "TextGenHandler" then addrs[l].apiKey else "")
            && (h.kind == Static <==> t == "StaticHandler") && (h.kind == Echo <==> t == "EchoHandler")
            && (h.kind == Crud <==> t == "CrudHandler") && (h.kind == Blocking <==> t == "BlockHandler")
            && (h.kind == Health <==> t == "HealthHandler") && (h.kind == TextGen <==> t == "TextGenHandler")
            && (Starts(addrs) ==> (h.kind == Missing <==> t == "NotFoundHandler"))
  {
    assert NamesKind(addrs[l].handlerType, routes[l].kind);
  }

  /** Whatever the configuration text, accepted or not, and whatever table is made of its map: the
      handler made for a target has the route that was matched as its prefix, so that the search and the
      handler's own check agree. It is of the kind that the record's type names, with the record's
      directory, and with its key only for text generation. */
  lemma ConfigToHandler(text: string, target: string, forGet: bool, routes: map<string, Factory>)
    requires !ParseText(text, map[]).Undefined?
    requires IsTableOf(routes, ParseText(text, map[]).state.env.addrs)
    ensures var addrs := ParseText(text, map[]).state.env.addrs;
            && routes.Keys == addrs.Keys
            && match RouteOf(routes.Keys, target)
               case None => true
               case Some(l) =>
                 && l in addrs
                 && var h, t := Create(routes[l]), addrs[l].handlerType;
                    && h.prefix == l && h.dir == addrs[l].root
                    && h.apiKey == (if t == "TextGenHandler" then addrs[l].apiKey else "")
                    && (h.kind == Static <==> t == "StaticHandler") && (h.kind == Echo <==> t == "EchoHandler")
                    && (h.kind == Crud <==> t == "CrudHandler") && (h.kind == Blocking <==> t == "BlockHandler")
                    && (h.kind == Health <==> t == "HealthHandler") && (h.kind == TextGen <==> t == "TextGenHandler")
                    && (Starts(addrs) ==> (h.kind == Missing <==> t == "NotFoundHandler"))
                    && (l != "/" ==> (RequestKey(h.prefix, target, forGet).Some? <==> target != l + "/" || forGet))
  {
    RunKeepsKeys(Running(Initial(map[])), Tokens(text));
    var addrs := ParseText(text, map[]).state.env.addrs;
    SearchFindsRoute(addrs.Keys, target);
    var found := RouteOf(addrs.Keys, target);
    if found.Some? {
      HandlerMade(routes, addrs, found.value);
      if found.value != "/" {
        DispatchAgrees(addrs.Keys, target, forGet);
      }
    }
  }

  /** The whole chain from a configuration tree: written out, scanned, parsed, bound and dispatched.
      The server starts exactly if the last type that document order gives each location is a handler's.
      The routes are the locations that the tree binds. The target is served at the best of them, and
      only if there is one, with the handler type, directory and key that come last in document order. */
  lemma TreeServes(config: seq<Statement>, target: string, routes: map<string, Factory>)
    requires Shaped(config, IsPrintable) && config != []
    requires var o := ParseText(PrintConfig(config, 0), map[]); o.Accepted? ==> IsTableOf(routes, o.state.env.addrs)
    ensures ParseText(PrintConfig(config, 0), map[]).Accepted?
    ensures var events := ConfigEvents(config, []);
            var addrs := ParseText(PrintConfig(config, 0), map[]).state.env.addrs;
            var found := RouteOf(routes.Keys, target);
            && (Starts(addrs) <==> forall l, t :: TypeSaid(map[], events, l, t) ==>
                  t in ["StaticHandler", "EchoHandler", "NotFoundHandler", "CrudHandler", "BlockHandler",
                        "HealthHandler", "TextGenHandler"])
            && (forall l :: l in routes <==> exists e :: e in events && Concerns(e, l))
            && IsBestRoute(routes.Keys, target, found)
            && (found.Some? ==> found.value in routes && ServesLast(events, found.value, routes[found.value]))
  {
    PrintThenParse(config, map[]);
    var events := ConfigEvents(config, []);
    var addrs := ParseText(PrintConfig(config, 0), map[]).state.env.addrs;
    StartsAsSaid(events, addrs);
    RoutesAsNamed(events, addrs, routes);
    LongestBoundaryMatch(routes.Keys, target);
    SearchFindsRoute(routes.Keys, target);
    var found := RouteOf(routes.Keys, target);
    if found.Some? {
      RecordServes(events, addrs, routes, found.value);
    }
  }

  lemma StartsAsSaid(events: seq<Event>, addrs: map<string, ConfigArg>)
    requires addrs == ApplyAll(Env(-1, map[]), events).addrs
    ensures Starts(addrs) <==> forall l, t :: TypeSaid(map[], events, l, t) ==>
              t in ["StaticHandler", "EchoHandler", "NotFoundHandler", "CrudHandler", "BlockHandler", "HealthHandler",
                    "TextGenHandler"]
  {
    assert forall t :: t in HANDLER_TYPES <==>
      t in ["StaticHandler", "EchoHandler", "NotFoundHandler", "CrudHandler", "BlockHandler", "HealthHandler",
            "TextGenHandler"];
    forall l, t
      ensures TypeSaid(map[], events, l, t) <==> l in addrs && addrs[l].handlerType == t
    {
      SaidType(map[], events, l, t);
    }
    if forall l, t :: TypeSaid(map[], events, l, t) ==> t in HANDLER_TYPES {
      forall l | l in addrs
        ensures addrs[l].handlerType in HANDLER_TYPES
      {
        assert TypeSaid(map[], events, l, addrs[l].handlerType);
      }
    }
  }

  lemma RoutesAsNamed(events: seq<Event>, addrs: map<string, ConfigArg>, routes: map<string, Factory>)
    requires addrs == ApplyAll(Env(-1, map[]), events).addrs && IsTableOf(routes, addrs)
    ensures forall l :: l in routes <==> exists e :: e in events && Concerns(e, l)
  {
    forall l
      ensures l in routes <==> exists e :: e in events && Concerns(e, l)
    {
      RecordMeaning(map[], events, l, 0);
      assert forall e :: IsAbout(l)(e) <==> Concerns(e, l);
    }
  }

  /** The handler that a factory makes for location `l` is what the last events about `l` say. */
  ghost predicate ServesLast(events: seq<Event>, l: string, f: Factory) {
    var h := Create(f);
    && h.prefix == l && RootSaid(map[], events, l, h.dir)
    && exists t :: TypeSaid(map[], events, l, t) && NamesKind(t, h.kind) &&
         if t == "TextGenHandler" then KeySaid(map[], events, l, h.apiKey) else h.apiKey == ""
  }

  lemma RecordServes(events: seq<Event>, addrs: map<string, ConfigArg>, routes: map<string, Factory>, l: string)
    requires addrs == ApplyAll(Env(-1, map[]), events).addrs && IsTableOf(routes, addrs) && l in addrs
    ensures ServesLast(events, l, routes[l])
  {
    RecordMeaning(map[], events, l, 0);
    SaidType(map[], events, l, addrs[l].handlerType);
    SaidRoot(map[], events, l, addrs[l].root);
    SaidKey(map[], events, l, addrs[l].apiKey);
    assert NamesKind(addrs[l].handlerType, routes[l].kind);
  }
}
