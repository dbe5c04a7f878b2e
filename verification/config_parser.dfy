/** The parser: one loop over the token stream that grows the configuration objects, the port and
    the address map, proved against the transition function of the stack machine. */
module ConfigParser {
  import opened CxxStrings
  import opened ConfigTree
  import opened Scanner
  import opened StackMachine
  import opened StreamShape
  import opened ConfigObjects

  lemma RunTokens(s: State, text: string)
    ensures var r := Scan(text);
            Run(Running(s), Tokens(text)) ==
            if Final(r.token) then Step(s, r.token) else Run(Step(s, r.token), Tokens(r.rest))
  {
    var r := Scan(text);
    if Final(r.token) {
      RunOne(Running(s), r.token);
    } else {
      assert Tokens(text)[1..] == Tokens(r.rest);
    }
  }

  /** `stoi` with its exceptions caught, and the range check. */
  method SafePortStoi(text: string) returns (result: int)
    ensures result == SafePort(text)
  {
    result := -1;
    match Stoi(text) {
      case Some(v) => result := v;
      case None =>
    }
    if result < 0 || result > 65535 {
      result := -1;
    }
  }

  /** `root` and `data_path`, inside the block of a location. */
  method UpdateRoot(stack: ConfigStack, token: string, addrmap: map<string, ConfigArg>)
    returns (addrmap': map<string, ConfigArg>)
    requires stack.Valid() && stack.layers != []
    modifies stack`stack
    ensures stack.Valid() && stack.stack == old(stack.stack)
    ensures addrmap' == BindRoot(ParentTokens(stack.layers), token, addrmap)
  {
    addrmap' := addrmap;
    var location, configType := "", "";
    var parent := stack.OwnerTokens();
    if |parent| >= 3 && parent[|parent| - 3] == "location" {
      location := parent[|parent| - 2];
      configType := parent[|parent| - 1];
    }
    if location != "" && configType != "" {
      if location in addrmap' {
        addrmap' := addrmap'[location := addrmap'[location].(handlerType := configType)];
        addrmap' := addrmap'[location := addrmap'[location].(location := location)];
        addrmap' := addrmap'[location := addrmap'[location].(root := token)];
      } else {
        addrmap' := addrmap'[location := ConfigArg(configType, location, token, "")];
      }
    }
  }

  /** `api-key`, inside the block of a location. */
  method UpdateApiKey(stack: ConfigStack, token: string, addrmap: map<string, ConfigArg>)
    returns (addrmap': map<string, ConfigArg>)
    requires stack.Valid() && stack.layers != []
    modifies stack`stack
    ensures stack.Valid() && stack.stack == old(stack.stack)
    ensures addrmap' == BindApiKey(ParentTokens(stack.layers), token, addrmap)
  {
    addrmap' := addrmap;
    var location, configType := "", "";
    var parent := stack.OwnerTokens();
    if |parent| >= 3 && parent[|parent| - 3] == "location" {
      location := parent[|parent| - 2];
      configType := parent[|parent| - 1];
    }
    if location != "" && configType != "" {
      if location in addrmap' {
        addrmap' := addrmap'[location := addrmap'[location].(handlerType := configType)];
        addrmap' := addrmap'[location := addrmap'[location].(location := location)];
        addrmap' := addrmap'[location := addrmap'[location].(apiKey := token)];
      } else {
        addrmap' := addrmap'[location := ConfigArg(configType, location, "", token)];
      }
    }
  }

  /** The effect of a word on port and address map, from the words before it in its statement. */
  method BindToken(stack: ConfigStack, tokens: seq<string>, token: string, port: int, addrmap: map<string, ConfigArg>)
    returns (ok: bool, port': int, addrmap': map<string, ConfigArg>)
    requires stack.Valid() && stack.layers != []
    modifies stack`stack
    ensures stack.Valid() && stack.stack == old(stack.stack)
    ensures var e := BindWord(tokens, ParentTokens(stack.layers), token, Env(port, addrmap));
            ok == e.Some? && Env(port', addrmap') == if ok then e.value else Env(port, addrmap)
  {
    ok, port', addrmap' := true, port, addrmap;
    if tokens != [] {
      var lastToken := tokens[|tokens| - 1];
      if lastToken == "listen" {
        var currport := SafePortStoi(token);
        if currport != -1 {
          port' := currport;
        } else {
          ok := false;
        }
      } else if lastToken == "root" || lastToken == "data_path" {
        addrmap' := UpdateRoot(stack, token, addrmap);
      } else if lastToken == "api-key" {
        addrmap' := UpdateApiKey(stack, token, addrmap);
      }
    }
  }

  /** A word that starts a statement. */
  method TakeFirstWord(stack: ConfigStack, token: string)
    requires stack.Valid() && stack.layers != []
    modifies stack, stack.Repr
    ensures stack.Valid() && fresh(stack.Repr - old(stack.Repr)) && stack.stack == old(stack.stack)
    ensures stack.layers == Front(old(stack.layers)) + [Last(old(stack.layers)) + [Statement([token], NoBlock)]]
  {
    ghost var top, front := Last(stack.layers), Front(stack.layers);
    stack.AddStatement();
    assert Front(stack.layers) == front && Last(stack.layers) == top + [Statement([], NoBlock)];
    stack.AddToBack(token);
    assert Front(top + [Statement([], NoBlock)]) == top && [] + [token] == [token];
  }

  /** A word. */
  method TakeWord(stack: ConfigStack, ghost s: State, last: Kind, token: string, port: int, addrmap: map<string,
                  ConfigArg>)
    returns (ok: bool, port': int, addrmap': map<string, ConfigArg>)
    requires stack.Valid() && s == State(stack.layers, last, s.depth, Env(port, addrmap))
    requires !StepWord(s, token).Undefined?
    modifies stack, stack.Repr
    ensures stack.Valid() && fresh(stack.Repr - old(stack.Repr)) && stack.stack == old(stack.stack)
    ensures StepWord(s, token) ==
            if ok then Running(State(stack.layers, Normal, s.depth, Env(port', addrmap'))) else Rejected(s)
    ensures !ok ==> port' == port && addrmap' == addrmap
  {
    ok, port', addrmap' := true, port, addrmap;
    if last != Normal {
      TakeFirstWord(stack, token);
    } else {
      var tokens := stack.BackTokens();
      ok, port', addrmap' := BindToken(stack, tokens, token, port, addrmap);
      if ok {
        stack.AddToBack(token);
      }
    }
  }

  /** A block that has just been closed without a statement in it. */
  method CloseEmptyBlock(stack: ConfigStack, ghost port: int, addrmap: map<string, ConfigArg>)
    returns (addrmap': map<string, ConfigArg>)
    requires stack.Valid() && stack.layers != [] && Last(stack.layers) != []
    ensures BindEmptyBlock(Last(Last(stack.layers)).tokens, Env(port, addrmap)) == Env(port, addrmap')
  {
    addrmap' := addrmap;
    var previous := stack.BackTokens();
    if |previous| >= 3 && previous[|previous| - 3] == "location" {
      var location := previous[|previous| - 2];
      var configType := previous[|previous| - 1];
      addrmap' := addrmap'[location := ConfigArg(configType, location, "", "")];
    }
  }

  /** A closing bracket whose predecessor is in order. */
  method TakeClose(stack: ConfigStack, ghost s: State, last: Kind, ghost port: int, addrmap: map<string, ConfigArg>)
    returns (addrmap': map<string, ConfigArg>)
    requires stack.Valid() && s == State(stack.layers, last, s.depth, Env(port, addrmap))
    requires !StepClose(s).Undefined? && !StepClose(s).Rejected?
    modifies stack, stack.Repr
    ensures stack.Valid() && stack.Repr == old(stack.Repr) && stack.stack == Front(old(stack.stack))
    ensures StepClose(s) == Running(State(stack.layers, Close, s.depth - 1, Env(port, addrmap')))
  {
    addrmap' := addrmap;
    if |stack.stack| == 1 {
      stack.PopRoot();
    } else {
      stack.Pop();
      OwnerOnTop(s, stack.layers);
      if last == Open {
        addrmap' := CloseEmptyBlock(stack, port, addrmap);
      }
    }
  }

  /** The stack after a closing bracket has the owner of the closed block on top. */
  lemma OwnerOnTop(s: State, now: seq<seq<Statement>>)
    requires |s.layers| >= 2 && Last(Front(s.layers)) != [] && !StepClose(s).Rejected?
    requires now == Front(Front(s.layers)) + [SetChild(Last(Front(s.layers)), Block(Last(s.layers)))]
    ensures now != [] && Last(now) != []
    ensures StepClose(s) == Running(State(now, Close, s.depth - 1,
                              if s.last == Open then BindEmptyBlock(Last(Last(now)).tokens, s.env) else s.env))
  {
    assert Last(now) == SetChild(Last(Front(s.layers)), Block(Last(s.layers)));
  }

  /** The locals of the parser's loop. */
  datatype Locals = Locals(last: Kind, remainingBracket: int, port: int, addrmap: map<string, ConfigArg>)

  /** A word, with its effect on the locals. */
  method TakeText(stack: ConfigStack, ghost s: State, token: string, l: Locals) returns (more: bool, l': Locals)
    requires stack.Valid() && s == StateOf(stack.layers, l) && !StepWord(s, token).Undefined?
    modifies stack, stack.Repr
    ensures stack.Valid() && fresh(stack.Repr - old(stack.Repr)) && stack.stack == old(stack.stack)
    ensures StepWord(s, token) == if more then Running(StateOf(stack.layers, l')) else Rejected(s)
    ensures !more ==> l'.port == l.port && l'.addrmap == l.addrmap
  {
    var accepted, port, addrmap := TakeWord(stack, s, l.last, token, l.port, l.addrmap);
    return accepted, l.(last := Normal, port := port, addrmap := addrmap);
  }

  /** A bracket. */
  method TakeBracket(stack: ConfigStack, ghost s: State, token: Token, l: Locals) returns (more: bool, l': Locals)
    requires stack.Valid() && s == StateOf(stack.layers, l)
    requires (token.StartBlock? || token.EndBlock?) && !Step(s, token).Undefined?
    modifies stack, stack.Repr
    ensures stack.Valid() && fresh(stack.Repr - old(stack.Repr))
    ensures SameBottom(old(stack.stack), stack.stack)
    ensures Step(s, token) == if more then Running(StateOf(stack.layers, l')) else Rejected(s)
    ensures !more ==> l'.port == l.port && l'.addrmap == l.addrmap
  {
    more, l' := true, l;
    if token.StartBlock? {
      l' := l'.(remainingBracket := l'.remainingBracket + 1);
      stack.Push();
      l' := l'.(last := Open);
    } else {
      l' := l'.(remainingBracket := l'.remainingBracket - 1);
      if l.last != End && l.last != Open && l.last != Close {
        more := false;
      } else {
        var addrmap := TakeClose(stack, s, l.last, l.port, l.addrmap);
        l' := l'.(last := Close, addrmap := addrmap);
      }
    }
  }

  /** A token that leaves the stack alone. */
  method TakeMark(ghost s: State, token: Token, l: Locals) returns (more: bool, ok: bool, l': Locals)
    requires !token.Word? && !token.StartBlock? && !token.EndBlock?
    requires s == StateOf(s.layers, l)
    ensures more ==> !ok && !Final(token) && Step(s, token) == Running(StateOf(s.layers, l'))
    ensures !more ==> l'.port == l.port && l'.addrmap == l.addrmap
    ensures !more ==> Step(s, token) == if ok then Accepted(s) else Rejected(s)
  {
    more, ok, l' := true, false, l;
    match token
    case Error =>
      more := false;
    case Comment =>
    case StatementEnd =>
      if l.last != Normal {
        more := false;
      }
      l' := l.(last := End);
    case Eof =>
      more := false;
      if l.last != End && l.last != Close {
      } else if l.remainingBracket != 0 {
      } else {
        ok := true;
      }
  }

  /** One turn of the loop. `more`: the loop goes on; otherwise `ok` is the parser's result. */
  method TakeToken(stack: ConfigStack, ghost s: State, token: Token, l: Locals)
    returns (more: bool, ok: bool, l': Locals)
    requires stack.Valid() && s == StateOf(stack.layers, l)
    requires !Step(s, token).Undefined?
    modifies stack, stack.Repr
    ensures stack.Valid() && fresh(stack.Repr - old(stack.Repr))
    ensures SameBottom(old(stack.stack), stack.stack)
    ensures more ==> !ok && !Final(token) && Step(s, token) == Running(StateOf(stack.layers, l'))
    ensures !more ==> l'.port == l.port && l'.addrmap == l.addrmap
    ensures !more ==> Step(s, token) == if ok then Accepted(StateOf(stack.layers, l)) else Rejected(s)
  {
    ok := false;
    if token.Word? {
      more, l' := TakeText(stack, s, token.text, l);
    } else if token.StartBlock? || token.EndBlock? {
      more, l' := TakeBracket(stack, s, token, l);
    } else {
      more, ok, l' := TakeMark(s, token, l);
    }
  }

  /** The configuration itself stays at the bottom of the stack as long as there is one. */
  predicate SameBottom(before: seq<NginxConfig>, now: seq<NginxConfig>) {
    now != [] ==> before != [] && now[0] == before[0]
  }

  ghost function StateOf(layers: seq<seq<Statement>>, l: Locals): State {
    State(layers, l.last, l.remainingBracket, Env(l.port, l.addrmap))
  }

  /** The loop is still heading for `outcome`, or has reached it. */
  ghost predicate OnCourse(outcome: Outcome, more: bool, ok: bool, layers: seq<seq<Statement>>, l: Locals,
                           text: string) {
    if more then
      && |layers| == l.remainingBracket + 1
      && outcome == Run(Running(StateOf(layers, l)), Tokens(text))
    else
      && (outcome.Accepted? || outcome.Rejected?) && ok == outcome.Accepted?
      && outcome.state.env == Env(l.port, l.addrmap)
      && (ok ==> outcome.state.layers == layers && |layers| == 1)
  }

  lemma CourseDefined(outcome: Outcome, layers: seq<seq<Statement>>, l: Locals, text: string)
    requires OnCourse(outcome, true, false, layers, l, text) && !outcome.Undefined?
    ensures !Step(StateOf(layers, l), Scan(text).token).Undefined?
  {
    RunTokens(StateOf(layers, l), text);
  }

  lemma CourseKept(outcome: Outcome, layers: seq<seq<Statement>>, l: Locals, text: string,
                   more: bool, ok: bool, layers': seq<seq<Statement>>, l': Locals)
    requires OnCourse(outcome, true, false, layers, l, text) && !outcome.Undefined?
    requires var s, o := StateOf(layers, l), Step(StateOf(layers, l), Scan(text).token);
             if more then o == Running(StateOf(layers', l'))
             else
               && Env(l'.port, l'.addrmap) == s.env
               && o == if ok then Accepted(StateOf(layers', l)) else Rejected(s)
    ensures OnCourse(outcome, more, ok, layers', l', Scan(text).rest)
  {
    var s, t := StateOf(layers, l), Scan(text).token;
    RunTokens(s, text);
    if more {
      assert |layers'| == l'.remainingBracket + 1;
    } else {
      assert Run(Step(s, t), Tokens(Scan(text).rest)) == Step(s, t);
    }
  }

  /** Reads a token and takes it. */
  method TakeNext(input: InputStream, stack: ConfigStack, ghost outcome: Outcome, l: Locals)
    returns (more: bool, ok: bool, l': Locals)
    requires input.Valid() && input.good && stack.Valid() && input !in stack.Repr
    requires OnCourse(outcome, true, false, stack.layers, l, input.Rest()) && !outcome.Undefined?
    modifies input, stack, stack.Repr
    ensures input.Valid() && (more ==> input.good && !ok && |input.Rest()| < |old(input.Rest())|)
    ensures stack.Valid() && fresh(stack.Repr - old(stack.Repr))
    ensures SameBottom(old(stack.stack), stack.stack)
    ensures OnCourse(outcome, more, ok, stack.layers, l', input.Rest())
  {
    ghost var text, layers := input.Rest(), stack.layers;
    CourseDefined(outcome, layers, l, text);
    ScanProgress(text);
    var token := ParseToken(input);
    more, ok, l' := TakeToken(stack, StateOf(layers, l), token, l);
    CourseKept(outcome, layers, l, text, more, ok, stack.layers, l');
  }

  /** Reads a configuration into `config`, behind the statements `block` that it holds already. The input
      must not lead into undefined behaviour, see `ParseUndefined` and `ParseOntoAppends`; which inputs are
      accepted, and as what, is `ParseOntoRefinesGrammar`. */
  method Parse(input: InputStream, config: NginxConfig, addrmap0: map<string, ConfigArg>, ghost block: seq<Statement>,
               ghost blocks0: set<NginxConfig>, ghost nodes0: set<NginxConfigStatement>)
    returns (ok: bool, port: int, addrmap: map<string, ConfigArg>,
             ghost blocks: set<NginxConfig>, ghost nodes: set<NginxConfigStatement>)
    requires input.Valid() && input.good && HoldsBlock(config, block, blocks0, nodes0)
    requires !ParseOnto(input.Rest(), block, addrmap0).Undefined?
    modifies input, Footprint(config, blocks0, nodes0)
    ensures var o := ParseOnto(old(input.Rest()), block, addrmap0);
            && (ok <==> o.Accepted?)
            && (o.Accepted? || o.Rejected?) && o.state.env == Env(port, addrmap)
            && (ok ==> |o.state.layers| == 1 && HoldsBlock(config, o.state.layers[0], blocks, nodes))
    ensures ok ==> forall s :: s in config.statements ==> fresh(s) || s in old(Footprint(config, blocks0, nodes0))
  {
    ghost var outcome := ParseOnto(input.Rest(), block, addrmap0);
    ghost var before := Footprint(config, blocks0, nodes0);
    var stack := new ConfigStack(config, block, blocks0, nodes0);
    var l := Locals(Start, 0, -1, addrmap0);
    var more := true;
    ok, blocks, nodes := false, {}, {};
    while more
      invariant input.Valid() && (more ==> input.good)
      invariant stack.Valid() && fresh(stack) && fresh(stack.Repr - before) && input !in stack.Repr
      invariant stack.stack != [] ==> stack.stack[0] == config
      invariant OnCourse(outcome, more, ok, stack.layers, l, input.Rest())
      invariant more ==> !ok
      decreases more, |input.Rest()|
    {
      more, ok, l := TakeNext(input, stack, outcome, l);
    }
    if ok {
      assert stack.stack == [config];
      stack.TopInRepr();
      blocks, nodes := stack.blocks, stack.nodes;
    }
    return ok, l.port, l.addrmap, blocks, nodes;
  }

  /** Parses a text into a new configuration and prints it. */
  method ParseAndPrint(text: string) returns (ok: bool, printed: string)
    requires !ParseText(text, map[]).Undefined?
    ensures var o := ParseText(text, map[]);
            && (ok <==> o.Accepted?)
            && (ok ==> |o.state.layers| == 1 && printed == PrintConfig(o.state.layers[0], 0))
  {
    var input := new InputStream(text);
    var config := new NginxConfig();
    assert input.Rest() == text;
    var port, addrmap;
    ghost var blocks, nodes;
    ok, port, addrmap, blocks, nodes := Parse(input, config, map[], [], {}, {});
    printed := "";
    if ok {
      ghost var tree := ParseText(text, map[]).state.layers[0];
      blocks, nodes := FinishConfig(config, tree, blocks, nodes);
      printed := config.ToString(0, blocks, nodes);
    }
  }
}
