/** The parser as a transition function on values: a stack of blocks under construction,
    the kind of the last token, the bracket counter, and the bindings filled in on the way. */
module StackMachine {
  import opened CxxStrings
  import opened ConfigTree
  import opened Scanner

  // ---------- bindings ----------

  /** What the parser fills in beside the tree. */
  datatype Env = Env(port: int, addrs: map<string, ConfigArg>)

  /** The port a word denotes, or -1. Trailing text after the digits is ignored. */
  function SafePort(w: string): (port: int)
    ensures -1 <= port <= 65535
  {
    match Stoi(w)
    case None => -1
    case Some(v) => if 0 <= v <= 65535 then v else -1
  }

  /** The words of a statement end in `location <path> <handler type>`. */
  predicate IsLocation(tokens: seq<string>) {
    |tokens| >= 3 && tokens[|tokens| - 3] == "location"
  }

  function Location(tokens: seq<string>): string {
    if IsLocation(tokens) then tokens[|tokens| - 2] else ""
  }

  function HandlerType(tokens: seq<string>): string {
    if IsLocation(tokens) then tokens[|tokens| - 1] else ""
  }

  /** `root` or `data_path` followed by `value`, inside a block whose statement has the words `parent`. */
  function BindRoot(parent: seq<string>, value: string, addrs: map<string, ConfigArg>): map<string, ConfigArg> {
    var location, handlerType := Location(parent), HandlerType(parent);
    if location == "" || handlerType == "" then addrs
    else if location in addrs then
      addrs[location := addrs[location].(handlerType := handlerType, location := location, root := value)]
    else addrs[location := ConfigArg(handlerType, location, value, "")]
  }

  function BindApiKey(parent: seq<string>, value: string, addrs: map<string, ConfigArg>): map<string, ConfigArg> {
    var location, handlerType := Location(parent), HandlerType(parent);
    if location == "" || handlerType == "" then addrs
    else if location in addrs then
      addrs[location := addrs[location].(handlerType := handlerType, location := location, apiKey := value)]
    else addrs[location := ConfigArg(handlerType, location, "", value)]
  }

  /** An empty block: the record of its location starts afresh. */
  function BindEmptyBlock(tokens: seq<string>, env: Env): Env {
    if IsLocation(tokens) then
      env.(addrs := env.addrs[Location(tokens) := ConfigArg(HandlerType(tokens), Location(tokens), "", "")])
    else env
  }

  /** The effect of a word that follows `tokens` in its statement; `None` on an invalid port. */
  function BindWord(tokens: seq<string>, parent: seq<string>, w: string, env: Env): Option<Env> {
    if tokens == [] then Some(env) else
      var key := tokens[|tokens| - 1];
      if key == "listen" then
        if SafePort(w) == -1 then None else Some(env.(port := SafePort(w)))
      else if key == "root" || key == "data_path" then Some(env.(addrs := BindRoot(parent, w, env.addrs)))
      else if key == "api-key" then Some(env.(addrs := BindApiKey(parent, w, env.addrs)))
      else Some(env)
  }

  // ---------- the machine ----------

  datatype Kind = Start | Normal | Open | Close | End

  /** `layers` is the stack, bottom first. The last statement of each block but the top one owns
      the block above it; its `child` is `NoBlock` here until that block is closed. */
  datatype State = State(layers: seq<seq<Statement>>, last: Kind, depth: int, env: Env)

  /** `Undefined`: the code would call `top`, `back` or `pop` on an empty container. */
  datatype Outcome = Running(state: State) | Accepted(state: State) | Rejected(state: State) | Undefined

  function Initial(addrs: map<string, ConfigArg>): State {
    State([[]], Start, 0, Env(-1, addrs))
  }

  function Last<T>(s: seq<T>): T
    requires s != []
  {
    s[|s| - 1]
  }

  function Front<T>(s: seq<T>): seq<T>
    requires s != []
  {
    s[..|s| - 1]
  }

  /** Appends a word to the last statement of a block. */
  function AddToken(block: seq<Statement>, w: string): seq<Statement>
    requires block != []
  {
    Front(block) + [Last(block).(tokens := Last(block).tokens + [w])]
  }

  /** Gives the last statement of a block a new child block. */
  function SetChild(block: seq<Statement>, child: Child): seq<Statement>
    requires block != []
  {
    Front(block) + [Last(block).(child := child)]
  }

  /** The words of the statement that owns the top block. */
  function ParentTokens(layers: seq<seq<Statement>>): seq<string> {
    if |layers| < 2 || layers[|layers| - 2] == [] then [] else Last(layers[|layers| - 2]).tokens
  }

  function StepWord(s: State, w: string): Outcome {
    if s.layers == [] then Undefined
    else if s.last != Normal then
      var top := Last(s.layers) + [Statement([w], NoBlock)];
      Running(s.(layers := Front(s.layers) + [top], last := Normal))
    else if Last(s.layers) == [] then Undefined
    else
      match BindWord(Last(Last(s.layers)).tokens, ParentTokens(s.layers), w, s.env)
      case None => Rejected(s)
      case Some(env) =>
        var top := AddToken(Last(s.layers), w);
        Running(s.(layers := Front(s.layers) + [top], last := Normal, env := env))
  }

  function StepOpen(s: State): Outcome {
    if s.layers == [] || Last(s.layers) == [] then Undefined else
      var owner := SetChild(Last(s.layers), NoBlock);
      Running(s.(layers := Front(s.layers) + [owner, []], last := Open, depth := s.depth + 1))
  }

  function StepClose(s: State): Outcome {
    if s.last != End && s.last != Open && s.last != Close then Rejected(s)
    else if s.layers == [] then Undefined
    else if |s.layers| == 1 then
      if s.last == Open then Undefined else Running(s.(layers := [], last := Close, depth := s.depth - 1))
    else
      var below := Front(s.layers);
      if Last(below) == [] then Undefined else
        var owner := SetChild(Last(below), Block(Last(s.layers)));
        var env := if s.last == Open then BindEmptyBlock(Last(owner).tokens, s.env) else s.env;
        Running(State(Front(below) + [owner], Close, s.depth - 1, env))
  }

  function Step(s: State, t: Token): Outcome {
    match t
    case Error => Rejected(s)
    case Comment => Running(s)
    case Word(w) => StepWord(s, w)
    case StatementEnd => if s.last == Normal then Running(s.(last := End)) else Rejected(s)
    case StartBlock => StepOpen(s)
    case EndBlock => StepClose(s)
    case Eof => if (s.last == End || s.last == Close) && s.depth == 0 then Accepted(s) else Rejected(s)
  }

  function Run(o: Outcome, ts: seq<Token>): Outcome
    decreases |ts|
  {
    if ts == [] || !o.Running? then o else Run(Step(o.state, ts[0]), ts[1..])
  }

  /** What `Parse` does on an input text. */
  function ParseText(text: string, addrs: map<string, ConfigArg>): Outcome {
    Run(Running(Initial(addrs)), Tokens(text))
  }

  /** The same for a configuration that already holds statements. */
  function ParseOnto(text: string, block: seq<Statement>, addrs: map<string, ConfigArg>): Outcome {
    Run(Running(State([block], Start, 0, Env(-1, addrs))), Tokens(text))
  }

  /** The tree the stack stands for: each block is the child of the statement that owns it. */
  function Assemble(layers: seq<seq<Statement>>): seq<Statement>
    requires layers != []
  {
    if |layers| == 1 || layers[0] == [] then layers[0]
    else SetChild(layers[0], Block(Assemble(layers[1..])))
  }

  lemma {:induction false} RunAppend(o: Outcome, ts: seq<Token>, us: seq<Token>)
    ensures Run(o, ts + us) == Run(Run(o, ts), us)
    decreases |ts|
  {
    if ts == [] {
      assert ts + us == us;
    } else if o.Running? {
      assert (ts + us)[1..] == ts[1..] + us;
      RunAppend(Step(o.state, ts[0]), ts[1..], us);
    }
  }

  lemma RunOne(o: Outcome, t: Token)
    requires o.Running?
    ensures Run(o, [t]) == Step(o.state, t)
  {
    assert Run(Step(o.state, t), [t][1..]) == Step(o.state, t);
  }

  /** Comments leave no trace: not even the last token kind changes. */
  function Significant(ts: seq<Token>): seq<Token> {
    if ts == [] then []
    else if ts[0].Comment? then Significant(ts[1..])
    else [ts[0]] + Significant(ts[1..])
  }

  lemma {:induction false} RunSkipsComments(o: Outcome, ts: seq<Token>)
    ensures Run(o, ts) == Run(o, Significant(ts))
    decreases |ts|
  {
    if ts != [] && o.Running? {
      RunSkipsComments(Step(o.state, ts[0]), ts[1..]);
      if !ts[0].Comment? {
        assert Significant(ts)[1..] == Significant(ts[1..]);
      }
    }
  }

  // ---------- invariant ----------

  /** Every word that follows `listen` is a port. */
  predicate ListensOk(tokens: seq<string>) {
    forall i :: 1 <= i < |tokens| && tokens[i - 1] == "listen" ==> SafePort(tokens[i]) != -1
  }

  /** At every nesting depth: a statement has words, all of them satisfy `p`, and ports are valid. */
  ghost predicate Shaped(config: seq<Statement>, p: string -> bool)
    decreases config
  {
    forall i :: 0 <= i < |config| ==> ShapedStatement(config[i], p)
  }

  ghost predicate ShapedStatement(s: Statement, p: string -> bool)
    decreases s
  {
    && s.tokens != [] && ListensOk(s.tokens)
    && (forall i :: 0 <= i < |s.tokens| ==> p(s.tokens[i]))
    && (s.child.Block? ==> Shaped(s.child.statements, p))
  }

  /** The last statement of a block, read against the last token. */
  predicate TopMatches(top: seq<Statement>, last: Kind) {
    && (top == [] <==> last == Start || last == Open)
    && (last == Normal || last == End ==> Last(top).child == NoBlock)
    && (last == Close ==> Last(top).child.Block?)
  }

  /** Holds from the start for as long as the parser runs without undefined behaviour. */
  ghost predicate Inv(s: State, p: string -> bool) {
    && |s.layers| == s.depth + 1
    && (forall i :: 0 <= i < |s.layers| ==> Shaped(s.layers[i], p))
    && (forall i :: 0 <= i < |s.layers| - 1 ==> s.layers[i] != [] && Last(s.layers[i]).child == NoBlock)
    && (s.last == Start ==> s.depth == 0)
    && (s.last == Open ==> s.depth >= 1)
    && (if s.layers == [] then s.last == Close else TopMatches(Last(s.layers), s.last))
  }

  /** Where the code leaves its containers' contracts, told from the last token and the depth. */
  predicate UndefinedAt(last: Kind, depth: int, t: Token) {
    || (t.StartBlock? && (last == Start || last == Open))
    || (depth == -1 && (t.Word? || t.StartBlock? || t.EndBlock?))
  }

  lemma WordKeepsInv(s: State, w: string, p: string -> bool)
    requires Inv(s, p) && p(w)
    ensures StepWord(s, w).Running? ==> Inv(StepWord(s, w).state, p)
    ensures StepWord(s, w).Undefined? <==> s.depth == -1
  {
    if s.layers != [] && StepWord(s, w).Running? {
      var top := Last(s.layers);
      if s.last == Normal {
        assert ShapedStatement(Last(top), p);
        var st := Last(AddToken(top, w));
        assert ListensOk(st.tokens);
        assert ShapedStatement(st, p);
        assert Shaped(AddToken(top, w), p);
      } else {
        assert ShapedStatement(Statement([w], NoBlock), p);
        assert Shaped(top + [Statement([w], NoBlock)], p);
      }
    }
  }

  lemma OpenKeepsInv(s: State, p: string -> bool)
    requires Inv(s, p)
    ensures StepOpen(s).Running? ==> Inv(StepOpen(s).state, p)
    ensures StepOpen(s).Undefined? <==> s.depth == -1 || s.last == Start || s.last == Open
  {
    if StepOpen(s).Running? {
      var top := Last(s.layers);
      assert ShapedStatement(Last(top), p);
      assert ShapedStatement(Last(top).(child := NoBlock), p);
      assert Shaped(SetChild(top, NoBlock), p);
    }
  }

  lemma OwnerShaped(below: seq<Statement>, top: seq<Statement>, p: string -> bool)
    requires below != [] && Shaped(below, p) && Shaped(top, p)
    ensures Shaped(SetChild(below, Block(top)), p)
  {
    var st := Last(below).(child := Block(top));
    assert ShapedStatement(Last(below), p);
    assert ShapedStatement(st, p);
    var block := SetChild(below, Block(top));
    forall i | 0 <= i < |block|
      ensures ShapedStatement(block[i], p)
    {
      assert i < |below| - 1 ==> block[i] == below[i];
    }
  }

  lemma CloseKeepsInv(s: State, p: string -> bool)
    requires Inv(s, p)
    ensures StepClose(s).Running? ==> Inv(StepClose(s).state, p)
    ensures StepClose(s).Undefined? <==> s.depth == -1
  {
    if |s.layers| >= 2 && StepClose(s).Running? {
      var below := Last(Front(s.layers));
      assert below == s.layers[|s.layers| - 2] && below != [] && Shaped(below, p);
      assert Shaped(Last(s.layers), p);
      OwnerShaped(below, Last(s.layers), p);
    }
  }

  /** One token keeps the invariant, and is undefined exactly in the states `UndefinedAt` names. */
  lemma StepKeepsInv(s: State, t: Token, p: string -> bool)
    requires Inv(s, p)
    requires t.Word? ==> p(t.text)
    ensures Step(s, t).Running? || Step(s, t).Accepted? ==> Inv(Step(s, t).state, p)
    ensures Step(s, t).Undefined? <==> UndefinedAt(s.last, s.depth, t)
  {
    match t
    case Word(w) => WordKeepsInv(s, w, p);
    case StartBlock => OpenKeepsInv(s, p);
    case EndBlock => CloseKeepsInv(s, p);
    case _ =>
  }

  lemma {:induction false} RunKeepsInv(o: Outcome, ts: seq<Token>, p: string -> bool)
    requires o.Running? || o.Accepted? ==> Inv(o.state, p)
    requires forall t :: t in ts && t.Word? ==> p(t.text)
    ensures Run(o, ts).Running? || Run(o, ts).Accepted? ==> Inv(Run(o, ts).state, p)
    decreases |ts|
  {
    if ts != [] && o.Running? {
      StepKeepsInv(o.state, ts[0], p);
      RunKeepsInv(Step(o.state, ts[0]), ts[1..], p);
    }
  }

  /** While the parser runs: the stack holds one block more than there are open brackets, every
      block but the top one is not empty and its last statement is the owner of the next, and every
      statement at every depth has words, which the scanner could produce, with valid ports. */
  lemma ReachableInv(text: string, n: nat, addrs: map<string, ConfigArg>)
    requires n <= |Tokens(text)|
    ensures var o := Run(Running(Initial(addrs)), Tokens(text)[..n]);
            o.Running? || o.Accepted? ==> Inv(o.state, IsLexeme)
  {
    TokensText(text);
    var ts := Tokens(text);
    assert forall t :: t in ts[..n] ==> t in ts;
    RunKeepsInv(Running(Initial(addrs)), ts[..n], IsLexeme);
  }

  /** The parser's tests for an empty location or handler type never fire on scanned words. */
  lemma LocationNeverEmpty(s: State)
    requires Inv(s, IsLexeme) && IsLocation(ParentTokens(s.layers))
    ensures Location(ParentTokens(s.layers)) != "" && HandlerType(ParentTokens(s.layers)) != ""
  {
    var owner := Last(s.layers[|s.layers| - 2]);
    assert ShapedStatement(owner, IsLexeme);
    var tokens := owner.tokens;
    assert IsLexeme(tokens[|tokens| - 1]) && IsLexeme(tokens[|tokens| - 2]);
  }

  /** A port written in plain decimal is taken if it is at most 65535, however long the number is. */
  lemma PortOfDecimal(n: nat)
    ensures SafePort(ToDecimal(n)) == if n <= 65535 then n else -1
  {
    DecimalDigits(n);
    StoiOfDigits(ToDecimal(n));
  }

  /** Text behind the digits of a port is ignored. */
  lemma PortOfPrefix(n: nat, rest: string)
    requires rest == "" || !('0' <= rest[0] <= '9')
    ensures SafePort(ToDecimal(n) + rest) == if n <= 65535 then n else -1
  {
    var digits := ToDecimal(n);
    DecimalDigits(n);
    StoiReads("", "", digits, rest);
    assert "" + ("" + (digits + rest)) == digits + rest;
  }

  /** A minus sign before a positive number makes no port. */
  lemma NegativeIsNoPort(n: nat, rest: string)
    requires n > 0 && (rest == "" || !('0' <= rest[0] <= '9'))
    ensures SafePort("-" + (ToDecimal(n) + rest)) == -1
  {
    var digits := ToDecimal(n);
    DecimalDigits(n);
    StoiReads("", "-", digits, rest);
    assert "" + ("-" + (digits + rest)) == "-" + (digits + rest);
  }

  /** Nor does a text that starts with a letter. */
  lemma LetterIsNoPort(text: string)
    requires text != "" && ('a' <= text[0] <= 'z' || 'A' <= text[0] <= 'Z')
    ensures SafePort(text) == -1
  {
    StoiFails("", "", text);
    assert "" + ("" + text) == text;
  }
}
