/** The parser's rules on short texts made of any words: what a semicolon and the brackets do, which
    texts are accepted, which are rejected, and which leave the containers' contracts. */
module SyntaxRules {
  import opened ConfigTree
  import opened Scanner
  import opened LexicalRules
  import opened StackMachine

  lemma RunStep(s: State, t: Token, ts: seq<Token>)
    ensures Run(Running(s), [t] + ts) == Run(Step(s, t), ts)
  {
    assert ([t] + ts)[1..] == ts;
  }

  lemma RunEnd(s: State)
    ensures Run(Running(s), [Eof]) == Step(s, Eof)
  {
    RunOne(Running(s), Eof);
  }

  /** One statement with one word. */
  function Single(w: string): seq<Statement> {
    [Statement([w], NoBlock)]
  }

  lemma FirstWord(w: string, ts: seq<Token>, addrs: map<string, ConfigArg>)
    ensures Run(Running(Initial(addrs)), [Word(w)] + ts) ==
            Run(Running(State([Single(w)], Normal, 0, Env(-1, addrs))), ts)
  {
    RunStep(Initial(addrs), Word(w), ts);
    assert [] + Single(w) == Single(w) && [] + [Single(w)] == [Single(w)];
  }

  lemma WordAtTop(below: seq<Statement>, last: Kind, depth: int, env: Env, w: string, ts: seq<Token>)
    requires last != Normal
    ensures Run(Running(State([below, []], last, depth, env)), [Word(w)] + ts) ==
            Run(Running(State([below, Single(w)], Normal, depth, env)), ts)
  {
    RunStep(State([below, []], last, depth, env), Word(w), ts);
    assert [] + Single(w) == Single(w) && [below, []][..1] + [Single(w)] == [below, Single(w)];
  }

  lemma OpenAfterWord(w: string, last: Kind, env: Env, ts: seq<Token>)
    ensures Run(Running(State([Single(w)], last, 0, env)), [StartBlock] + ts) ==
            Run(Running(State([Single(w), []], Open, 1, env)), ts)
  {
    RunStep(State([Single(w)], last, 0, env), StartBlock, ts);
    assert SetChild(Single(w), NoBlock) == Single(w) && [] + [Single(w), []] == [Single(w), []];
  }

  lemma CloseOnto(w: string, inner: seq<Statement>, last: Kind, env: Env, ts: seq<Token>)
    requires last == Open || last == End || last == Close
    ensures Run(Running(State([Single(w), inner], last, 1, env)), [EndBlock] + ts) ==
            Run(Running(State([[Statement([w], Block(inner))]], Close, 0, env)), ts)
  {
    RunStep(State([Single(w), inner], last, 1, env), EndBlock, ts);
    var layers := [Single(w), inner];
    assert layers[..1] == [Single(w)] && SetChild(Single(w), Block(inner)) == [Statement([w], Block(inner))];
    assert Front([Single(w)]) + [[Statement([w], Block(inner))]] == [[Statement([w], Block(inner))]];
  }

  lemma EndTokens(s: string)
    ensures s == "" ==> Tokens(s) == [Eof]
    ensures s == "}" ==> Tokens(s) == [EndBlock] + [Eof]
    ensures s == ";" ==> Tokens(s) == [StatementEnd] + [Eof]
    ensures s == "{" ==> Tokens(s) == [StartBlock] + [Eof]
    ensures s == "};" ==> Tokens(s) == [EndBlock] + ([StatementEnd] + [Eof])
    ensures s == "}}}" ==> Tokens(s) == [EndBlock] + ([EndBlock] + ([EndBlock] + [Eof]))
  {
    BetweenTokens('}', "");
    BetweenTokens(';', "");
    BetweenTokens('{', "");
    if s == "};" {
      assert s == ['}'] + ";";
      BetweenTokens('}', ";");
      EndTokens(";");
    } else if s == "}}}" {
      assert s == ['}'] + (['}'] + "}");
      BetweenTokens('}', "}");
      BetweenTokens('}', ['}'] + "}");
    }
  }

  lemma EmptyTexts(w: string, addrs: map<string, ConfigArg>)
    requires IsBareWord(w)
    ensures ParseText("", addrs).Rejected? && ParseText(w, addrs).Rejected?
  {
    BareIsPlain(w);
    LastWordIsDropped(w);
    EndTokens("");
    RunEnd(Initial(addrs));
  }

  /** A word, a semicolon or bracket, and what the rest `s` comes to. */
  lemma WordText(w: string, c: char, s: string, t: Token, addrs: map<string, ConfigArg>)
    requires IsBareWord(w)
    requires (c == ';' && t == StatementEnd) || (c == '{' && t == StartBlock) || (c == '}' && t == EndBlock)
    ensures ParseText(w + [c] + s, addrs) ==
            Run(Running(State([Single(w)], Normal, 0, Env(-1, addrs))), [t] + Tokens(s))
  {
    WordThen(w, c, s);
    FirstWord(w, [t] + Tokens(s), addrs);
  }

  lemma SemicolonRuns(block: seq<Statement>, env: Env, ts: seq<Token>)
    ensures Run(Running(State([block], Normal, 0, env)), [StatementEnd] + ts) ==
            Run(Running(State([block], End, 0, env)), ts)
  {
    RunStep(State([block], Normal, 0, env), StatementEnd, ts);
  }

  lemma AfterSemicolon(block: seq<Statement>, env: Env)
    requires block != []
    ensures var o := Running(State([block], End, 0, env));
            && Run(o, [Eof]) == Accepted(State([block], End, 0, env))
            && Run(o, [StatementEnd] + [Eof]).Rejected?
            && Run(o, [EndBlock] + [Eof]).Rejected?
  {
    var s := State([block], End, 0, env);
    RunEnd(s);
    RunStep(s, StatementEnd, [Eof]);
    RunStep(s, EndBlock, [Eof]);
    RunEnd(State([], Close, -1, env));
  }

  /** A statement ends with one semicolon; brackets must match. */
  lemma StatementTexts(w: string, addrs: map<string, ConfigArg>)
    requires IsBareWord(w)
    ensures ParseText(w + [';'] + "", addrs) ==
            Accepted(State([[Statement([w], NoBlock)]], End, 0, Env(-1, addrs)))
    ensures ParseText(w + [';'] + ";", addrs).Rejected?
    ensures ParseText(w + [';'] + "}", addrs).Rejected?
  {
    var env := Env(-1, addrs);
    WordText(w, ';', "", StatementEnd, addrs);
    WordText(w, ';', ";", StatementEnd, addrs);
    WordText(w, ';', "}", StatementEnd, addrs);
    EndTokens("");
    EndTokens(";");
    EndTokens("}");
    SemicolonRuns(Single(w), env, [Eof]);
    SemicolonRuns(Single(w), env, [StatementEnd] + [Eof]);
    SemicolonRuns(Single(w), env, [EndBlock] + [Eof]);
    AfterSemicolon(Single(w), env);
  }

  lemma OpenBracketTexts(w: string, addrs: map<string, ConfigArg>)
    requires IsBareWord(w)
    ensures ParseText(w + ['}'] + "", addrs).Rejected?
    ensures ParseText(w + ['{'] + "", addrs).Rejected?
  {
    var env := Env(-1, addrs);
    WordText(w, '}', "", EndBlock, addrs);
    WordText(w, '{', "", StartBlock, addrs);
    EndTokens("");
    RunStep(State([Single(w)], Normal, 0, env), EndBlock, [Eof]);
    OpenAfterWord(w, Normal, env, [Eof]);
    RunEnd(State([Single(w), []], Open, 1, env));
  }

  /** `{ }` and what the rest comes to. */
  lemma EmptyBlockRuns(w: string, env: Env, ts: seq<Token>)
    ensures Run(Running(State([Single(w)], Normal, 0, env)), [StartBlock] + ([EndBlock] + ts)) ==
            Run(Running(State([[Statement([w], Block([]))]], Close, 0, env)), ts)
  {
    OpenAfterWord(w, Normal, env, [EndBlock] + ts);
    CloseOnto(w, [], Open, env, ts);
  }

  lemma AfterBracket(block: seq<Statement>, env: Env)
    ensures var o := Running(State([block], Close, 0, env));
            && Run(o, [Eof]) == Accepted(State([block], Close, 0, env))
            && Run(o, [StatementEnd] + [Eof]).Rejected?
  {
    var s := State([block], Close, 0, env);
    RunEnd(s);
    RunStep(s, StatementEnd, [Eof]);
  }

  /** An empty block is a statement's end as well. */
  lemma EmptyBlockTexts(w: string, addrs: map<string, ConfigArg>)
    requires IsBareWord(w)
    ensures ParseText(w + ['{'] + "}", addrs) ==
            Accepted(State([[Statement([w], Block([]))]], Close, 0, Env(-1, addrs)))
    ensures ParseText(w + ['{'] + "};", addrs).Rejected?
  {
    var env, closed := Env(-1, addrs), [Statement([w], Block([]))];
    WordText(w, '{', "}", StartBlock, addrs);
    WordText(w, '{', "};", StartBlock, addrs);
    EndTokens("}");
    EndTokens("};");
    EmptyBlockRuns(w, env, [Eof]);
    EmptyBlockRuns(w, env, [StatementEnd] + [Eof]);
    AfterBracket(closed, env);
  }

  lemma InBlockRuns(w: string, v: string, last: Kind, env: Env, ts: seq<Token>)
    ensures Run(Running(State([Single(w)], last, 0, env)), [StartBlock] + ([Word(v)] + ts)) ==
            Run(Running(State([Single(w), Single(v)], Normal, 1, env)), ts)
  {
    OpenAfterWord(w, last, env, [Word(v)] + ts);
    WordAtTop(Single(w), Open, 1, env, v, ts);
  }

  lemma BlockCloses(w: string, v: string, env: Env)
    ensures Run(Running(State([Single(w), Single(v)], Normal, 1, env)), [StatementEnd] + ([EndBlock] + [Eof])) ==
            Accepted(State([[Statement([w], Block(Single(v)))]], Close, 0, env))
  {
    RunStep(State([Single(w), Single(v)], Normal, 1, env), StatementEnd, [EndBlock] + [Eof]);
    CloseOnto(w, Single(v), End, env, [Eof]);
    AfterBracket([Statement([w], Block(Single(v)))], env);
  }

  /** Brackets give their block to the last statement, with or without a semicolon before them. */
  lemma BlockTexts(w: string, v: string, addrs: map<string, ConfigArg>)
    requires IsBareWord(w) && IsBareWord(v)
    ensures ParseText(w + ['{'] + (v + [';'] + "}"), addrs) ==
            Accepted(State([[Statement([w], Block([Statement([v], NoBlock)]))]], Close, 0, Env(-1, addrs)))
    ensures ParseText(w + [';'] + (['{'] + (v + [';'] + "}")), addrs) ==
            Accepted(State([[Statement([w], Block([Statement([v], NoBlock)]))]], Close, 0, Env(-1, addrs)))
  {
    var env, s := Env(-1, addrs), v + [';'] + "}";
    var inner := [StatementEnd] + ([EndBlock] + [Eof]);
    EndTokens("}");
    WordThen(v, ';', "}");
    BetweenTokens('{', s);
    WordText(w, '{', s, StartBlock, addrs);
    WordText(w, ';', ['{'] + s, StatementEnd, addrs);
    SemicolonRuns(Single(w), env, [StartBlock] + ([Word(v)] + inner));
    InBlockRuns(w, v, Normal, env, inner);
    InBlockRuns(w, v, End, env, inner);
    BlockCloses(w, v, env);
  }

  lemma NoSemicolonInBlock(w: string, v: string, addrs: map<string, ConfigArg>)
    requires IsBareWord(w) && IsBareWord(v)
    ensures ParseText(w + ['{'] + (v + ['}'] + ""), addrs).Rejected?
  {
    var env, s := Env(-1, addrs), v + ['}'] + "";
    EndTokens("");
    WordThen(v, '}', "");
    WordText(w, '{', s, StartBlock, addrs);
    InBlockRuns(w, v, Normal, env, [EndBlock] + [Eof]);
    RunStep(State([Single(w), Single(v)], Normal, 1, env), EndBlock, [Eof]);
  }

  /** Undefined: a block without a statement to own it. */
  lemma OwnerlessTexts(w: string, addrs: map<string, ConfigArg>)
    requires IsBareWord(w)
    ensures ParseText("{", addrs).Undefined?
    ensures ParseText(w + ['{'] + "{", addrs).Undefined?
  {
    var env := Env(-1, addrs);
    EndTokens("{");
    WordText(w, '{', "{", StartBlock, addrs);
    RunStep(Initial(addrs), StartBlock, [Eof]);
    OpenAfterWord(w, Normal, env, [StartBlock] + [Eof]);
    RunStep(State([Single(w), []], Open, 1, env), StartBlock, [Eof]);
  }

  /** Undefined: a word or a bracket that follows a closing bracket too many. */
  lemma TooManyBrackets(w: string, v: string, addrs: map<string, ConfigArg>)
    requires IsBareWord(w) && IsBareWord(v)
    ensures ParseText(w + [';'] + (['}'] + (v + [';'] + "")), addrs).Undefined?
    ensures ParseText(w + ['{'] + "}}}", addrs).Undefined?
  {
    var env, rest := Env(-1, addrs), [Word(v)] + ([StatementEnd] + [Eof]);
    EndTokens("");
    EndTokens("}}}");
    WordThen(v, ';', "");
    BetweenTokens('}', v + [';'] + "");
    WordText(w, ';', ['}'] + (v + [';'] + ""), StatementEnd, addrs);
    SemicolonRuns(Single(w), env, [EndBlock] + rest);
    BracketTooMany(Single(w), End, env, rest);
    RunStep(State([], Close, -1, env), Word(v), [StatementEnd] + [Eof]);
    WordText(w, '{', "}}}", StartBlock, addrs);
    EmptyBlockRuns(w, env, [EndBlock] + ([EndBlock] + [Eof]));
    BracketTooMany([Statement([w], Block([]))], Close, env, [EndBlock] + [Eof]);
    RunStep(State([], Close, -1, env), EndBlock, [Eof]);
  }

  lemma BracketTooMany(block: seq<Statement>, last: Kind, env: Env, ts: seq<Token>)
    requires last == End || last == Close
    ensures Run(Running(State([block], last, 0, env)), [EndBlock] + ts) ==
            Run(Running(State([], Close, -1, env)), ts)
  {
    RunStep(State([block], last, 0, env), EndBlock, ts);
  }
}
