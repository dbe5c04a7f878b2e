/** Blocks that are replaced: `{` after a closed block gives the statement a new block, and the tree
    forgets what stood in the old one. The port and the address map do not. */
module ReplacedBlocks {
  import opened CxxStrings
  import opened ConfigTree
  import opened Scanner
  import opened StackMachine
  import opened StreamShape
  import opened Bindings
  import opened Grammar
  import opened RoundTrip

  // ---------- every accepted text ----------

  /** Port and map of an accepted text are what its token stream binds, read by recursive descent with
      replaced blocks kept. */
  lemma ParseBindsStream(text: string, addrs: map<string, ConfigArg>)
    requires ParseText(text, addrs).Accepted?
    ensures ParseText(text, addrs).state.env == ApplyAll(Env(-1, addrs), BlockEvents(InnerTokens(text), [], []))
  {
    ParseRefinesGrammar(text, addrs);
  }

  /** So, from any map, the bindings agree with the finished tree exactly when the tree kept the last
      writer of the port and of type, root and key of each location, or one that says the same. */
  lemma TreeMatchesMap(text: string, addrs: map<string, ConfigArg>)
    requires ParseText(text, addrs).Accepted?
    ensures var s := ParseText(text, addrs).state;
            && |s.layers| == 1
            && (s.env == ApplyAll(Env(-1, addrs), ConfigEvents(s.layers[0], [])) <==>
                  SameLastWriters(addrs, BlockEvents(InnerTokens(text), [], []), ConfigEvents(s.layers[0], [])))
  {
    ParseRefinesGrammar(text, addrs);
    BindSame(addrs, BlockEvents(InnerTokens(text), [], []), ConfigEvents(ParseText(text, addrs).state.layers[0], []));
  }

  // ---------- the events of a printed tree ----------

  lemma WordsBind(tokens: seq<string>, ts: seq<Token>, last: seq<string>, parent: seq<string>)
    requires tokens != [] && ts != [] && (ts[0].StatementEnd? || ts[0].StartBlock?)
    ensures BlockEvents(WordTokens(tokens) + ts, last, parent) ==
            TokenEvents(tokens, parent) + BlockEvents(if ts[0].StatementEnd? then ts[1..] else ts, tokens, parent)
  {
    WordsOf(tokens, ts);
    var us := WordTokens(tokens) + ts;
    assert us[0] == Word(tokens[0]) && us[|tokens|..] == ts;
  }

  lemma BracketsBind(b: seq<Statement>, ts: seq<Token>, last: seq<string>, parent: seq<string>)
    requires Shaped(b, AnyWord())
    requires BlockEvents(FlattenConfig(b) + ([EndBlock] + ts), [], last) == ConfigEvents(b, last)
    ensures BlockEvents([StartBlock] + (FlattenConfig(b) + ([EndBlock] + ts)), last, parent) ==
            ChildEvents(last, Block(b)) + BlockEvents(ts, last, parent)
  {
    var inside := FlattenConfig(b) + ([EndBlock] + ts);
    assert ([StartBlock] + inside)[1..] == inside && ([EndBlock] + ts)[1..] == ts;
    ReadFlattened(b, [EndBlock] + ts, []);
    assert [] + b == b;
    assert ReadBlock(inside, []) == Read(b, [EndBlock] + ts);
  }

  lemma {:induction false} StatementBinds(st: Statement, ts: seq<Token>, last: seq<string>, parent: seq<string>)
    requires ShapedStatement(st, AnyWord())
    ensures BlockEvents(FlattenStatement(st) + ts, last, parent) ==
            TokenEvents(st.tokens, parent) + ChildEvents(st.tokens, st.child) + BlockEvents(ts, st.tokens, parent)
    decreases st
  {
    var head, es := WordTokens(st.tokens), TokenEvents(st.tokens, parent);
    match st.child
    case NoBlock =>
      Reassociate(head, [StatementEnd], ts);
      WordsBind(st.tokens, [StatementEnd] + ts, last, parent);
      assert ([StatementEnd] + ts)[1..] == ts;
      assert es + [] == es;
    case Block(b) =>
      var inside := FlattenConfig(b) + ([EndBlock] + ts);
      BlockTokens(head, FlattenConfig(b), ts);
      WordsBind(st.tokens, [StartBlock] + inside, last, parent);
      ConfigBinds(b, [EndBlock] + ts, [], st.tokens);
      NothingBehind(b, ts, st.tokens);
      BracketsBind(b, ts, st.tokens, parent);
      Reassociate(es, ChildEvents(st.tokens, st.child), BlockEvents(ts, st.tokens, parent));
  }

  lemma NothingBehind(b: seq<Statement>, ts: seq<Token>, last: seq<string>)
    requires BlockEvents(FlattenConfig(b) + ([EndBlock] + ts), [], last) ==
             ConfigEvents(b, last) + BlockEvents([EndBlock] + ts, LastWords(b), last)
    ensures BlockEvents(FlattenConfig(b) + ([EndBlock] + ts), [], last) == ConfigEvents(b, last)
  {
    assert BlockEvents([EndBlock] + ts, LastWords(b), last) == [];
  }

  /** The stream of a tree, wherever it stands, binds what the tree does in document order. */
  lemma {:induction false} ConfigBinds(config: seq<Statement>, ts: seq<Token>, last: seq<string>, parent: seq<string>)
    requires Shaped(config, AnyWord())
    ensures BlockEvents(FlattenConfig(config) + ts, last, parent) ==
            ConfigEvents(config, parent) + BlockEvents(ts, if config == [] then last else LastWords(config), parent)
    decreases config
  {
    if config == [] {
      assert FlattenConfig(config) + ts == ts;
    } else {
      var front, st := config[..|config| - 1], config[|config| - 1];
      var words := if front == [] then last else LastWords(front);
      var es := TokenEvents(st.tokens, parent) + ChildEvents(st.tokens, st.child);
      Reassociate(FlattenConfig(front), FlattenStatement(st), ts);
      assert ShapedStatement(st, AnyWord());
      ConfigBinds(front, FlattenStatement(st) + ts, last, parent);
      StatementBinds(st, ts, words, parent);
      Reassociate(ConfigEvents(front, parent), es, BlockEvents(ts, st.tokens, parent));
      Reassociate(ConfigEvents(front, parent), TokenEvents(st.tokens, parent), ChildEvents(st.tokens, st.child));
    }
  }

  // ---------- two blocks in a row ----------

  /** A statement with one block, and another block behind it. */
  function TwoBlocks(tokens: seq<string>, b1: seq<Statement>, b2: seq<Statement>): string {
    PrintConfig([Statement(tokens, Block(b1))], 0) + (" {\n" + (PrintConfig(b2, 1) + "}\n"))
  }

  /** The same as tokens, with `ts` behind it. */
  function TwoBlockTokens(tokens: seq<string>, b1: seq<Statement>, b2: seq<Statement>): seq<Token> {
    FlattenConfig([Statement(tokens, Block(b1))]) + ([StartBlock] + (FlattenConfig(b2) + [EndBlock]))
  }

  lemma TokensOfTwo(tokens: seq<string>, b1: seq<Statement>, b2: seq<Statement>)
    requires ShapedStatement(Statement(tokens, Block(b1)), IsPrintable) && Shaped(b2, IsPrintable)
    ensures Tokens(TwoBlocks(tokens, b1, b2)) == TwoBlockTokens(tokens, b1, b2) + [Eof]
  {
    var first, close := [Statement(tokens, Block(b1))], "}\n";
    TokensOfConfig(first, 0, " {\n" + (PrintConfig(b2, 1) + close));
    TokensOfOpening(PrintConfig(b2, 1) + close);
    TokensOfConfig(b2, 1, close);
    TokensOfClosing(0, "");
    assert Indent(0) + ("}\n" + "") == close && Tokens("") == [Eof];
    Regroup(FlattenConfig(first), [StartBlock], FlattenConfig(b2), [EndBlock], [Eof]);
    Reassociate([StartBlock], FlattenConfig(b2), [EndBlock]);
    Reassociate(FlattenConfig(first), [StartBlock] + FlattenConfig(b2), [EndBlock]);
    Reassociate(FlattenConfig(first), [StartBlock], FlattenConfig(b2));
  }

  lemma ReadTwo(tokens: seq<string>, b1: seq<Statement>, b2: seq<Statement>)
    requires ShapedStatement(Statement(tokens, Block(b1)), AnyWord()) && Shaped(b2, AnyWord())
    ensures ReadBlock(TwoBlockTokens(tokens, b1, b2), []) == Read([Statement(tokens, Block(b2))], [])
  {
    var first, inside := [Statement(tokens, Block(b1))], FlattenConfig(b2) + [EndBlock];
    ReadFlattened(first, [StartBlock] + inside, []);
    ReadFlattened(b2, [EndBlock] + [], []);
    assert [] + first == first && [] + b2 == b2 && [EndBlock] + [] == [EndBlock];
    ReadBrackets(inside, b2, [], first);
  }

  lemma BindTwo(tokens: seq<string>, b1: seq<Statement>, b2: seq<Statement>)
    requires ShapedStatement(Statement(tokens, Block(b1)), AnyWord()) && Shaped(b2, AnyWord())
    ensures BlockEvents(TwoBlockTokens(tokens, b1, b2), [], []) ==
            TokenEvents(tokens, []) + ChildEvents(tokens, Block(b1)) + ChildEvents(tokens, Block(b2))
  {
    var first, inside := Statement(tokens, Block(b1)), FlattenConfig(b2) + ([EndBlock] + []);
    assert [EndBlock] + [] == [EndBlock];
    StatementBinds(first, [StartBlock] + inside, [], []);
    assert FlattenConfig([first]) == FlattenStatement(first) by {
      assert [first][..0] == [];
    }
    ConfigBinds(b2, [EndBlock] + [], [], tokens);
    NothingBehind(b2, [], tokens);
    BracketsBind(b2, [], tokens, []);
    assert BlockEvents([], tokens, []) == [];
    assert ChildEvents(tokens, Block(b2)) + [] == ChildEvents(tokens, Block(b2));
  }

  lemma TwoAreInner(tokens: seq<string>, b1: seq<Statement>, b2: seq<Statement>)
    requires ShapedStatement(Statement(tokens, Block(b1)), AnyWord()) && Shaped(b2, AnyWord())
    ensures var ts := TwoBlockTokens(tokens, b1, b2); ts != [] && AllInner(ts) && ListensFollowed(ts)
  {
    var first := [Statement(tokens, Block(b1))];
    FlattenedIsClosed(first);
    FlattenedIsClosed(b2);
    ListensApart(FlattenConfig(b2), [EndBlock]);
    ListensApart(FlattenConfig(first), [StartBlock] + (FlattenConfig(b2) + [EndBlock]));
  }

  /** Behind a token that is no word nothing new has to be a port. */
  lemma ListensApart(ts: seq<Token>, us: seq<Token>)
    requires AllInner(ts) && ListensFollowed(ts) && AllInner(us) && ListensFollowed(us)
    requires us != [] && !us[0].Word?
    ensures AllInner(ts + us) && ListensFollowed(ts + us)
    ensures ListensFollowed([StartBlock] + (ts + us)) && AllInner([StartBlock] + (ts + us))
  {
    var all := ts + us;
    forall i | 1 <= i < |all|
      ensures all[i - 1] == Word("listen") && all[i].Word? ==> SafePort(all[i].text) != -1
    {
      if i < |ts| {
        assert all[i - 1] == ts[i - 1] && all[i] == ts[i];
      } else if i > |ts| {
        assert all[i - 1] == us[i - 1 - |ts|] && all[i] == us[i - |ts|];
      }
    }
    assert forall i :: 1 <= i < |all| + 1 ==> ([StartBlock] + all)[i] == all[i - 1];
  }

  /** Whatever the blocks are, the second one takes the place of the first in the tree, and both are bound. */
  lemma SecondBlockWins(tokens: seq<string>, b1: seq<Statement>, b2: seq<Statement>, addrs: map<string, ConfigArg>)
    requires ShapedStatement(Statement(tokens, Block(b1)), IsPrintable) && Shaped(b2, IsPrintable)
    ensures var o := ParseText(TwoBlocks(tokens, b1, b2), addrs);
            && o.Accepted? && o.state.layers == [[Statement(tokens, Block(b2))]]
            && o.state.env == ApplyAll(Env(-1, addrs),
                 TokenEvents(tokens, []) + ChildEvents(tokens, Block(b1)) + ChildEvents(tokens, Block(b2)))
  {
    var text, ts := TwoBlocks(tokens, b1, b2), TwoBlockTokens(tokens, b1, b2);
    ShapedWeaken([Statement(tokens, Block(b1))], IsPrintable, IsPrintable, AnyWord());
    ShapedWeaken(b2, IsPrintable, IsPrintable, AnyWord());
    assert ShapedStatement([Statement(tokens, Block(b1))][0], AnyWord());
    TokensOfTwo(tokens, b1, b2);
    TwoAreInner(tokens, b1, b2);
    SignificantOfInner(ts + [Eof]);
    assert InnerTokens(text) == ts;
    ReadTwo(tokens, b1, b2);
    BindTwo(tokens, b1, b2);
    ParseRefinesGrammar(text, addrs);
  }

  // ---------- an input on which tree and map part ----------

  /** The tree of `location <l> <t> { k; }` binds nothing. */
  lemma NothingBound(l: string, t: string, k: string)
    requires l != "listen" && l != "root" && l != "data_path" && l != "api-key"
    ensures var tokens := ["location", l, t];
            && ConfigEvents([Statement(tokens, Block([Statement([k], NoBlock)]))], []) == []
            && TokenEvents(tokens, []) == [] && ConfigEvents([Statement([k], NoBlock)], tokens) == []
  {
    var tokens, block := ["location", l, t], [Statement([k], NoBlock)];
    assert block[..0] == [];
    assert ConfigEvents(block, tokens) == [];
    assert Front(tokens) == ["location", l] && Front(["location", l]) == ["location"];
    assert TokenEvents(["location", l], []) == [];
    assert TokenEvents(tokens, []) == [];
    var tree := [Statement(tokens, Block(block))];
    assert tree[..0] == [];
  }

  lemma WordsOfExample()
    ensures IsPrintable("location") && IsPrintable("/a") && IsPrintable("T") && IsPrintable("k")
  {
  }

  lemma ExampleShaped(tokens: seq<string>, block: seq<Statement>)
    requires tokens == ["location", "/a", "T"] && block == [Statement(["k"], NoBlock)]
    ensures ShapedStatement(Statement(tokens, Block([])), IsPrintable) && Shaped(block, IsPrintable)
  {
    WordsOfExample();
  }

  lemma ExampleWords(tokens: seq<string>)
    requires tokens == ["location", "/a", "T"]
    ensures PrintTokens(tokens) == "location /a T"
  {
    assert tokens[..2] == ["location", "/a"] && ["location", "/a"][..1] == ["location"];
    assert PrintTokens(["location", "/a"]) == "location /a";
  }

  lemma ExampleFirst(tokens: seq<string>)
    requires PrintTokens(tokens) == "location /a T"
    ensures PrintConfig([Statement(tokens, Block([]))], 0) == "location /a T {\n}\n"
  {
    var st := Statement(tokens, Block([]));
    assert [st][..0] == [] && Indent(0) == "" && PrintConfig([], 1) == "";
    assert PrintStatement(st, 0) == "location /a T" + " {\n}" + "\n";
  }

  lemma ExampleSecond(block: seq<Statement>)
    requires block == [Statement(["k"], NoBlock)]
    ensures PrintConfig(block, 1) == "  k;\n"
  {
    assert block[..0] == [] && Indent(1) == "  " && PrintTokens(["k"]) == "k";
  }

  /** The text of the example. */
  lemma ExampleText(tokens: seq<string>, block: seq<Statement>)
    requires tokens == ["location", "/a", "T"] && block == [Statement(["k"], NoBlock)]
    ensures TwoBlocks(tokens, [], block) == "location /a T {\n}\n {\n  k;\n}\n"
  {
    ExampleWords(tokens);
    ExampleFirst(tokens);
    ExampleSecond(block);
    var first := "location /a T {\n}\n";
    assert first + (" {\n" + ("  k;\n" + "}\n")) == "location /a T {\n}\n {\n  k;\n}\n";
  }

  /** Its tree binds nothing, its map has a record for `/a`. */
  lemma ReplacedBlockStaysBound(text: string)
    requires text == "location /a T {\n}\n {\n  k;\n}\n"
    ensures var o := ParseText(text, map[]);
            && o.Accepted? && |o.state.layers| == 1 && ConfigEvents(o.state.layers[0], []) == []
            && o.state.env.addrs == map["/a" := ConfigArg("T", "/a", "", "")]
  {
    var tokens, block := ["location", "/a", "T"], [Statement(["k"], NoBlock)];
    ExampleText(tokens, block);
    ExampleParsed(text, tokens, block);
  }

  lemma ExampleParsed(text: string, tokens: seq<string>, block: seq<Statement>)
    requires text == TwoBlocks(tokens, [], block)
    requires tokens == ["location", "/a", "T"] && block == [Statement(["k"], NoBlock)]
    ensures var o := ParseText(text, map[]);
            && o.Accepted? && |o.state.layers| == 1 && ConfigEvents(o.state.layers[0], []) == []
            && o.state.env.addrs == map["/a" := ConfigArg("T", "/a", "", "")]
  {
    ExampleShaped(tokens, block);
    SecondBlockWins(tokens, [], block, map[]);
    NothingBound("/a", "T", "k");
    var e := Resets("/a", "T");
    assert TokenEvents(tokens, []) + ChildEvents(tokens, Block([])) + ChildEvents(tokens, Block(block)) == [e];
    assert Front([e]) == [];
  }
}
