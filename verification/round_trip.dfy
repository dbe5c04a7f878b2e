/** Printing a configuration and parsing the text again. */
module RoundTrip {
  import opened CxxStrings
  import opened ConfigTree
  import opened Scanner
  import opened LexicalRules
  import opened StackMachine
  import opened StreamShape
  import opened Grammar
  import opened PrintingLoss
  import opened Bindings
  import AddressMap

  // ---------- the token stream of a tree ----------

  function WordTokens(tokens: seq<string>): (ts: seq<Token>)
    ensures |ts| == |tokens|
    ensures forall i :: 0 <= i < |ts| ==> ts[i] == Word(tokens[i])
  {
    if tokens == [] then [] else WordTokens(Front(tokens)) + [Word(Last(tokens))]
  }

  function FlattenStatement(s: Statement): seq<Token>
    decreases s
  {
    WordTokens(s.tokens) +
    match s.child
    case NoBlock => [StatementEnd]
    case Block(statements) => [StartBlock] + FlattenConfig(statements) + [EndBlock]
  }

  function FlattenConfig(config: seq<Statement>): seq<Token>
    decreases config
  {
    if config == [] then []
    else FlattenConfig(config[..|config| - 1]) + FlattenStatement(config[|config| - 1])
  }

  // ---------- the scanner on printed text ----------

  lemma {:induction false} TokensSkipIndent(depth: nat, s: string)
    ensures Tokens(Indent(depth) + s) == Tokens(s)
  {
    if depth == 0 {
      assert Indent(depth) + s == s;
    } else {
      assert Indent(depth) + s == Indent(depth - 1) + ([' '] + ([' '] + s));
      TokensSkipIndent(depth - 1, [' '] + ([' '] + s));
      BetweenTokens(' ', [' '] + s);
      BetweenTokens(' ', s);
    }
  }

  lemma TokensWord(w: string, s: string)
    requires IsPrintable(w) && s != "" && IsDelimiter(s[0])
    ensures Tokens(w + s) == [Word(w)] + Tokens(s)
  {
    ScanPrintable(w, s);
  }

  /** The last word of a statement, after a blank. */
  lemma TokensNextWord(w: string, s: string)
    requires IsPrintable(w) && s != "" && IsDelimiter(s[0])
    ensures Tokens([' '] + (w + s)) == [Word(w)] + Tokens(s)
  {
    TokensWord(w, s);
    BetweenTokens(' ', w + s);
  }

  lemma PrintTokensSplit(tokens: seq<string>, s: string)
    requires |tokens| > 1
    ensures PrintTokens(tokens) + s == PrintTokens(Front(tokens)) + ([' '] + (Last(tokens) + s))
  {
  }

  lemma {:induction false} TokensOfWords(tokens: seq<string>, s: string)
    requires tokens != [] && forall i :: 0 <= i < |tokens| ==> IsPrintable(tokens[i])
    requires s != "" && IsDelimiter(s[0])
    ensures Tokens(PrintTokens(tokens) + s) == WordTokens(tokens) + Tokens(s)
    decreases |tokens|
  {
    var w := Last(tokens);
    if |tokens| == 1 {
      TokensWord(w, s);
      assert WordTokens(tokens) == [Word(w)];
    } else {
      PrintTokensSplit(tokens, s);
      TokensOfWords(Front(tokens), [' '] + (w + s));
      TokensNextWord(w, s);
      Reassociate(WordTokens(Front(tokens)), [Word(w)], Tokens(s));
    }
  }

  lemma TokensOfHead(depth: nat, tokens: seq<string>, s: string)
    requires tokens != [] && forall i :: 0 <= i < |tokens| ==> IsPrintable(tokens[i])
    requires s != "" && IsDelimiter(s[0])
    ensures Tokens(Indent(depth) + (PrintTokens(tokens) + s)) == WordTokens(tokens) + Tokens(s)
  {
    TokensSkipIndent(depth, PrintTokens(tokens) + s);
    TokensOfWords(tokens, s);
  }

  lemma TokensOfSemicolon(s: string)
    ensures Tokens(";\n" + s) == [StatementEnd] + Tokens(s)
  {
    assert ";\n" + s == [';'] + (['\n'] + s);
    BetweenTokens(';', ['\n'] + s);
    BetweenTokens('\n', s);
  }

  lemma TokensOfOpening(s: string)
    ensures Tokens(" {\n" + s) == [StartBlock] + Tokens(s)
  {
    assert " {\n" + s == [' '] + (['{'] + (['\n'] + s));
    BetweenTokens(' ', ['{'] + (['\n'] + s));
    BetweenTokens('{', ['\n'] + s);
    BetweenTokens('\n', s);
  }

  lemma TokensOfClosing(depth: nat, s: string)
    ensures Tokens(Indent(depth) + ("}\n" + s)) == [EndBlock] + Tokens(s)
  {
    TokensSkipIndent(depth, "}\n" + s);
    assert "}\n" + s == ['}'] + (['\n'] + s);
    BetweenTokens('}', ['\n'] + s);
    BetweenTokens('\n', s);
  }

  lemma Regroup<T>(a: seq<T>, b: seq<T>, c: seq<T>, d: seq<T>, e: seq<T>)
    ensures a + b + c + d + e == a + (b + (c + (d + e)))
  {
  }

  lemma PrintStatementParts(st: Statement, depth: nat, s: string)
    ensures PrintStatement(st, depth) + s == Indent(depth) + (PrintTokens(st.tokens) +
              match st.child
              case NoBlock => ";\n" + s
              case Block(b) => " {\n" + (PrintConfig(b, depth + 1) + (Indent(depth) + ("}\n" + s))))
  {
    var head, words := Indent(depth), PrintTokens(st.tokens);
    match st.child
    case NoBlock =>
      Regroup(head, words, ";", "\n", s);
      assert ";" + ("\n" + s) == ";\n" + s;
    case Block(b) =>
      var block := " {\n" + PrintConfig(b, depth + 1) + Indent(depth) + "}";
      Regroup(head, words, block, "\n", s);
      Regroup(" {\n", PrintConfig(b, depth + 1), Indent(depth), "}", "\n" + s);
      assert "}" + ("\n" + s) == "}\n" + s;
  }

  lemma {:induction false} TokensOfStatement(st: Statement, depth: nat, s: string)
    requires ShapedStatement(st, IsPrintable)
    ensures Tokens(PrintStatement(st, depth) + s) == FlattenStatement(st) + Tokens(s)
    decreases st
  {
    PrintStatementParts(st, depth, s);
    var head := WordTokens(st.tokens);
    match st.child
    case NoBlock =>
      TokensOfHead(depth, st.tokens, ";\n" + s);
      TokensOfSemicolon(s);
      Reassociate(head, [StatementEnd], Tokens(s));
    case Block(b) =>
      var close := Indent(depth) + ("}\n" + s);
      var body := PrintConfig(b, depth + 1) + close;
      TokensOfHead(depth, st.tokens, " {\n" + body);
      TokensOfOpening(body);
      TokensOfConfig(b, depth + 1, close);
      TokensOfClosing(depth, s);
      BlockTokens(head, FlattenConfig(b), Tokens(s));
  }

  lemma BlockTokens(head: seq<Token>, body: seq<Token>, ts: seq<Token>)
    ensures head + ([StartBlock] + (body + ([EndBlock] + ts))) == head + ([StartBlock] + body + [EndBlock]) + ts
  {
  }

  lemma {:induction false} TokensOfConfig(config: seq<Statement>, depth: nat, s: string)
    requires Shaped(config, IsPrintable)
    ensures Tokens(PrintConfig(config, depth) + s) == FlattenConfig(config) + Tokens(s)
    decreases config
  {
    if config == [] {
      assert PrintConfig(config, depth) + s == s;
    } else {
      var front, last := config[..|config| - 1], config[|config| - 1];
      var tail := PrintStatement(last, depth) + s;
      assert PrintConfig(config, depth) + s == PrintConfig(front, depth) + tail;
      TokensOfConfig(front, depth, tail);
      TokensOfStatement(last, depth, s);
      Reassociate(FlattenConfig(front), FlattenStatement(last), Tokens(s));
    }
  }

  // ---------- the grammar on the stream of a tree ----------

  lemma WordsStep(w: string, ts: seq<Token>)
    ensures Words([Word(w)] + ts) == [w] + Words(ts)
  {
    assert ([Word(w)] + ts)[1..] == ts;
  }

  lemma {:induction false} WordsBehind(words: seq<string>, ws: seq<Token>, ts: seq<Token>)
    requires |ws| == |words| && forall i :: 0 <= i < |ws| ==> ws[i] == Word(words[i])
    ensures Words(ws + ts) == words + Words(ts)
    decreases |words|
  {
    if words == [] {
      assert ws + ts == ts && words + Words(ts) == Words(ts);
    } else {
      var w, rest := words[0], ws[1..];
      assert ws + ts == [Word(w)] + (rest + ts);
      WordsStep(w, rest + ts);
      WordsBehind(words[1..], rest, ts);
      Reassociate([w], words[1..], Words(ts));
      assert [w] + words[1..] == words;
    }
  }

  lemma WordsOf(tokens: seq<string>, ts: seq<Token>)
    requires ts != [] ==> !ts[0].Word?
    ensures Words(WordTokens(tokens) + ts) == tokens
  {
    WordsBehind(tokens, WordTokens(tokens), ts);
    assert Words(ts) == [] && tokens + [] == tokens;
  }

  /** The stream of a tree, wherever it stands, is read back as that tree. */
  lemma {:induction false} ReadFlattened(config: seq<Statement>, ts: seq<Token>, done: seq<Statement>)
    requires Shaped(config, AnyWord())
    ensures ReadBlock(FlattenConfig(config) + ts, done) == ReadBlock(ts, done + config)
    decreases config
  {
    if config == [] {
      assert FlattenConfig(config) + ts == ts && done + config == done;
    } else {
      var front, last := config[..|config| - 1], config[|config| - 1];
      Reassociate(FlattenConfig(front), FlattenStatement(last), ts);
      Reassociate(done, front, [last]);
      assert front + [last] == config;
      ReadFlattened(front, FlattenStatement(last) + ts, done);
      ReadFlattenedStatement(last, ts, done + front);
    }
  }

  lemma {:induction false} ReadFlattenedStatement(st: Statement, ts: seq<Token>, done: seq<Statement>)
    requires ShapedStatement(st, AnyWord())
    ensures ReadBlock(FlattenStatement(st) + ts, done) == ReadBlock(ts, done + [st])
    decreases st
  {
    var head := WordTokens(st.tokens);
    match st.child
    case NoBlock =>
      Reassociate(head, [StatementEnd], ts);
      ReadSimple(st.tokens, ts, done);
    case Block(b) =>
      var inside := FlattenConfig(b) + ([EndBlock] + ts);
      BlockTokens(head, FlattenConfig(b), ts);
      ReadFlattened(b, [EndBlock] + ts, []);
      assert [] + b == b;
      ReadOwned(st.tokens, inside, b, ts, done);
  }

  lemma ReadSimple(tokens: seq<string>, ts: seq<Token>, done: seq<Statement>)
    requires tokens != []
    ensures ReadBlock(WordTokens(tokens) + ([StatementEnd] + ts), done) ==
        ReadBlock(ts, done + [Statement(tokens, NoBlock)])
  {
    ReadWords(tokens, [StatementEnd] + ts, done);
    assert ([StatementEnd] + ts)[1..] == ts;
  }

  lemma ReadOwned(tokens: seq<string>, inside: seq<Token>, b: seq<Statement>, ts: seq<Token>, done: seq<Statement>)
    requires tokens != [] && ReadBlock(inside, []) == ReadBlock([EndBlock] + ts, b)
    ensures ReadBlock(WordTokens(tokens) + ([StartBlock] + inside), done) ==
            ReadBlock(ts, done + [Statement(tokens, Block(b))])
  {
    var next := done + [Statement(tokens, NoBlock)];
    ReadWords(tokens, [StartBlock] + inside, done);
    ReadBrackets(inside, b, ts, next);
    assert SetChild(next, Block(b)) == done + [Statement(tokens, Block(b))];
  }

  lemma ReadWords(tokens: seq<string>, ts: seq<Token>, done: seq<Statement>)
    requires tokens != [] && ts != [] && (ts[0].StatementEnd? || ts[0].StartBlock?)
    ensures ReadBlock(WordTokens(tokens) + ts, done) ==
            ReadBlock(if ts[0].StatementEnd? then ts[1..] else ts, done + [Statement(tokens, NoBlock)])
  {
    WordsOf(tokens, ts);
    var us := WordTokens(tokens) + ts;
    assert us[0] == Word(tokens[0]) && us[|tokens|..] == ts;
  }

  lemma ReadBrackets(inside: seq<Token>, b: seq<Statement>, ts: seq<Token>, done: seq<Statement>)
    requires done != [] && ReadBlock(inside, []) == ReadBlock([EndBlock] + ts, b)
    ensures ReadBlock([StartBlock] + inside, done) == ReadBlock(ts, SetChild(done, Block(b)))
  {
    assert ([StartBlock] + inside)[1..] == inside;
    assert ([EndBlock] + ts)[1..] == ts;
  }

  /** Concatenation creates no pair of words. */
  ghost predicate Closed(ts: seq<Token>) {
    && AllInner(ts) && ListensFollowed(ts) && AddressMap.NoBlockReplaced(ts)
    && (ts != [] ==> ts[0].Word? && !Last(ts).Word?)
  }

  lemma ClosedAppend(ts: seq<Token>, us: seq<Token>)
    requires Closed(ts) && Closed(us)
    ensures Closed(ts + us)
  {
    var all := ts + us;
    forall i | 1 <= i < |all|
      ensures all[i - 1] == Word("listen") && all[i].Word? ==> SafePort(all[i].text) != -1
      ensures all[i].StartBlock? ==> !all[i - 1].EndBlock?
    {
      if i < |ts| {
        assert all[i - 1] == ts[i - 1] && all[i] == ts[i];
      } else if i > |ts| {
        assert all[i - 1] == us[i - 1 - |ts|] && all[i] == us[i - |ts|];
      }
    }
  }

  lemma ClosedSimple(words: seq<string>)
    requires words != [] && ListensOk(words)
    ensures Closed(WordTokens(words) + [StatementEnd])
  {
  }

  lemma ClosedBlock(words: seq<string>, body: seq<Token>)
    requires words != [] && ListensOk(words) && Closed(body)
    ensures Closed(WordTokens(words) + ([StartBlock] + body + [EndBlock]))
  {
    var all, n := WordTokens(words) + ([StartBlock] + body + [EndBlock]), |words|;
    assert forall i :: 0 <= i < |body| ==> all[n + 1 + i] == body[i];
    forall i | 1 <= i < |all|
      ensures all[i - 1] == Word("listen") && all[i].Word? ==> SafePort(all[i].text) != -1
      ensures all[i].StartBlock? ==> !all[i - 1].EndBlock?
    {
      if n + 2 <= i < |all| - 1 {
        assert all[i - 1] == body[i - n - 2] && all[i] == body[i - n - 1];
      }
    }
  }

  lemma {:induction false} FlattenedIsClosed(config: seq<Statement>)
    requires Shaped(config, AnyWord())
    ensures Closed(FlattenConfig(config)) && (config != [] ==> FlattenConfig(config) != [])
    decreases config
  {
    if config != [] {
      var st := config[|config| - 1];
      FlattenedIsClosed(config[..|config| - 1]);
      assert ShapedStatement(st, AnyWord());
      if st.child.Block? {
        FlattenedIsClosed(st.child.statements);
        ClosedBlock(st.tokens, FlattenConfig(st.child.statements));
      } else {
        ClosedSimple(st.tokens);
      }
      ClosedAppend(FlattenConfig(config[..|config| - 1]), FlattenStatement(st));
    }
  }

  // ---------- main results ----------

  lemma {:induction false} ShapedWeaken(config: seq<Statement>, p: string -> bool, q: string -> bool, r: string -> bool)
    requires Shaped(config, p) && Shaped(config, q)
    requires forall w :: p(w) && q(w) ==> r(w)
    ensures Shaped(config, r)
    decreases config
  {
    forall i | 0 <= i < |config|
      ensures ShapedStatement(config[i], r)
    {
      assert ShapedStatement(config[i], p) && ShapedStatement(config[i], q);
      if config[i].child.Block? {
        ShapedWeaken(config[i].child.statements, p, q, r);
      }
    }
  }

  lemma {:induction false} SignificantOfInner(ts: seq<Token>)
    requires forall i :: 0 <= i < |ts| ==> !ts[i].Comment?
    ensures Significant(ts) == ts
  {
    if ts != [] {
      SignificantOfInner(ts[1..]);
    }
  }

  /** A text whose stream is that of a tree is parsed into the tree, with the bindings that document
      order gives it. */
  lemma ParseFlattened(text: string, config: seq<Statement>, addrs: map<string, ConfigArg>)
    requires Shaped(config, AnyWord()) && Tokens(text) == FlattenConfig(config) + [Eof]
    ensures var o := ParseText(text, addrs);
            && (o.Accepted? <==> config != [])
            && (o.Accepted? ==> o.state.layers == [config])
            && (o.Accepted? ==>
                  o.state.env == ApplyAll(Env(-1, addrs), ConfigEvents(config, [])))
  {
    var ts := FlattenConfig(config);
    FlattenedIsClosed(config);
    SignificantOfInner(Tokens(text));
    assert Front(Tokens(text)) == ts;
    ReadFlattened(config, [], []);
    assert ts + [] == ts && [] + config == config;
    ParseRefinesGrammar(text, addrs);
    if config != [] {
      AddressMap.ParseBindsTree(text, addrs);
    }
  }

  /** Print, then parse: a tree of any depth comes back unchanged, together with the bindings that
      document order gives it. Printable words are the exact class the scanner reads back
      (`ScanPrintable`); an empty configuration prints as an empty text, which is rejected. */
  lemma PrintThenParse(config: seq<Statement>, addrs: map<string, ConfigArg>)
    requires Shaped(config, IsPrintable)
    ensures var o := ParseText(PrintConfig(config, 0), addrs);
            && (o.Accepted? <==> config != [])
            && (o.Accepted? ==> o.state.layers == [config])
            && (o.Accepted? ==>
                  o.state.env == ApplyAll(Env(-1, addrs), ConfigEvents(config, [])))
  {
    var text := PrintConfig(config, 0);
    TokensOfConfig(config, 0, "");
    assert text + "" == text;
    assert Tokens("") == [Eof];
    ShapedWeaken(config, IsPrintable, IsPrintable, AnyWord());
    ParseFlattened(text, config, addrs);
  }

  /** Behind any accepted text a word without a semicolon goes unnoticed: the parser's verdict, tree,
      port and map stay the same, and the word is lost. (A carriage return in the word could end a
      comment that the text leaves open.) */
  lemma UnterminatedWordIsLost(s: string, w: string, addrs: map<string, ConfigArg>)
    requires ParseText(s, addrs).Accepted? && IsPlain(w) && '\r' !in w
    ensures ParseText(s + w, addrs) == ParseText(s, addrs)
  {
    ParseAccepts(s, addrs);
    LastWordUnnoticed(s, w);
  }

  /** Behind printed text, which leaves no comment open, it may be any plain word. */
  lemma PrintedWordIsLost(config: seq<Statement>, w: string, addrs: map<string, ConfigArg>)
    requires Shaped(config, IsPrintable) && config != [] && IsPlain(w)
    ensures var o := ParseText(PrintConfig(config, 0) + w, addrs); o.Accepted? && o.state.layers == [config]
  {
    TokensOfConfig(config, 0, w);
    LastWordIsDropped(w);
    ShapedWeaken(config, IsPrintable, IsPrintable, AnyWord());
    ParseFlattened(PrintConfig(config, 0) + w, config, addrs);
  }

  lemma AcceptedTree(text: string, addrs: map<string, ConfigArg>, p: string -> bool)
    requires ParseText(text, addrs).Accepted?
    requires forall t :: t in Tokens(text) && t.Word? ==> p(t.text)
    ensures var layers := ParseText(text, addrs).state.layers;
            |layers| == 1 && layers[0] != [] && Shaped(layers[0], p)
  {
    RunKeepsInv(Running(Initial(addrs)), Tokens(text), p);
    AcceptedDepth(Running(Initial(addrs)), Tokens(text));
  }

  lemma {:induction false} AcceptedDepth(o: Outcome, ts: seq<Token>)
    requires !o.Accepted?
    ensures Run(o, ts).Accepted? ==> Run(o, ts).state.depth == 0
    ensures Run(o, ts).Accepted? ==> Run(o, ts).state.last == End || Run(o, ts).state.last == Close
    decreases |ts|
  {
    if ts != [] && o.Running? {
      var next := Step(o.state, ts[0]);
      if next.Accepted? {
        assert Run(next, ts[1..]) == next;
      } else {
        AcceptedDepth(next, ts[1..]);
      }
    }
  }

  /** The configuration an accepted text stands for. */
  function ParsedConfig(text: string, addrs: map<string, ConfigArg>): seq<Statement>
    requires ParseText(text, addrs).Accepted?
  {
    var layers := ParseText(text, addrs).state.layers;
    if layers == [] then [] else Assemble(layers)
  }

  /** If a tree comes back from its print, nothing was lost on the way: no word has an escape. */
  lemma SurvivingTree(config: seq<Statement>, addrs: map<string, ConfigArg>)
    requires var o := ParseText(PrintConfig(config, 0), addrs); o.Accepted? && o.state.layers == [config]
    ensures config != [] && Shaped(config, IsPrintable)
  {
    var text := PrintConfig(config, 0);
    PrintInk(config, 0);
    ParseInk(text, addrs);
    AcceptedTree(text, addrs, IsEscapeFree);
    TokensText(text);
    AcceptedTree(text, addrs, IsLexeme);
    ShapedWeaken(config, IsLexeme, IsEscapeFree, IsPrintable);
  }

  /** Exactly the trees made of printable words survive printing and parsing, whatever words, empty
      statements or ports there are at whatever depth. */
  lemma OnlyPrintableTreesSurvive(config: seq<Statement>, addrs: map<string, ConfigArg>)
    ensures var o := ParseText(PrintConfig(config, 0), addrs);
            o.Accepted? && o.state.layers == [config] <==> config != [] && Shaped(config, IsPrintable)
  {
    if config != [] && Shaped(config, IsPrintable) {
      PrintThenParse(config, addrs);
    }
    var o := ParseText(PrintConfig(config, 0), addrs);
    if o.Accepted? && o.state.layers == [config] {
      SurvivingTree(config, addrs);
    }
  }

  lemma ParsedLayers(text: string, addrs: map<string, ConfigArg>)
    requires ParseText(text, addrs).Accepted?
    ensures var config := ParsedConfig(text, addrs);
            config != [] && Shaped(config, IsLexeme) && ParseText(text, addrs).state.layers == [config]
  {
    TokensText(text);
    AcceptedTree(text, addrs, IsLexeme);
  }

  /** Parse, print, parse: printing an accepted configuration and parsing the text again gives the same
      tree exactly when the words of the configuration are free of escapes. */
  lemma ParsePrintParse(text: string, addrs: map<string, ConfigArg>, again: map<string, ConfigArg>)
    requires ParseText(text, addrs).Accepted?
    ensures var config := ParsedConfig(text, addrs);
            var printed := PrintConfig(config, 0);
            ParseText(printed, again).Accepted? && ParsedConfig(printed, again) == config <==>
              Shaped(config, IsEscapeFree)
  {
    var config := ParsedConfig(text, addrs);
    var printed := PrintConfig(config, 0);
    ParsedLayers(text, addrs);
    OnlyPrintableTreesSurvive(config, again);
    if Shaped(config, IsEscapeFree) {
      ShapedWeaken(config, IsLexeme, IsEscapeFree, IsPrintable);
    }
    if Shaped(config, IsPrintable) {
      ShapedWeaken(config, IsPrintable, IsPrintable, IsEscapeFree);
    }
    if ParseText(printed, again).Accepted? {
      ParsedLayers(printed, again);
    }
  }

  /** In particular it does for every accepted text without a backslash. */
  lemma ParsePrintParsePlain(text: string, addrs: map<string, ConfigArg>, again: map<string, ConfigArg>)
    requires ParseText(text, addrs).Accepted? && '\\' !in text
    ensures var printed := PrintConfig(ParsedConfig(text, addrs), 0);
            ParseText(printed, again).Accepted? && ParsedConfig(printed, again) == ParsedConfig(text, addrs)
  {
    TokensWithoutBackslash(text);
    AcceptedTree(text, addrs, IsEscapeFree);
    ParsePrintParse(text, addrs, again);
  }

  // ---------- a tree that does not survive ----------

  /** A word and a block of one word in quotes, written with the escapes that it needs. */
  function QuotedInBlock(word: string, s: string): string {
    word + (['{'] + (['"'] + Escape('"', s) + ['"'] + ";}"))
  }

  lemma TokensOfEnd(after: string)
    requires after == ";}"
    ensures Tokens(after) == [StatementEnd] + ([EndBlock] + [Eof])
  {
    assert after == [';'] + (['}'] + "");
    BetweenTokens(';', ['}'] + "");
    BetweenTokens('}', "");
    assert Tokens("") == [Eof];
  }

  lemma QuotedInBlockTokens(word: string, s: string)
    requires IsPrintable(word)
    ensures Tokens(QuotedInBlock(word, s)) ==
            [Word(word)] + ([StartBlock] + ([Word(['"'] + s + ['"'])] + ([StatementEnd] + ([EndBlock] + [Eof]))))
  {
    var after := ";}";
    var quoted := ['"'] + Escape('"', s) + ['"'] + after;
    TokensWord(word, ['{'] + quoted);
    BetweenTokens('{', quoted);
    TokensOfQuoted('"', s, after);
    TokensOfEnd(after);
  }

  lemma EscapeExampleWord(s: string)
    requires s == "b\\c"
    ensures Escape('"', s) == "b\\\\c"
  {
    assert s[1..] == "\\c" && "\\c"[1..] == "c" && "c"[1..] == "";
    assert Escape('"', "c") == "c" && Escape('"', "\\c") == "\\\\c";
  }

  lemma EscapeExampleText(text: string, s: string, w: string)
    requires text == "a{\"b\\\\c\";}" && s == "b\\c" && w == "\"b\\c\""
    ensures text == QuotedInBlock("a", s) && ['"'] + s + ['"'] == w
  {
    EscapeExampleWord(s);
  }

  lemma EscapeExampleStream(config: seq<Statement>, w: string)
    requires config == [Statement(["a"], Block([Statement([w], NoBlock)]))]
    ensures FlattenConfig(config) + [Eof] ==
            [Word("a")] + ([StartBlock] + ([Word(w)] + ([StatementEnd] + ([EndBlock] + [Eof]))))
  {
    var b := [Statement([w], NoBlock)];
    assert config[..0] == [] && b[..0] == [];
    assert FlattenConfig(b) == [Word(w)] + [StatementEnd];
    assert FlattenConfig(config) == [Word("a")] + ([StartBlock] + ([Word(w)] + [StatementEnd]) + [EndBlock]);
  }

  lemma WordInBlock(config: seq<Statement>, w: string, p: string -> bool)
    requires config == [Statement(["a"], Block([Statement([w], NoBlock)]))] && Shaped(config, p)
    ensures p(w)
  {
    assert ShapedStatement(config[0], p);
    var b := config[0].child.statements;
    assert Shaped(b, p) && ShapedStatement(b[0], p);
    assert b[0].tokens[0] == w;
  }

  lemma EscapeExampleShape(config: seq<Statement>, w: string)
    requires w == "\"b\\c\"" && config == [Statement(["a"], Block([Statement([w], NoBlock)]))]
    ensures Shaped(config, AnyWord()) && !Shaped(config, IsPrintable)
  {
    var inner := Statement([w], NoBlock);
    assert ShapedStatement(inner, AnyWord()) && ShapedStatement(config[0], AnyWord());
    assert w[2] == '\\' && !IsPrintable(w);
    if Shaped(config, IsPrintable) {
      WordInBlock(config, w, IsPrintable);
    }
  }

  /** The text `a{"b\\c";}` is accepted with the word `"b\c"` inside its block. Printed, that word is read
      as another, and the tree does not come back. */
  lemma EscapeInBlockIsLost(text: string, config: seq<Statement>)
    requires text == "a{\"b\\\\c\";}"
    requires config == [Statement(["a"], Block([Statement(["\"b\\c\""], NoBlock)]))]
    ensures ParseText(text, map[]).Accepted? && ParseText(text, map[]).state.layers == [config]
    ensures var o := ParseText(PrintConfig(config, 0), map[]); !(o.Accepted? && o.state.layers == [config])
  {
    var w := "\"b\\c\"";
    EscapeExampleText(text, "b\\c", w);
    QuotedInBlockTokens("a", "b\\c");
    EscapeExampleStream(config, w);
    EscapeExampleShape(config, w);
    ParseFlattened(text, config, map[]);
    OnlyPrintableTreesSurvive(config, map[]);
  }
}
