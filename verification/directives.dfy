/** The configuration's words by their names, and its printed form by its characters: what `location`,
    `root`, `data_path`, `api-key` and `listen` do in a text, and where blanks and lines go. */
module Directives {
  import opened CxxStrings
  import opened ConfigTree
  import opened Scanner
  import opened LexicalRules
  import opened StackMachine
  import opened StreamShape
  import opened Bindings
  import opened RoundTrip
  import opened SyntaxRules

  // ---------- the printed form ----------

  /** Two blanks for each level. */
  lemma {:induction false} IndentIs(depth: nat)
    ensures Indent(depth) == seq(2 * depth, _ => ' ')
  {
    if depth > 0 {
      IndentIs(depth - 1);
    }
  }

  lemma {:induction false} JoinSnoc(pieces: seq<string>, last: string, separator: string)
    requires pieces != []
    ensures Join(pieces + [last], separator) == Join(pieces, separator) + separator + last
    decreases |pieces|
  {
    var all := pieces + [last];
    if |pieces| == 1 {
      assert all[1..] == [last];
    } else {
      assert all[1..] == pieces[1..] + [last];
      JoinSnoc(pieces[1..], last, separator);
      var rest := Join(pieces[1..], separator);
      assert pieces[0] + separator + (rest + separator + last) == pieces[0] + separator + rest + separator + last;
    }
  }

  /** One blank between words. */
  lemma {:induction false} WordsJoined(tokens: seq<string>)
    ensures PrintTokens(tokens) == Join(tokens, " ")
    decreases |tokens|
  {
    if |tokens| >= 2 {
      WordsJoined(Front(tokens));
      JoinSnoc(Front(tokens), Last(tokens), " ");
      assert Front(tokens) + [Last(tokens)] == tokens;
    }
  }

  /** The lines of a printed configuration: a statement starts its line and ends it with a semicolon or
      with an opening bracket, whose closing one stands below the statement. */
  lemma PrintedLines(tokens: seq<string>, block: seq<Statement>, depth: nat)
    ensures PrintStatement(Statement(tokens, NoBlock), depth) == Indent(depth) + Join(tokens, " ") + ";\n"
    ensures PrintStatement(Statement(tokens, Block(block)), depth) ==
            Indent(depth) + Join(tokens, " ") + " {\n" + PrintConfig(block, depth + 1) + Indent(depth) + "}\n"
  {
    WordsJoined(tokens);
    var margin, words, inner := Indent(depth), Join(tokens, " "), PrintConfig(block, depth + 1);
    assert margin + words + ";" + "\n" == margin + words + ";\n";
    assert margin + words + (" {\n" + inner + margin + "}") + "\n" == margin + words + " {\n" + inner + margin + "}\n";
  }

  /** Statements are printed one after the other. */
  lemma {:induction false} PrintedInOrder(first: seq<Statement>, second: seq<Statement>, depth: nat)
    ensures PrintConfig(first + second, depth) == PrintConfig(first, depth) + PrintConfig(second, depth)
    decreases |second|
  {
    if second == [] {
      assert first + second == first;
    } else {
      var front, last := Front(second), Last(second);
      assert (first + second)[..|first + second| - 1] == first + front;
      PrintedInOrder(first, front, depth);
      Reassociate(PrintConfig(first, depth), PrintConfig(front, depth), PrintStatement(last, depth));
    }
  }

  lemma PrintedOne(st: Statement, depth: nat)
    ensures PrintConfig([st], depth) == PrintStatement(st, depth)
  {
    assert [st][..0] == [];
  }

  lemma NoMargin(head: string, inner: string)
    ensures "" + head + " {\n" + inner + "" + "}\n" == head + " {\n" + inner + "}\n"
  {
  }

  /** A block at the left margin, with `inner` in it. */
  lemma PrintedBlock(words: seq<string>, block: seq<Statement>, inner: string)
    requires PrintConfig(block, 1) == inner
    ensures PrintConfig([Statement(words, Block(block))], 0) == Join(words, " ") + " {\n" + inner + "}\n"
  {
    PrintedOne(Statement(words, Block(block)), 0);
    PrintedLines(words, block, 0);
    NoMargin(Join(words, " "), inner);
  }

  /** A directive in a block at the left margin. */
  lemma PrintedDirective(key: string, value: string)
    ensures PrintConfig([Statement([key, value], NoBlock)], 1) == "  " + key + " " + value + ";\n"
  {
    PrintedOne(Statement([key, value], NoBlock), 1);
    PrintedLines([key, value], [], 1);
    assert [key, value][1..] == [value];
    assert Indent(1) == "  ";
    assert "  " + (key + " " + value) + ";\n" == "  " + key + " " + value + ";\n";
  }

  // ---------- a block and one directive in it ----------

  /** Outside any block words bind nothing but ports. */
  lemma {:induction false} NoEventsOutside(words: seq<string>)
    requires "listen" !in words
    ensures TokenEvents(words, []) == []
    decreases |words|
  {
    if |words| >= 2 {
      NoEventsOutside(Front(words));
      assert words[|words| - 2] in words;
    }
  }

  lemma DirectiveEvents(words: seq<string>, key: string, value: string)
    requires "listen" !in words
    ensures ConfigEvents([Statement(words, Block([Statement([key, value], NoBlock)]))], []) ==
            PairEvents(key, value, words)
  {
    var st := Statement([key, value], NoBlock);
    NoEventsOutside(words);
    assert [st][..0] == [] && Front([key, value]) == [key];
    assert TokenEvents([key, value], words) == PairEvents(key, value, words);
    assert ConfigEvents([st], words) == PairEvents(key, value, words);
    var tree := [Statement(words, Block([st]))];
    assert tree[..0] == [];
  }

  lemma PlainListens(words: seq<string>)
    requires "listen" !in words
    ensures ListensOk(words)
  {
    forall i | 0 <= i < |words|
      ensures words[i] != "listen"
    {
      assert words[i] in words;
    }
  }

  lemma DirectiveShaped(words: seq<string>, key: string, value: string)
    requires words != [] && "listen" !in words && key != "listen"
    requires (forall i :: 0 <= i < |words| ==> IsPrintable(words[i])) && IsPrintable(key) && IsPrintable(value)
    ensures Shaped([Statement(words, Block([Statement([key, value], NoBlock)]))], IsPrintable)
  {
    PlainListens(words);
    assert ShapedStatement(Statement([key, value], NoBlock), IsPrintable);
    assert Shaped([Statement([key, value], NoBlock)], IsPrintable);
    assert ShapedStatement(Statement(words, Block([Statement([key, value], NoBlock)])), IsPrintable);
  }

  lemma OneEvent(e: Event)
    ensures ApplyAll(Env(-1, map[]), [e]) == Apply(Env(-1, map[]), e)
  {
    assert Front([e]) == [];
  }

  /** What one directive binds in an empty map. */
  function DirectiveMap(words: seq<string>, key: string, value: string): map<string, ConfigArg> {
    if |words| < 3 || words[|words| - 3] != "location" then map[]
    else
      var l, t := words[|words| - 2], words[|words| - 1];
      if key == "root" || key == "data_path" then map[l := ConfigArg(t, l, value, "")]
      else if key == "api-key" then map[l := ConfigArg(t, l, "", value)]
      else map[]
  }

  lemma PairBinds(words: seq<string>, key: string, value: string)
    requires key != "listen" && forall i :: 0 <= i < |words| ==> words[i] != ""
    ensures ApplyAll(Env(-1, map[]), PairEvents(key, value, words)) == Env(-1, DirectiveMap(words, key, value))
  {
    var es := PairEvents(key, value, words);
    if es != [] {
      assert es == [es[0]];
      OneEvent(es[0]);
    }
  }

  lemma DirectiveParsed(text: string, words: seq<string>, key: string, value: string)
    requires words != [] && "listen" !in words && key != "listen"
    requires (forall i :: 0 <= i < |words| ==> IsPrintable(words[i])) && IsPrintable(key) && IsPrintable(value)
    requires text == PrintConfig([Statement(words, Block([Statement([key, value], NoBlock)]))], 0)
    ensures var o := ParseText(text, map[]); o.Accepted? && o.state.env == Env(-1, DirectiveMap(words, key, value))
  {
    DirectiveShaped(words, key, value);
    PrintThenParse([Statement(words, Block([Statement([key, value], NoBlock)]))], map[]);
    DirectiveEvents(words, key, value);
    PairBinds(words, key, value);
  }

  /** A directive in a block binds something only if the block's words end in `location`, a path and a
      type, and only under three names. */
  lemma DirectiveBinds(words: seq<string>, key: string, value: string)
    requires words != [] && "listen" !in words && key != "listen"
    requires (forall i :: 0 <= i < |words| ==> IsPrintable(words[i])) && IsPrintable(key) && IsPrintable(value)
    ensures var o := ParseText(Join(words, " ") + " {\n" + ("  " + key + " " + value + ";\n") + "}\n", map[]);
            && o.Accepted? && o.state.env.port == -1
            && o.state.env.addrs ==
               if |words| < 3 || words[|words| - 3] != "location" then map[]
               else
                 var l, t := words[|words| - 2], words[|words| - 1];
                 if key == "root" || key == "data_path" then map[l := ConfigArg(t, l, value, "")]
                 else if key == "api-key" then map[l := ConfigArg(t, l, "", value)] else map[]
  {
    var line := "  " + key + " " + value + ";\n";
    PrintedDirective(key, value);
    PrintedBlock(words, [Statement([key, value], NoBlock)], line);
    DirectiveParsed(Join(words, " ") + " {\n" + line + "}\n", words, key, value);
  }

  // ---------- ports ----------

  lemma SecondWord(k: string, p: string, env: Env, ts: seq<Token>)
    ensures Run(Running(State([Single(k)], Normal, 0, env)), [Word(p)] + ts) ==
            match BindWord([k], [], p, env)
            case None => Rejected(State([Single(k)], Normal, 0, env))
            case Some(env') => Run(Running(State([[Statement([k, p], NoBlock)]], Normal, 0, env')), ts)
  {
    RunStep(State([Single(k)], Normal, 0, env), Word(p), ts);
    assert [k] + [p] == [k, p];
    assert AddToken(Single(k), p) == [Statement([k, p], NoBlock)];
    assert [] + [AddToken(Single(k), p)] == [[Statement([k, p], NoBlock)]];
  }

  lemma PairText(k: string, p: string, addrs: map<string, ConfigArg>)
    requires IsBareWord(k) && IsBareWord(p)
    ensures var o := ParseText(k + [' '] + (p + [';'] + ""), addrs);
            match BindWord([k], [], p, Env(-1, addrs))
            case None => o.Rejected?
            case Some(env) => o.Accepted? && o.state.env == env && o.state.layers == [[Statement([k, p], NoBlock)]]
  {
    var env, rest := Env(-1, addrs), [StatementEnd] + [Eof];
    EndTokens("");
    WordThen(p, ';', "");
    WordThen(k, ' ', p + [';'] + "");
    FirstWord(k, [Word(p)] + rest, addrs);
    SecondWord(k, p, env, rest);
    var after := BindWord([k], [], p, env);
    if after.Some? {
      SemicolonRuns([Statement([k, p], NoBlock)], after.value, [Eof]);
      AfterSemicolon([Statement([k, p], NoBlock)], after.value);
    }
  }

  /** `listen` sets the port, and a text whose port is no port is rejected. */
  lemma ListenSets(n: nat, addrs: map<string, ConfigArg>)
    ensures var o := ParseText("listen" + [' '] + (ToDecimal(n) + [';'] + ""), addrs);
            if n <= 65535 then o.Accepted? && o.state.env == Env(n, addrs) else o.Rejected?
  {
    DecimalIsBare(n);
    PairText("listen", ToDecimal(n), addrs);
    PortOfDecimal(n);
  }

  lemma DecimalIsBare(n: nat)
    ensures IsBareWord(ToDecimal(n))
  {
    DecimalDigits(n);
    assert forall i :: 0 <= i < |ToDecimal(n)| ==> IsDigit(ToDecimal(n)[i]);
  }

  /** No other word in front of a word does anything outside a block. */
  lemma OtherWordsBindNothing(k: string, p: string, addrs: map<string, ConfigArg>)
    requires IsBareWord(k) && IsBareWord(p) && k != "listen"
    ensures var o := ParseText(k + [' '] + (p + [';'] + ""), addrs); o.Accepted? && o.state.env == Env(-1, addrs)
  {
    PairText(k, p, addrs);
  }

  // ---------- two blocks for one location ----------

  lemma TwoStatements(first: Statement, second: Statement)
    ensures ConfigEvents([first, second], []) ==
            ConfigEvents([first], []) + TokenEvents(second.tokens, []) + ChildEvents(second.tokens, second.child)
    ensures PrintConfig([first, second], 0) == PrintConfig([first], 0) + PrintConfig([second], 0)
  {
    assert [first, second][..1] == [first];
    assert [first] + [second] == [first, second];
    PrintedInOrder([first], [second], 0);
  }

  lemma BlockOf(words: seq<string>, key: string, value: string)
    requires "listen" !in words
    ensures var st := Statement(words, Block([Statement([key, value], NoBlock)]));
            TokenEvents(words, []) + ChildEvents(words, st.child) == PairEvents(key, value, words)
  {
    DirectiveEvents(words, key, value);
    var st := Statement(words, Block([Statement([key, value], NoBlock)]));
    assert [st][..0] == [];
  }

  lemma WordsOfLocation(l: string, t: string)
    requires IsPrintable(l) && IsPrintable(t) && l != "listen" && t != "listen"
    ensures var words := ["location", l, t];
            && "listen" !in words && (forall i :: 0 <= i < |words| ==> IsPrintable(words[i]) && words[i] != "")
            && Join(words, " ") == "location " + l + " " + t
  {
    assert IsPlain("location");
    JoinThree("location", l, t);
    LocationHead(l, t);
  }

  lemma JoinThree(a: string, b: string, c: string)
    ensures Join([a, b, c], " ") == a + " " + (b + " " + c)
  {
    assert [b, c][1..] == [c] && [a, b, c][1..] == [b, c];
    assert Join([b, c], " ") == b + " " + c;
  }

  lemma LocationHead(l: string, t: string)
    ensures "location" + " " + (l + " " + t) == "location " + l + " " + t
  {
    assert "location" + " " == "location ";
  }

  /** A location's text with one directive, and with none. */
  function LocationText(l: string, t: string, inner: string): string {
    "location " + l + " " + t + " {\n" + inner + "}\n"
  }

  lemma LocationPrinted(l: string, t: string, block: seq<Statement>, inner: string)
    requires IsPrintable(l) && IsPrintable(t) && l != "listen" && t != "listen"
    requires PrintConfig(block, 1) == inner
    ensures PrintConfig([Statement(["location", l, t], Block(block))], 0) == LocationText(l, t, inner)
  {
    WordsOfLocation(l, t);
    PrintedBlock(["location", l, t], block, inner);
  }

  predicate IsDirective(key: string, value: string) {
    (key == "root" || key == "data_path" || key == "api-key") && IsPrintable(value)
  }

  lemma NamesArePrintable(key: string, value: string)
    requires IsDirective(key, value)
    ensures IsPrintable(key) && key != "listen"
  {
  }

  lemma TwoShaped(first: Statement, second: Statement)
    requires ShapedStatement(first, IsPrintable) && ShapedStatement(second, IsPrintable)
    ensures Shaped([first, second], IsPrintable)
  {
  }

  lemma LocationShaped(l: string, t: string, key: string, value: string)
    requires IsPrintable(l) && IsPrintable(t) && l != "listen" && t != "listen" && IsDirective(key, value)
    ensures ShapedStatement(Statement(["location", l, t], Block([Statement([key, value], NoBlock)])), IsPrintable)
    ensures ShapedStatement(Statement(["location", l, t], Block([])), IsPrintable)
  {
    WordsOfLocation(l, t);
    NamesArePrintable(key, value);
    DirectiveShaped(["location", l, t], key, value);
    PlainListens(["location", l, t]);
    assert ShapedStatement([Statement(["location", l, t], Block([Statement([key, value], NoBlock)]))][0], IsPrintable);
    assert Shaped([], IsPrintable);
  }

  lemma TwoEvents(e: Event, f: Event)
    ensures ApplyAll(Env(-1, map[]), [e] + [f]) == Apply(Apply(Env(-1, map[]), e), f)
  {
    var es := [e] + [f];
    assert Front(es) == [e] && Last(es) == f;
    OneEvent(e);
  }

  /** The event of a directive in a location's block. */
  function DirectiveEvent(l: string, t: string, key: string, value: string): Event {
    if key == "api-key" then SetsKey(l, t, value) else SetsRoot(l, t, value)
  }

  lemma PairIsDirective(l: string, t: string, key: string, value: string)
    requires l != "" && t != "" && IsDirective(key, value)
    ensures PairEvents(key, value, ["location", l, t]) == [DirectiveEvent(l, t, key, value)]
  {
  }

  /** Two blocks for one location add up: the second sets the type, and replaces only what it names. */
  lemma BlocksAddUp(l: string, t: string, key: string, value: string, t': string, key': string, value': string)
    requires IsPrintable(l) && IsPrintable(t) && IsPrintable(t') && l != "listen" && t != "listen" && t' != "listen"
    requires IsDirective(key, value) && IsDirective(key', value')
    ensures var o := ParseText(LocationText(l, t, "  " + key + " " + value + ";\n") +
                               LocationText(l, t', "  " + key' + " " + value' + ";\n"), map[]);
            && o.Accepted?
            && o.state.env == Env(-1, map[l := ConfigArg(t', l,
                 if key' != "api-key" then value' else if key != "api-key" then value else "",
                 if key' == "api-key" then value' else if key == "api-key" then value else "")])
  {
    var words, words' := ["location", l, t], ["location", l, t'];
    var block, block' := [Statement([key, value], NoBlock)], [Statement([key', value'], NoBlock)];
    var first, second := Statement(words, Block(block)), Statement(words', Block(block'));
    PrintedDirective(key, value);
    PrintedDirective(key', value');
    LocationPrinted(l, t, block, "  " + key + " " + value + ";\n");
    LocationPrinted(l, t', block', "  " + key' + " " + value' + ";\n");
    LocationShaped(l, t, key, value);
    LocationShaped(l, t', key', value');
    TwoShaped(first, second);
    TwoStatements(first, second);
    PrintThenParse([first, second], map[]);
    LocationEvents(l, t, key, value, t', key', value');
    ApplyTwo(l, t, key, value, t', key', value');
  }

  /** The block of a location with one directive, in front of another statement. */
  lemma EventsBefore(l: string, t: string, key: string, value: string, second: Statement)
    requires IsPrintable(l) && IsPrintable(t) && l != "listen" && t != "listen" && IsDirective(key, value)
    ensures var first := Statement(["location", l, t], Block([Statement([key, value], NoBlock)]));
            ConfigEvents([first, second], []) ==
            [DirectiveEvent(l, t, key, value)] +
            (TokenEvents(second.tokens, []) + ChildEvents(second.tokens, second.child))
  {
    var words := ["location", l, t];
    var first := Statement(words, Block([Statement([key, value], NoBlock)]));
    WordsOfLocation(l, t);
    TwoStatements(first, second);
    DirectiveEvents(words, key, value);
    PairIsDirective(l, t, key, value);
    Reassociate(ConfigEvents([first], []), TokenEvents(second.tokens, []), ChildEvents(second.tokens, second.child));
  }

  lemma ApplyTwo(l: string, t: string, key: string, value: string, t': string, key': string, value': string)
    requires IsDirective(key, value) && IsDirective(key', value')
    ensures ApplyAll(Env(-1, map[]), [DirectiveEvent(l, t, key, value)] + [DirectiveEvent(l, t', key', value')]) ==
            Env(-1, map[l := ConfigArg(t', l,
              if key' != "api-key" then value' else if key != "api-key" then value else "",
              if key' == "api-key" then value' else if key == "api-key" then value else "")])
    ensures ApplyAll(Env(-1, map[]), [DirectiveEvent(l, t, key, value)] + [Resets(l, t')]) ==
            Env(-1, map[l := ConfigArg(t', l, "", "")])
  {
    TwoEvents(DirectiveEvent(l, t, key, value), DirectiveEvent(l, t', key', value'));
    TwoEvents(DirectiveEvent(l, t, key, value), Resets(l, t'));
  }

  lemma LocationEvents(l: string, t: string, key: string, value: string, t': string, key': string, value': string)
    requires IsPrintable(l) && IsPrintable(t) && IsPrintable(t') && l != "listen" && t != "listen" && t' != "listen"
    requires IsDirective(key, value) && IsDirective(key', value')
    ensures var first := Statement(["location", l, t], Block([Statement([key, value], NoBlock)]));
            var second := Statement(["location", l, t'], Block([Statement([key', value'], NoBlock)]));
            ConfigEvents([first, second], []) ==
            [DirectiveEvent(l, t, key, value)] + [DirectiveEvent(l, t', key', value')]
  {
    var words' := ["location", l, t'];
    WordsOfLocation(l, t');
    EventsBefore(l, t, key, value, Statement(words', Block([Statement([key', value'], NoBlock)])));
    BlockOf(words', key', value');
    PairIsDirective(l, t', key', value');
  }

  /** An empty block takes away what the location had. */
  lemma EmptyBlockResets(l: string, t: string, key: string, value: string, t': string)
    requires IsPrintable(l) && IsPrintable(t) && IsPrintable(t') && l != "listen" && t != "listen" && t' != "listen"
    requires IsDirective(key, value)
    ensures var o := ParseText(LocationText(l, t, "  " + key + " " + value + ";\n") + LocationText(l, t', ""), map[]);
            o.Accepted? && o.state.env == Env(-1, map[l := ConfigArg(t', l, "", "")])
  {
    var words, words' := ["location", l, t], ["location", l, t'];
    var block := [Statement([key, value], NoBlock)];
    var first, second := Statement(words, Block(block)), Statement(words', Block([]));
    PrintedDirective(key, value);
    LocationPrinted(l, t, block, "  " + key + " " + value + ";\n");
    LocationPrinted(l, t', [], "");
    LocationShaped(l, t, key, value);
    LocationShaped(l, t', key, value);
    TwoShaped(first, second);
    TwoStatements(first, second);
    PrintThenParse([first, second], map[]);
    ResetEvents(l, t, key, value, t');
    ApplyTwo(l, t, key, value, t', key, value);
  }

  lemma ResetEvents(l: string, t: string, key: string, value: string, t': string)
    requires IsPrintable(l) && IsPrintable(t) && IsPrintable(t') && l != "listen" && t != "listen" && t' != "listen"
    requires IsDirective(key, value)
    ensures var first := Statement(["location", l, t], Block([Statement([key, value], NoBlock)]));
            var second := Statement(["location", l, t'], Block([]));
            ConfigEvents([first, second], []) == [DirectiveEvent(l, t, key, value)] + [Resets(l, t')]
  {
    WordsOfLocation(l, t');
    EventsBefore(l, t, key, value, Statement(["location", l, t'], Block([])));
    NoEventsOutside(["location", l, t']);
  }
}
