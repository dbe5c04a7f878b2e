/** Configuration files of the repository's tests: what they are parsed into and printed as. */
module ConfigFiles {
  import opened CxxStrings
  import opened ConfigTree
  import opened Scanner
  import opened LexicalRules
  import opened StackMachine
  import opened StreamShape
  import opened Bindings
  import opened RoundTrip
  import opened Directives

  // ---------- lines of a file ----------

  lemma {:induction false} BlanksSkipped(blanks: string, s: string)
    requires forall i :: 0 <= i < |blanks| ==> blanks[i] == ' ' || blanks[i] == '\t' || blanks[i] == '\n'
    ensures Tokens(blanks + s) == Tokens(s)
    decreases |blanks|
  {
    if blanks == "" {
      assert blanks + s == s;
    } else {
      assert blanks + s == [blanks[0]] + (blanks[1..] + s);
      BetweenTokens(blanks[0], blanks[1..] + s);
      BlanksSkipped(blanks[1..], s);
    }
  }

  /** Two words with blanks between them, and a semicolon. */
  lemma TwoWords(k: string, gap: string, v: string, s: string)
    requires IsBareWord(k) && IsBareWord(v) && forall i :: 0 <= i < |gap| ==> gap[i] == ' '
    ensures Tokens(k + ([' '] + (gap + (v + ([';'] + s))))) == [Word(k)] + ([Word(v)] + ([StatementEnd] + Tokens(s)))
  {
    var rest := v + ([';'] + s);
    WordThen(v, ';', s);
    Reassociate(v, [';'], s);
    BlanksSkipped(gap, rest);
    WordThen(k, ' ', gap + rest);
    Reassociate(k, [' '], gap + rest);
  }

  lemma {:induction false} FlattenFirst(st: Statement, rest: seq<Statement>)
    ensures FlattenConfig([st] + rest) == FlattenStatement(st) + FlattenConfig(rest)
    decreases |rest|
  {
    var all := [st] + rest;
    if rest == [] {
      assert all == [st] && all[..0] == [];
    } else {
      assert all[..|all| - 1] == [st] + rest[..|rest| - 1];
      FlattenFirst(st, rest[..|rest| - 1]);
      Reassociate(FlattenStatement(st), FlattenConfig(rest[..|rest| - 1]), FlattenStatement(rest[|rest| - 1]));
    }
  }

  lemma PairTokens(k: string, v: string)
    ensures FlattenStatement(Statement([k, v], NoBlock)) == [Word(k)] + [Word(v)] + [StatementEnd]
  {
    assert WordTokens([k, v]) == [Word(k)] + [Word(v)];
  }

  /** A directive in front of the statements `rest`, behind which come the tokens `ts`. */
  lemma DirectiveLine(k: string, gap: string, v: string, s: string, rest: seq<Statement>, ts: seq<Token>)
    requires IsBareWord(k) && IsBareWord(v) && forall i :: 0 <= i < |gap| ==> gap[i] == ' '
    requires Tokens(s) == FlattenConfig(rest) + ts
    ensures Tokens(k + ([' '] + (gap + (v + ([';'] + s))))) ==
            FlattenConfig([Statement([k, v], NoBlock)] + rest) + ts
  {
    TwoWords(k, gap, v, s);
    FlattenFirst(Statement([k, v], NoBlock), rest);
    PairTokens(k, v);
    Regrouped([Word(k)], [Word(v)], [StatementEnd], FlattenConfig(rest), ts);
  }

  lemma Regrouped<T>(a: seq<T>, b: seq<T>, c: seq<T>, d: seq<T>, e: seq<T>)
    ensures a + (b + (c + (d + e))) == a + b + c + d + e
  {
  }

  /** The words of a block, its statements `b`, and the statements `rest` behind it. */
  lemma BlockLine(words: seq<string>, s: string, b: seq<Statement>, rest: seq<Statement>, ts: seq<Token>)
    requires words != [] && forall i :: 0 <= i < |words| ==> IsPrintable(words[i])
    requires Tokens(s) == FlattenConfig(b) + ([EndBlock] + (FlattenConfig(rest) + ts))
    ensures Tokens(PrintTokens(words) + (" {\n" + s)) ==
            FlattenConfig([Statement(words, Block(b))] + rest) + ts
  {
    TokensOfWords(words, " {\n" + s);
    TokensOfOpening(s);
    FlattenFirst(Statement(words, Block(b)), rest);
    BlockRegrouped(WordTokens(words), [StartBlock], FlattenConfig(b), [EndBlock], FlattenConfig(rest), ts);
  }

  lemma BlockRegrouped<T>(a: seq<T>, b: seq<T>, c: seq<T>, d: seq<T>, e: seq<T>, f: seq<T>)
    ensures a + (b + (c + (d + (e + f)))) == a + (b + c + d) + e + f
  {
  }

  lemma ClosingLine(s: string)
    ensures Tokens(['}'] + s) == FlattenConfig([]) + ([EndBlock] + Tokens(s))
  {
    BetweenTokens('}', s);
  }

  function Pair(k: string, v: string): Statement {
    Statement([k, v], NoBlock)
  }

  /** A whole line. */
  lemma LineOf(line: string, margin: string, k: string, gap: string, v: string, s: string, rest: seq<Statement>,
               ts: seq<Token>)
    requires IsBareWord(k) && IsBareWord(v) && (forall i :: 0 <= i < |gap| ==> gap[i] == ' ')
    requires forall i :: 0 <= i < |margin| ==> margin[i] == ' ' || margin[i] == '\t' || margin[i] == '\n'
    requires line == margin + k + " " + gap + v + ";\n"
    requires Tokens(s) == FlattenConfig(rest) + ts
    ensures Tokens(line + s) == FlattenConfig([Pair(k, v)] + rest) + ts
  {
    BlanksSkipped("\n", s);
    DirectiveLine(k, gap, v, "\n" + s, rest, ts);
    BlanksSkipped(margin, k + ([' '] + (gap + (v + ([';'] + ("\n" + s))))));
    LineParts(margin, k, gap, v, s);
  }

  lemma LineParts(margin: string, k: string, gap: string, v: string, s: string)
    ensures margin + k + " " + gap + v + ";\n" + s == margin + (k + ([' '] + (gap + (v + ([';'] + ("\n" + s))))))
  {
    assert ";\n" == [';'] + "\n" && " " == [' '];
  }

  // ---------- config_t_comment ----------

  lemma NamesAreBare()
    ensures IsBareWord("listen") && IsBareWord("80") && IsBareWord("server_name") && IsBareWord("root")
  {
    assert IsPlain("listen") && IsPlain("80") && IsPlain("server_name") && IsPlain("root");
    BareIsPlain("listen");
    BareIsPlain("80");
    BareIsPlain("server_name");
    BareIsPlain("root");
  }

  lemma ListenLine(s: string, rest: seq<Statement>, ts: seq<Token>)
    requires Tokens(s) == FlattenConfig(rest) + ts
    ensures Tokens("  listen   80;\n" + s) == FlattenConfig([Pair("listen", "80")] + rest) + ts
  {
    NamesAreBare();
    assert "  " + "listen" + " " + "  " == "  listen   ";
    assert "  listen   80;\n" == "  listen   " + "80" + ";\n";
    LineOf("  listen   80;\n", "  ", "listen", "  ", "80", s, rest, ts);
  }

  lemma NameLine(n: string, s: string, rest: seq<Statement>, ts: seq<Token>)
    requires IsBareWord(n) && Tokens(s) == FlattenConfig(rest) + ts
    ensures Tokens("  server_name " + n + ";\n" + s) == FlattenConfig([Pair("server_name", n)] + rest) + ts
  {
    NamesAreBare();
    assert "  " + "server_name" + " " + "" == "  server_name ";
    LineOf("  server_name " + n + ";\n", "  ", "server_name", "", n, s, rest, ts);
  }

  lemma RootLine(r: string, s: string, rest: seq<Statement>, ts: seq<Token>)
    requires IsBareWord(r) && Tokens(s) == FlattenConfig(rest) + ts
    ensures Tokens("  root " + r + ";\n" + s) == FlattenConfig([Pair("root", r)] + rest) + ts
  {
    NamesAreBare();
    assert "  " + "root" + " " + "" == "  root ";
    LineOf("  root " + r + ";\n", "  ", "root", "", r, s, rest, ts);
  }

  lemma EndLine()
    ensures Tokens("}\n") == FlattenConfig([]) + ([EndBlock] + (FlattenConfig([]) + [Eof]))
  {
    assert "}\n" == ['}'] + "\n" && "\n" + "" == "\n";
    ClosingLine("\n");
    BlanksSkipped("\n", "");
  }

  lemma ServerTokens(n: string, r: string, text: string)
    requires IsBareWord(n) && IsBareWord(r)
    requires text == "  listen   80;\n" + ("  server_name " + n + ";\n" + ("  root " + r + ";\n" + "}\n"))
    ensures Tokens(text) ==
            FlattenConfig([Pair("listen", "80")] + ([Pair("server_name", n)] + ([Pair("root", r)] + []))) +
            ([EndBlock] + (FlattenConfig([]) + [Eof]))
  {
    var ts := [EndBlock] + (FlattenConfig([]) + [Eof]);
    EndLine();
    RootLine(r, "}\n", [], ts);
    NameLine(n, "  root " + r + ";\n" + "}\n", [Pair("root", r)] + [], ts);
    ListenLine("  server_name " + n + ";\n" + ("  root " + r + ";\n" + "}\n"),
               [Pair("server_name", n)] + ([Pair("root", r)] + []), ts);
  }

  lemma ServerText(text: string, inner: string, body: seq<Statement>)
    requires text == "server {\n" + inner
    requires Tokens(inner) == FlattenConfig(body) + ([EndBlock] + (FlattenConfig([]) + [Eof]))
    ensures Tokens(text) == FlattenConfig([Statement(["server"], Block(body))]) + [Eof]
  {
    assert PrintTokens(["server"]) == "server" && IsPrintable("server");
    BlockLine(["server"], inner, body, [], [Eof]);
    assert "server" + (" {\n" + inner) == text;
    assert [Statement(["server"], Block(body))] + [] == [Statement(["server"], Block(body))];
  }

  lemma ServerShaped(n: string, r: string, body: seq<Statement>)
    requires body == [Pair("listen", "80"), Pair("server_name", n), Pair("root", r)]
    ensures Shaped([Statement(["server"], Block(body))], AnyWord())
  {
    PortOfDecimal(80);
    assert ToDecimal(80) == "80";
    assert ShapedStatement(body[0], AnyWord()) && ShapedStatement(body[1], AnyWord())
           && ShapedStatement(body[2], AnyWord());
    assert ShapedStatement(Statement(["server"], Block(body)), AnyWord());
  }

  lemma PairOnlyBinds(k: string, v: string, parent: seq<string>)
    requires |parent| < 3
    ensures TokenEvents([k, v], parent) == if k == "listen" then [SetsPort(SafePort(v))] else []
  {
    assert Front([k, v]) == [k];
  }

  lemma OneMore(front: seq<Statement>, k: string, v: string, parent: seq<string>)
    ensures ConfigEvents(front + [Pair(k, v)], parent) == ConfigEvents(front, parent) + TokenEvents([k, v], parent)
  {
    var all := front + [Pair(k, v)];
    assert all[..|all| - 1] == front;
  }

  lemma ServerEvents(n: string, r: string, body: seq<Statement>)
    requires body == [] + [Pair("listen", "80")] + [Pair("server_name", n)] + [Pair("root", r)]
    ensures ConfigEvents([Statement(["server"], Block(body))], []) == [SetsPort(80)]
  {
    PortOfDecimal(80);
    assert ToDecimal(80) == "80";
    var parent := ["server"];
    PairOnlyBinds("listen", "80", parent);
    PairOnlyBinds("server_name", n, parent);
    PairOnlyBinds("root", r, parent);
    OneMore([], "listen", "80", parent);
    OneMore([] + [Pair("listen", "80")], "server_name", n, parent);
    OneMore([] + [Pair("listen", "80")] + [Pair("server_name", n)], "root", r, parent);
    assert [Statement(parent, Block(body))][..0] == [];
  }

  lemma ServerParses(n: string, r: string, text: string, addrs: map<string, ConfigArg>)
    requires IsBareWord(n) && IsBareWord(r)
    requires text == "server {\n" + ("  listen   80;\n" +
                     ("  server_name " + n + ";\n" + ("  root " + r + ";\n" + "}\n")))
    ensures var o := ParseText(text, addrs);
            && o.Accepted? && o.state.env == Env(80, addrs)
            && o.state.layers == [[Statement(["server"], Block([Pair("listen", "80"), Pair("server_name", n),
                                                                Pair("root", r)]))]]
  {
    var inner := "  listen   80;\n" + ("  server_name " + n + ";\n" + ("  root " + r + ";\n" + "}\n"));
    var body := [Pair("listen", "80"), Pair("server_name", n), Pair("root", r)];
    assert body == [Pair("listen", "80")] + ([Pair("server_name", n)] + ([Pair("root", r)] + []));
    ServerTokens(n, r, inner);
    ServerText(text, inner, body);
    ServerShaped(n, r, body);
    ParseFlattened(text, [Statement(["server"], Block(body))], addrs);
    assert body == [] + [Pair("listen", "80")] + [Pair("server_name", n)] + [Pair("root", r)];
    ServerEvents(n, r, body);
    assert Front([SetsPort(80)]) == [];
  }

  /** Two comment lines and a server: accepted with port 80, whatever the comments say. */
  lemma CommentFile(c: string, d: string, n: string, r: string, addrs: map<string, ConfigArg>)
    requires IsBareWord(n) && IsBareWord(r) && '\n' !in c + d && '\r' !in c + d
    ensures var server := "server {\n" + ("  listen   80;\n" +
                          ("  server_name " + n + ";\n" + ("  root " + r + ";\n" + "}\n")));
            var o := ParseText("#" + c + "\n" + ("#" + d + "\n" + server), addrs);
            && o.Accepted? && o.state.env == Env(80, addrs)
            && o.state.layers == [[Statement(["server"], Block([Statement(["listen", "80"], NoBlock),
                                   Statement(["server_name", n], NoBlock), Statement(["root", r], NoBlock)]))]]
  {
    var server := "server {\n" + ("  listen   80;\n" +
                  ("  server_name " + n + ";\n" + ("  root " + r + ";\n" + "}\n")));
    ServerParses(n, r, server, addrs);
    CommentLine(d, '\n', server, addrs);
    CommentLine(c, '\n', "#" + d + "\n" + server, addrs);
  }

  // ---------- config_t_subdir_multi ----------

  lemma PrintedPair(k: string, v: string, depth: nat)
    ensures PrintStatement(Pair(k, v), depth) == Indent(depth) + (k + " " + v) + ";\n"
  {
    PrintedLines([k, v], [], depth);
    assert [k, v][1..] == [v];
  }

  lemma PrintedLocation(l: string, block: seq<Statement>, inner: string)
    requires PrintConfig(block, 2) == inner
    ensures PrintStatement(Statement(["location", l], Block(block)), 1) ==
            "  location " + l + " {\n" + inner + "  }\n"
  {
    PrintedLines(["location", l], block, 1);
    assert ["location", l][1..] == [l];
    assert Indent(1) == "  ";
    LocationPieces(l);
    Reassociate("  location " + l + " {\n" + inner, "  ", "}\n");
  }

  lemma LocationPieces(l: string)
    ensures "  " + ("location" + " " + l) == "  location " + l && "  " + "}\n" == "  }\n"
  {
    assert "location" + " " == "location " && "  " + "location " == "  location ";
  }

  lemma DeepPair(k: string, v: string)
    ensures PrintConfig([Pair(k, v)], 2) == "    " + k + " " + v + ";\n"
  {
    PrintedOne(Pair(k, v), 2);
    PrintedPair(k, v, 2);
    IndentIs(2);
    assert Indent(2) == "    ";
    assert "    " + (k + " " + v) == "    " + k + " " + v;
  }

  lemma TwoPrinted(first: Statement, second: Statement, depth: nat)
    ensures PrintConfig([first, second], depth) == PrintConfig([first], depth) + PrintConfig([second], depth)
  {
    assert [first, second] == [first] + [second];
    PrintedInOrder([first], [second], depth);
  }

  /** A server with two locations, three levels deep, as it is printed. */
  lemma NestedFile(www: string, data: string, port: string)
    ensures PrintConfig([Statement(["server"], Block(
                           [Statement(["location", "/"], Block([Statement(["root", www], NoBlock)])),
                            Statement(["location", "/images/"],
                                      Block([Statement(["root", data], NoBlock),
                                             Statement(["listen", port], NoBlock)]))]))], 0) ==
            "server {\n" +
            (("  location / {\n" + ("    root " + www + ";\n") + "  }\n") +
             ("  location /images/ {\n" + (("    root " + data + ";\n") + ("    listen " + port + ";\n")) + "  }\n")) +
            "}\n"
  {
    var one, two := [Pair("root", www)], [Pair("root", data), Pair("listen", port)];
    var first, second := Statement(["location", "/"], Block(one)), Statement(["location", "/images/"], Block(two));
    DeepPair("root", www);
    DeepPair("root", data);
    DeepPair("listen", port);
    TwoPrinted(Pair("root", data), Pair("listen", port), 2);
    PrintedLocation("/", one, PrintConfig(one, 2));
    PrintedLocation("/images/", two, PrintConfig(two, 2));
    PrintedOne(first, 1);
    PrintedOne(second, 1);
    TwoPrinted(first, second, 1);
    PrintedBlock(["server"], [first, second], PrintConfig([first, second], 1));
    NestedLiterals();
  }

  lemma NestedLiterals()
    ensures "    " + "root" + " " == "    root " && "    " + "listen" + " " == "    listen "
    ensures "  location " + "/" + " {\n" == "  location / {\n"
    ensures "  location " + "/images/" + " {\n" == "  location /images/ {\n"
    ensures "server" + " {\n" == "server {\n"
  {
  }
}
