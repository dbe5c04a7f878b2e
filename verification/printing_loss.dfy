/** What a text loses on its way through scanner and parser, measured by the characters that are not
    blank: nothing is ever gained, an escape loses its backslash, a replaced block is lost whole. */
module PrintingLoss {
  import opened CxxStrings
  import opened ConfigTree
  import opened Scanner
  import opened StackMachine
  import opened StreamShape
  import opened Grammar

  function InkOf(c: char): nat {
    if IsBlank(c) then 0 else 1
  }

  /** How many characters of a text are not blank. */
  function Ink(s: string): nat {
    if s == "" then 0 else InkOf(s[0]) + Ink(s[1..])
  }

  lemma {:induction false} InkAppend(a: string, b: string)
    ensures Ink(a + b) == Ink(a) + Ink(b)
    decreases |a|
  {
    if a == "" {
      assert a + b == b;
    } else {
      assert (a + b)[1..] == a[1..] + b;
      InkAppend(a[1..], b);
    }
  }

  lemma InkSnoc(a: string, c: char)
    ensures Ink(a + [c]) == Ink(a) + InkOf(c)
  {
    InkAppend(a, [c]);
    assert Ink([c][1..]) == 0;
  }

  // ---------- the scanner gains no ink ----------

  function TokenInk(t: Token): nat {
    match t
    case Word(w) => Ink(w)
    case StartBlock => 1
    case EndBlock => 1
    case StatementEnd => 1
    case _ => 0
  }

  function ScannedInk(r: Scanned): nat {
    TokenInk(r.token) + Ink(r.rest)
  }

  lemma {:induction false} WordInk(value: string, s: string)
    ensures ScannedInk(ScanWord(value, s)) <= Ink(value) + Ink(s)
    decreases |s|
  {
    if s != "" && !IsDelimiter(s[0]) {
      InkSnoc(value, s[0]);
      WordInk(value + [s[0]], s[1..]);
    }
  }

  lemma EscapeInk(s: string)
    requires |s| >= 2 && s[0] == '\\'
    ensures Ink(s) == 1 + InkOf(s[1]) + Ink(s[2..])
  {
    assert s[1..][1..] == s[2..];
  }

  lemma {:induction false} QuotedInk(q: char, value: string, s: string)
    ensures ScannedInk(ScanQuoted(q, value, s)) <= Ink(value) + Ink(s)
    decreases |s|
  {
    if s == "" {
    } else if s[0] == '\\' {
      if |s| >= 2 {
        EscapeInk(s);
        InkSnoc(value, s[1]);
        QuotedInk(q, value + [s[1]], s[2..]);
      }
    } else {
      InkSnoc(value, s[0]);
      if s[0] != q {
        QuotedInk(q, value + [s[0]], s[1..]);
      } else if |s| >= 2 {
        assert s[1..][1..] == s[2..];
      }
    }
  }

  /** Neither a quote `q` nor a backslash behind the opening quote. */
  predicate IsUnescaped(q: char, value: string) {
    value != "" && value[0] == q && forall i :: 1 <= i < |value| ==> value[i] != q && value[i] != '\\'
  }

  /** Only an escape brings a quote or a backslash between the quotes, and it costs a backslash. */
  lemma {:induction false} EscapeLoses(q: char, value: string, s: string)
    requires IsQuote(q) && IsUnescaped(q, value)
    ensures var r := ScanQuoted(q, value, s);
            r.token.Word? && !IsEscapeFree(r.token.text) ==> ScannedInk(r) < Ink(value) + Ink(s)
    decreases |s|
  {
    if s == "" {
    } else if s[0] == '\\' {
      if |s| >= 2 {
        EscapeInk(s);
        InkSnoc(value, s[1]);
        QuotedInk(q, value + [s[1]], s[2..]);
      }
    } else if s[0] != q {
      InkSnoc(value, s[0]);
      EscapeLoses(q, value + [s[0]], s[1..]);
    }
  }

  lemma {:induction false} CommentInk(s: string)
    ensures ScannedInk(ScanComment(s)) <= Ink(s)
  {
    if s != "" && s[0] != '\n' && s[0] != '\r' {
      CommentInk(s[1..]);
    }
  }

  lemma StartInk(s: string)
    requires s != "" && !IsBlank(s[0])
    ensures Ink(s) == 1 + Ink(s[1..]) && Ink([s[0]]) == 1
  {
    assert Ink([s[0]][1..]) == 0;
  }

  /** A scan never gains ink, and loses some on a word with an escape. */
  lemma {:induction false} ScanInk(s: string)
    ensures ScannedInk(Scan(s)) <= Ink(s)
    ensures Scan(s).token.Word? && !IsEscapeFree(Scan(s).token.text) ==> ScannedInk(Scan(s)) < Ink(s)
    decreases |s|
  {
    if s == "" {
    } else if IsBlank(s[0]) {
      ScanInk(s[1..]);
    } else {
      StartInk(s);
      if s[0] == '#' {
        CommentInk(s[1..]);
        CommentIsNoWord(s[1..]);
      } else if IsQuote(s[0]) {
        QuotedInk(s[0], [s[0]], s[1..]);
        EscapeLoses(s[0], [s[0]], s[1..]);
      } else if !IsDelimiter(s[0]) {
        WordInk([s[0]], s[1..]);
        WordText([s[0]], s[1..]);
      }
    }
  }

  function StreamInk(ts: seq<Token>): nat {
    if ts == [] then 0 else TokenInk(ts[0]) + StreamInk(ts[1..])
  }

  lemma StreamInkCons(t: Token, ts: seq<Token>)
    ensures StreamInk([t] + ts) == TokenInk(t) + StreamInk(ts)
  {
    assert ([t] + ts)[1..] == ts;
  }

  lemma {:induction false} TokensInk(s: string)
    ensures StreamInk(Tokens(s)) <= Ink(s)
    ensures StreamInk(Tokens(s)) == Ink(s) ==> forall t :: t in Tokens(s) && t.Word? ==> IsEscapeFree(t.text)
    decreases |s|
  {
    var r := Scan(s);
    ScanProgress(s);
    ScanInk(s);
    if Final(r.token) {
      StreamInkCons(r.token, []);
      assert [r.token] + [] == [r.token];
    } else {
      TokensInk(r.rest);
      StreamInkCons(r.token, Tokens(r.rest));
    }
  }

  lemma {:induction false} SignificantInk(ts: seq<Token>)
    ensures StreamInk(Significant(ts)) == StreamInk(ts)
    decreases |ts|
  {
    if ts != [] {
      SignificantInk(ts[1..]);
      if !ts[0].Comment? {
        StreamInkCons(ts[0], Significant(ts[1..]));
      }
    }
  }

  lemma {:induction false} StreamInkPrefix(ts: seq<Token>, us: seq<Token>)
    ensures StreamInk(ts) <= StreamInk(ts + us)
    decreases |ts|
  {
    if ts != [] {
      assert (ts + us)[1..] == ts[1..] + us;
      StreamInkPrefix(ts[1..], us);
    }
  }

  // ---------- the ink of a tree, and of its print ----------

  function WordsInk(tokens: seq<string>): nat {
    if tokens == [] then 0 else WordsInk(Front(tokens)) + Ink(Last(tokens))
  }

  function ChildInk(child: Child): nat
    decreases child
  {
    match child
    case NoBlock => 1
    case Block(statements) => 2 + TreeInk(statements)
  }

  function TreeInk(config: seq<Statement>): nat
    decreases config
  {
    if config == [] then 0 else
      var s := config[|config| - 1];
      TreeInk(config[..|config| - 1]) + WordsInk(s.tokens) + ChildInk(s.child)
  }

  lemma {:induction false} PrintTokensInk(tokens: seq<string>)
    ensures Ink(PrintTokens(tokens)) == WordsInk(tokens)
    decreases |tokens|
  {
    if |tokens| == 1 {
      assert WordsInk(Front(tokens)) == 0;
    } else if tokens != [] {
      PrintTokensInk(Front(tokens));
      InkSnoc(PrintTokens(Front(tokens)), ' ');
      InkAppend(PrintTokens(Front(tokens)) + " ", Last(tokens));
    }
  }

  lemma {:induction false} IndentInk(depth: nat)
    ensures Ink(Indent(depth)) == 0
  {
    if depth > 0 {
      IndentInk(depth - 1);
      InkSnoc(Indent(depth - 1), ' ');
      InkSnoc(Indent(depth - 1) + [' '], ' ');
      assert Indent(depth) == Indent(depth - 1) + [' '] + [' '];
    }
  }

  lemma InkOfFour(a: string, b: string, c: string, d: string)
    ensures Ink(a + b + c + d) == Ink(a) + Ink(b) + Ink(c) + Ink(d)
  {
    InkAppend(a, b);
    InkAppend(a + b, c);
    InkAppend(a + b + c, d);
  }

  lemma PunctuationInk()
    ensures Ink(";") == 1 && Ink("\n") == 0 && Ink(" {\n") == 1 && Ink("}") == 1
  {
    assert " {\n"[1..] == "{\n" && "{\n"[1..] == "\n" && "\n"[1..] == "" && ";"[1..] == "" && "}"[1..] == "";
    assert Ink("\n") == 0 && Ink("{\n") == 1;
  }

  lemma {:induction false} StatementPrintInk(s: Statement, depth: nat)
    ensures Ink(PrintStatement(s, depth)) == WordsInk(s.tokens) + ChildInk(s.child)
    decreases s
  {
    PunctuationInk();
    IndentInk(depth);
    PrintTokensInk(s.tokens);
    match s.child
    case NoBlock =>
      InkOfFour(Indent(depth), PrintTokens(s.tokens), ";", "\n");
    case Block(b) =>
      PrintInk(b, depth + 1);
      InkOfFour(" {\n", PrintConfig(b, depth + 1), Indent(depth), "}");
      InkOfFour(Indent(depth), PrintTokens(s.tokens), " {\n" + PrintConfig(b, depth + 1) + Indent(depth) + "}", "\n");
  }

  lemma {:induction false} PrintInk(config: seq<Statement>, depth: nat)
    ensures Ink(PrintConfig(config, depth)) == TreeInk(config)
    decreases config
  {
    if config != [] {
      var front, s := config[..|config| - 1], config[|config| - 1];
      PrintInk(front, depth);
      StatementPrintInk(s, depth);
      InkAppend(PrintConfig(front, depth), PrintStatement(s, depth));
    }
  }

  // ---------- reading gains no ink ----------

  lemma {:induction false} WordsInkCons(w: string, words: seq<string>)
    ensures WordsInk([w] + words) == Ink(w) + WordsInk(words)
    decreases |words|
  {
    if words == [] {
      assert [w] + words == [w] && Front([w]) == [];
    } else {
      assert Front([w] + words) == [w] + Front(words);
      WordsInkCons(w, Front(words));
    }
  }

  lemma {:induction false} WordsOfStreamInk(ts: seq<Token>)
    ensures StreamInk(ts) == WordsInk(Words(ts)) + StreamInk(ts[|Words(ts)|..])
    decreases |ts|
  {
    if ts != [] && ts[0].Word? {
      var words := Words(ts[1..]);
      WordsOfStreamInk(ts[1..]);
      WordsInkCons(ts[0].text, words);
      assert ts[1..][|words|..] == ts[|words| + 1..];
    } else {
      assert ts[0..] == ts;
    }
  }

  lemma SnocInk(done: seq<Statement>, s: Statement)
    ensures TreeInk(done + [s]) == TreeInk(done) + WordsInk(s.tokens) + ChildInk(s.child)
  {
    assert (done + [s])[..|done|] == done;
  }

  /** A new block takes the place of the semicolon, or of the block that was there. */
  lemma SetChildInk(done: seq<Statement>, b: seq<Statement>)
    requires done != []
    ensures TreeInk(SetChild(done, Block(b))) <= TreeInk(done) + 1 + TreeInk(b)
  {
    SnocInk(Front(done), Last(done).(child := Block(b)));
    assert TreeInk(done) == TreeInk(Front(done)) + WordsInk(Last(done).tokens) + ChildInk(Last(done).child);
  }

  /** The `{` at the front of a stream. */
  function Opening(ts: seq<Token>): nat {
    if ts != [] && ts[0].StartBlock? then 1 else 0
  }

  /** Recursive descent puts no more into the tree than it takes from the stream. */
  lemma {:induction false} ReadInk(ts: seq<Token>, done: seq<Statement>)
    requires ReadBlock(ts, done).Read?
    ensures var r := ReadBlock(ts, done);
            TreeInk(r.statements) + StreamInk(r.rest) + Opening(ts) <= TreeInk(done) + StreamInk(ts)
    decreases |ts|
  {
    if ts != [] && !ts[0].EndBlock? {
      if ts[0].StartBlock? {
        var inner := ReadBlock(ts[1..], []);
        ReadInk(ts[1..], []);
        SetChildInk(done, inner.statements);
        ReadInk(inner.rest[1..], SetChild(done, Block(inner.statements)));
      } else {
        var words := Words(ts);
        var rest := ts[|words|..];
        var after := if rest[0].StatementEnd? then rest[1..] else rest;
        WordsOfStreamInk(ts);
        SnocInk(done, Statement(words, NoBlock));
        ReadInk(after, done + [Statement(words, NoBlock)]);
      }
    }
  }

  lemma FrontInk(ts: seq<Token>)
    requires ts != []
    ensures StreamInk(Front(ts)) <= StreamInk(ts)
  {
    StreamInkPrefix(Front(ts), [Last(ts)]);
    assert Front(ts) + [Last(ts)] == ts;
  }

  lemma InnerInk(text: string)
    ensures StreamInk(InnerTokens(text)) <= StreamInk(Tokens(text))
  {
    SignificantTokens(text);
    FrontInk(Significant(Tokens(text)));
    SignificantInk(Tokens(text));
  }

  /** The tree of an accepted text has no more ink than the text, and less if a word has an escape. */
  lemma ParseInk(text: string, addrs: map<string, ConfigArg>)
    requires ParseText(text, addrs).Accepted?
    ensures var layers := ParseText(text, addrs).state.layers;
            && |layers| == 1 && TreeInk(layers[0]) <= Ink(text)
            && (TreeInk(layers[0]) == Ink(text) ==>
                  forall t :: t in Tokens(text) && t.Word? ==> IsEscapeFree(t.text))
  {
    ParseRefinesGrammar(text, addrs);
    ReadInk(InnerTokens(text), []);
    InnerInk(text);
    TokensInk(text);
  }
}
