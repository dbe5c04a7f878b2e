/** The scanner's rules said with the characters themselves: comments, what ends a word, what is skipped
    between tokens, quotes and escapes. */
module LexicalRules {
  import opened CxxStrings
  import opened ConfigTree
  import opened Scanner
  import opened StackMachine

  lemma OneToken(s: string, t: Token, rest: string)
    requires Scan(s) == Scanned(t, rest) && t != Eof && t != Error
    ensures Tokens(s) == [t] + Tokens(rest)
  {
    ScanProgress(s);
  }

  lemma LastToken(s: string, t: Token)
    requires Scan(s).token == t && (t == Eof || t == Error)
    ensures Tokens(s) == [t]
  {
    ScanProgress(s);
  }

  lemma Tail(c: char, s: string)
    ensures ([c] + s)[0] == c && ([c] + s)[1..] == s
  {
  }

  // ---------- comments ----------

  lemma {:induction false} CommentReads(c: string, e: char, s: string)
    requires '\n' !in c && '\r' !in c && (e == '\n' || e == '\r')
    ensures ScanComment(c + ([e] + s)) == Scanned(Comment, s)
    decreases |c|
  {
    if c == "" {
      assert c + ([e] + s) == [e] + s;
      Tail(e, s);
    } else {
      AppendTail(c, [e] + s, 1);
      assert c[0] in c;
      CommentReads(c[1..], e, s);
    }
  }

  lemma {:induction false} CommentRunsOut(c: string)
    requires '\n' !in c && '\r' !in c
    ensures ScanComment(c) == Scanned(Eof, "")
    decreases |c|
  {
    if c != "" {
      assert c[0] in c;
      CommentRunsOut(c[1..]);
    }
  }

  /** A comment ends at the first line feed or carriage return, which it takes along, or at the end. */
  lemma CommentEnds(c: string, e: char, s: string)
    requires '\n' !in c && '\r' !in c
    ensures e == '\n' || e == '\r' ==> Tokens("#" + c + [e] + s) == [Comment] + Tokens(s)
    ensures Tokens("#" + c) == [Eof]
  {
    CommentRunsOut(c);
    Tail('#', c);
    LastToken("#" + c, Eof);
    if e == '\n' || e == '\r' {
      var rest := c + ([e] + s);
      assert "#" + c + [e] + s == ['#'] + rest;
      CommentReads(c, e, s);
      Tail('#', rest);
      OneToken(['#'] + rest, Comment, s);
    }
  }

  lemma RunOnComment(o: Outcome, ts: seq<Token>)
    requires o.Running?
    ensures Run(o, [Comment] + ts) == Run(o, ts)
  {
    assert ([Comment] + ts)[1..] == ts;
  }

  /** A comment line in front of a text changes nothing. */
  lemma CommentLine(c: string, e: char, s: string, addrs: map<string, ConfigArg>)
    requires '\n' !in c && '\r' !in c && (e == '\n' || e == '\r')
    ensures ParseText("#" + c + [e] + s, addrs) == ParseText(s, addrs)
  {
    CommentEnds(c, e, s);
    RunOnComment(Running(Initial(addrs)), Tokens(s));
  }

  // ---------- between tokens ----------

  /** Blanks, tabs, line feeds and carriage returns are skipped; three characters are tokens. */
  lemma BetweenTokens(c: char, s: string)
    ensures c == ' ' || c == '\t' || c == '\n' || c == '\r' ==> Tokens([c] + s) == Tokens(s)
    ensures c == ';' ==> Tokens([c] + s) == [StatementEnd] + Tokens(s)
    ensures c == '{' ==> Tokens([c] + s) == [StartBlock] + Tokens(s)
    ensures c == '}' ==> Tokens([c] + s) == [EndBlock] + Tokens(s)
    ensures Tokens("") == [Eof]
  {
    Tail(c, s);
    if c == ' ' || c == '\t' || c == '\n' || c == '\r' {
      SkipOne(c, s);
    } else if c == ';' {
      OneToken([c] + s, StatementEnd, s);
    } else if c == '{' {
      OneToken([c] + s, StartBlock, s);
    } else if c == '}' {
      OneToken([c] + s, EndBlock, s);
    }
  }

  lemma SkipOne(c: char, s: string)
    requires IsBlank(c)
    ensures Tokens([c] + s) == Tokens(s)
  {
    Tail(c, s);
    assert Scan([c] + s) == Scan(s);
    ScanProgress(s);
    ScanProgress([c] + s);
  }

  // ---------- words without quotes ----------

  /** The text of a word that needs no quotes. */
  predicate IsBareWord(w: string) {
    && w != "" && w[0] != '"' && w[0] != '\'' && w[0] != '#' && w[0] != '\r'
    && ' ' !in w && '\t' !in w && '\n' !in w && ';' !in w && '{' !in w && '}' !in w
  }

  lemma BareIsPlain(w: string)
    ensures IsPlain(w) <==> IsBareWord(w)
  {
    if IsPlain(w) {
      forall c | c in w
        ensures !IsDelimiter(c)
      {
      }
    }
    if IsBareWord(w) {
      forall i | 0 <= i < |w|
        ensures !IsDelimiter(w[i])
      {
        assert w[i] in w;
      }
    }
  }

  lemma {:induction false} WordExtends(value: string, s: string, w: string)
    requires ScanWord(value, s).token == Word(w)
    ensures value <= w
    decreases |s|
  {
    if !IsDelimiter(s[0]) {
      WordExtends(value + [s[0]], s[1..], w);
    }
  }

  /** Past characters that are no delimiters. */
  lemma {:induction false} WordReadsPast(value: string, w: string, s: string)
    requires forall i :: 0 <= i < |w| ==> !IsDelimiter(w[i])
    ensures ScanWord(value, w + s) == ScanWord(value + w, s)
    decreases |w|
  {
    if w == "" {
      assert w + s == s && value + w == value;
    } else {
      AppendTail(w, s, 1);
      WordReadsPast(value + [w[0]], w[1..], s);
      FirstMoved(value, w);
    }
  }

  lemma ScanAtWord(w: string, s: string)
    requires IsPlain(w)
    ensures Scan(w + s) == ScanWord(w, s)
  {
    AppendTail(w, s, 1);
    assert !IsDelimiter(w[0]) && (w + s)[0] == w[0];
    WordReadsPast([w[0]], w[1..], s);
    assert [w[0]] + w[1..] == w;
  }

  lemma WordAtChar(w: string, c: char, s: string)
    ensures IsDelimiter(c) ==> ScanWord(w, [c] + s) == Scanned(Word(w), [c] + s)
    ensures !IsDelimiter(c) ==> ScanWord(w, [c] + s).token != Word(w)
  {
    Tail(c, s);
    if !IsDelimiter(c) && ScanWord(w, [c] + s).token == Word(w) {
      WordExtends(w + [c], s, w);
    }
  }

  /** Six characters end a word, and stay unread; any other goes on with it, a carriage return or a
      quote, too. */
  lemma WordEnds(w: string, c: char, s: string)
    requires IsBareWord(w)
    ensures Scan(w + [c] + s) == Scanned(Word(w), [c] + s) <==>
              c == ' ' || c == '\t' || c == '\n' || c == ';' || c == '{' || c == '}'
    ensures Scan(w + [c] + s).token == Word(w) <==>
              c == ' ' || c == '\t' || c == '\n' || c == ';' || c == '{' || c == '}'
  {
    BareIsPlain(w);
    assert w + [c] + s == w + ([c] + s);
    ScanAtWord(w, [c] + s);
    WordAtChar(w, c, s);
  }

  /** A word and what follows it, read on. */
  lemma WordThen(w: string, c: char, s: string)
    requires IsBareWord(w)
    ensures c == ' ' || c == '\t' || c == '\n' ==> Tokens(w + [c] + s) == [Word(w)] + Tokens(s)
    ensures c == ';' ==> Tokens(w + [c] + s) == [Word(w)] + ([StatementEnd] + Tokens(s))
    ensures c == '{' ==> Tokens(w + [c] + s) == [Word(w)] + ([StartBlock] + Tokens(s))
    ensures c == '}' ==> Tokens(w + [c] + s) == [Word(w)] + ([EndBlock] + Tokens(s))
  {
    WordEnds(w, c, s);
    BetweenTokens(c, s);
    if Scan(w + [c] + s) == Scanned(Word(w), [c] + s) {
      OneToken(w + [c] + s, Word(w), [c] + s);
    }
  }

  // ---------- quotes ----------

  /** A backslash takes the next character as it is, whatever that is. */
  lemma EscapedChar(q: char, a: string, x: char, rest: string, value: string)
    requires q !in a && '\\' !in a
    ensures ScanQuoted(q, value, a + (['\\', x] + rest)) == ScanQuoted(q, value + a + [x], rest)
  {
    UnescapedStays(q, a);
    EscapedReads(q, value, a, ['\\', x] + rest);
    ScanEscaped(q, value + a, x, rest);
  }

  /** Text without the quote and without a backslash needs no escapes. */
  lemma {:induction false} UnescapedStays(q: char, a: string)
    requires q !in a && '\\' !in a
    ensures Escape(q, a) == a
    decreases |a|
  {
    if a != "" {
      assert a[0] in a;
      UnescapedStays(q, a[1..]);
      assert [a[0]] + a[1..] == a;
    }
  }

  /** Either quote opens a quoted word. It is read to the same quote, with a backslash in front of that
      quote and of a backslash inside it. One of six characters must follow, and stays unread. */
  lemma QuoteCloses(q: char, s: string, c: char, t: string)
    requires q == '"' || q == '\''
    ensures Scan([q] + (Escape(q, s) + ([q] + ([c] + t)))) ==
            if c == ' ' || c == '\t' || c == '\n' || c == ';' || c == '{' || c == '}'
            then Scanned(Word([q] + s + [q]), [c] + t) else Scanned(Error, t)
  {
    ScanAtQuote(q, Escape(q, s) + ([q] + ([c] + t)));
    EscapedReads(q, [q], s, [q] + ([c] + t));
    ClosingQuote(q, [q] + s, c, t);
  }

  lemma ClosingQuote(q: char, value: string, c: char, t: string)
    requires IsQuote(q)
    ensures ScanQuoted(q, value, [q] + ([c] + t)) ==
            if IsDelimiter(c) then Scanned(Word(value + [q]), [c] + t) else Scanned(Error, t)
  {
    Tail(q, [c] + t);
    Tail(c, t);
    assert ([q] + ([c] + t))[2..] == t;
  }

  /** The text of a quoted word without escapes, and with one. */
  lemma QuotedWord(q: char, a: string, x: char, b: string, c: char, t: string)
    requires q == '"' || q == '\''
    requires q !in a && '\\' !in a && q !in b && '\\' !in b
    requires c == ' ' || c == '\t' || c == '\n' || c == ';' || c == '{' || c == '}'
    ensures Scan([q] + (a + ([q] + ([c] + t)))) == Scanned(Word([q] + a + [q]), [c] + t)
    ensures Scan([q] + (a + (['\\', x] + (b + ([q] + ([c] + t)))))) ==
            Scanned(Word([q] + a + [x] + b + [q]), [c] + t)
  {
    UnescapedStays(q, a);
    QuoteCloses(q, a, c, t);
    var rest := b + ([q] + ([c] + t));
    ScanAtQuote(q, a + (['\\', x] + rest));
    EscapedChar(q, a, x, rest, [q]);
    UnescapedStays(q, b);
    EscapedReads(q, [q] + a + [x], b, [q] + ([c] + t));
    ClosingQuote(q, [q] + a + [x] + b, c, t);
  }

  /** A quote that is not closed, a backslash at the end and a closing quote at the end are errors. */
  lemma QuoteLeftOpen(q: char, s: string)
    requires q == '"' || q == '\''
    ensures Tokens([q] + Escape(q, s)) == [Error]
    ensures Tokens([q] + (Escape(q, s) + ['\\'])) == [Error]
    ensures Tokens([q] + (Escape(q, s) + [q])) == [Error]
  {
    assert Escape(q, s) + "" == Escape(q, s);
    EscapedReads(q, [q], s, "");
    ScanAtQuote(q, Escape(q, s));
    LastToken([q] + Escape(q, s), Error);
    EscapedReads(q, [q], s, ['\\']);
    ScanAtQuote(q, Escape(q, s) + ['\\']);
    LastToken([q] + (Escape(q, s) + ['\\']), Error);
    EscapedReads(q, [q], s, [q]);
    ScanAtQuote(q, Escape(q, s) + [q]);
    LastToken([q] + (Escape(q, s) + [q]), Error);
  }

  // ---------- whole texts ----------

  /** What a text is made of: a character between tokens, a word with or without quotes, a bracket or
      semicolon, a comment with the character that ends it. */
  datatype Piece =
    | Gap(c: char) | Bare(w: string) | Quoted(q: char, s: string) | Mark(c: char) | Remark(text: string, e: char)

  function Written(p: Piece): string {
    match p
    case Gap(c) => [c]
    case Bare(w) => w
    case Quoted(q, s) => [q] + Escape(q, s) + [q]
    case Mark(c) => [c]
    case Remark(c, e) => "#" + c + [e]
  }

  function WrittenAll(ps: seq<Piece>): string {
    if ps == [] then "" else Written(ps[0]) + WrittenAll(ps[1..])
  }

  /** The tokens that a piece means. */
  function Means(p: Piece): seq<Token> {
    match p
    case Gap(_) => []
    case Bare(w) => [Word(w)]
    case Quoted(q, s) => [Word([q] + s + [q])]
    case Mark(c) => [if c == ';' then StatementEnd else if c == '{' then StartBlock else EndBlock]
    case Remark(_, _) => [Comment]
  }

  function MeansAll(ps: seq<Piece>): seq<Token> {
    if ps == [] then [] else Means(ps[0]) + MeansAll(ps[1..])
  }

  predicate IsPiece(p: Piece) {
    match p
    case Gap(c) => c == ' ' || c == '\t' || c == '\n' || c == '\r'
    case Bare(w) => IsBareWord(w)
    case Quoted(q, _) => q == '"' || q == '\''
    case Mark(c) => c == ';' || c == '{' || c == '}'
    case Remark(c, e) => '\n' !in c && '\r' !in c && (e == '\n' || e == '\r')
  }

  /** Behind a word comes a blank, a tab, a line feed, a bracket or a semicolon; the rest is free. */
  predicate IsLayout(ps: seq<Piece>) {
    && (forall i :: 0 <= i < |ps| ==> IsPiece(ps[i]))
    && (forall i :: 0 <= i < |ps| && (ps[i].Bare? || ps[i].Quoted?) ==>
          i + 1 < |ps| && (ps[i + 1].Mark? || (ps[i + 1].Gap? && ps[i + 1].c != '\r')))
  }

  lemma LayoutTail(ps: seq<Piece>)
    requires IsLayout(ps) && ps != []
    ensures IsLayout(ps[1..]) && IsPiece(ps[0])
    ensures ps[0].Bare? || ps[0].Quoted? ==>
              WrittenAll(ps[1..]) != "" && IsDelimiter(WrittenAll(ps[1..])[0])
  {
    var rest := ps[1..];
    assert forall i :: 0 <= i < |rest| ==> rest[i] == ps[i + 1];
    if ps[0].Bare? || ps[0].Quoted? {
      assert rest[0] == ps[1] && IsPiece(ps[1]);
    }
  }

  lemma TokensOfBare(w: string, s: string)
    requires IsBareWord(w) && s != "" && IsDelimiter(s[0])
    ensures Tokens(w + s) == [Word(w)] + Tokens(s)
  {
    BareIsPlain(w);
    ScanAtWord(w, s);
    OneToken(w + s, Word(w), s);
  }

  lemma TokensOfQuoted(q: char, t: string, s: string)
    requires (q == '"' || q == '\'') && s != "" && IsDelimiter(s[0])
    ensures Tokens([q] + Escape(q, t) + [q] + s) == [Word([q] + t + [q])] + Tokens(s)
  {
    QuotingRoundTrip(q, t, s);
    OneToken([q] + Escape(q, t) + [q] + s, Word([q] + t + [q]), s);
  }

  /** One piece in front of a text. */
  lemma TokensOfPiece(p: Piece, s: string)
    requires IsPiece(p)
    requires p.Bare? || p.Quoted? ==> s != "" && IsDelimiter(s[0])
    ensures Tokens(Written(p) + s) == Means(p) + Tokens(s)
  {
    match p
    case Gap(c) => BetweenTokens(c, s);
    case Mark(c) => BetweenTokens(c, s);
    case Remark(text, e) => CommentEnds(text, e, s);
    case Bare(w) => TokensOfBare(w, s);
    case Quoted(q, t) => TokensOfQuoted(q, t, s);
  }

  /** Any text made of such pieces, however they are spaced and commented, is read as they mean. */
  lemma {:induction false} LayoutScans(ps: seq<Piece>)
    requires IsLayout(ps)
    ensures Tokens(WrittenAll(ps)) == MeansAll(ps) + [Eof]
    decreases |ps|
  {
    if ps != [] {
      LayoutTail(ps);
      LayoutScans(ps[1..]);
      TokensOfPiece(ps[0], WrittenAll(ps[1..]));
      Reassociate(Means(ps[0]), MeansAll(ps[1..]), [Eof]);
    }
  }

  lemma {:induction false} SignificantEnd(ts: seq<Token>)
    ensures Significant(ts + [Eof]) == Significant(ts) + [Eof]
    decreases |ts|
  {
    if ts == [] {
      assert ts + [Eof] == [Eof] && [Eof][1..] == [];
    } else {
      assert (ts + [Eof])[1..] == ts[1..] + [Eof];
      SignificantEnd(ts[1..]);
    }
  }

  /** Spacing and comments are free: texts with the same words, brackets and semicolons are parsed alike. */
  lemma SpacingIsFree(ps: seq<Piece>, qs: seq<Piece>, addrs: map<string, ConfigArg>)
    requires IsLayout(ps) && IsLayout(qs) && Significant(MeansAll(ps)) == Significant(MeansAll(qs))
    ensures ParseText(WrittenAll(ps), addrs) == ParseText(WrittenAll(qs), addrs)
  {
    LayoutScans(ps);
    LayoutScans(qs);
    SignificantEnd(MeansAll(ps));
    SignificantEnd(MeansAll(qs));
    RunSkipsComments(Running(Initial(addrs)), Tokens(WrittenAll(ps)));
    RunSkipsComments(Running(Initial(addrs)), Tokens(WrittenAll(qs)));
  }
}
