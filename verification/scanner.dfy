/** The scanner: five states, one character of push-back, backslash escapes in quotes. */
module Scanner {

  /** A token's kind together with the text the scanner stores for it. */
  datatype Token = Word(text: string) | StartBlock | EndBlock | StatementEnd | Comment | Eof | Error

  /** One scan: the token and the input left unread. */
  datatype Scanned = Scanned(token: Token, rest: string)

  /** Skipped between tokens. */
  predicate IsBlank(c: char) {
    c == ' ' || c == '\t' || c == '\n' || c == '\r'
  }

  /** Ends a plain word, and must follow a closing quote. A carriage return is not one of these. */
  predicate IsDelimiter(c: char) {
    c == ' ' || c == '\t' || c == '\n' || c == ';' || c == '{' || c == '}'
  }

  predicate IsQuote(c: char) {
    c == '"' || c == '\''
  }

  // ---------- what one call of the scanner returns ----------

  /** The text is read up to the next delimiter, which stays unread.
      A word cut off by the end of the input is dropped. */
  function ScanWord(value: string, s: string): Scanned
    decreases |s|
  {
    if s == "" then Scanned(Eof, "")
    else if IsDelimiter(s[0]) then Scanned(Word(value), s)
    else ScanWord(value + [s[0]], s[1..])
  }

  /** After an opening quote `q`. The closing quote is kept, the backslash of an escape is not. */
  function ScanQuoted(q: char, value: string, s: string): Scanned
    decreases |s|
  {
    if s == "" then Scanned(Error, "")
    else if s[0] == '\\' then
      if |s| == 1 then Scanned(Error, "") else ScanQuoted(q, value + [s[1]], s[2..])
    else if s[0] != q then ScanQuoted(q, value + [s[0]], s[1..])
    else if |s| == 1 then Scanned(Error, "")
    else if IsDelimiter(s[1]) then Scanned(Word(value + [q]), s[1..])
    else Scanned(Error, s[2..])
  }

  function ScanComment(s: string): Scanned {
    if s == "" then Scanned(Eof, "")
    else if s[0] == '\n' || s[0] == '\r' then Scanned(Comment, s[1..])
    else ScanComment(s[1..])
  }

  function Scan(s: string): Scanned {
    if s == "" then Scanned(Eof, "")
    else if IsBlank(s[0]) then Scan(s[1..])
    else if s[0] == '{' then Scanned(StartBlock, s[1..])
    else if s[0] == '}' then Scanned(EndBlock, s[1..])
    else if s[0] == ';' then Scanned(StatementEnd, s[1..])
    else if s[0] == '#' then ScanComment(s[1..])
    else if IsQuote(s[0]) then ScanQuoted(s[0], [s[0]], s[1..])
    else ScanWord([s[0]], s[1..])
  }

  predicate Final(t: Token) {
    t.Eof? || t.Error?
  }

  /** The whole token stream of an input; the parser asks for no token after an end or an error. */
  function Tokens(s: string): seq<Token>
    decreases |s|
  {
    var r := Scan(s);
    ScanProgress(s);
    if Final(r.token) then [r.token] else [r.token] + Tokens(r.rest)
  }

  // ---------- progress ----------

  /** `rest` is what remains of `s` after some characters. */
  predicate IsSuffix(rest: string, s: string): (b: bool)
    ensures b ==> |rest| <= |s|
  {
    rest == s || (s != "" && IsSuffix(rest, s[1..]))
  }

  lemma SuffixOfSecondTail(rest: string, s: string)
    requires |s| >= 2 && IsSuffix(rest, s[2..])
    ensures IsSuffix(rest, s)
  {
    assert s[1..][1..] == s[2..];
    assert IsSuffix(rest, s[1..]);
  }

  lemma {:induction false} SuffixChars(rest: string, s: string, c: char)
    requires IsSuffix(rest, s) && c in rest
    ensures c in s
    decreases |s|
  {
    if rest != s {
      SuffixChars(rest, s[1..], c);
    }
  }

  lemma {:induction false} WordProgress(value: string, s: string)
    ensures IsSuffix(ScanWord(value, s).rest, s)
    decreases |s|
  {
    if s != "" && !IsDelimiter(s[0]) {
      WordProgress(value + [s[0]], s[1..]);
    }
  }

  lemma {:induction false} QuotedProgress(q: char, value: string, s: string)
    ensures IsSuffix(ScanQuoted(q, value, s).rest, s)
    ensures ScanQuoted(q, value, s).token.Word? ==> |ScanQuoted(q, value, s).rest| < |s|
    decreases |s|
  {
    if s == "" {
    } else if s[0] == '\\' {
      if |s| >= 2 {
        QuotedProgress(q, value + [s[1]], s[2..]);
        SuffixOfSecondTail(ScanQuoted(q, value + [s[1]], s[2..]).rest, s);
      } else {
        EmptyIsSuffix(s);
      }
    } else if s[0] != q {
      QuotedProgress(q, value + [s[0]], s[1..]);
    } else if |s| >= 2 {
      SuffixOfSecondTail(s[2..], s);
    } else {
      EmptyIsSuffix(s);
    }
  }

  lemma {:induction false} EmptyIsSuffix(s: string)
    ensures IsSuffix("", s)
    decreases |s|
  {
    if s != "" {
      EmptyIsSuffix(s[1..]);
    }
  }

  lemma {:induction false} CommentProgress(s: string)
    ensures IsSuffix(ScanComment(s).rest, s)
    ensures ScanComment(s).token.Comment? ==> |ScanComment(s).rest| < |s|
    decreases |s|
  {
    if s != "" && s[0] != '\n' && s[0] != '\r' {
      CommentProgress(s[1..]);
    }
  }

  /** Each call reads forward: what is left is a suffix of the input, a proper one unless the
      stream ended or an error stopped it, even though a delimiter may have been pushed back. */
  lemma {:induction false} ScanProgress(s: string)
    ensures IsSuffix(Scan(s).rest, s)
    ensures !Final(Scan(s).token) ==> |Scan(s).rest| < |s|
  {
    if s != "" {
      var r := Scan(s);
      if IsBlank(s[0]) {
        ScanProgress(s[1..]);
      } else if s[0] == '#' {
        CommentProgress(s[1..]);
      } else if IsQuote(s[0]) {
        QuotedProgress(s[0], [s[0]], s[1..]);
      } else if !IsDelimiter(s[0]) {
        WordProgress([s[0]], s[1..]);
      }
      assert IsSuffix(r.rest, s[1..]);
    }
  }

  /** The parser stops after at most one token more than the input has characters; only the last
      token of a stream is an end or an error. */
  lemma {:induction false} TokensBounded(s: string)
    ensures 1 <= |Tokens(s)| <= |s| + 1
    ensures forall i :: 0 <= i < |Tokens(s)| ==> (Final(Tokens(s)[i]) <==> i == |Tokens(s)| - 1)
    decreases |s|
  {
    ScanProgress(s);
    if !Final(Scan(s).token) {
      TokensBounded(Scan(s).rest);
    }
  }

  // ---------- which texts the scanner produces, and which it reads back ----------

  /** A text the scanner reads as one unquoted word. */
  predicate IsPlain(w: string) {
    && w != ""
    && !IsBlank(w[0]) && w[0] != '#' && !IsQuote(w[0])
    && (forall i :: 0 <= i < |w| ==> !IsDelimiter(w[i]))
  }

  /** A text that starts and ends with the same quote. */
  predicate IsQuoted(w: string) {
    |w| >= 2 && IsQuote(w[0]) && w[|w| - 1] == w[0]
  }

  /** Between its quotes there is neither that quote nor a backslash. */
  predicate IsEscapeFree(w: string) {
    IsQuoted(w) ==> forall i :: 1 <= i < |w| - 1 ==> w[i] != w[0] && w[i] != '\\'
  }

  predicate IsLexeme(w: string) {
    IsPlain(w) || IsQuoted(w)
  }

  predicate IsPrintable(w: string) {
    IsLexeme(w) && IsEscapeFree(w)
  }

  lemma {:induction false} WordText(value: string, s: string)
    requires IsPlain(value)
    ensures var t := ScanWord(value, s).token; t.Eof? || (t.Word? && IsPlain(t.text))
    decreases |s|
  {
    if s != "" && !IsDelimiter(s[0]) {
      WordText(value + [s[0]], s[1..]);
    }
  }

  lemma {:induction false} QuotedText(q: char, value: string, s: string)
    requires IsQuote(q) && value != "" && value[0] == q
    ensures var t := ScanQuoted(q, value, s).token; t.Error? || (t.Word? && IsQuoted(t.text))
    decreases |s|
  {
    if s == "" {
    } else if s[0] == '\\' {
      if |s| > 1 {
        QuotedText(q, value + [s[1]], s[2..]);
      }
    } else if s[0] != q {
      QuotedText(q, value + [s[0]], s[1..]);
    }
  }

  lemma {:induction false} CommentIsNoWord(s: string)
    ensures !ScanComment(s).token.Word?
  {
    if s != "" && s[0] != '\n' && s[0] != '\r' {
      CommentIsNoWord(s[1..]);
    }
  }

  /** Every word the scanner emits is a plain word or stands in matching quotes; none is empty. */
  lemma {:induction false} ScanText(s: string)
    ensures Scan(s).token.Word? ==> IsLexeme(Scan(s).token.text)
  {
    if s == "" {
    } else if IsBlank(s[0]) {
      ScanText(s[1..]);
    } else if s[0] == '#' {
      CommentIsNoWord(s[1..]);
    } else if IsQuote(s[0]) {
      QuotedText(s[0], [s[0]], s[1..]);
    } else if !IsDelimiter(s[0]) {
      WordText([s[0]], s[1..]);
    }
  }

  lemma {:induction false} TokensText(s: string)
    ensures forall t :: t in Tokens(s) && t.Word? ==> IsLexeme(t.text)
    decreases |s|
  {
    ScanText(s);
    ScanProgress(s);
    if !Final(Scan(s).token) {
      TokensText(Scan(s).rest);
    }
  }

  /** An input without a backslash produces escape-free words only. */
  lemma {:induction false} QuotedWithoutBackslash(q: char, value: string, s: string)
    requires IsQuote(q) && value != "" && value[0] == q && '\\' !in s
    requires forall i :: 1 <= i < |value| ==> value[i] != q && value[i] != '\\'
    ensures var t := ScanQuoted(q, value, s).token; t.Word? ==> IsEscapeFree(t.text)
    decreases |s|
  {
    if s != "" && s[0] != q {
      assert s[0] in s;
      QuotedWithoutBackslash(q, value + [s[0]], s[1..]);
    }
  }

  lemma {:induction false} ScanWithoutBackslash(s: string)
    requires '\\' !in s
    ensures Scan(s).token.Word? ==> IsEscapeFree(Scan(s).token.text)
  {
    if s == "" {
    } else if IsBlank(s[0]) {
      ScanWithoutBackslash(s[1..]);
    } else if s[0] == '#' {
      CommentIsNoWord(s[1..]);
    } else if IsQuote(s[0]) {
      QuotedWithoutBackslash(s[0], [s[0]], s[1..]);
    } else if !IsDelimiter(s[0]) {
      WordText([s[0]], s[1..]);
    }
  }

  lemma {:induction false} TokensWithoutBackslash(s: string)
    requires '\\' !in s
    ensures forall t :: t in Tokens(s) && t.Word? ==> IsEscapeFree(t.text)
    decreases |s|
  {
    ScanWithoutBackslash(s);
    ScanProgress(s);
    if !Final(Scan(s).token) {
      if '\\' in Scan(s).rest {
        SuffixChars(Scan(s).rest, s, '\\');
      }
      TokensWithoutBackslash(Scan(s).rest);
    }
  }

  lemma {:induction false} WordReadsOn(value: string, w: string, s: string)
    requires s != "" && IsDelimiter(s[0])
    requires forall i :: 0 <= i < |w| ==> !IsDelimiter(w[i])
    ensures ScanWord(value, w + s) == Scanned(Word(value + w), s)
    decreases |w|
  {
    if w == "" {
      assert w + s == s && value + w == value;
    } else {
      assert (w + s)[1..] == w[1..] + s;
      WordReadsOn(value + [w[0]], w[1..], s);
      assert value + [w[0]] + w[1..] == value + w;
    }
  }

  lemma {:induction false} QuoteReadsOn(q: char, value: string, w: string, s: string)
    requires IsQuote(q)
    requires s != "" && IsDelimiter(s[0])
    requires forall i :: 0 <= i < |w| ==> w[i] != q && w[i] != '\\'
    ensures ScanQuoted(q, value, w + [q] + s) == Scanned(Word(value + w + [q]), s)
    decreases |w|
  {
    var t := w + [q] + s;
    if w == "" {
      assert t[1..] == s && t[0] == q;
      assert value + w == value;
    } else {
      assert t[1..] == w[1..] + [q] + s && t[0] == w[0];
      QuoteReadsOn(q, value + [w[0]], w[1..], s);
      assert value + [w[0]] + w[1..] == value + w;
    }
  }

  /** What has been collected stays the front of the word. */
  lemma {:induction false} QuotedExtends(q: char, value: string, s: string, w: string)
    requires ScanQuoted(q, value, s).token == Word(w)
    ensures value <= w
    decreases |s|
  {
    if s[0] == '\\' {
      QuotedExtends(q, value + [s[1]], s[2..], w);
    } else if s[0] != q {
      QuotedExtends(q, value + [s[0]], s[1..], w);
    }
  }

  lemma NoPrefix(w: string, j: nat, c: char)
    requires j < |w| && w[j] != c
    ensures !(w[..j] + [c] <= w)
  {
    assert (w[..j] + [c])[j] == c;
  }

  lemma AppendAt(w: string, n: nat, s: string)
    requires n < |w|
    ensures (w[n..] + s)[0] == w[n] && (w[n..] + s)[1..] == w[n + 1..] + s
    ensures n + 1 < |w| ==> |w[n..] + s| > 1 && (w[n..] + s)[1] == w[n + 1] && (w[n..] + s)[2..] == w[n + 2..] + s
  {
    assert w[n..][1..] == w[n + 1..];
    if n + 1 < |w| {
      assert w[n..][2..] == w[n + 2..];
    }
  }

  /** The scanner has collected `w[..j]` of a quoted text and is `d` backslashes ahead: it never gets `w`. */
  lemma {:induction false} NoCatchingUp(w: string, j: nat, d: nat, s: string)
    requires IsQuoted(w) && 1 <= j && 1 <= d && j + d <= |w| - 1
    requires forall k :: j <= k < j + d ==> w[k] == '\\'
    ensures ScanQuoted(w[0], w[..j], w[j + d..] + s).token != Word(w)
    decreases |w| - j
  {
    var q, n := w[0], j + d;
    AppendAt(w, n, s);
    var r := ScanQuoted(q, w[..j], w[n..] + s);
    if r.token == Word(w) {
      if w[n] == '\\' {
        QuotedExtends(q, w[..j] + [w[n + 1]], w[n + 2..] + s, w);
        assert (w[..j] + [w[n + 1]])[j] == w[j];
        assert w[..j] + [w[n + 1]] == w[..j + 1];
        NoCatchingUp(w, j + 1, d + 1, s);
      } else if w[n] != q {
        NoPrefix(w, j, w[n]);
        QuotedExtends(q, w[..j] + [w[n]], w[n + 1..] + s, w);
      } else {
        NoPrefix(w, j, q);
      }
    }
  }

  /** From position `i` on, nothing before it being a quote or a backslash. */
  lemma {:induction false} QuotedScansBack(w: string, i: nat, s: string)
    requires IsQuoted(w) && 1 <= i <= |w| - 1
    requires ScanQuoted(w[0], w[..i], w[i..] + s).token == Word(w)
    ensures forall k :: i <= k < |w| - 1 ==> w[k] != w[0] && w[k] != '\\'
    decreases |w| - i
  {
    var q := w[0];
    if i < |w| - 1 {
      AppendAt(w, i, s);
      if w[i] == '\\' {
        QuotedExtends(q, w[..i] + [w[i + 1]], w[i + 2..] + s, w);
        assert (w[..i] + [w[i + 1]])[i] == w[i];
        assert w[..i] + [w[i + 1]] == w[..i + 1];
        NoCatchingUp(w, i + 1, 1, s);
      } else if w[i] != q {
        assert w[..i] + [w[i]] == w[..i + 1];
        QuotedScansBack(w, i + 1, s);
      }
    }
  }

  /** Exactly the printable texts survive being written out and scanned: whatever delimiter and
      whatever text follow, the scanner gives the word back, and then leaves the delimiter unread. */
  lemma ScanPrintable(w: string, s: string)
    requires s != "" && IsDelimiter(s[0])
    ensures Scan(w + s).token == Word(w) <==> IsPrintable(w)
    ensures Scan(w + s) == Scanned(Word(w), s) <==> IsPrintable(w)
  {
    if IsPrintable(w) {
      PrintableReadsBack(w, s);
    }
    if Scan(w + s).token == Word(w) {
      OnlyPrintableReadsBack(w, s);
    }
  }

  lemma PrintableReadsBack(w: string, s: string)
    requires s != "" && IsDelimiter(s[0])
    requires IsPrintable(w)
    ensures Scan(w + s) == Scanned(Word(w), s)
  {
    assert (w + s)[0] == w[0] && (w + s)[1..] == w[1..] + s;
    if IsPlain(w) {
      assert !IsDelimiter(w[0]);
      WordReadsOn([w[0]], w[1..], s);
      assert [w[0]] + w[1..] == w;
    } else {
      var q, inner := w[0], w[1..|w| - 1];
      assert w[1..] == inner + [q];
      QuoteReadsOn(q, [q], inner, s);
      assert [q] + inner + [q] == w;
    }
  }

  lemma ScanAtQuote(q: char, s: string)
    requires IsQuote(q)
    ensures Scan([q] + s) == ScanQuoted(q, [q], s)
  {
    assert ([q] + s)[1..] == s;
  }

  lemma OnlyPrintableReadsBack(w: string, s: string)
    requires Scan(w + s).token == Word(w)
    ensures IsPrintable(w)
  {
    assert IsLexeme(w) by {
      ScanText(w + s);
    }
    if IsQuoted(w) {
      assert w + s == [w[0]] + (w[1..] + s);
      ScanAtQuote(w[0], w[1..] + s);
      assert w[..1] == [w[0]];
      QuotedScansBack(w, 1, s);
    }
  }

  lemma {:induction false} WordCutOff(value: string, s: string)
    requires forall i :: 0 <= i < |s| ==> !IsDelimiter(s[i])
    ensures ScanWord(value, s) == Scanned(Eof, "")
    decreases |s|
  {
    if s != "" {
      WordCutOff(value + [s[0]], s[1..]);
    }
  }

  /** A plain word at the very end of the input is not returned: the scanner reports the end. */
  lemma LastWordIsDropped(w: string)
    requires IsPlain(w)
    ensures Tokens(w) == [Eof]
  {
    assert !IsDelimiter(w[0]);
    WordCutOff([w[0]], w[1..]);
  }

  /** Text without a delimiter or a line end, put behind `s`, becomes part of a word or comment that `s`
      leaves open, and nothing else. */
  predicate IsUnending(w: string) {
    forall i :: 0 <= i < |w| ==> !IsDelimiter(w[i]) && w[i] != '\r'
  }

  /** What scanning `s` with more text behind it gives, if `r` is what `s` gives. */
  predicate ReadsOn(r: Scanned, r': Scanned, w: string) {
    && (!Final(r.token) ==> r' == Scanned(r.token, r.rest + w))
    && (r.token.Eof? ==> r'.token.Eof?)
  }

  lemma AppendTail(s: string, w: string, k: nat)
    requires k <= |s|
    ensures (s + w)[k..] == s[k..] + w
  {
  }

  lemma {:induction false} WordAppend(value: string, s: string, w: string)
    requires IsUnending(w)
    ensures ReadsOn(ScanWord(value, s), ScanWord(value, s + w), w)
    decreases |s|
  {
    if s == "" {
      assert s + w == w;
      WordCutOff(value, w);
    } else if !IsDelimiter(s[0]) {
      AppendTail(s, w, 1);
      WordAppend(value + [s[0]], s[1..], w);
    }
  }

  lemma {:induction false} CommentCutOff(w: string)
    requires IsUnending(w)
    ensures ScanComment(w) == Scanned(Eof, "")
    decreases |w|
  {
    if w != "" {
      CommentCutOff(w[1..]);
    }
  }

  lemma {:induction false} CommentAppend(s: string, w: string)
    requires IsUnending(w)
    ensures ReadsOn(ScanComment(s), ScanComment(s + w), w)
    decreases |s|
  {
    if s == "" {
      assert s + w == w;
      CommentCutOff(w);
    } else {
      AppendTail(s, w, 1);
      if s[0] != '\n' && s[0] != '\r' {
        CommentAppend(s[1..], w);
      }
    }
  }

  lemma {:induction false} QuotedAppend(q: char, value: string, s: string, w: string)
    ensures ReadsOn(ScanQuoted(q, value, s), ScanQuoted(q, value, s + w), w)
    ensures !ScanQuoted(q, value, s).token.Eof?
    decreases |s|
  {
    if |s| >= 2 {
      AppendTail(s, w, 1);
      AppendTail(s, w, 2);
      if s[0] == '\\' {
        QuotedAppend(q, value + [s[1]], s[2..], w);
      } else if s[0] != q {
        QuotedAppend(q, value + [s[0]], s[1..], w);
      }
    } else if s != "" && s[0] != '\\' && s[0] != q {
      AppendTail(s, w, 1);
      QuotedAppend(q, value + [s[0]], s[1..], w);
    }
  }

  lemma {:induction false} ScanAppend(s: string, w: string)
    requires IsPlain(w) && IsUnending(w)
    ensures ReadsOn(Scan(s), Scan(s + w), w)
    decreases |s|
  {
    if s == "" {
      assert s + w == w && !IsDelimiter(w[0]);
      WordCutOff([w[0]], w[1..]);
    } else {
      AppendTail(s, w, 1);
      if IsBlank(s[0]) {
        ScanAppend(s[1..], w);
      } else if s[0] == '#' {
        CommentAppend(s[1..], w);
      } else if IsQuote(s[0]) {
        QuotedAppend(s[0], [s[0]], s[1..], w);
      } else if !IsDelimiter(s[0]) {
        WordAppend([s[0]], s[1..], w);
      }
    }
  }

  /** Whatever input the scanner reads to its end, a plain word more at that end goes unnoticed. */
  lemma {:induction false} LastWordUnnoticed(s: string, w: string)
    requires IsPlain(w) && IsUnending(w)
    requires Tokens(s)[|Tokens(s)| - 1].Eof?
    ensures Tokens(s + w) == Tokens(s)
    decreases |s|
  {
    var r := Scan(s);
    ScanProgress(s);
    ScanAppend(s, w);
    if !Final(r.token) {
      LastWordUnnoticed(r.rest, w);
    }
  }

  // ---------- quoting ----------

  /** `s` with a backslash before each `q` and each backslash. */
  function Escape(q: char, s: string): string {
    if s == "" then ""
    else (if s[0] == q || s[0] == '\\' then ['\\', s[0]] else [s[0]]) + Escape(q, s[1..])
  }

  lemma ScanEscaped(q: char, value: string, c: char, t: string)
    ensures ScanQuoted(q, value, ['\\', c] + t) == ScanQuoted(q, value + [c], t)
  {
    assert (['\\', c] + t)[2..] == t;
  }

  lemma ScanUnescaped(q: char, value: string, c: char, t: string)
    requires c != q && c != '\\'
    ensures ScanQuoted(q, value, [c] + t) == ScanQuoted(q, value + [c], t)
  {
    assert ([c] + t)[1..] == t;
  }

  lemma ScanClosing(q: char, value: string, after: string)
    requires IsQuote(q) && after != "" && IsDelimiter(after[0])
    ensures ScanQuoted(q, value, [q] + after) == Scanned(Word(value + [q]), after)
  {
    assert ([q] + after)[1..] == after;
  }

  lemma EscapeFirst(q: char, s: string, tail: string)
    requires s != ""
    ensures Escape(q, s) + tail ==
            (if s[0] == q || s[0] == '\\' then ['\\', s[0]] else [s[0]]) + (Escape(q, s[1..]) + tail)
  {
  }

  lemma FirstMoved(value: string, s: string)
    requires s != ""
    ensures value + [s[0]] + s[1..] == value + s
  {
  }

  /** The escaped form of a text is read as that text. */
  lemma {:induction false} EscapedReads(q: char, value: string, s: string, after: string)
    ensures ScanQuoted(q, value, Escape(q, s) + after) == ScanQuoted(q, value + s, after)
    decreases |s|
  {
    if s == "" {
      assert Escape(q, s) + after == after;
      assert value + s == value;
    } else {
      var t := Escape(q, s[1..]) + after;
      EscapedReads(q, value + [s[0]], s[1..], after);
      FirstMoved(value, s);
      EscapeFirst(q, s, after);
      if s[0] == q || s[0] == '\\' {
        ScanEscaped(q, value, s[0], t);
      } else {
        ScanUnescaped(q, value, s[0], t);
      }
    }
  }

  /** Any string whatever can be written in either kind of quotes. */
  lemma QuotingRoundTrip(q: char, s: string, after: string)
    requires IsQuote(q)
    requires after != "" && IsDelimiter(after[0])
    ensures Scan([q] + Escape(q, s) + [q] + after) == Scanned(Word([q] + s + [q]), after)
  {
    var t := Escape(q, s) + ([q] + after);
    assert [q] + Escape(q, s) + [q] + after == [q] + t;
    ScanAtQuote(q, t);
    EscapedReads(q, [q], s, [q] + after);
    ScanClosing(q, [q] + s, after);
  }

  // ---------- the scanner itself ----------

  /** An input stream of the C++ library: `good` turns false at the first read past the end. */
  class InputStream {
    const text: string
    var pos: nat
    var good: bool

    constructor (text: string)
      ensures this.text == text && pos == 0 && good
    {
      this.text, pos, good := text, 0, true;
    }

    ghost predicate Valid()
      reads this
    {
      pos <= |text|
    }

    /** What has not been read yet. */
    ghost function Rest(): string
      requires Valid()
      reads this
    {
      text[pos..]
    }

    /** At the end of the text the result is the end marker cut down to a char. */
    method Get() returns (c: char)
      requires Valid()
      modifies this
      ensures Valid()
      ensures good == (old(good) && old(pos) < |text|)
      ensures good ==> pos == old(pos) + 1 && c == text[old(pos)]
      ensures !good ==> pos == old(pos) && c == '\U{FF}'
    {
      if good && pos < |text| {
        c := text[pos];
        pos := pos + 1;
      } else {
        good := false;
        c := '\U{FF}';
      }
    }

    method Unget()
      requires Valid() && good && pos > 0
      modifies this
      ensures Valid() && good && pos == old(pos) - 1
    {
      pos := pos - 1;
    }
  }

  datatype ScannerState = InitialWhitespace | InSingleQuote | InDoubleQuote | InComment | InWord

  /** What is still to come, seen from inside the scanner's loop. */
  ghost function ScanFrom(state: ScannerState, value: string, s: string): Scanned {
    match state
    case InitialWhitespace => Scan(s)
    case InSingleQuote => ScanQuoted('\'', value, s)
    case InDoubleQuote => ScanQuoted('"', value, s)
    case InComment => ScanComment(s)
    case InWord => ScanWord(value, s)
  }

  /** Reads one token. The five states of the loop give exactly `Scan` of the unread input. */
  method ParseToken(input: InputStream) returns (token: Token)
    requires input.Valid() && input.good
    modifies input
    ensures input.Valid()
    ensures token == Scan(old(input.Rest())).token
    ensures input.Rest() == Scan(old(input.Rest())).rest
    ensures !Final(token) ==> input.good
  {
    ghost var all := input.Rest();
    var state := InitialWhitespace;
    var value := "";
    while input.good
      invariant input.Valid()
      invariant input.good ==> ScanFrom(state, value, input.Rest()) == Scan(all)
      invariant state == InitialWhitespace ==> value == ""
      invariant !input.good ==> input.Rest() == Scan(all).rest == ""
      invariant !input.good ==> Scan(all).token == if state.InSingleQuote? || state.InDoubleQuote? then Error else Eof
      decreases |input.text| - input.pos, input.good
    {
      ghost var rest := input.Rest();
      var c := input.Get();
      if !input.good {
        break;
      }
      assert rest[0] == c && rest[1..] == input.Rest() && rest == [c] + input.Rest();
      match state
      case InitialWhitespace =>
        if c == '{' {
          return StartBlock;
        } else if c == '}' {
          return EndBlock;
        } else if c == '#' {
          value, state := [c], InComment;
        } else if c == '"' {
          value, state := [c], InDoubleQuote;
        } else if c == '\'' {
          value, state := [c], InSingleQuote;
        } else if c == ';' {
          return StatementEnd;
        } else if c == ' ' || c == '\t' || c == '\n' || c == '\r' {
        } else {
          assert value + [c] == [c];
          value, state := value + [c], InWord;
        }
      case InSingleQuote =>
        var done: bool;
        done, token, value := QuotedChar(input, '\'', c, value);
        if done {
          return token;
        }
      case InDoubleQuote =>
        var done: bool;
        done, token, value := QuotedChar(input, '"', c, value);
        if done {
          return token;
        }
      case InComment =>
        if c == '\n' || c == '\r' {
          return Comment;
        }
        value := value + [c];
      case InWord =>
        if IsDelimiter(c) {
          input.Unget();
          assert input.Rest() == rest;
          return Word(value);
        }
        value := value + [c];
    }
    token := if state.InSingleQuote? || state.InDoubleQuote? then Error else Eof;
  }

  /** The code of either quote state once `c` has been read: an escape takes one more character,
      a closing quote looks at the next one and pushes it back. */
  method QuotedChar(input: InputStream, q: char, c: char, value: string)
    returns (done: bool, token: Token, value': string)
    requires input.Valid() && input.good
    modifies input
    ensures input.Valid() && input.pos >= old(input.pos)
    ensures var r := ScanQuoted(q, value, [c] + old(input.Rest()));
            && (done ==> token == r.token && input.Rest() == r.rest && (token.Word? ==> input.good))
            && (!done && input.good ==> ScanQuoted(q, value', input.Rest()) == r)
            && (!done && !input.good ==> r == Scanned(Error, "") == Scanned(Error, input.Rest()))
    ensures done ==> Final(token) || token.Word?
  {
    ghost var rest := input.Rest();
    ghost var s := [c] + rest;
    assert s[1..] == rest;
    token := Error;
    if c == '\\' {
      var c2 := input.Get();
      assert input.good ==> s[2..] == input.Rest() && s[1] == c2;
      return false, token, value + [c2];
    }
    value' := value + [c];
    if c == q {
      var c2 := input.Get();
      assert input.good ==> s[2..] == input.Rest() && s[1] == c2;
      if c2 == ' ' || c2 == '\t' || c2 == '\n' || c2 == ';' || c2 == '{' || c2 == '}' {
        input.Unget();
        assert input.Rest() == rest;
        return true, Word(value'), value';
      }
      return true, Error, value';
    }
    return false, token, value';
  }
}
