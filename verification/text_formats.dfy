/** The text formats of the text-generation store: the posted form, the history list read back by the
    page's script, titles in URLs, and folder names. */
module TextFormats {
  import opened CxxStrings
  import opened Routing

  // ---------- validity ----------

  predicate IsAlnum(c: char) {
    'a' <= c <= 'z' || 'A' <= c <= 'Z' || '0' <= c <= '9'
  }

  predicate IsTitleChar(c: char) {
    IsAlnum(c) || c == '.' || c == ' ' || c == '_' || c == '-'
  }

  predicate IsPromptChar(c: char) {
    IsAlnum(c) || c == '?' || c == ' ' || c == ',' || c == '_' || c == '-'
  }

  predicate IsTitle(t: string) {
    0 < |t| <= 20 && forall i :: 0 <= i < |t| ==> IsTitleChar(t[i])
  }

  predicate IsPrompt(p: string) {
    0 < |p| <= 50 && forall i :: 0 <= i < |p| ==> IsPromptChar(p[i])
  }

  /** What the server accepts, character by character. */
  lemma ValidTexts(s: string)
    ensures IsTitle(s) <==> 1 <= |s| <= 20 && forall c :: c in s ==>
              || 'a' <= c <= 'z' || 'A' <= c <= 'Z' || '0' <= c <= '9' || c == '.' || c == ' ' || c == '_' || c == '-'
    ensures IsPrompt(s) <==> 1 <= |s| <= 50 && forall c :: c in s ==>
              || 'a' <= c <= 'z' || 'A' <= c <= 'Z' || '0' <= c <= '9'
              || c == '?' || c == ' ' || c == ',' || c == '_' || c == '-'
  {
    assert forall i :: 0 <= i < |s| ==> s[i] in s;
  }

  // ---------- the posted form ----------

  /** Pieces with exactly one "=" enter the map; a key that is there stays as it is. */
  function DecodePieces(pieces: seq<string>): map<string, string> {
    if pieces == [] then map[] else
      var m := DecodePieces(pieces[..|pieces| - 1]);
      var pair := Split(pieces[|pieces| - 1], '=');
      if |pair| == 2 && pair[0] !in m then m[pair[0] := pair[1]] else m
  }

  function DecodeForm(body: string): map<string, string> {
    DecodePieces(Split(body, '&'))
  }

  method ParsePostBody(body: string) returns (ok: bool, tokens: map<string, string>)
    ensures tokens == DecodeForm(body)
    ensures ok <==> "title" in tokens && "prompt" in tokens
  {
    var pieces := Split(body, '&');
    tokens := map[];
    if pieces != [] {
      for i := 0 to |pieces|
        invariant tokens == DecodePieces(pieces[..i])
      {
        assert pieces[..i + 1][..i] == pieces[..i];
        var pair := Split(pieces[i], '=');
        if |pair| == 2 && pair[0] !in tokens {
          tokens := tokens[pair[0] := pair[1]];
        }
      }
      assert pieces[..|pieces|] == pieces;
      if "title" !in tokens || "prompt" !in tokens {
        return false, tokens;
      }
      return true, tokens;
    }
    return false, tokens;
  }

  /** `piece` is `k=v` and has no other "=". */
  predicate IsPair(piece: string, k: string, v: string) {
    piece == k + "=" + v && '=' !in k && '=' !in v
  }

  lemma SplitPair(piece: string, k: string, v: string)
    ensures Split(piece, '=') == [k, v] <==> IsPair(piece, k, v)
  {
    if IsPair(piece, k, v) {
      SplitJoin([k, v], '=');
      assert Join([k, v], "=") == piece;
    }
    if Split(piece, '=') == [k, v] {
      SplitPiecesClean(piece, '=');
      JoinSplit(piece, '=');
      assert '=' !in Split(piece, '=')[0] && '=' !in Split(piece, '=')[1];
      assert Join([k, v], "=") == k + "=" + Join([v], "=");
    }
  }

  /** Joining undoes splitting. */
  lemma {:induction false} JoinSplit(s: string, c: char)
    ensures Join(Split(s, c), [c]) == s
    decreases |s|
  {
    if s != "" {
      JoinSplit(s[1..], c);
      var tail := Split(s[1..], c);
      if s[0] == c {
        assert ([""] + tail)[1..] == tail;
        assert s == [c] + s[1..];
      } else {
        var pieces := [[s[0]] + tail[0]] + tail[1..];
        assert pieces[1..] == tail[1..];
        assert s == [s[0]] + s[1..];
        if |tail| > 1 {
          assert [s[0]] + tail[0] + [c] + Join(tail[1..], [c]) == [s[0]] + (tail[0] + [c] + Join(tail[1..], [c]));
        }
      }
    }
  }

  /** The first piece that pairs a key with a value decides. */
  ghost predicate IsFirstPair(pieces: seq<string>, i: int, k: string, v: string) {
    && 0 <= i < |pieces| && IsPair(pieces[i], k, v)
    && forall j, w :: 0 <= j < i ==> !IsPair(pieces[j], k, w)
  }

  lemma {:induction false} DecodeMeaning(pieces: seq<string>, k: string, v: string)
    ensures var m := DecodePieces(pieces);
            && (k in m && m[k] == v <==> exists i :: IsFirstPair(pieces, i, k, v))
            && (k in m <==> exists i, w :: 0 <= i < |pieces| && IsPair(pieces[i], k, w))
    decreases |pieces|
  {
    if pieces != [] {
      var front, last, n := pieces[..|pieces| - 1], pieces[|pieces| - 1], |pieces| - 1;
      var m := DecodePieces(front);
      DecodeMeaning(front, k, v);
      var pair := Split(last, '=');
      if |pair| == 2 {
        assert pair == [pair[0], pair[1]];
        SplitPair(last, pair[0], pair[1]);
      }
      forall w
        ensures IsPair(last, k, w) <==> |pair| == 2 && pair[0] == k && pair[1] == w
      {
        SplitPair(last, k, w);
      }
      assert forall i :: 0 <= i < n ==> front[i] == pieces[i];
      forall i
        ensures i < n ==> (IsFirstPair(pieces, i, k, v) <==> IsFirstPair(front, i, k, v))
      {
      }
      if k in m {
        var i, w :| 0 <= i < |front| && IsPair(front[i], k, w);
        assert IsPair(pieces[i], k, w);
        assert !IsFirstPair(pieces, n, k, v);
        assert (exists i :: IsFirstPair(pieces, i, k, v)) <==> exists i :: IsFirstPair(front, i, k, v);
      } else {
        assert IsPair(last, k, v) ==> IsFirstPair(pieces, n, k, v);
        assert |pair| == 2 && pair[0] == k ==> IsPair(pieces[n], k, pair[1]);
      }
    }
  }

  /** What the page posts for a title and a prompt. */
  function PostBody(t: string, p: string): string {
    "title=" + t + "&prompt=" + p
  }

  predicate IsFormClean(s: string) {
    '&' !in s && '=' !in s
  }

  lemma {:induction false} DecodedValuesClean(pieces: seq<string>)
    requires forall i :: 0 <= i < |pieces| ==> '&' !in pieces[i]
    ensures forall k :: k in DecodePieces(pieces) ==> IsFormClean(DecodePieces(pieces)[k])
    decreases |pieces|
  {
    if pieces != [] {
      var last := pieces[|pieces| - 1];
      DecodedValuesClean(pieces[..|pieces| - 1]);
      var pair := Split(last, '=');
      SplitPiecesClean(last, '=');
      if |pair| == 2 {
        assert pair == [pair[0], pair[1]];
        SplitPair(last, pair[0], pair[1]);
        forall c | c in pair[1]
          ensures c in last
        {
        }
      }
    }
  }

  /** The posted form gives back title and prompt exactly when neither holds a "&" or a "=". */
  lemma FormRoundTrip(t: string, p: string)
    ensures var m := DecodeForm(PostBody(t, p));
            ("title" in m && "prompt" in m && m["title"] == t && m["prompt"] == p) <==> IsFormClean(t) && IsFormClean(p)
  {
    var body := PostBody(t, p);
    if IsFormClean(t) && IsFormClean(p) {
      var a, b := "title=" + t, "prompt=" + p;
      assert Join([a, b], "&") == a + "&" + b == body;
      SplitJoin([a, b], '&');
      assert IsPair(a, "title", t) && IsPair(b, "prompt", p);
      SplitPair(a, "title", t);
      SplitPair(b, "prompt", p);
      assert [a, b][..1] == [a] && [a][..0] == [];
      assert DecodePieces([a]) == map["title" := t];
    }
    SplitPiecesClean(body, '&');
    DecodedValuesClean(Split(body, '&'));
  }

  /** In particular for everything the server accepts. */
  lemma ValidFormRoundTrip(t: string, p: string)
    requires IsTitle(t) && IsPrompt(p)
    ensures var m := DecodeForm(PostBody(t, p));
            "title" in m && "prompt" in m && m["title"] == t && m["prompt"] == p
  {
    FormRoundTrip(t, p);
  }

  // ---------- the history list ----------

  function TitleList(titles: seq<string>): string {
    "[" + Join(titles, ",") + "]"
  }

  /** What the script makes of it. */
  function ClientTitles(list: string): seq<string>
    requires |list| >= 2
  {
    var inner := list[1..|list| - 1];
    if inner == "" then [] else Split(inner, ',')
  }

  lemma JoinNotEmpty(titles: seq<string>)
    requires titles != [] && titles != [""]
    ensures Join(titles, ",") != ""
  {
    if |titles| == 1 {
      assert titles == [titles[0]];
    }
  }

  /** The list stands in brackets, with commas between the titles. */
  lemma TitleListText(titles: seq<string>)
    requires titles != [] && titles != [""] && forall i :: 0 <= i < |titles| ==> ',' !in titles[i]
    ensures var list := TitleList(titles);
            && |list| > 2 && list[0] == '[' && list[|list| - 1] == ']'
            && Split(list[1..|list| - 1], ',') == titles
    ensures TitleList([]) == "[]"
  {
    var inner := Join(titles, ",");
    assert TitleList(titles)[1..|TitleList(titles)| - 1] == inner;
    JoinNotEmpty(titles);
    SplitJoin(titles, ',');
  }

  /** The script recovers the list exactly when no title holds a comma and the list is not the one
      with a single empty title; no title the server stores is excluded by that. */
  lemma HistoryRoundTrip(titles: seq<string>)
    ensures ClientTitles(TitleList(titles)) == titles <==>
              titles != [""] && forall i :: 0 <= i < |titles| ==> ',' !in titles[i]
    ensures (forall i :: 0 <= i < |titles| ==> IsTitle(titles[i])) ==> ClientTitles(TitleList(titles)) == titles
  {
    var inner := Join(titles, ",");
    assert TitleList(titles)[1..|TitleList(titles)| - 1] == inner;
    SplitPiecesClean(inner, ',');
    if titles != [] && titles != [""] {
      JoinNotEmpty(titles);
      if forall i :: 0 <= i < |titles| ==> ',' !in titles[i] {
        SplitJoin(titles, ',');
      }
    }
  }

  // ---------- titles in URLs ----------

  predicate StartsWith20(s: string) {
    |s| >= 3 && s[0] == '%' && s[1] == '2' && s[2] == '0'
  }

  /** `regex_replace` of "%20" by a blank. */
  function Decode20(s: string): string {
    if StartsWith20(s) then " " + Decode20(s[3..])
    else if s == "" then ""
    else [s[0]] + Decode20(s[1..])
  }

  /** "%20" stands somewhere in the text. */
  ghost predicate Has20(s: string) {
    exists i :: 0 <= i < |s| && StartsWith20(s[i..])
  }

  lemma Has20Tail(s: string)
    requires s != ""
    ensures Has20(s) <==> StartsWith20(s) || Has20(s[1..])
  {
    assert s[0..] == s;
    if Has20(s[1..]) {
      var i :| 0 <= i < |s| - 1 && StartsWith20(s[1..][i..]);
      assert s[1..][i..] == s[i + 1..];
    }
    if Has20(s) && !StartsWith20(s) {
      var i :| 0 <= i < |s| && StartsWith20(s[i..]);
      assert s[1..][i - 1..] == s[i..];
    }
  }

  /** Decoding leaves exactly those texts alone that have no "%20". */
  lemma {:induction false} DecodeChanges(s: string)
    ensures |Decode20(s)| <= |s|
    ensures |Decode20(s)| == |s| <==> !Has20(s)
    ensures Decode20(s) == s <==> !Has20(s)
    decreases |s|
  {
    if s != "" {
      Has20Tail(s);
      if StartsWith20(s) {
        DecodeChanges(s[3..]);
      } else {
        DecodeChanges(s[1..]);
        assert s == [s[0]] + s[1..];
      }
    }
  }

  /** Blanks as a browser sends them. */
  function Encode20(s: string): string {
    if s == "" then "" else (if s[0] == ' ' then "%20" else [s[0]]) + Encode20(s[1..])
  }

  lemma SlashIsNo20(a: string, b: string)
    requires a != "" && b != "" && b[0] == '/'
    ensures StartsWith20(a + b) <==> StartsWith20(a)
  {
    var s := a + b;
    if |a| < 3 && |s| >= 3 {
      assert s[|a|] == '/';
    }
  }

  lemma DecodeStep(c: char, rest: string)
    requires !StartsWith20([c] + rest)
    ensures Decode20([c] + rest) == [c] + Decode20(rest)
  {
    assert ([c] + rest)[1..] == rest;
  }

  lemma DecodeStep20(rest: string)
    ensures Decode20("%20" + rest) == " " + Decode20(rest)
  {
    assert ("%20" + rest)[3..] == rest;
  }

  lemma Prepend(x: string, y: string, z: string)
    ensures x + (y + z) == x + y + z
  {
  }

  lemma {:induction false} DecodeAppend(a: string, b: string)
    requires b != "" && b[0] == '/'
    ensures Decode20(a + b) == Decode20(a) + Decode20(b)
    decreases |a|
  {
    if a == "" {
      assert a + b == b;
    } else {
      SlashIsNo20(a, b);
      if StartsWith20(a) {
        var rest := a[3..];
        assert a == "%20" + rest && a + b == "%20" + (rest + b);
        DecodeStep20(rest);
        DecodeStep20(rest + b);
        DecodeAppend(rest, b);
        Prepend(" ", Decode20(rest), Decode20(b));
      } else {
        var c, rest := a[0], a[1..];
        assert a == [c] + rest && a + b == [c] + (rest + b);
        DecodeStep(c, rest);
        DecodeStep(c, rest + b);
        DecodeAppend(rest, b);
        Prepend([c], Decode20(rest), Decode20(b));
      }
    }
  }

  lemma {:induction false} DecodeEncode(s: string)
    requires '%' !in s
    ensures Decode20(Encode20(s)) == s
    decreases |s|
  {
    if s != "" {
      var e := Encode20(s[1..]);
      DecodeEncode(s[1..]);
      assert s == [s[0]] + s[1..];
      if s[0] == ' ' {
        assert ("%20" + e)[3..] == e;
      } else {
        assert s[0] in s;
        assert ([s[0]] + e)[1..] == e;
      }
    }
  }

  /** Where decoding changes a text, the first change is a percent sign that becomes a blank. */
  lemma {:induction false} FirstChange(s: string) returns (p: nat)
    requires Decode20(s) != s
    ensures p < |Decode20(s)| && p < |s| && Decode20(s)[p] == ' ' && s[p] == '%'
    decreases |s|
  {
    if StartsWith20(s) {
      return 0;
    } else {
      assert s == [s[0]] + s[1..];
      p := FirstChange(s[1..]);
      p := p + 1;
    }
  }

  lemma StripTitle(t: string)
    requires IsTitle(t)
    ensures StripSlashes(t) == t
  {
    assert IsTitleChar(t[|t| - 1]);
  }

  lemma TitleIsNoCommand(t: string)
    requires IsTitle(t)
    ensures t != "" && t != "history?"
  {
    if |t| == 8 {
      assert IsTitleChar(t[7]);
    }
  }

  /** Asked for under its location, a valid title comes out of the URL as the key, whatever blanks it
      has, exactly when the location itself holds no "%20"; and it is never taken for the page or the
      history list. */
  lemma TitleKeyRoundTrip(location: string, t: string, forGet: bool)
    requires IsTitle(t)
    ensures RequestKey(location, Decode20(location + "/" + Encode20(t)), forGet) == Some(t) <==> !Has20(location)
    ensures t != "" && t != "history?"
  {
    DecodeChanges(location);
    var tail := "/" + Encode20(t);
    var url := Decode20(location + "/" + Encode20(t));
    assert location + "/" + Encode20(t) == location + tail;
    DecodeAppend(location, tail);
    assert tail[1..] == Encode20(t);
    assert '%' !in t by {
      assert forall i :: 0 <= i < |t| ==> IsTitleChar(t[i]);
    }
    DecodeEncode(t);
    assert Decode20(tail) == "/" + t;
    assert url == Decode20(location) + "/" + t;
    var prefix := location + "/";
    if Decode20(location) == location {
      assert prefix <= url && url[|prefix|..] == t;
      StripTitle(t);
    } else {
      var p := FirstChange(location);
      assert url[p] == ' ' && prefix[p] == '%';
      assert !(prefix <= url) && prefix != url + "/";
    }
    TitleIsNoCommand(t);
  }

  // ---------- folder names ----------

  /** `std::replace` of dots by underscores. */
  function DotToUnderscore(s: string): string {
    if s == "" then "" else DotToUnderscore(s[..|s| - 1]) + (if s[|s| - 1] == '.' then "_" else [s[|s| - 1]])
  }

  /** Dots become underscores, everything else stays where it is. */
  lemma {:induction false} FolderChars(s: string)
    ensures |DotToUnderscore(s)| == |s|
    ensures forall i :: 0 <= i < |s| ==> DotToUnderscore(s)[i] == if s[i] == '.' then '_' else s[i]
    decreases |s|
  {
    if s != "" {
      FolderChars(s[..|s| - 1]);
    }
  }

  lemma FolderSnoc(x: string, c: char)
    ensures DotToUnderscore(x + [c]) == DotToUnderscore(x) + [if c == '.' then '_' else c]
  {
    assert (x + [c])[..|x|] == x;
  }

  lemma SnocEqual(x: string, y: string, c: char, d: char)
    requires x + [c] == y + [d]
    ensures x == y && c == d
  {
    assert |x| == |y|;
    assert x == (x + [c])[..|x|] && c == (x + [c])[|x|];
  }

  lemma FoldersApart(x: string, c: char, y: string, d: char)
    requires c != '_' && d != '_' && (DotToUnderscore(x) == DotToUnderscore(y) ==> x == y)
    ensures DotToUnderscore(x + [c]) == DotToUnderscore(y + [d]) ==> x == y && c == d
  {
    FolderSnoc(x, c);
    FolderSnoc(y, d);
    if DotToUnderscore(x + [c]) == DotToUnderscore(y + [d]) {
      SnocEqual(DotToUnderscore(x), DotToUnderscore(y), if c == '.' then '_' else c, if d == '.' then '_' else d);
    }
  }

  /** Different addresses without underscores get different folders. */
  lemma {:induction false} FoldersDistinct(a: string, b: string)
    requires '_' !in a && '_' !in b
    ensures DotToUnderscore(a) == DotToUnderscore(b) ==> a == b
    decreases |a|
  {
    if a != "" && b != "" {
      var x, y, c, d := a[..|a| - 1], b[..|b| - 1], a[|a| - 1], b[|b| - 1];
      FoldersDistinct(x, y);
      assert a == x + [c] && b == y + [d] && c in a && d in b;
      FoldersApart(x, c, y, d);
    }
  }
}
