/** Which route serves a target, and what key the route's handler takes from it. */
module Routing {
  import opened CxxStrings

  // ---------- route search ----------

  /** The recursive search: cut at the last slash and look the rest up. */
  function SearchBinding(routes: set<string>, url: string): (location: Option<string>)
    decreases |url|
  {
    var pos := FindLast(url, '/');
    if pos > 0 then
      if url[..pos] in routes then Some(url[..pos]) else SearchBinding(routes, url[..pos])
    else if pos == 0 && "/" in routes then Some("/")
    else None
  }

  /** `r` is a non-empty route that ends where a path component of `url` ends. */
  predicate IsBoundaryRoute(routes: set<string>, url: string, r: string) {
    r != "" && r in routes && r + "/" <= url
  }

  ghost predicate IsLongestRoute(routes: set<string>, url: string, r: string) {
    && IsBoundaryRoute(routes, url, r)
    && forall q :: IsBoundaryRoute(routes, url, q) ==> |q| <= |r|
  }

  /** Routes that end before the last slash are those of the shorter search. */
  lemma BoundaryBelow(routes: set<string>, url: string, r: string)
    requires FindLast(url, '/') > 0
    ensures var sub := url[..FindLast(url, '/')];
            IsBoundaryRoute(routes, url, r) <==> IsBoundaryRoute(routes, sub, r) || (r == sub && sub in routes)
  {
    FindLastIsLast(url, '/');
    var pos := FindLast(url, '/');
    var sub := url[..pos];
    if r + "/" <= url {
      assert url[|r|] == '/';
      if |r| == pos {
        assert r == sub;
      } else {
        assert r + "/" == url[..|r| + 1] == sub[..|r| + 1];
      }
    }
    if r + "/" <= sub {
      assert r + "/" == sub[..|r| + 1] == url[..|r| + 1];
    }
    if r == sub {
      assert r + "/" == url[..pos + 1];
    }
  }

  lemma NoBoundary(routes: set<string>, url: string, r: string)
    requires FindLast(url, '/') <= 0
    ensures !IsBoundaryRoute(routes, url, r)
  {
    FindLastIsLast(url, '/');
    if r + "/" <= url {
      assert url[|r|] == '/';
    }
  }

  /** What the search returns for a URL: the longest boundary route, else the root route for a URL
      that starts with a slash, else nothing. */
  lemma {:induction false} SearchMeaning(routes: set<string>, url: string)
    ensures match SearchBinding(routes, url)
            case Some(r) =>
              IsLongestRoute(routes, url, r) ||
              (r == "/" && "/" in routes && url != "" && url[0] == '/' && forall q :: !IsBoundaryRoute(routes, url, q))
            case None =>
              && (forall q :: !IsBoundaryRoute(routes, url, q))
              && ("/" !in routes || url == "" || url[0] != '/')
    decreases |url|
  {
    var pos := FindLast(url, '/');
    FindLastIsLast(url, '/');
    if pos > 0 {
      var sub := url[..pos];
      forall q
        ensures IsBoundaryRoute(routes, url, q) <==> IsBoundaryRoute(routes, sub, q) || (q == sub && sub in routes)
      {
        BoundaryBelow(routes, url, q);
      }
      if sub !in routes {
        SearchMeaning(routes, sub);
      }
    } else {
      forall q
        ensures !IsBoundaryRoute(routes, url, q)
      {
        NoBoundary(routes, url, q);
      }
    }
  }

  /** The route of a request target, which is searched with a slash appended. */
  function RouteOf(routes: set<string>, target: string): Option<string> {
    SearchBinding(routes, target + "/")
  }

  /** The longest non-empty route that is the target or ends at one of its slashes; failing that the
      route "/", if there is one and the target is empty or starts with a slash; failing that none. */
  ghost predicate IsBestRoute(routes: set<string>, target: string, found: Option<string>) {
    match found
    case Some(r) =>
      || IsLongestRoute(routes, target + "/", r)
      || (r == "/" && "/" in routes && (target == "" || target[0] == '/')
          && forall q :: !IsBoundaryRoute(routes, target + "/", q))
    case None =>
      && (forall q :: !IsBoundaryRoute(routes, target + "/", q))
      && ("/" !in routes || (target != "" && target[0] != '/'))
  }

  /** For every target and every set of routes the search finds the best route. */
  lemma LongestBoundaryMatch(routes: set<string>, target: string)
    ensures IsBestRoute(routes, target, RouteOf(routes, target))
  {
    SearchMeaning(routes, target + "/");
  }

  // ---------- the handler's own check ----------

  function StripSlashes(key: string): string {
    if key != "" && key[|key| - 1] == '/' then StripSlashes(key[..|key| - 1]) else key
  }

  /** `check_request_url`: the key, or `None` where the handler refuses the URL. */
  function RequestKey(location: string, url: string, forGet: bool): Option<string> {
    var prefix := location + "/";
    if prefix <= url && |url| > |prefix| then Some(StripSlashes(url[|prefix|..]))
    else if prefix <= url && |url| == |prefix| && forGet then Some("")
    else if prefix == url + "/" then Some("")
    else None
  }

  predicate AllSlashes(s: string) {
    forall i :: 0 <= i < |s| ==> s[i] == '/'
  }

  /** `s` is `key` followed by slashes, and `key` ends in none. */
  predicate IsStripped(s: string, key: string) {
    key <= s && AllSlashes(s[|key|..]) && (key == "" || key[|key| - 1] != '/')
  }

  lemma {:induction false} StripMeaning(s: string)
    ensures IsStripped(s, StripSlashes(s))
    decreases |s|
  {
    if s != "" && s[|s| - 1] == '/' {
      var front, key := s[..|s| - 1], StripSlashes(s);
      StripMeaning(front);
      assert key == front[..|key|] == s[..|key|];
      forall i | |key| <= i < |s|
        ensures s[i] == '/'
      {
        assert i < |front| ==> s[i] == front[|key|..][i - |key|];
      }
    }
  }

  lemma StrippedNoLonger(s: string, key: string, key': string)
    requires IsStripped(s, key) && IsStripped(s, key')
    ensures |key'| <= |key|
  {
    assert forall i :: |key| <= i < |s| ==> s[|key|..][i - |key|] == s[i];
    assert key' != "" ==> key'[|key'| - 1] == s[|key'| - 1];
  }

  lemma StrippedUnique(s: string, key: string, key': string)
    requires IsStripped(s, key) && IsStripped(s, key')
    ensures key == key'
  {
    StrippedNoLonger(s, key, key');
    StrippedNoLonger(s, key', key);
    assert key == s[..|key|] == key';
  }

  lemma SameBeforeSlash(x: string, y: string)
    ensures x + "/" == y + "/" <==> x == y
  {
    if x + "/" == y + "/" {
      assert |x| == |y| && (x + "/")[..|x|] == x && (y + "/")[..|y|] == y;
    }
  }

  /** For any location and any URL: the check passes exactly for the location itself and for what has the
      location and a slash in front, the bare slash only where the caller lists; the key is what follows,
      without trailing slashes. */
  lemma RequestKeyMeaning(location: string, url: string, forGet: bool)
    ensures var key := RequestKey(location, url, forGet);
            && (key.Some? <==> url == location || (location + "/" <= url && (url != location + "/" || forGet)))
            && (key.Some? && (url == location || url == location + "/") ==> key.value == "")
            && (key.Some? && url != location && url != location + "/" ==>
                  var rest := url[|location| + 1..];
                  forall k :: IsStripped(rest, k) <==> k == key.value)
  {
    var prefix := location + "/";
    SameBeforeSlash(location, url);
    if prefix <= url && |url| > |prefix| {
      StripMeaning(url[|prefix|..]);
      forall k | IsStripped(url[|prefix|..], k)
        ensures k == StripSlashes(url[|prefix|..])
      {
        StrippedUnique(url[|prefix|..], k, StripSlashes(url[|prefix|..]));
      }
    } else if prefix <= url {
      assert url == prefix;
    }
  }

  /** The dispatched handler's check: a handler reached by a route other than "/" accepts the target
      unless that is the route with just a slash behind it and the caller does not list. Past that
      slash the key is what remains without trailing slashes, in the only way there is. */
  lemma DispatchAgrees(routes: set<string>, target: string, forGet: bool)
    requires RouteOf(routes, target).Some? && RouteOf(routes, target).value != "/"
    ensures var location := RouteOf(routes, target).value;
            var key := RequestKey(location, target, forGet);
            && (key.Some? <==> target != location + "/" || forGet)
            && (target == location || target == location + "/" ==> key.Some? ==> key.value == "")
            && (|target| > |location| + 1 ==>
                  var rest := target[|location| + 1..];
                  && location + "/" <= target && key.Some?
                  && forall k :: IsStripped(rest, k) <==> k == key.value)
  {
    LongestBoundaryMatch(routes, target);
    var location := RouteOf(routes, target).value;
    var prefix := location + "/";
    assert prefix <= target + "/";
    if |target| >= |prefix| {
      assert prefix == (target + "/")[..|prefix|] == target[..|prefix|];
      StripMeaning(target[|prefix|..]);
      forall k | IsStripped(target[|prefix|..], k)
        ensures k == StripSlashes(target[|prefix|..])
      {
        StrippedUnique(target[|prefix|..], k, StripSlashes(target[|prefix|..]));
      }
    } else {
      assert |target| + 1 == |prefix| && target + "/" == prefix;
      assert target == location by {
        assert (target + "/")[..|target|] == target && prefix[..|location|] == location;
      }
    }
  }

  /** The route "/" is different: its handler looks for two slashes, so of all the targets that reach
      it only "/" itself and those that start with "//" can pass. */
  lemma RootRouteKeys(target: string, forGet: bool)
    ensures RequestKey("/", target, forGet).Some? <==>
              target == "/" || ("//" <= target && (target != "//" || forGet))
  {
    assert "/" + "/" == "//";
    if "//" == target + "/" {
      assert target == (target + "/")[..|target|] == "//"[..1] == "/";
    }
  }

  /** A handler at `location` takes `x` from its URL, with any number of slashes behind it. */
  lemma KeyOfUrl(location: string, x: string, slashes: string, forGet: bool)
    requires x != "" && x[|x| - 1] != '/' && AllSlashes(slashes)
    ensures RequestKey(location, location + "/" + x + slashes, forGet) == Some(x)
  {
    var prefix, url := location + "/", location + "/" + x + slashes;
    var rest := x + slashes;
    assert url == prefix + rest && prefix <= url && url[|prefix|..] == rest;
    assert rest[..|x|] == x && rest[|x|..] == slashes;
    StripMeaning(rest);
    StrippedUnique(rest, x, StripSlashes(rest));
  }

  /** The library's search for a substring; -1 stands for npos. */
  method Find(s: string, pattern: string) returns (pos: int)
    ensures pos == -1 ==> forall i :: 0 <= i <= |s| ==> !(pattern <= s[i..])
    ensures pos >= 0 ==> pos <= |s| && pattern <= s[pos..] && forall i :: 0 <= i < pos ==> !(pattern <= s[i..])
    ensures pos >= -1
  {
    pos := 0;
    while pos <= |s|
      invariant 0 <= pos <= |s| + 1
      invariant forall i :: 0 <= i < pos ==> !(pattern <= s[i..])
    {
      if pattern <= s[pos..] {
        return;
      }
      pos := pos + 1;
    }
    pos := -1;
  }

  /** The check as the handlers run it. */
  method CheckRequestUrl(location: string, url: string, forGet: bool) returns (ok: bool, key: string)
    ensures ok <==> RequestKey(location, url, forGet).Some?
    ensures key == if ok then RequestKey(location, url, forGet).value else ""
  {
    var prefix := location + "/";
    var pos := Find(url, prefix);
    assert url[0..] == url;
    if pos != -1 && pos == 0 && |url| > |prefix| {
      key := url[|prefix|..];
      while |key| >= 1 && key[|key| - 1] == '/'
        invariant StripSlashes(key) == StripSlashes(url[|prefix|..])
      {
        key := key[..|key| - 1];
      }
      return true, key;
    } else if pos != -1 && pos == 0 && |url| == |prefix| && forGet {
      return true, "";
    } else if prefix == url + "/" {
      return true, "";
    }
    return false, "";
  }

  /** The search as a session runs it; `location` is left empty when nothing is found. */
  method SearchAddrBinding(routes: set<string>, url: string) returns (found: bool, location: string)
    ensures found <==> SearchBinding(routes, url).Some?
    ensures location == if found then SearchBinding(routes, url).value else ""
    decreases |url|
  {
    location := "";
    var pos := FindLast(url, '/');
    if pos != 0 && pos != -1 {
      var subUrl := url[..pos];
      if subUrl in routes {
        return true, subUrl;
      } else {
        found, location := SearchAddrBinding(routes, url[..pos]);
        return;
      }
    } else if pos == 0 && "/" in routes {
      return true, "/";
    }
    return false, "";
  }
}
