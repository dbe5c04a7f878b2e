/** On the flat namespace - entity names without slashes, ids in plain decimal - the handler's files,
    directories and index implement a map from entities to numbered entries. */
module CrudRefinement {
  import opened CxxStrings
  import opened CrudStore
  import opened CrudEffects

  // ---------- paths ----------

  /** One path component. */
  predicate IsName(e: string) {
    e != "" && '/' !in e && e != "." && e != ".."
  }

  /** The suffix of an entry. */
  function Key(e: string, n: int): string {
    e + "/" + ToString(n)
  }

  lemma NoSlashInDecimal(n: nat)
    ensures '/' !in ToDecimal(n)
  {
    DecimalDigits(n);
    assert forall i :: 0 <= i < |ToDecimal(n)| ==> IsDigit(ToDecimal(n)[i]);
  }

  /** An entry's suffix splits into its entity and its id. */
  lemma KeyParts(e: string, n: nat)
    ensures Entity(Key(e, n)) == e && IdName(Key(e, n)) == ToDecimal(n) && FindLast(Key(e, n), '/') == |e|
  {
    NoSlashInDecimal(n);
    FindLastAt(e, ToDecimal(n), '/');
    assert Key(e, n) == e + ['/'] + ToDecimal(n);
    assert Key(e, n)[..|e|] == e && Key(e, n)[|e| + 1..] == ToDecimal(n);
  }

  lemma NamePath(dir: string, e: string)
    requires '/' !in e
    ensures Parent(PathOf(dir, e)) == dir && Entity(e) == e && IdName(e) == e
  {
    ParentIs(dir, e);
    PartsAre(e, e, e);
  }

  lemma KeyPath(dir: string, e: string, n: nat)
    ensures PathOf(dir, e) + "/" + ToString(n) == PathOf(dir, Key(e, n))
    ensures Parent(PathOf(dir, Key(e, n))) == PathOf(dir, e)
  {
    NoSlashInDecimal(n);
    ParentIs(PathOf(dir, e), ToDecimal(n));
    assert PathOf(dir, e) + "/" + ToString(n) == PathOf(dir, Key(e, n));
  }

  lemma PathInjective(dir: string, x: string, y: string)
    requires PathOf(dir, x) == PathOf(dir, y)
    ensures x == y
  {
    assert PathOf(dir, x)[|dir| + 1..] == x && PathOf(dir, y)[|dir| + 1..] == y;
  }

  // ---------- files on disk, index and abstract store ----------

  /** `x` is the suffix of an entry that the index lists. */
  ghost predicate IsFileKey(index: map<string, seq<int>>, x: string) {
    exists e, n: nat :: e in index && n in index[e] && x == Key(e, n)
  }

  lemma KeyInjective(e: string, n: nat, f: string, m: nat)
    requires Key(e, n) == Key(f, m)
    ensures e == f && n == m
  {
    KeyParts(e, n);
    KeyParts(f, m);
    DecimalDigits(n);
    DecimalDigits(m);
  }

  lemma FileKeyOfKey(index: map<string, seq<int>>, e: string, n: nat)
    ensures IsFileKey(index, Key(e, n)) <==> e in index && n in index[e]
  {
    if IsFileKey(index, Key(e, n)) {
      var f, m: nat :| f in index && m in index[f] && Key(e, n) == Key(f, m);
      KeyInjective(e, n, f, m);
    }
  }

  lemma NameIsNoFileKey(index: map<string, seq<int>>, e: string)
    requires '/' !in e
    ensures !IsFileKey(index, e)
  {
    forall f, n: nat
      ensures e != Key(f, n)
    {
      assert Key(f, n)[|f|] == '/';
    }
  }

  /** Below `dir` the disk holds a directory for each key of the index and a file for each listed
      id, and nothing else. */
  ghost predicate Flat(st: Store, dir: string) {
    && dir in st.dirs && IndexOk(st.index)
    && (forall e :: e in st.index ==> IsName(e))
    && (forall x :: PathOf(dir, x) in st.dirs <==> x in st.index)
    && (forall x :: PathOf(dir, x) in st.files <==> IsFileKey(st.index, x))
  }

  type Abstract = map<string, map<int, string>>

  /** `a` has the entities of the index, with the listed ids and the contents on disk. */
  ghost predicate Shows(st: Store, dir: string, a: Abstract) {
    && a.Keys == st.index.Keys
    && (forall e :: e in a ==> forall n :: n in a[e] <==> n in st.index[e])
    && (forall e, n: nat :: e in a && n in a[e] ==>
          PathOf(dir, Key(e, n)) in st.files && a[e][n] == st.files[PathOf(dir, Key(e, n))])
  }

  /** Disk and index together stand for `a`. */
  ghost predicate Holds(st: Store, dir: string, a: Abstract) {
    Flat(st, dir) && Shows(st, dir, a)
  }

  lemma HoldsUnique(st: Store, dir: string, a: Abstract, b: Abstract)
    requires Holds(st, dir, a) && Holds(st, dir, b)
    ensures a == b
  {
    forall e | e in a
      ensures a[e] == b[e]
    {
      assert IsIdList(st.index[e]);
      forall n
        ensures n in a[e] <==> n in b[e]
        ensures n in a[e] ==> a[e][n] == b[e][n]
      {
        assert n in st.index[e] ==> n >= 0;
      }
    }
  }

  // ---------- the abstract store ----------

  datatype FlatRequest =
    | New(e: string, body: string) | List(e: string) | Read(e: string, n: nat) | Write(e: string, n: nat, body: string)
    | Remove(e: string, n: nat) | WriteEntity(e: string, body: string) | RemoveEntity(e: string)
    | NewBelow(e: string, n: nat, body: string)

  /** The name of `e` is no number that fits an int, or it is listed as an id of `e` itself. */
  predicate NameAddsNoId(index: map<string, seq<int>>, e: string) {
    !AllDigits(e) || Stoi(e).None? || (e in index && Stoi(e).value in index[e])
  }

  /** Ids fit an int; a PUT without an id must not add an id, see `EntityPutKeepsFlat`; a POST below a
      listed entity must meet an entry, see `PostBelowKeepsFlat`. */
  predicate InDomain(index: map<string, seq<int>>, r: FlatRequest) {
    && IsName(r.e)
    && ((r.Read? || r.Write? || r.Remove?) ==> r.n <= INT_MAX)
    && (r.WriteEntity? ==> NameAddsNoId(index, r.e))
    && (r.NewBelow? && r.e in index ==> r.n in index[r.e])
  }

  function ToRequest(r: FlatRequest): Request {
    match r
    case New(e, body) => Post(e, body)
    case List(e) => Get(e)
    case Read(e, n) => Get(Key(e, n))
    case Write(e, n, body) => Put(Key(e, n), body)
    case Remove(e, n) => Delete(Key(e, n))
    case WriteEntity(e, body) => Put(e, body)
    case RemoveEntity(e) => Delete(e)
    case NewBelow(e, n, body) => Post(Key(e, n), body)
  }

  function Entries(a: Abstract, e: string): map<int, string> {
    if e in a then a[e] else map[]
  }

  /** The least positive number that is not a key. */
  predicate IsFreshId(entries: map<int, string>, n: int) {
    n >= 1 && n !in entries && forall k :: 1 <= k < n ==> k in entries
  }

  /** `text` lists exactly the keys, in increasing order. */
  ghost predicate ListsKeys(text: string, entries: map<int, string>) {
    exists ids :: Increasing(ids) && (forall n :: n in ids <==> n in entries) && ListsIds(text, ids)
  }

  /** One request on a map of maps. */
  ghost predicate AbsStep(a: Abstract, r: FlatRequest, a': Abstract, reply: Reply) {
    match r
    case New(e, body) =>
      reply.Created? && IsFreshId(Entries(a, e), reply.id) && a' == a[e := Entries(a, e)[reply.id := body]]
    case List(e) =>
      a' == a && if e in a then reply.Listing? && ListsKeys(reply.text, a[e]) else reply == NotFound
    case Read(e, n) =>
      a' == a && reply == if n in Entries(a, e) then Content(Entries(a, e)[n]) else NotFound
    case Write(e, n, body) =>
      a' == a[e := Entries(a, e)[n := body]] && reply == if n in Entries(a, e) then Updated(n) else Created(n)
    case Remove(e, n) =>
      if n in Entries(a, e) then a' == a[e := a[e] - {n}] && reply == Deleted(e) else a' == a && reply == NotFound
    case WriteEntity(e, _) => a' == a && reply == if AllDigits(e) && Stoi(e).None? then Uncaught else NotFound
    case RemoveEntity(e) => a' == a && reply == if e in a then BadRequest else NotFound
    case NewBelow(_, _, _) => a' == a && reply == Unprocessable
  }

  /** Nothing outside `dir` changes. */
  ghost predicate SameOutside(st: Store, st': Store, dir: string) {
    forall p: string :: !(dir + "/" <= p) ==>
      && (p in st.dirs <==> p in st'.dirs)
      && (p in st.files <==> p in st'.files) && (p in st.files ==> st.files[p] == st'.files[p])
  }

  /** The step from `st` to `st'` with `reply` is, for the request `r`, the abstract store's step from `a` to `a'`. */
  ghost predicate Refines(st: Store, st': Store, dir: string, a: Abstract, r: FlatRequest, a': Abstract, reply: Reply) {
    Holds(st', dir, a') && SameOutside(st, st', dir) && AbsStep(a, r, a', reply)
  }

  // ---------- one entry more, one entry less ----------

  lemma FileKeyAdded(index: map<string, seq<int>>, e: string, n: nat, ids: seq<int>, x: string)
    requires forall y :: y in ids <==> y == n || (e in index && y in index[e])
    ensures IsFileKey(index[e := ids], x) <==> IsFileKey(index, x) || x == Key(e, n)
  {
    var index' := index[e := ids];
    if IsFileKey(index, x) {
      var f, m: nat :| f in index && m in index[f] && x == Key(f, m);
      assert f in index' && m in index'[f];
    }
    if x == Key(e, n) {
      assert e in index' && n in index'[e];
    }
    if IsFileKey(index', x) {
      var f, m: nat :| f in index' && m in index'[f] && x == Key(f, m);
      assert (f in index && m in index[f]) || (f == e && m == n);
    }
  }

  lemma FileKeyRemoved(index: map<string, seq<int>>, e: string, n: nat, ids: seq<int>, x: string)
    requires e in index && forall y :: y in ids <==> y in index[e] && y != n
    ensures IsFileKey(index[e := ids], x) <==> IsFileKey(index, x) && x != Key(e, n)
  {
    var index' := index[e := ids];
    if IsFileKey(index', x) {
      var f, m: nat :| f in index' && m in index'[f] && x == Key(f, m);
      assert f in index && m in index[f];
      if x == Key(e, n) {
        KeyInjective(e, n, f, m);
      }
    }
    if IsFileKey(index, x) && x != Key(e, n) {
      var f, m: nat :| f in index && m in index[f] && x == Key(f, m);
      assert f in index' && m in index'[f];
    }
  }

  /** The store after a file was written for an id that is now listed, its directory present. */
  function WithEntry(st: Store, dir: string, e: string, n: nat, ids: seq<int>, body: string): Store {
    Store(st.files[PathOf(dir, Key(e, n)) := body], st.dirs + {PathOf(dir, e)}, st.index[e := ids])
  }

  predicate ListsAlso(index: map<string, seq<int>>, e: string, n: nat, ids: seq<int>) {
    IsIdList(ids) && n in ids && (e in index ==> forall y :: y in index[e] ==> y in ids)
      && forall y :: y in ids ==> y == n || (e in index && y in index[e])
  }

  lemma AddFiles(st: Store, dir: string, e: string, n: nat, ids: seq<int>, body: string, x: string)
    requires Flat(st, dir) && ListsAlso(st.index, e, n, ids)
    ensures var st' := WithEntry(st, dir, e, n, ids, body); PathOf(dir, x) in st'.files <==> IsFileKey(st'.index, x)
  {
    FileKeyAdded(st.index, e, n, ids, x);
    if PathOf(dir, x) == PathOf(dir, Key(e, n)) {
      PathInjective(dir, x, Key(e, n));
    }
  }

  lemma AddDirs(st: Store, dir: string, e: string, n: nat, ids: seq<int>, body: string, x: string)
    requires Flat(st, dir)
    ensures var st' := WithEntry(st, dir, e, n, ids, body); PathOf(dir, x) in st'.dirs <==> x in st'.index
  {
    if PathOf(dir, x) == PathOf(dir, e) {
      PathInjective(dir, x, e);
    }
  }

  lemma AddOutside(st: Store, dir: string, e: string, n: nat, ids: seq<int>, body: string)
    ensures SameOutside(st, WithEntry(st, dir, e, n, ids, body), dir)
  {
    assert dir + "/" <= PathOf(dir, Key(e, n)) && dir + "/" <= PathOf(dir, e);
  }

  lemma AddFlat(st: Store, dir: string, e: string, n: nat, ids: seq<int>, body: string)
    requires Flat(st, dir) && IsName(e) && ListsAlso(st.index, e, n, ids)
    ensures var st' := WithEntry(st, dir, e, n, ids, body); Flat(st', dir) && SameOutside(st, st', dir)
  {
    var st' := WithEntry(st, dir, e, n, ids, body);
    forall x
      ensures PathOf(dir, x) in st'.files <==> IsFileKey(st'.index, x)
      ensures PathOf(dir, x) in st'.dirs <==> x in st'.index
    {
      AddFiles(st, dir, e, n, ids, body, x);
      AddDirs(st, dir, e, n, ids, body, x);
    }
    AddOutside(st, dir, e, n, ids, body);
  }

  lemma AddShows(st: Store, dir: string, a: Abstract, e: string, n: nat, ids: seq<int>, body: string)
    requires Shows(st, dir, a) && ListsAlso(st.index, e, n, ids)
    ensures Shows(WithEntry(st, dir, e, n, ids, body), dir, a[e := Entries(a, e)[n := body]])
  {
    var st', a' := WithEntry(st, dir, e, n, ids, body), a[e := Entries(a, e)[n := body]];
    forall f, m: nat | f in a' && m in a'[f]
      ensures PathOf(dir, Key(f, m)) in st'.files && a'[f][m] == st'.files[PathOf(dir, Key(f, m))]
    {
      if PathOf(dir, Key(f, m)) == PathOf(dir, Key(e, n)) {
        PathInjective(dir, Key(f, m), Key(e, n));
        KeyInjective(f, m, e, n);
      }
    }
  }

  function WithoutEntry(st: Store, dir: string, e: string, n: nat, ids: seq<int>): Store {
    st.(files := st.files - {PathOf(dir, Key(e, n))}, index := st.index[e := ids])
  }

  lemma RemoveFlat(st: Store, dir: string, e: string, n: nat, ids: seq<int>)
    requires Flat(st, dir) && e in st.index && IsIdList(ids)
    requires forall y :: y in ids <==> y in st.index[e] && y != n
    ensures var st' := WithoutEntry(st, dir, e, n, ids); Flat(st', dir) && SameOutside(st, st', dir)
  {
    var st' := WithoutEntry(st, dir, e, n, ids);
    forall x
      ensures PathOf(dir, x) in st'.files <==> IsFileKey(st'.index, x)
    {
      FileKeyRemoved(st.index, e, n, ids, x);
      if PathOf(dir, x) == PathOf(dir, Key(e, n)) {
        PathInjective(dir, x, Key(e, n));
      }
    }
    assert SameOutside(st, st', dir) by {
      assert dir + "/" <= PathOf(dir, Key(e, n));
    }
  }

  lemma RemoveShows(st: Store, dir: string, a: Abstract, e: string, n: nat, ids: seq<int>)
    requires Shows(st, dir, a) && e in a
    requires forall y :: y in ids <==> y in st.index[e] && y != n
    ensures Shows(WithoutEntry(st, dir, e, n, ids), dir, a[e := a[e] - {n}])
  {
    var st', a' := WithoutEntry(st, dir, e, n, ids), a[e := a[e] - {n}];
    forall f, m: nat | f in a' && m in a'[f]
      ensures PathOf(dir, Key(f, m)) in st'.files && a'[f][m] == st'.files[PathOf(dir, Key(f, m))]
    {
      assert m in a[f];
      if PathOf(dir, Key(f, m)) == PathOf(dir, Key(e, n)) {
        PathInjective(dir, Key(f, m), Key(e, n));
        KeyInjective(f, m, e, n);
      }
    }
  }

  // ---------- the requests ----------

  lemma DirAndFile(st: Store, dir: string, e: string, n: nat)
    requires Flat(st, dir) && IsName(e)
    ensures PathOf(dir, e) !in st.files && PathOf(dir, Key(e, n)) !in st.dirs
    ensures PathOf(dir, e) in st.dirs <==> e in st.index
    ensures PathOf(dir, Key(e, n)) in st.files <==> e in st.index && n in st.index[e]
  {
    FileKeyOfKey(st.index, e, n);
    NameIsNoFileKey(st.index, e);
    assert Key(e, n)[|e|] == '/';
  }

  /** The points of the disk that a request for entry `n` of `e` looks at. */
  predicate Site(st: Store, dir: string, e: string, n: nat) {
    && PathOf(dir, e) !in st.files && dir in st.dirs && Parent(PathOf(dir, e)) == dir
    && PathOf(dir, Key(e, n)) !in st.dirs && PathOf(dir, Key(e, n)) != PathOf(dir, e)
    && Parent(PathOf(dir, Key(e, n))) == PathOf(dir, e)
    && (PathOf(dir, e) in st.dirs <==> e in st.index)
  }

  lemma FlatSite(st: Store, dir: string, e: string, n: nat)
    requires Flat(st, dir) && IsName(e)
    ensures Site(st, dir, e, n)
  {
    DirAndFile(st, dir, e, n);
    NamePath(dir, e);
    KeyPath(dir, e, n);
    assert PathOf(dir, Key(e, n)) != PathOf(dir, e) by {
      assert |Key(e, n)| > |e|;
    }
  }

  lemma SiteWrite(st: Store, dir: string, e: string, n: nat, ids: seq<int>, body: string)
    requires Site(st, dir, e, n)
    ensures CreateDir(st, PathOf(dir, e)) == Some(st.(dirs := st.dirs + {PathOf(dir, e)}))
    ensures e in st.index ==> st.dirs + {PathOf(dir, e)} == st.dirs
    ensures var st1 := Store(st.files, st.dirs + {PathOf(dir, e)}, st.index[e := ids]);
            WriteFile(st1, PathOf(dir, Key(e, n)), body) == Some(WithEntry(st, dir, e, n, ids, body))
  {
    assert PathOf(dir, e) in st.dirs ==> st.dirs + {PathOf(dir, e)} == st.dirs;
  }

  lemma PostEvaluates(st: Store, dir: string, e: string, id: nat, index: map<string, seq<int>>, body: string)
    requires (id, index) == NextId(st.index, e) && e in index && index == st.index[e := index[e]]
    requires Site(st, dir, e, id)
    ensures HandlePost(st, dir, e, body) == (WithEntry(st, dir, e, id, index[e], body), Created(id))
  {
    SiteWrite(st, dir, e, id, index[e], body);
    KeyPath(dir, e, id);
  }

  /** What the handler leaves behind for a new entry. */
  lemma PostResult(st: Store, dir: string, e: string, body: string)
    requires Flat(st, dir) && IsName(e)
    ensures var (id, index) := NextId(st.index, e);
            && id >= 1 && e in index && ListsAlso(st.index, e, id, index[e])
            && IsLeastFree(if e in st.index then st.index[e] else [], id)
            && HandlePost(st, dir, e, body) == (WithEntry(st, dir, e, id, index[e], body), Created(id))
  {
    var (id, index) := NextId(st.index, e);
    NextIdKeepsIndex(st.index, e);
    FlatSite(st, dir, e, id);
    PostEvaluates(st, dir, e, id, index, body);
  }

  lemma PutEntryEvaluates(st: Store, dir: string, e: string, n: nat, ids: seq<int>, body: string)
    requires Site(st, dir, e, n)
    requires ids == if e !in st.index then [n] else if n in st.index[e] then st.index[e] else Insert(st.index[e], n)
    ensures PutEntry(st, dir, e, n, PathOf(dir, Key(e, n)), body) ==
            (WithEntry(st, dir, e, n, ids, body), if e in st.index && n in st.index[e] then Updated(n) else Created(n))
  {
    SiteWrite(st, dir, e, n, ids, body);
    assert e in st.index && n in st.index[e] ==> st.index[e := ids] == st.index;
  }

  lemma PutIsPutEntry(st: Store, dir: string, e: string, n: nat, body: string)
    requires n <= INT_MAX
    ensures HandlePut(st, dir, Key(e, n), body) == PutEntry(st, dir, e, n, PathOf(dir, Key(e, n)), body)
  {
    KeyParts(e, n);
    StoiOfDecimal(n);
    DecimalDigits(n);
  }

  /** What the handler leaves behind for a numbered entry. */
  lemma PutResult(st: Store, dir: string, e: string, n: nat, body: string) returns (ids: seq<int>)
    requires Flat(st, dir) && IsName(e) && n <= INT_MAX
    ensures ListsAlso(st.index, e, n, ids)
    ensures HandlePut(st, dir, Key(e, n), body) ==
            (WithEntry(st, dir, e, n, ids, body), if e in st.index && n in st.index[e] then Updated(n) else Created(n))
  {
    ids := if e !in st.index then [n] else if n in st.index[e] then st.index[e] else Insert(st.index[e], n);
    if e in st.index && n !in st.index[e] {
      InsertKeepsList(st.index[e], n);
    }
    FlatSite(st, dir, e, n);
    PutIsPutEntry(st, dir, e, n, body);
    PutEntryEvaluates(st, dir, e, n, ids, body);
  }

  lemma FreshIdShown(st: Store, dir: string, a: Abstract, e: string, id: int)
    requires Shows(st, dir, a) && IsLeastFree(if e in st.index then st.index[e] else [], id)
    ensures IsFreshId(Entries(a, e), id)
  {
    var ids := if e in st.index then st.index[e] else [];
    forall k | 1 <= k < id
      ensures k in Entries(a, e)
    {
      assert k in ids;
      assert ids != [];
    }
  }

  lemma NewRefines(st: Store, dir: string, a: Abstract, e: string, body: string, id: nat, ids: seq<int>)
    requires Holds(st, dir, a) && IsName(e) && ListsAlso(st.index, e, id, ids)
    requires IsLeastFree(if e in st.index then st.index[e] else [], id)
    ensures Refines(st, WithEntry(st, dir, e, id, ids, body), dir, a, New(e, body),
                    a[e := Entries(a, e)[id := body]], Created(id))
  {
    AddFlat(st, dir, e, id, ids, body);
    AddShows(st, dir, a, e, id, ids, body);
    FreshIdShown(st, dir, a, e, id);
  }

  lemma WriteRefines(st: Store, dir: string, a: Abstract, e: string, n: nat, body: string, ids: seq<int>)
    requires Holds(st, dir, a) && IsName(e) && ListsAlso(st.index, e, n, ids)
    ensures Refines(st, WithEntry(st, dir, e, n, ids, body), dir, a, Write(e, n, body),
                    a[e := Entries(a, e)[n := body]], if e in st.index
                        && n in st.index[e] then Updated(n) else Created(n))
  {
    AddFlat(st, dir, e, n, ids, body);
    AddShows(st, dir, a, e, n, ids, body);
  }

  lemma DeleteResult(st: Store, dir: string, e: string, n: nat) returns (ids: seq<int>)
    requires Flat(st, dir) && IsName(e) && n <= INT_MAX
    ensures if e in st.index && n in st.index[e] then
              && IsIdList(ids) && (forall y :: y in ids <==> y in st.index[e] && y != n)
              && HandleDelete(st, dir, Key(e, n)) == (WithoutEntry(st, dir, e, n, ids), Deleted(e))
            else HandleDelete(st, dir, Key(e, n)) == (st, NotFound)
  {
    KeyParts(e, n);
    StoiOfDecimal(n);
    DirAndFile(st, dir, e, n);
    ids := [];
    if e in st.index && n in st.index[e] {
      ids := Without(st.index[e], n);
      WithoutKeepsList(st.index[e], n);
    }
  }

  lemma RemoveRefines(st: Store, dir: string, a: Abstract, e: string, n: nat, ids: seq<int>)
    requires Holds(st, dir, a) && e in st.index && n in st.index[e]
    requires IsIdList(ids) && forall y :: y in ids <==> y in st.index[e] && y != n
    ensures Refines(st, WithoutEntry(st, dir, e, n, ids), dir, a, Remove(e, n), a[e := a[e] - {n}], Deleted(e))
  {
    RemoveFlat(st, dir, e, n, ids);
    RemoveShows(st, dir, a, e, n, ids);
  }

  lemma ListResult(st: Store, dir: string, a: Abstract, e: string)
    requires Holds(st, dir, a) && IsName(e)
    ensures HandleGet(st, dir, e) == (st, if e in a then Listing(ListingText(st.index[e])) else NotFound)
    ensures e in a ==> ListsKeys(ListingText(st.index[e]), a[e])
  {
    DirAndFile(st, dir, e, 0);
    if e in st.index {
      assert st.index[e := st.index[e]] == st.index;
      assert IsIdList(st.index[e]);
      ListingReads(st.index[e]);
    }
  }

  lemma ReadResult(st: Store, dir: string, a: Abstract, e: string, n: nat)
    requires Holds(st, dir, a) && IsName(e)
    ensures HandleGet(st, dir, Key(e, n)) == (st, if n in Entries(a, e) then Content(Entries(a, e)[n]) else NotFound)
  {
    DirAndFile(st, dir, e, n);
  }

  lemma EntityDelete(st: Store, dir: string, e: string)
    requires Flat(st, dir) && IsName(e)
    ensures HandleDelete(st, dir, e) == (st, if e in st.index then BadRequest else NotFound)
  {
    DirAndFile(st, dir, e, 0);
    NamePath(dir, e);
  }

  /** A PUT on a bare name takes a number for the id as well as for the entity. */
  lemma NumberPut(st: Store, dir: string, e: string, id: int, body: string)
    requires IsName(e) && AllDigits(e) && Stoi(e) == Some(id)
    ensures HandlePut(st, dir, e, body) == PutEntry(st, dir, e, id, PathOf(dir, e), body)
  {
    NamePath(dir, e);
  }

  lemma ListedNumberPut(st: Store, dir: string, e: string, id: int, body: string)
    requires Flat(st, dir) && IsName(e) && e in st.index && id in st.index[e]
    ensures PutEntry(st, dir, e, id, PathOf(dir, e), body) == (st, NotFound)
  {
    DirAndFile(st, dir, e, 0);
  }

  lemma EntityPut(st: Store, dir: string, e: string, body: string)
    requires Flat(st, dir) && IsName(e) && NameAddsNoId(st.index, e)
    ensures HandlePut(st, dir, e, body) == (st, if AllDigits(e) && Stoi(e).None? then Uncaught else NotFound)
  {
    if AllDigits(e) && Stoi(e).Some? {
      NumberPut(st, dir, e, Stoi(e).value, body);
      ListedNumberPut(st, dir, e, Stoi(e).value, body);
    } else {
      NamePath(dir, e);
    }
  }

  /** A request that changes nothing. */
  lemma Unchanged(st: Store, dir: string, a: Abstract, r: FlatRequest, reply: Reply)
    requires Holds(st, dir, a) && AbsStep(a, r, a, reply)
    ensures Refines(st, st, dir, a, r, a, reply)
  {
  }

  lemma PostRefines(st: Store, dir: string, a: Abstract, e: string, body: string, st': Store, reply: Reply)
    returns (a': Abstract)
    requires Holds(st, dir, a) && IsName(e) && (st', reply) == HandlePost(st, dir, e, body)
    ensures Refines(st, st', dir, a, New(e, body), a', reply)
  {
    var (id, index) := NextId(st.index, e);
    PostResult(st, dir, e, body);
    NewRefines(st, dir, a, e, body, id, index[e]);
    a' := a[e := Entries(a, e)[id := body]];
  }

  lemma PutRefines(st: Store, dir: string, a: Abstract, e: string, n: nat, body: string, st': Store, reply: Reply)
    returns (a': Abstract)
    requires Holds(st, dir, a) && IsName(e) && n <= INT_MAX && (st', reply) == HandlePut(st, dir, Key(e, n), body)
    ensures Refines(st, st', dir, a, Write(e, n, body), a', reply)
  {
    var ids := PutResult(st, dir, e, n, body);
    WriteRefines(st, dir, a, e, n, body, ids);
    a' := a[e := Entries(a, e)[n := body]];
  }

  lemma DeleteRefines(st: Store, dir: string, a: Abstract, e: string, n: nat, st': Store, reply: Reply)
    returns (a': Abstract)
    requires Holds(st, dir, a) && IsName(e) && n <= INT_MAX && (st', reply) == HandleDelete(st, dir, Key(e, n))
    ensures Refines(st, st', dir, a, Remove(e, n), a', reply)
  {
    var ids := DeleteResult(st, dir, e, n);
    a' := a;
    if e in st.index && n in st.index[e] {
      RemoveRefines(st, dir, a, e, n, ids);
      a' := a[e := a[e] - {n}];
    } else {
      Unchanged(st, dir, a, Remove(e, n), NotFound);
    }
  }

  lemma ListRefines(st: Store, dir: string, a: Abstract, e: string, st': Store, reply: Reply)
    requires Holds(st, dir, a) && IsName(e) && (st', reply) == HandleGet(st, dir, e)
    ensures Refines(st, st', dir, a, List(e), a, reply)
  {
    ListResult(st, dir, a, e);
    Unchanged(st, dir, a, List(e), reply);
  }

  lemma ReadRefines(st: Store, dir: string, a: Abstract, e: string, n: nat, st': Store, reply: Reply)
    requires Holds(st, dir, a) && IsName(e) && (st', reply) == HandleGet(st, dir, Key(e, n))
    ensures Refines(st, st', dir, a, Read(e, n), a, reply)
  {
    ReadResult(st, dir, a, e, n);
    Unchanged(st, dir, a, Read(e, n), reply);
  }

  lemma EntityDeleteRefines(st: Store, dir: string, a: Abstract, e: string, st': Store, reply: Reply)
    requires Holds(st, dir, a) && IsName(e) && (st', reply) == HandleDelete(st, dir, e)
    ensures Refines(st, st', dir, a, RemoveEntity(e), a, reply)
  {
    EntityDelete(st, dir, e);
    Unchanged(st, dir, a, RemoveEntity(e), reply);
  }

  lemma EntityPutRefines(st: Store, dir: string, a: Abstract, e: string, body: string, st': Store, reply: Reply)
    requires Holds(st, dir, a) && IsName(e) && NameAddsNoId(st.index, e) && (st', reply) == HandlePut(st, dir, e, body)
    ensures Refines(st, st', dir, a, WriteEntity(e, body), a, reply)
  {
    EntityPut(st, dir, e, body);
    Unchanged(st, dir, a, WriteEntity(e, body), reply);
  }

  /** There is no place for a directory with the name of an entry, or below an entity that is not there. */
  lemma PostBelow(st: Store, dir: string, e: string, n: nat, body: string)
    requires Flat(st, dir) && IsName(e) && (e in st.index ==> n in st.index[e])
    ensures HandlePost(st, dir, Key(e, n), body) == (st, Unprocessable)
  {
    DirAndFile(st, dir, e, n);
    KeyPath(dir, e, n);
    SlashedIsNoName(e, ToString(n));
    PostRefused(st, dir, Key(e, n), body);
  }

  lemma PostBelowRefines(st: Store, dir: string, a: Abstract, e: string, n: nat, body: string, st': Store, reply: Reply)
    requires Holds(st, dir, a) && IsName(e) && (e in st.index ==> n in st.index[e])
    requires (st', reply) == HandlePost(st, dir, Key(e, n), body)
    ensures Refines(st, st', dir, a, NewBelow(e, n, body), a, reply)
  {
    PostBelow(st, dir, e, n, body);
    Unchanged(st, dir, a, NewBelow(e, n, body), reply);
  }

  lemma ReadingRefines(st: Store, dir: string, a: Abstract, r: FlatRequest, st': Store, reply: Reply)
    requires Holds(st, dir, a) && InDomain(st.index, r) && !r.New? && !r.Write? && !r.Remove?
    requires (st', reply) == Handle(st, dir, ToRequest(r))
    ensures Refines(st, st', dir, a, r, a, reply)
  {
    match r
    case List(e) => ListRefines(st, dir, a, e, st', reply);
    case Read(e, n) => ReadRefines(st, dir, a, e, n, st', reply);
    case WriteEntity(e, body) => EntityPutRefines(st, dir, a, e, body, st', reply);
    case RemoveEntity(e) => EntityDeleteRefines(st, dir, a, e, st', reply);
    case NewBelow(e, n, body) => PostBelowRefines(st, dir, a, e, n, body, st', reply);
  }

  /** Every flat request keeps disk and index in step and answers like the map of maps. */
  lemma StepRefines(st: Store, dir: string, a: Abstract, r: FlatRequest, st': Store, reply: Reply)
    returns (a': Abstract)
    requires Holds(st, dir, a) && InDomain(st.index, r) && (st', reply) == Handle(st, dir, ToRequest(r))
    ensures Refines(st, st', dir, a, r, a', reply)
  {
    match r
    case New(e, body) => a' := PostRefines(st, dir, a, e, body, st', reply);
    case Write(e, n, body) => a' := PutRefines(st, dir, a, e, n, body, st', reply);
    case Remove(e, n) => a' := DeleteRefines(st, dir, a, e, n, st', reply);
    case _ =>
      ReadingRefines(st, dir, a, r, st', reply);
      a' := a;
  }

  // ---------- runs ----------

  function ToRequests(rs: seq<FlatRequest>): (qs: seq<Request>)
    ensures |qs| == |rs|
  {
    if rs == [] then [] else ToRequests(rs[..|rs| - 1]) + [ToRequest(rs[|rs| - 1])]
  }

  /** A run of the abstract store: the states it goes through, the requests and the replies. */
  ghost predicate AbsRun(states: seq<Abstract>, rs: seq<FlatRequest>, replies: seq<Reply>) {
    && |states| == |rs| + 1 && |replies| == |rs|
    && forall i :: 0 <= i < |rs| ==> AbsStep(states[i], rs[i], states[i + 1], replies[i])
  }

  lemma ExtendRun(states: seq<Abstract>, rs: seq<FlatRequest>, replies: seq<Reply>, r: FlatRequest, a: Abstract,
                  reply: Reply)
    requires AbsRun(states, rs, replies) && AbsStep(states[|rs|], r, a, reply)
    ensures AbsRun(states + [a], rs + [r], replies + [reply])
  {
    var states', rs', replies' := states + [a], rs + [r], replies + [reply];
    forall i | 0 <= i < |rs'|
      ensures AbsStep(states'[i], rs'[i], states'[i + 1], replies'[i])
    {
      if i < |rs| {
        assert AbsStep(states[i], rs[i], states[i + 1], replies[i]);
        assert states'[i] == states[i] && states'[i + 1] == states[i + 1];
      }
    }
  }

  lemma OneRequestMore(st: Store, dir: string, front: seq<FlatRequest>, r: FlatRequest)
    ensures var (st1, replies) := HandleAll(st, dir, ToRequests(front));
            var (st2, reply) := Handle(st1, dir, ToRequest(r));
            HandleAll(st, dir, ToRequests(front + [r])) == (st2, replies + [reply])
  {
    var rs := front + [r];
    assert rs[..|rs| - 1] == front;
    var qs := ToRequests(rs);
    assert qs == ToRequests(front) + [ToRequest(r)];
    assert qs[..|qs| - 1] == ToRequests(front);
  }

  /** Every request of the run is in the domain of the state that it meets. */
  ghost predicate RunInDomain(st: Store, dir: string, rs: seq<FlatRequest>) {
    if rs == [] then true else
      var front := rs[..|rs| - 1];
      RunInDomain(st, dir, front) && InDomain(HandleAll(st, dir, ToRequests(front)).0.index, rs[|rs| - 1])
  }

  lemma DomainOfFront(st: Store, dir: string, front: seq<FlatRequest>, r: FlatRequest)
    requires RunInDomain(st, dir, front + [r])
    ensures RunInDomain(st, dir, front) && InDomain(HandleAll(st, dir, ToRequests(front)).0.index, r)
  {
    var rs := front + [r];
    assert rs[..|rs| - 1] == front && rs[|rs| - 1] == r;
  }

  /** What a run of the handler from `st` comes to, next to a run of the abstract store from `a`. */
  ghost predicate RunHolds(st: Store, dir: string, a: Abstract, states: seq<Abstract>, rs: seq<FlatRequest>) {
    var (st', replies) := HandleAll(st, dir, ToRequests(rs));
    AbsRun(states, rs, replies) && states[0] == a && Holds(st', dir, states[|rs|])
  }

  lemma NoRequests(st: Store, dir: string, a: Abstract)
    requires Holds(st, dir, a)
    ensures RunHolds(st, dir, a, [a], [])
  {
  }

  /** Whatever flat requests come in whatever order: files and directories are exactly those the index
      lists, and the replies are those of the abstract store. */
  lemma {:induction false} RunRefines(st: Store, dir: string, a: Abstract, rs: seq<FlatRequest>)
    returns (states: seq<Abstract>)
    requires Holds(st, dir, a) && RunInDomain(st, dir, rs)
    ensures RunHolds(st, dir, a, states, rs)
    decreases |rs|, 0
  {
    if rs == [] {
      states := [a];
      NoRequests(st, dir, a);
    } else {
      assert rs[..|rs| - 1] + [rs[|rs| - 1]] == rs;
      states := ExtendedRefines(st, dir, a, rs[..|rs| - 1], rs[|rs| - 1]);
    }
  }

  lemma {:induction false} ExtendedRefines(st: Store, dir: string, a: Abstract, rs: seq<FlatRequest>, r: FlatRequest)
    returns (states: seq<Abstract>)
    requires Holds(st, dir, a) && RunInDomain(st, dir, rs + [r])
    ensures RunHolds(st, dir, a, states, rs + [r])
    decreases |rs|, 1
  {
    DomainOfFront(st, dir, rs, r);
    states := RunRefines(st, dir, a, rs);
    states := RefineOneMore(st, dir, a, states, rs, r);
  }

  lemma ExtendHolds(st: Store, dir: string, a: Abstract, states: seq<Abstract>, rs: seq<FlatRequest>,
                    replies: seq<Reply>,
                    r: FlatRequest, a': Abstract, st': Store, reply: Reply)
    requires AbsRun(states, rs, replies) && states[0] == a
    requires AbsStep(states[|rs|], r, a', reply) && Holds(st', dir, a')
    requires HandleAll(st, dir, ToRequests(rs + [r])) == (st', replies + [reply])
    ensures RunHolds(st, dir, a, states + [a'], rs + [r])
  {
    ExtendRun(states, rs, replies, r, a', reply);
    assert (states + [a'])[|rs + [r]|] == a';
  }

  lemma RefineOneMore(st: Store, dir: string, a: Abstract, states: seq<Abstract>, rs: seq<FlatRequest>, r: FlatRequest)
    returns (states': seq<Abstract>)
    requires InDomain(HandleAll(st, dir, ToRequests(rs)).0.index, r) && RunHolds(st, dir, a, states, rs)
    ensures RunHolds(st, dir, a, states', rs + [r])
  {
    var (st1, replies) := HandleAll(st, dir, ToRequests(rs));
    var (st2, reply) := Handle(st1, dir, ToRequest(r));
    var a2 := StepRefines(st1, dir, states[|rs|], r, st2, reply);
    OneRequestMore(st, dir, rs, r);
    ExtendHolds(st, dir, a, states, rs, replies, r, a2, st2, reply);
    states' := states + [a2];
  }

  /** The starting point: an empty root directory and an empty index. */
  lemma EmptyHolds(st: Store, dir: string)
    requires dir in st.dirs && st.index == map[]
    requires forall x :: PathOf(dir, x) !in st.dirs && PathOf(dir, x) !in st.files
    ensures Holds(st, dir, map[])
  {
  }

  // ---------- the edge of the domain ----------

  /** A PUT on a bare name made of digits takes the name for an id as well: where that id is new, the
      request is refused, and yet it leaves an index entry without a file. */
  lemma DigitNameBreaksIndex(st: Store, dir: string, e: string, body: string)
    requires Flat(st, dir) && IsName(e) && !NameAddsNoId(st.index, e)
    ensures var (st', reply) := HandlePut(st, dir, e, body);
            && reply == NotFound && !Flat(st', dir)
            && e in st'.index && Stoi(e).value in st'.index[e]
  {
    var id := Stoi(e).value;
    StoiOfDigits(e);
    NumberPut(st, dir, e, id, body);
    var ids := if e in st.index then Insert(st.index[e], id) else [id];
    if e in st.index {
      InsertKeepsList(st.index[e], id);
    }
    NewNumberPut(st, dir, e, id, ids, body);
    FlatUnlisted(st, dir, e, id);
    IndexedButMissing(PutEntry(st, dir, e, id, PathOf(dir, e), body).0, dir, e, id);
  }

  lemma NewNumberPut(st: Store, dir: string, e: string, id: nat, ids: seq<int>, body: string)
    requires Flat(st, dir) && IsName(e) && (e in st.index ==> id !in st.index[e])
    requires ids == if e in st.index then Insert(st.index[e], id) else [id]
    ensures PutEntry(st, dir, e, id, PathOf(dir, e), body) ==
            (Store(st.files, st.dirs + {PathOf(dir, e)}, st.index[e := ids]), NotFound)
  {
    FlatSite(st, dir, e, id);
    SiteWrite(st, dir, e, id, ids, body);
  }

  lemma FlatUnlisted(st: Store, dir: string, e: string, n: nat)
    requires Flat(st, dir) && IsName(e) && (e !in st.index || n !in st.index[e])
    ensures PathOf(dir, Key(e, n)) !in st.files
  {
    FileKeyOfKey(st.index, e, n);
  }

  lemma IndexedButMissing(st: Store, dir: string, e: string, n: nat)
    requires e in st.index && n in st.index[e] && PathOf(dir, Key(e, n)) !in st.files
    ensures !Flat(st, dir)
  {
    FileKeyOfKey(st.index, e, n);
  }

  /** Exactly such names do: whatever is listed, a PUT without an id keeps disk and index in step if
      and only if the name is no number that fits an int, or that number is an id of this entity. */
  lemma EntityPutKeepsFlat(st: Store, dir: string, e: string, body: string)
    requires Flat(st, dir) && IsName(e)
    ensures Flat(HandlePut(st, dir, e, body).0, dir) <==> NameAddsNoId(st.index, e)
  {
    if NameAddsNoId(st.index, e) {
      EntityPut(st, dir, e, body);
    } else {
      DigitNameBreaksIndex(st, dir, e, body);
    }
  }

  lemma SuffixParts(dir: string, e: string, name: string)
    requires '/' !in name
    ensures Entity(e + "/" + name) == e && IdName(e + "/" + name) == name
    ensures Parent(PathOf(dir, e + "/" + name)) == PathOf(dir, e)
  {
    PartsAre(e + "/" + name, e, name);
    ParentIs(PathOf(dir, e), name);
    assert PathOf(dir, e + "/" + name) == PathOf(dir, e) + "/" + name;
  }

  lemma NoSlashInDigits(name: string)
    requires AllDigits(name)
    ensures '/' !in name
  {
    assert forall i :: 0 <= i < |name| ==> IsDigit(name[i]);
  }

  lemma NonCanonicalFile(st: Store, dir: string, e: string, name: string, id: int, body: string)
    requires Site(st, dir, e, 0)
    requires Parent(PathOf(dir, e + "/" + name)) == PathOf(dir, e)
    requires PathOf(dir, e + "/" + name) !in st.dirs && PathOf(dir, e + "/" + name) != PathOf(dir, e)
    ensures PathOf(dir, e + "/" + name) in PutEntry(st, dir, e, id, PathOf(dir, e + "/" + name), body).0.files
  {
    SiteWrite(st, dir, e, 0, [id], body);
  }

  lemma NonCanonicalIsNoKey(index: map<string, seq<int>>, e: string, name: string)
    requires '/' !in name && name != "" && AllDigits(name) && name != ToString(DecimalValue(name))
    ensures !IsFileKey(index, e + "/" + name)
  {
    forall f, m: nat
      ensures e + "/" + name != Key(f, m)
    {
      if e + "/" + name == Key(f, m) {
        KeyParts(f, m);
        DecimalDigits(m);
        SuffixParts("", e, name);
      }
    }
  }

  lemma PutOfDigits(st: Store, dir: string, x: string, e: string, name: string, id: int, body: string)
    requires Entity(x) == e && IdName(x) == name && name != "" && AllDigits(name) && Stoi(name) == Some(id)
    ensures HandlePut(st, dir, x, body) == PutEntry(st, dir, e, id, PathOf(dir, x), body)
  {
  }

  lemma StrayFile(st: Store, dir: string, x: string)
    requires PathOf(dir, x) in st.files && !IsFileKey(st.index, x)
    ensures !Flat(st, dir)
  {
  }

  lemma SlashedIsNoName(e: string, name: string)
    ensures !IsName(e + "/" + name)
  {
    var x := e + "/" + name;
    assert x[|e|] == '/';
  }

  lemma SlashedIsNoDir(st: Store, dir: string, e: string, name: string)
    requires Flat(st, dir)
    ensures PathOf(dir, e + "/" + name) !in st.dirs
  {
    SlashedIsNoName(e, name);
  }

  lemma LongerPath(dir: string, e: string, x: string)
    requires |x| > |e|
    ensures PathOf(dir, x) != PathOf(dir, e)
  {
    assert |PathOf(dir, x)| == |dir| + 1 + |x|;
  }

  lemma PutOfOtherName(st: Store, dir: string, e: string, name: string, id: int, body: string)
    requires Flat(st, dir) && IsName(e) && name != "" && AllDigits(name) && Stoi(name) == Some(id)
    requires id == DecimalValue(name) && name != ToString(id)
    ensures !Flat(HandlePut(st, dir, e + "/" + name, body).0, dir)
  {
    var x := e + "/" + name;
    NoSlashInDigits(name);
    SuffixParts(dir, e, name);
    PutOfDigits(st, dir, x, e, name, id, body);
    FlatSite(st, dir, e, 0);
    SlashedIsNoDir(st, dir, e, name);
    LongerPath(dir, e, x);
    NonCanonicalFile(st, dir, e, name, id, body);
    var st' := PutEntry(st, dir, e, id, PathOf(dir, x), body).0;
    NonCanonicalIsNoKey(st'.index, e, name);
    StrayFile(st', dir, x);
  }

  lemma PutOfNoNumber(st: Store, dir: string, e: string, name: string, body: string)
    requires '/' !in name && (name == "" || !AllDigits(name) || Stoi(name).None?)
    ensures HandlePut(st, dir, e + "/" + name, body).0 == st
  {
    SuffixParts(dir, e, name);
  }

  lemma PutOfNumber(st: Store, dir: string, e: string, name: string, body: string)
    requires Flat(st, dir) && IsName(e) && name != "" && AllDigits(name) && Stoi(name).Some?
    ensures Flat(HandlePut(st, dir, e + "/" + name, body).0, dir) <==> name == ToString(Stoi(name).value)
  {
    var id := Stoi(name).value;
    assert id == DecimalValue(name) by {
      StoiOfDigits(name);
    }
    if name == ToString(id) {
      var ids := PutResult(st, dir, e, id, body);
      AddFlat(st, dir, e, id, ids, body);
    } else {
      PutOfOtherName(st, dir, e, name, id, body);
    }
  }

  /** Leading zeros do the same from the other side: the index lists the number, the file has the name.
      Whatever stands behind the slash, a PUT below an entity keeps disk and index in step if and only if
      that is no number that fits an int, or one in plain decimal. */
  lemma NonCanonicalIdBreaksFlat(st: Store, dir: string, e: string, name: string, body: string)
    requires Flat(st, dir) && IsName(e) && '/' !in name
    ensures Flat(HandlePut(st, dir, e + "/" + name, body).0, dir) <==>
              name == "" || !AllDigits(name) || Stoi(name).None? || name == ToString(Stoi(name).value)
  {
    if name == "" || !AllDigits(name) || Stoi(name).None? {
      PutOfNoNumber(st, dir, e, name, body);
    } else {
      PutOfNumber(st, dir, e, name, body);
    }
  }

  /** A POST on a path below an entity. Where the entity is listed and no file is in the way, the handler
      makes a directory there and lists it like an entity; everywhere else it refuses and changes nothing. */
  lemma PostBelowKeepsFlat(st: Store, dir: string, e: string, name: string, body: string)
    requires Flat(st, dir) && IsName(e) && '/' !in name
    ensures var (st', reply) := HandlePost(st, dir, e + "/" + name, body);
            && (Flat(st', dir) <==> e !in st.index || PathOf(dir, e + "/" + name) in st.files)
            && (reply == Unprocessable <==> e !in st.index || PathOf(dir, e + "/" + name) in st.files)
            && (reply == Unprocessable ==> st' == st)
  {
    var x := e + "/" + name;
    SuffixParts(dir, e, name);
    SlashedIsNoName(e, name);
    SlashedIsNoDir(st, dir, e, name);
    PostRefused(st, dir, x, body);
    if e in st.index && PathOf(dir, x) !in st.files {
      var id := PostMeans(st, dir, x, body);
    }
  }
}
