/** Laws over several requests: which ids come next, and when the empty list that a GET leaves in the
    index can be told from no list at all. */
module CrudLaws {
  import opened CxxStrings
  import opened CrudStore
  import opened CrudRefinement

  function Ids(st: Store, e: string): seq<int> {
    if e in st.index then st.index[e] else []
  }

  /** After an entry is deleted, its id is given out again as soon as no smaller one is free. */
  lemma DeleteThenPost(st: Store, dir: string, e: string, n: nat, body: string, body': string)
    requires Flat(st, dir) && IsName(e) && e in st.index && n in st.index[e] && 1 <= n <= INT_MAX
    ensures var would := HandlePost(st, dir, e, body).1;
            var (st1, reply) := HandleDelete(st, dir, Key(e, n));
            && reply == Deleted(e) && would.Created?
            && HandlePost(st1, dir, e, body').1 == Created(if n < would.id then n else would.id)
  {
    PostResult(st, dir, e, body);
    var m := NextId(st.index, e).0;
    var ids := DeleteResult(st, dir, e, n);
    RemoveFlat(st, dir, e, n, ids);
    var st1 := WithoutEntry(st, dir, e, n, ids);
    PostResult(st1, dir, e, body');
    var m' := NextId(st1.index, e).0;
    MinAfterRemoval(st.index[e], ids, n, m);
    LeastFreeUnique(ids, m', if n < m then n else m);
  }

  lemma MinAfterRemoval(ids: seq<int>, ids': seq<int>, n: nat, m: int)
    requires IsLeastFree(ids, m) && n >= 1 && n in ids && forall y :: y in ids' <==> y in ids && y != n
    ensures IsLeastFree(ids', if n < m then n else m)
  {
  }

  predicate ArePosts(rs: seq<Request>, e: string) {
    forall i :: 0 <= i < |rs| ==> rs[i].Post? && rs[i].suffix == e
  }

  /** Id `k` was given out before reply `i`. */
  ghost predicate GivenBefore(replies: seq<Reply>, i: int, k: int) {
    exists j :: 0 <= j < i && j < |replies| && replies[j].Created? && replies[j].id == k
  }

  /** `replies` give out the smallest positive ids that are not in `ids`, in increasing order. */
  ghost predicate SmallestFree(ids: seq<int>, replies: seq<Reply>) {
    && (forall i :: 0 <= i < |replies| ==> replies[i].Created? && replies[i].id >= 1 && replies[i].id !in ids)
    && (forall i, j :: 0 <= i < j < |replies| ==> replies[i].id < replies[j].id)
    && (forall i, k :: 0 <= i < |replies| && 1 <= k < replies[i].id && k !in ids ==> GivenBefore(replies, i, k))
  }

  /** The list after the replies: the old ids and the new ones. */
  ghost predicate ListsReplies(ids: seq<int>, replies: seq<Reply>, ids': seq<int>) {
    && (forall y :: y in ids ==> y in ids')
    && (forall i :: 0 <= i < |replies| && replies[i].Created? ==> replies[i].id in ids')
    && (forall y :: y in ids' && y !in ids ==> GivenBefore(replies, |replies|, y))
  }

  lemma NewIdIsLargest(ids: seq<int>, replies: seq<Reply>, now: seq<int>, id: int)
    requires SmallestFree(ids, replies) && ListsReplies(ids, replies, now) && IsLeastFree(now, id)
    ensures id !in ids && forall i :: 0 <= i < |replies| ==> replies[i].id < id
  {
    assert forall j :: 0 <= j < |replies| ==> replies[j].id in now && replies[j].id != id;
    assert id !in ids;
  }

  lemma GivenStays(replies: seq<Reply>, reply: Reply, i: int, k: int)
    requires i <= |replies| && GivenBefore(replies, i, k)
    ensures GivenBefore(replies + [reply], i, k)
  {
    var j :| 0 <= j < i && j < |replies| && replies[j].Created? && replies[j].id == k;
    assert (replies + [reply])[j] == replies[j];
  }

  lemma OneMoreSmallest(ids: seq<int>, replies: seq<Reply>, now: seq<int>, id: int)
    requires SmallestFree(ids, replies) && ListsReplies(ids, replies, now) && IsLeastFree(now, id)
    ensures SmallestFree(ids, replies + [Created(id)])
  {
    var all := replies + [Created(id)];
    NewIdIsLargest(ids, replies, now, id);
    forall i, k | 0 <= i < |all| && 1 <= k < all[i].id && k !in ids
      ensures GivenBefore(all, i, k)
    {
      if i == |replies| {
        assert k in now;
      }
      assert GivenBefore(replies, i, k);
      GivenStays(replies, Created(id), i, k);
    }
  }

  lemma OneMoreListed(ids: seq<int>, replies: seq<Reply>, now: seq<int>, id: int, next: seq<int>)
    requires ListsReplies(ids, replies, now) && forall y :: y in next <==> y == id || y in now
    ensures ListsReplies(ids, replies + [Created(id)], next)
  {
    var all := replies + [Created(id)];
    forall y | y in next && y !in ids
      ensures GivenBefore(all, |all|, y)
    {
      if y == id {
        assert all[|replies|].id == y;
      } else {
        GivenStays(replies, Created(id), |replies|, y);
      }
    }
  }

  lemma PostOnce(st: Store, dir: string, e: string, body: string, id: int)
    requires Flat(st, dir) && IsName(e) && id == NextId(st.index, e).0
    ensures var (st', reply) := HandlePost(st, dir, e, body);
            && Flat(st', dir) && reply == Created(id) && IsLeastFree(Ids(st, e), id)
            && forall y :: y in Ids(st', e) <==> y == id || y in Ids(st, e)
  {
    var index := NextId(st.index, e).1;
    PostResult(st, dir, e, body);
    AddFlat(st, dir, e, id, index[e], body);
  }

  /** Any number of POSTs to an entity give out its smallest free positive ids in increasing order. */
  lemma {:induction false} PostsAreSmallestFree(st: Store, dir: string, e: string, rs: seq<Request>)
    requires Flat(st, dir) && IsName(e) && ArePosts(rs, e)
    ensures var (st', replies) := HandleAll(st, dir, rs);
            && Flat(st', dir) && |replies| == |rs|
            && SmallestFree(Ids(st, e), replies) && ListsReplies(Ids(st, e), replies, Ids(st', e))
    decreases |rs|
  {
    if rs != [] {
      var front, r := rs[..|rs| - 1], rs[|rs| - 1];
      PostsAreSmallestFree(st, dir, e, front);
      var (st1, replies) := HandleAll(st, dir, front);
      var id := NextId(st1.index, e).0;
      PostOnce(st1, dir, e, r.body, id);
      var st2 := HandlePost(st1, dir, e, r.body).0;
      assert HandleAll(st, dir, rs) == (st2, replies + [Created(id)]);
      OneMoreSmallest(Ids(st, e), replies, Ids(st1, e), id);
      OneMoreListed(Ids(st, e), replies, Ids(st1, e), id, Ids(st2, e));
    }
  }

  // ---------- the list a GET leaves behind ----------

  /** A suffix made of names. Only among these do different suffixes stand for different places on disk:
      `e//5`, `e/./5` and `e/5` are one file. */
  predicate IsClean(suffix: string) {
    forall i :: 0 <= i < |Split(suffix, '/')| ==> IsName(Split(suffix, '/')[i])
  }

  predicate AllClean(rs: seq<Request>) {
    forall i :: 0 <= i < |rs| ==> IsClean(rs[i].suffix)
  }

  lemma {:induction false} SplitAppend(a: string, b: string, c: char)
    ensures Split(a + [c] + b, c) == Split(a, c) + Split(b, c)
    decreases |a|
  {
    var s := a + [c] + b;
    if a == "" {
      assert s[0] == c && s[1..] == b;
    } else {
      assert s[0] == a[0] && s[1..] == a[1..] + [c] + b;
      SplitAppend(a[1..], b, c);
    }
  }

  lemma CleanBelow(e: string, name: string)
    requires IsClean(e) && IsName(name)
    ensures IsClean(e + "/" + name)
  {
    SplitAppend(e, name, '/');
    SplitPrefix(name, "", '/');
    assert name + "" == name && e + "/" + name == e + ['/'] + name;
    assert Split(name, '/') == [name];
  }

  /** An empty list for `e`, as `GET` enters it for a directory that the index does not know. */
  function Touched(st: Store, e: string): Store {
    st.(index := st.index[e := []])
  }

  /** A file of directory `e` whose name starts with a number. */
  predicate IsNumbered(st: Store, dir: string, e: string, name: string) {
    && '/' !in name && Stoi(name).Some?
    && PathOf(dir, e + "/" + name) in st.files && PathOf(dir, e + "/" + name) !in st.dirs
  }

  ghost predicate HasNumberedFile(st: Store, dir: string, e: string) {
    exists name: string :: IsNumbered(st, dir, e, name)
  }

  /** `st` does not list `e`, whose directory exists and holds no numbered file; `st'` is the same or has the empty
      list. */
  ghost predicate Alike(st: Store, st': Store, dir: string, e: string) {
    st' == st ||
    (e !in st.index && PathOf(dir, e) in st.dirs && st' == Touched(st, e) && !HasNumberedFile(st, dir, e))
  }

  lemma PartsAt(s: string, p: int)
    requires -1 <= p < |s| && (p >= 0 ==> s[p] == '/') && forall i :: p < i < |s| ==> s[i] != '/'
    ensures p >= 0 ==> s == EntityAt(s, p) + "/" + NameAt(s, p)
    ensures p < 0 ==> s == EntityAt(s, p) == NameAt(s, p)
    ensures '/' !in NameAt(s, p)
  {
  }

  lemma EntitySplit(suffix: string)
    ensures FindLast(suffix, '/') >= 0 ==> suffix == Entity(suffix) + "/" + IdName(suffix)
    ensures FindLast(suffix, '/') < 0 ==> suffix == Entity(suffix) == IdName(suffix)
    ensures '/' !in IdName(suffix)
  {
    FindLastIsLast(suffix, '/');
    PartsAt(suffix, FindLast(suffix, '/'));
  }

  /** What numbered files `e` has depends only on paths of that form. */
  lemma SameNumbered(st: Store, st1: Store, dir: string, e: string)
    requires !HasNumberedFile(st, dir, e) && st.dirs <= st1.dirs
    requires forall name :: '/' !in name && PathOf(dir, e + "/" + name) in st1.files ==>
               PathOf(dir, e + "/" + name) in st.files
    ensures !HasNumberedFile(st1, dir, e)
  {
    forall name
      ensures !IsNumbered(st1, dir, e, name)
    {
      assert !IsNumbered(st, dir, e, name);
    }
  }

  /** Writing below another entity adds no file to directory `e`. */
  lemma OtherWrite(st: Store, st1: Store, dir: string, e: string, entity: string, name: string, text: string)
    requires entity != e && '/' !in name && st.dirs <= st1.dirs && !HasNumberedFile(st, dir, e)
    requires st1.files == st.files || st1.files == st.files[PathOf(dir, entity + "/" + name) := text]
    ensures !HasNumberedFile(st1, dir, e)
  {
    forall other: string | '/' !in other
      ensures PathOf(dir, e + "/" + other) != PathOf(dir, entity + "/" + name)
    {
      if PathOf(dir, e + "/" + other) == PathOf(dir, entity + "/" + name) {
        PathInjective(dir, e + "/" + other, entity + "/" + name);
        SuffixParts(dir, e, other);
        SuffixParts(dir, entity, name);
      }
    }
    SameNumbered(st, st1, dir, e);
  }

  lemma FirstIdSame(index: map<string, seq<int>>, e: string)
    requires e !in index
    ensures NextId(index[e := []], e) == NextId(index, e) == (1, index[e := [1]])
  {
    assert Insert([], 1) == [1] by {
      assert [] + [1] == [1];
      SortOfIncreasing([1]);
    }
    assert index[e := []][e := [1]] == index[e := [1]];
  }

  lemma PostSameEntity(st: Store, dir: string, e: string, body: string)
    requires e !in st.index && PathOf(dir, e) in st.dirs
    ensures HandlePost(st, dir, e, body) == HandlePost(Touched(st, e), dir, e, body)
  {
    FirstIdSame(st.index, e);
    var s1 := st.(index := st.index[e := [1]]);
    var path := PathOf(dir, e) + "/" + ToString(1);
    assert HandlePost(st, dir, e, body) == FinishPost(s1, 1, path, body);
    assert HandlePost(Touched(st, e), dir, e, body) == FinishPost(s1, 1, path, body);
  }

  lemma NextIdElsewhere(index: map<string, seq<int>>, e: string, key: string)
    requires e !in index && key != e
    ensures var (id, index') := NextId(index, key);
            && NextId(index[e := []], key) == (id, index'[e := []]) && e !in index'
  {
    var index' := NextId(index, key).1;
    assert index' == index[key := index'[key]];
    assert index[e := []][key := index'[key]] == index'[e := []];
  }

  lemma CreateTouched(st: Store, e: string, path: string)
    ensures CreateDir(Touched(st, e), path) ==
            match CreateDir(st, path) case None => None case Some(st1) => Some(Touched(st1, e))
  {
  }

  lemma WriteTouched(st: Store, e: string, path: string, text: string)
    ensures WriteFile(Touched(st, e), path, text) ==
            match WriteFile(st, path, text) case None => None case Some(st1) => Some(Touched(st1, e))
  {
  }

  lemma FinishTouched(st: Store, e: string, id: int, path: string, text: string)
    ensures var (s1, r1) := FinishPost(st, id, path, text);
            && FinishPost(Touched(st, e), id, path, text) == (Touched(s1, e), r1)
            && s1.index == st.index && s1.dirs == st.dirs
            && (s1.files == st.files || s1.files == st.files[path := text])
  {
    WriteTouched(st, e, path, text);
  }

  lemma PostOtherEntity(st: Store, dir: string, e: string, suffix: string, body: string)
    requires e !in st.index && suffix != e
    ensures var (s1, r1) := HandlePost(st, dir, suffix, body);
            var path := PathOf(dir, suffix) + "/" + ToString(NextId(st.index, suffix).0);
            && HandlePost(Touched(st, e), dir, suffix, body) == (Touched(s1, e), r1)
            && e !in s1.index && st.dirs <= s1.dirs && (s1.files == st.files || s1.files == st.files[path := body])
  {
    NextIdElsewhere(st.index, e, suffix);
    CreateTouched(st, e, PathOf(dir, suffix));
    var made := if suffix in st.index then Some(st) else CreateDir(st, PathOf(dir, suffix));
    if made.Some? {
      var (id, index) := NextId(st.index, suffix);
      FinishTouched(made.value.(index := index), e, id, PathOf(dir, suffix) + "/" + ToString(id), body);
    }
  }

  lemma PostAlike(st: Store, dir: string, e: string, suffix: string, body: string)
    requires e !in st.index && PathOf(dir, e) in st.dirs && !HasNumberedFile(st, dir, e)
    ensures var (s1, r1) := HandlePost(st, dir, suffix, body);
            var (s2, r2) := HandlePost(Touched(st, e), dir, suffix, body);
            r1 == r2 && Alike(s1, s2, dir, e)
  {
    if suffix == e {
      PostSameEntity(st, dir, e, body);
    } else {
      var id := NextId(st.index, suffix).0;
      PostOtherEntity(st, dir, e, suffix, body);
      PostPath(dir, suffix, id);
      OtherWrite(st, HandlePost(st, dir, suffix, body).0, dir, e, suffix, ToString(id), body);
    }
  }

  lemma PostPath(dir: string, suffix: string, id: int)
    ensures PathOf(dir, suffix) + "/" + ToString(id) == PathOf(dir, suffix + "/" + ToString(id))
    ensures '/' !in ToString(id)
  {
    if id >= 0 {
      NoSlashInDecimal(id);
    } else {
      NoSlashInDecimal(-id);
    }
  }

  lemma GetAlike(st: Store, dir: string, e: string, suffix: string)
    requires e !in st.index && PathOf(dir, e) in st.dirs && !HasNumberedFile(st, dir, e)
    ensures var (s1, r1) := HandleGet(st, dir, suffix);
            var (s2, r2) := HandleGet(Touched(st, e), dir, suffix);
            r1 == r2 && Alike(s1, s2, dir, e)
  {
    var s1 := HandleGet(st, dir, suffix).0;
    if suffix == e {
      assert st.index[e := []][e := []] == st.index[e := []];
    } else {
      var ids := if suffix in st.index then st.index[suffix] else [];
      assert st.index[e := []][suffix := ids] == st.index[suffix := ids][e := []];
      SameNumbered(st, s1, dir, e);
    }
  }

  lemma PutSameEntity(st: Store, dir: string, e: string, id: int, path: string, body: string)
    requires e !in st.index && PathOf(dir, e) in st.dirs
    ensures PutEntry(st, dir, e, id, path, body) == PutEntry(Touched(st, e), dir, e, id, path, body)
  {
    assert Insert([], id) == [id] by {
      assert [] + [id] == [id];
      SortOfIncreasing([id]);
    }
    assert Touched(st, e).index[e := [id]] == st.index[e := [id]];
  }

  lemma IndexTouched(st: Store, dir: string, e: string, entity: string, id: int)
    requires e !in st.index && entity != e
    ensures var (s1, r1) := IndexEntry(st, dir, entity, id);
            && IndexEntry(Touched(st, e), dir, entity, id) ==
                 (match s1 { case None => None case Some(s) => Some(Touched(s, e)) }, r1)
            && (s1.Some? ==> e !in s1.value.index && st.dirs <= s1.value.dirs && s1.value.files == st.files)
  {
    CreateTouched(st, e, PathOf(dir, entity));
    var ids := if entity in st.index then Insert(st.index[entity], id) else [id];
    assert st.index[e := []][entity := ids] == st.index[entity := ids][e := []];
  }

  /** Changing another entity's list commutes with the empty list. */
  lemma PutOtherEntity(st: Store, dir: string, e: string, entity: string, id: int, path: string, body: string)
    requires e !in st.index && PathOf(dir, e) in st.dirs && entity != e
    ensures var (s1, r1) := PutEntry(st, dir, entity, id, path, body);
            && PutEntry(Touched(st, e), dir, entity, id, path, body) == (Touched(s1, e), r1)
            && e !in s1.index && st.dirs <= s1.dirs && (s1.files == st.files || s1.files == st.files[path := body])
  {
    IndexTouched(st, dir, e, entity, id);
    var (indexed, reply) := IndexEntry(st, dir, entity, id);
    if indexed.Some? {
      WriteTouched(indexed.value, e, path, body);
    }
  }

  lemma PutEntryAlike(st: Store, dir: string, e: string, entity: string, id: int, path: string, name: string,
                      body: string)
    requires e !in st.index && PathOf(dir, e) in st.dirs && !HasNumberedFile(st, dir, e)
    requires '/' !in name && (path == PathOf(dir, entity + "/" + name) || (path == PathOf(dir, entity)
        && '/' !in entity))
    ensures var (s1, r1) := PutEntry(st, dir, entity, id, path, body);
            var (s2, r2) := PutEntry(Touched(st, e), dir, entity, id, path, body);
            r1 == r2 && Alike(s1, s2, dir, e)
  {
    if entity == e {
      PutSameEntity(st, dir, e, id, path, body);
    } else {
      PutOtherEntity(st, dir, e, entity, id, path, body);
      var s1 := PutEntry(st, dir, entity, id, path, body).0;
      if path == PathOf(dir, entity + "/" + name) {
        OtherWrite(st, s1, dir, e, entity, name, body);
      } else {
        RootWrite(st, s1, dir, e, entity, body);
      }
    }
  }

  /** Nor does writing next to directory `e`. */
  lemma RootWrite(st: Store, st1: Store, dir: string, e: string, entity: string, text: string)
    requires '/' !in entity && st.dirs <= st1.dirs && !HasNumberedFile(st, dir, e)
    requires st1.files == st.files || st1.files == st.files[PathOf(dir, entity) := text]
    ensures !HasNumberedFile(st1, dir, e)
  {
    forall other: string
      ensures PathOf(dir, e + "/" + other) != PathOf(dir, entity)
    {
      assert (e + "/" + other)[|e|] == '/';
      if PathOf(dir, e + "/" + other) == PathOf(dir, entity) {
        PathInjective(dir, e + "/" + other, entity);
      }
    }
    SameNumbered(st, st1, dir, e);
  }

  lemma PutAlike(st: Store, dir: string, e: string, suffix: string, body: string)
    requires e !in st.index && PathOf(dir, e) in st.dirs && !HasNumberedFile(st, dir, e)
    ensures var (s1, r1) := HandlePut(st, dir, suffix, body);
            var (s2, r2) := HandlePut(Touched(st, e), dir, suffix, body);
            r1 == r2 && Alike(s1, s2, dir, e)
  {
    var entity, name := Entity(suffix), IdName(suffix);
    assert '/' !in name && (suffix == entity + "/" + name || (suffix == entity && '/' !in entity)) by {
      EntitySplit(suffix);
    }
    match Stoi(name)
    case None =>
    case Some(id) => PutEntryAlike(st, dir, e, entity, id, PathOf(dir, suffix), name, body);
  }

  lemma DeleteOtherEntity(st: Store, e: string, entity: string, id: Option<int>, path: string)
    requires e !in st.index && entity != e
    ensures var (s1, r1) := DeletePath(st, entity, id, path);
            && DeletePath(Touched(st, e), entity, id, path) == (Touched(s1, e), r1)
            && e !in s1.index && s1.dirs == st.dirs && s1.files.Keys <= st.files.Keys
  {
    if entity in st.index && id.Some? {
      var ids := Without(st.index[entity], id.value);
      assert st.index[e := []][entity := ids] == st.index[entity := ids][e := []];
    }
  }

  lemma DeleteSameEntity(st: Store, dir: string, e: string, suffix: string)
    requires e !in st.index && PathOf(dir, e) in st.dirs && !HasNumberedFile(st, dir, e) && Entity(suffix) == e
    ensures HandleDelete(st, dir, suffix).0 == st
    ensures HandleDelete(Touched(st, e), dir, suffix) == (Touched(st, e), HandleDelete(st, dir, suffix).1)
  {
    EntitySplit(suffix);
    assert !IsNumbered(st, dir, e, IdName(suffix));
    var path := PathOf(dir, suffix);
    if path !in st.dirs && path in st.files {
      assert Stoi(IdName(suffix)).None?;
    }
  }

  lemma DeletePathAlike(st: Store, dir: string, e: string, entity: string, id: Option<int>, path: string)
    requires e !in st.index && PathOf(dir, e) in st.dirs && !HasNumberedFile(st, dir, e) && entity != e
    ensures Alike(DeletePath(st, entity, id, path).0, DeletePath(Touched(st, e), entity, id, path).0, dir, e)
    ensures DeletePath(st, entity, id, path).1 == DeletePath(Touched(st, e), entity, id, path).1
  {
    DeleteOtherEntity(st, e, entity, id, path);
    var s1 := DeletePath(st, entity, id, path).0;
    assert !HasNumberedFile(s1, dir, e) by {
      SameNumbered(st, s1, dir, e);
    }
  }

  lemma DeleteAlike(st: Store, dir: string, e: string, suffix: string)
    requires e !in st.index && PathOf(dir, e) in st.dirs && !HasNumberedFile(st, dir, e)
    ensures Alike(HandleDelete(st, dir, suffix).0, HandleDelete(Touched(st, e), dir, suffix).0, dir, e)
    ensures HandleDelete(st, dir, suffix).1 == HandleDelete(Touched(st, e), dir, suffix).1
  {
    if Entity(suffix) == e {
      DeleteSameEntity(st, dir, e, suffix);
    } else {
      DeletePathAlike(st, dir, e, Entity(suffix), Stoi(IdName(suffix)), PathOf(dir, suffix));
    }
  }

  lemma RequestAlike(st: Store, st': Store, dir: string, e: string, r: Request)
    requires Alike(st, st', dir, e) && IsClean(e) && IsClean(r.suffix)
    ensures var (s1, r1) := Handle(st, dir, r);
            var (s2, r2) := Handle(st', dir, r);
            r1 == r2 && Alike(s1, s2, dir, e)
  {
    if st' != st {
      match r
      case Post(suffix, body) => PostAlike(st, dir, e, suffix, body);
      case Get(suffix) => GetAlike(st, dir, e, suffix);
      case Put(suffix, body) => PutAlike(st, dir, e, suffix, body);
      case Delete(suffix) => DeleteAlike(st, dir, e, suffix);
    }
  }

  lemma {:induction false} RunAlike(st: Store, st': Store, dir: string, e: string, rs: seq<Request>)
    requires Alike(st, st', dir, e) && IsClean(e) && AllClean(rs)
    ensures HandleAll(st, dir, rs).1 == HandleAll(st', dir, rs).1
    ensures Alike(HandleAll(st, dir, rs).0, HandleAll(st', dir, rs).0, dir, e)
    decreases |rs|
  {
    if rs != [] {
      var front := rs[..|rs| - 1];
      RunAlike(st, st', dir, e, front);
      RequestAlike(HandleAll(st, dir, front).0, HandleAll(st', dir, front).0, dir, e, rs[|rs| - 1]);
    }
  }

  lemma DeleteTells(st: Store, dir: string, e: string, name: string)
    requires e !in st.index && IsNumbered(st, dir, e, name)
    ensures HandleDelete(st, dir, e + "/" + name).1 == NotFound
    ensures HandleDelete(Touched(st, e), dir, e + "/" + name).1 == Deleted(e)
  {
    SuffixParts(dir, e, name);
  }

  /** A name that starts with a number is neither of the two special ones. */
  lemma NumberedIsName(name: string)
    requires '/' !in name && Stoi(name).Some?
    ensures IsName(name)
  {
    if name != "" {
      assert !IsDigit('.') && !IsSpace('.');
      assert name[0] == '.' ==> DigitPrefix(name) == "";
    }
  }

  /** No run of requests on clean suffixes tells the two stores apart. */
  ghost predicate SameReplies(st: Store, st': Store, dir: string) {
    forall rs :: AllClean(rs) ==> HandleAll(st, dir, rs).1 == HandleAll(st', dir, rs).1
  }

  lemma OneRequest(st: Store, dir: string, r: Request)
    ensures HandleAll(st, dir, [r]).1 == [Handle(st, dir, r).1]
  {
    assert [r][..0] == [];
    assert HandleAll(st, dir, []) == (st, []);
  }

  lemma NumberedFileTells(st: Store, dir: string, e: string, name: string)
    requires e !in st.index && IsClean(e) && IsNumbered(st, dir, e, name)
    ensures !SameReplies(st, Touched(st, e), dir)
  {
    var rs := [Delete(e + "/" + name)];
    NumberedIsName(name);
    CleanBelow(e, name);
    DeleteTells(st, dir, e, name);
    OneRequest(st, dir, rs[0]);
    OneRequest(Touched(st, e), dir, rs[0]);
    assert AllClean(rs) && HandleAll(st, dir, rs).1 != HandleAll(Touched(st, e), dir, rs).1;
  }

  /** The empty list that a GET enters for an unlisted directory is invisible to every later run of
      requests on clean suffixes exactly when the directory holds no file whose name starts with a
      number. Where it does, as after a restart over existing data, the GET turns a failing DELETE
      into one that removes the file. */
  lemma SilentKeyUnobservable(st: Store, dir: string, e: string)
    requires e !in st.index && PathOf(dir, e) in st.dirs && IsClean(e)
    ensures HandleGet(st, dir, e).0 == Touched(st, e)
    ensures SameReplies(st, Touched(st, e), dir) <==> !HasNumberedFile(st, dir, e)
  {
    if HasNumberedFile(st, dir, e) {
      var name: string :| IsNumbered(st, dir, e, name);
      NumberedFileTells(st, dir, e, name);
    } else {
      forall rs | AllClean(rs)
        ensures HandleAll(st, dir, rs).1 == HandleAll(Touched(st, e), dir, rs).1
      {
        RunAlike(st, Touched(st, e), dir, e, rs);
      }
    }
  }
}
