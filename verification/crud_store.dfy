/** The data behind the CRUD handler as a value: the files and directories on disk and the id index
    kept beside them, with the effect of each request. */
module CrudStore {
  import opened CxxStrings

  // ---------- id lists ----------

  predicate Increasing(ids: seq<int>) {
    forall i, j :: 0 <= i < j < |ids| ==> ids[i] < ids[j]
  }

  predicate NonNegative(ids: seq<int>) {
    forall i :: 0 <= i < |ids| ==> 0 <= ids[i]
  }

  predicate IsIdList(ids: seq<int>) {
    Increasing(ids) && NonNegative(ids)
  }

  /** `n` is the least positive number that is not in the list. */
  predicate IsLeastFree(ids: seq<int>, n: int) {
    n >= 1 && n !in ids && forall k :: 1 <= k < n ==> k in ids
  }

  /** The id found by one pass over a list. */
  function LowestScan(ids: seq<int>): int {
    if ids == [] then 1 else
      var lowest := LowestScan(ids[..|ids| - 1]);
      if ids[|ids| - 1] == lowest then lowest + 1 else lowest
  }

  lemma {:induction false} ScanBelow(ids: seq<int>)
    requires IsIdList(ids)
    ensures 1 <= LowestScan(ids) <= |ids| + 1 && IsLeastFree(ids, LowestScan(ids))
    decreases |ids|
  {
    if ids != [] {
      var front, last := ids[..|ids| - 1], ids[|ids| - 1];
      ScanBelow(front);
      var lowest := LowestScan(front);
      assert ids == front + [last];
      if last == lowest {
        forall k | 1 <= k < lowest + 1
          ensures k in ids
        {
          if k < lowest {
            assert k in front;
          }
        }
        assert forall i :: 0 <= i < |ids| ==> ids[i] <= last;
      }
    }
  }

  lemma LeastFreeUnique(ids: seq<int>, m: int, n: int)
    requires IsLeastFree(ids, m) && IsLeastFree(ids, n)
    ensures m == n
  {
    assert m < n ==> m in ids;
  }

  function InsertInto(sorted: seq<int>, x: int): seq<int> {
    if sorted == [] || sorted[|sorted| - 1] <= x then sorted + [x]
    else InsertInto(sorted[..|sorted| - 1], x) + [sorted[|sorted| - 1]]
  }

  /** `std::sort` */
  function Sort(s: seq<int>): seq<int> {
    if s == [] then [] else InsertInto(Sort(s[..|s| - 1]), s[|s| - 1])
  }

  /** Append and sort, as the index does. */
  function Insert(ids: seq<int>, id: int): seq<int> {
    Sort(ids + [id])
  }

  lemma {:induction false} SortOfIncreasing(ids: seq<int>)
    requires Increasing(ids)
    ensures Sort(ids) == ids
    decreases |ids|
  {
    if ids != [] {
      SortOfIncreasing(ids[..|ids| - 1]);
    }
  }

  lemma {:induction false} InsertIntoIncreasing(ids: seq<int>, x: int)
    requires Increasing(ids) && x !in ids
    ensures var r := InsertInto(ids, x); Increasing(r) && forall y :: y in r <==> y in ids || y == x
    decreases |ids|
  {
    if ids != [] && ids[|ids| - 1] > x {
      var front, last := ids[..|ids| - 1], ids[|ids| - 1];
      assert ids == front + [last];
      InsertIntoIncreasing(front, x);
      var r := InsertInto(front, x);
      forall i | 0 <= i < |r|
        ensures r[i] < last
      {
        assert r[i] in r;
      }
    }
  }

  /** Inserting an id that is not in the list keeps it a list of ids and adds exactly that id. */
  lemma InsertKeepsList(ids: seq<int>, id: int)
    requires IsIdList(ids) && id >= 0 && id !in ids
    ensures var r := Insert(ids, id); IsIdList(r) && forall y :: y in r <==> y in ids || y == id
  {
    assert (ids + [id])[..|ids|] == ids;
    SortOfIncreasing(ids);
    InsertIntoIncreasing(ids, id);
    var r := Insert(ids, id);
    forall i | 0 <= i < |r|
      ensures 0 <= r[i]
    {
      assert r[i] in r;
    }
  }

  /** `erase(remove(...))` */
  function Without(ids: seq<int>, id: int): seq<int> {
    if ids == [] then []
    else Without(ids[..|ids| - 1], id) + if ids[|ids| - 1] == id then [] else [ids[|ids| - 1]]
  }

  lemma {:induction false} WithoutKeepsList(ids: seq<int>, id: int)
    requires IsIdList(ids)
    ensures var r := Without(ids, id); IsIdList(r) && forall y :: y in r <==> y in ids && y != id
    decreases |ids|
  {
    if ids != [] {
      var front, last := ids[..|ids| - 1], ids[|ids| - 1];
      assert ids == front + [last];
      WithoutKeepsList(front, id);
      var r := Without(front, id);
      forall i | 0 <= i < |r|
        ensures r[i] < last
      {
        assert r[i] in r;
      }
    }
  }

  // ---------- the store ----------

  /** Files with their contents, directories, and the handler's index. */
  datatype Store = Store(files: map<string, string>, dirs: set<string>, index: map<string, seq<int>>)

  /** The answer to a request. `Uncaught`: an exception leaves the handler. */
  datatype Reply =
    | Created(id: int) | Updated(id: int) | Listing(text: string) | Content(text: string) | Deleted(entity: string)
    | BadRequest | NotFound | Unprocessable | InternalError | Uncaught

  /** What comes before the last slash of a path. */
  function Parent(path: string): string {
    var p := FindLast(path, '/');
    if p < 0 then "" else path[..p]
  }

  /** `create_dir`: nothing to do for a directory; otherwise the name must be free and its parent a directory. */
  function CreateDir(st: Store, path: string): (r: Option<Store>) {
    if path in st.dirs then Some(st)
    else if path in st.files || Parent(path) !in st.dirs then None
    else Some(st.(dirs := st.dirs + {path}))
  }

  /** `write_to_file`: only a directory in the way is noticed; a missing parent loses the text silently. */
  function WriteFile(st: Store, path: string, text: string): Option<Store> {
    if path in st.dirs then None
    else if Parent(path) !in st.dirs then Some(st)
    else Some(st.(files := st.files[path := text]))
  }

  /** The id for a new entry, and the index that holds it. */
  function NextId(index: map<string, seq<int>>, key: string): (int, map<string, seq<int>>) {
    if key !in index then (1, index[key := [1]]) else
      var id := LowestScan(index[key]);
      (id, if id in index[key] then index else index[key := Insert(index[key], id)])
  }

  /** The parts of a suffix before and after position `p`; without a position both are all of it. */
  function EntityAt(suffix: string, p: int): string
    requires -1 <= p < |suffix|
  {
    if p < 0 then suffix else suffix[..p]
  }

  function NameAt(suffix: string, p: int): string
    requires -1 <= p < |suffix|
  {
    suffix[p + 1..]
  }

  /** What comes before the last slash of a suffix, and what comes after it. */
  function Entity(suffix: string): string {
    EntityAt(suffix, FindLast(suffix, '/'))
  }

  function IdName(suffix: string): string {
    NameAt(suffix, FindLast(suffix, '/'))
  }

  function DecimalStrings(ids: seq<int>): seq<string> {
    if ids == [] then [] else DecimalStrings(ids[..|ids| - 1]) + [ToString(ids[|ids| - 1])]
  }

  function ListingText(ids: seq<int>): string {
    "[" + Join(DecimalStrings(ids), ",") + "]\n"
  }

  /** Where an entity or an entry is stored. */
  function PathOf(dir: string, suffix: string): string {
    dir + "/" + suffix
  }

  /** Writes a new entry of the index to disk. */
  function FinishPost(st: Store, id: int, path: string, body: string): (Store, Reply) {
    match WriteFile(st, path, body)
    case None => (st, InternalError)
    case Some(st1) => (st1, Created(id))
  }

  function HandlePost(st: Store, dir: string, suffix: string, body: string): (Store, Reply) {
    var path := PathOf(dir, suffix);
    var made := if suffix in st.index then Some(st) else CreateDir(st, path);
    if made.None? then (st, Unprocessable) else
      var (id, index) := NextId(st.index, suffix);
      FinishPost(made.value.(index := index), id, path + "/" + ToString(id), body)
  }

  /** Asking for a directory's ids puts an empty list into the index if it has none. */
  function HandleGet(st: Store, dir: string, suffix: string): (Store, Reply) {
    var path := PathOf(dir, suffix);
    if path in st.dirs then
      var ids := if suffix in st.index then st.index[suffix] else [];
      (st.(index := st.index[suffix := ids]), Listing(ListingText(ids)))
    else if path in st.files then (st, Content(st.files[path]))
    else (st, NotFound)
  }

  /** Enters `id` into the index of `entity`, whose directory is made if the index does not know it. */
  function IndexEntry(st: Store, dir: string, entity: string, id: int): (Option<Store>, Reply) {
    if entity in st.index then
      if id in st.index[entity] then (Some(st), Updated(id))
      else (Some(st.(index := st.index[entity := Insert(st.index[entity], id)])), Created(id))
    else
      match CreateDir(st, PathOf(dir, entity))
      case None => (None, Unprocessable)
      case Some(st1) => (Some(st1.(index := st1.index[entity := [id]])), Created(id))
  }

  function FinishPut(st: Store, path: string, body: string, reply: Reply): (Store, Reply) {
    match WriteFile(st, path, body)
    case None => (st, NotFound)
    case Some(st1) => (st1, reply)
  }

  /** A PUT for entry `id` of `entity`, to be stored at `path`. The id is entered into the index before
      the file is written. */
  function PutEntry(st: Store, dir: string, entity: string, id: int, path: string, body: string): (Store, Reply) {
    var (indexed, reply) := IndexEntry(st, dir, entity, id);
    if indexed.None? then (st, reply) else FinishPut(indexed.value, path, body, reply)
  }

  function HandlePut(st: Store, dir: string, suffix: string, body: string): (Store, Reply) {
    var name := IdName(suffix);
    if name == "" || !AllDigits(name) then (st, NotFound)
    else
      match Stoi(name)
      case None => (st, Uncaught)
      case Some(id) => PutEntry(st, dir, Entity(suffix), id, PathOf(dir, suffix), body)
  }

  /** A DELETE of the file `path`, whose name `stoi` reads as `id`. */
  function DeleteFile(st: Store, entity: string, id: Option<int>, path: string): (Store, Reply) {
    match id
    case None => (st, BadRequest)
    case Some(n) =>
      if entity !in st.index then (st, NotFound)
      else (st.(files := st.files - {path}, index := st.index[entity := Without(st.index[entity], n)]), Deleted(entity))
  }

  function DeletePath(st: Store, entity: string, id: Option<int>, path: string): (Store, Reply) {
    if path in st.dirs then (st, BadRequest)
    else if path !in st.files then (st, NotFound)
    else DeleteFile(st, entity, id, path)
  }

  function HandleDelete(st: Store, dir: string, suffix: string): (Store, Reply) {
    DeletePath(st, Entity(suffix), Stoi(IdName(suffix)), PathOf(dir, suffix))
  }

  datatype Request =
    | Post(suffix: string, body: string) | Get(suffix: string)
    | Put(suffix: string, body: string) | Delete(suffix: string)

  function Handle(st: Store, dir: string, r: Request): (Store, Reply) {
    match r
    case Post(suffix, body) => HandlePost(st, dir, suffix, body)
    case Get(suffix) => HandleGet(st, dir, suffix)
    case Put(suffix, body) => HandlePut(st, dir, suffix, body)
    case Delete(suffix) => HandleDelete(st, dir, suffix)
  }

  /** The store after a run of requests, and the replies. */
  function HandleAll(st: Store, dir: string, rs: seq<Request>): (Store, seq<Reply>) {
    if rs == [] then (st, []) else
      var (st1, replies) := HandleAll(st, dir, rs[..|rs| - 1]);
      var (st2, reply) := Handle(st1, dir, rs[|rs| - 1]);
      (st2, replies + [reply])
  }

  // ---------- the index under any requests ----------

  predicate IndexOk(index: map<string, seq<int>>) {
    forall e :: e in index ==> IsIdList(index[e])
  }

  lemma NextIdKeepsIndex(index: map<string, seq<int>>, key: string)
    requires IndexOk(index)
    ensures var (id, index') := NextId(index, key);
            && IndexOk(index') && key in index'
            && IsLeastFree(if key in index then index[key] else [], id)
            && index' == index[key := index'[key]]
            && forall y :: y in index'[key] <==> y == id || (key in index && y in index[key])
  {
    if key in index {
      var id := LowestScan(index[key]);
      ScanBelow(index[key]);
      InsertKeepsList(index[key], id);
    }
  }

  lemma DigitsAreNonNegative(name: string)
    requires name != "" && AllDigits(name)
    ensures Stoi(name).Some? ==> Stoi(name).value >= 0
  {
    StoiOfDigits(name);
  }

  lemma PostKeepsIndex(st: Store, dir: string, suffix: string, body: string)
    requires IndexOk(st.index)
    ensures IndexOk(HandlePost(st, dir, suffix, body).0.index)
  {
    NextIdKeepsIndex(st.index, suffix);
  }

  lemma IndexEntryKeepsIndex(st: Store, dir: string, entity: string, id: int)
    requires IndexOk(st.index) && id >= 0
    ensures var (st', reply) := IndexEntry(st, dir, entity, id); st'.Some? ==> IndexOk(st'.value.index)
  {
    if entity in st.index && id !in st.index[entity] {
      InsertKeepsList(st.index[entity], id);
    }
    assert IsIdList([id]);
  }

  lemma PutEntryKeepsIndex(st: Store, dir: string, entity: string, id: int, path: string, body: string)
    requires IndexOk(st.index) && id >= 0
    ensures IndexOk(PutEntry(st, dir, entity, id, path, body).0.index)
  {
    IndexEntryKeepsIndex(st, dir, entity, id);
  }

  lemma PutKeepsIndex(st: Store, dir: string, suffix: string, body: string)
    requires IndexOk(st.index)
    ensures IndexOk(HandlePut(st, dir, suffix, body).0.index)
  {
    var name := IdName(suffix);
    if name != "" && AllDigits(name) {
      DigitsAreNonNegative(name);
      match Stoi(name)
      case None =>
      case Some(id) => PutEntryKeepsIndex(st, dir, Entity(suffix), id, PathOf(dir, suffix), body);
    }
  }

  lemma DeleteKeepsIndex(st: Store, dir: string, suffix: string)
    requires IndexOk(st.index)
    ensures IndexOk(HandleDelete(st, dir, suffix).0.index)
  {
    var entity := Entity(suffix);
    if entity in st.index && Stoi(IdName(suffix)).Some? {
      WithoutKeepsList(st.index[entity], Stoi(IdName(suffix)).value);
    }
  }

  /** Whatever is asked for, by whatever path, each id list stays strictly increasing and free of
      negative numbers: the one-pass search for a free id is always right. */
  lemma AnyRequestKeepsIndex(st: Store, dir: string, r: Request)
    requires IndexOk(st.index)
    ensures IndexOk(Handle(st, dir, r).0.index)
  {
    match r
    case Post(suffix, body) => PostKeepsIndex(st, dir, suffix, body);
    case Get(_) => assert IsIdList([]);
    case Put(suffix, body) => PutKeepsIndex(st, dir, suffix, body);
    case Delete(suffix) => DeleteKeepsIndex(st, dir, suffix);
  }

  lemma {:induction false} AnyRunKeepsIndex(st: Store, dir: string, rs: seq<Request>)
    requires IndexOk(st.index)
    ensures IndexOk(HandleAll(st, dir, rs).0.index)
    decreases |rs|
  {
    if rs != [] {
      AnyRunKeepsIndex(st, dir, rs[..|rs| - 1]);
      AnyRequestKeepsIndex(HandleAll(st, dir, rs[..|rs| - 1]).0, dir, rs[|rs| - 1]);
    }
  }

  /** So in every state that any requests lead to, a new entry gets the least positive id that is free. */
  lemma AnyRunAllocatesLeastFree(st: Store, dir: string, rs: seq<Request>, key: string)
    requires st.index == map[]
    ensures var index := HandleAll(st, dir, rs).0.index;
            IsLeastFree(if key in index then index[key] else [], NextId(index, key).0)
  {
    AnyRunKeepsIndex(st, dir, rs);
    NextIdKeepsIndex(HandleAll(st, dir, rs).0.index, key);
  }
}
