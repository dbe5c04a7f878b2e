/** What each request does to files, directories and index, on every store and for every path, and what
    a client reads in a listing. */
module CrudEffects {
  import opened CxxStrings
  import opened CrudStore

  // ---------- paths ----------

  lemma {:induction false} FindLastAt(a: string, b: string, c: char)
    requires c !in b
    ensures FindLast(a + [c] + b, c) == |a|
    decreases |b|
  {
    var s := a + [c] + b;
    if b == "" {
      assert s[|s| - 1] == c;
    } else {
      var front := b[..|b| - 1];
      assert s[|s| - 1] == b[|b| - 1] && b[|b| - 1] in b;
      assert s[..|s| - 1] == a + [c] + front;
      FindLastAt(a, front, c);
    }
  }

  /** The parent of a path is what comes before its last slash. */
  lemma ParentIs(a: string, b: string)
    requires '/' !in b
    ensures Parent(a + "/" + b) == a
    ensures Parent(b) == ""
  {
    FindLastAt(a, b, '/');
    assert a + "/" + b == a + ['/'] + b;
    assert (a + ['/'] + b)[..|a|] == a;
    FindLastIsLast(b, '/');
  }

  /** `suffix` has the entity `e` and the name `name`: what its last slash separates, or twice all of it. */
  predicate HasParts(suffix: string, e: string, name: string) {
    '/' !in name && (suffix == e + "/" + name || suffix == e == name)
  }

  lemma PartsAre(suffix: string, e: string, name: string)
    requires HasParts(suffix, e, name)
    ensures Entity(suffix) == e && IdName(suffix) == name
  {
    if suffix == e == name {
      FindLastIsLast(name, '/');
    } else {
      FindLastAt(e, name, '/');
      assert suffix == e + ['/'] + name && suffix[..|e|] == e && suffix[|e| + 1..] == name;
    }
  }

  /** Every suffix has such parts. */
  lemma PartsExist(suffix: string)
    ensures HasParts(suffix, Entity(suffix), IdName(suffix))
  {
    var p := FindLast(suffix, '/');
    FindLastIsLast(suffix, '/');
    if p >= 0 {
      assert suffix == suffix[..p] + [suffix[p]] + suffix[p + 1..];
    } else {
      assert suffix[0..] == suffix;
    }
  }

  // ---------- listings ----------

  /** Plain decimal: digits, no leading zero, the value `n`. */
  predicate IsPlainDecimal(s: string, n: int) {
    && s != "" && (forall i :: 0 <= i < |s| ==> '0' <= s[i] <= '9')
    && DecimalValue(s) == n && (|s| > 1 ==> s[0] != '0')
  }

  /** `text` is brackets around the ids, separated by commas, and a line feed. */
  predicate ListsIds(text: string, ids: seq<int>) {
    && |text| >= 3 && text[0] == '[' && text[|text| - 2] == ']' && text[|text| - 1] == '\n'
    && var inner := text[1..|text| - 2];
       if ids == [] then inner == "" else
         && inner != "" && |Split(inner, ',')| == |ids|
         && forall i :: 0 <= i < |ids| ==> IsPlainDecimal(Split(inner, ',')[i], ids[i])
  }

  lemma {:induction false} DecimalStringsAt(ids: seq<int>)
    ensures |DecimalStrings(ids)| == |ids|
    ensures forall i :: 0 <= i < |ids| ==> DecimalStrings(ids)[i] == ToString(ids[i])
    decreases |ids|
  {
    if ids != [] {
      var front, last := ids[..|ids| - 1], ids[|ids| - 1];
      var strings := DecimalStrings(front);
      DecimalStringsAt(front);
      assert DecimalStrings(ids) == strings + [ToString(last)];
      assert forall i :: 0 <= i < |front| ==> strings[i] == ToString(ids[i]);
    }
  }

  lemma DecimalIsPlain(n: nat)
    ensures IsPlainDecimal(ToDecimal(n), n) && ',' !in ToDecimal(n)
  {
    DecimalDigits(n);
    NoLeadingZero(n);
    assert forall i :: 0 <= i < |ToDecimal(n)| ==> IsDigit(ToDecimal(n)[i]);
  }

  /** The pieces of a listing are its ids in decimal. */
  lemma ListingPieces(ids: seq<int>)
    requires NonNegative(ids) && ids != []
    ensures Split(Join(DecimalStrings(ids), ","), ',') == DecimalStrings(ids) && Join(DecimalStrings(ids), ",") != ""
  {
    DecimalStringsAt(ids);
    forall i | 0 <= i < |ids|
      ensures ',' !in DecimalStrings(ids)[i] && DecimalStrings(ids)[i] != ""
    {
      DecimalIsPlain(ids[i]);
    }
    SplitJoin(DecimalStrings(ids), ',');
  }

  lemma Bracketed(inner: string)
    ensures var text := "[" + inner + "]\n";
            && |text| == |inner| + 3 && text[0] == '[' && text[|text| - 2] == ']' && text[|text| - 1] == '\n'
            && text[1..|text| - 2] == inner
  {
  }

  /** The text of a listing shows the ids in their order, each in plain decimal. */
  lemma ListingReads(ids: seq<int>)
    requires NonNegative(ids)
    ensures ListsIds(ListingText(ids), ids)
  {
    Bracketed(Join(DecimalStrings(ids), ","));
    if ids != [] {
      ListingPieces(ids);
      DecimalStringsAt(ids);
      forall i | 0 <= i < |ids|
        ensures IsPlainDecimal(DecimalStrings(ids)[i], ids[i])
      {
        DecimalIsPlain(ids[i]);
      }
    }
  }

  /** No text lists two different sequences of ids. */
  lemma ListedOnce(text: string, ids: seq<int>, ids': seq<int>)
    requires ListsIds(text, ids) && ListsIds(text, ids')
    ensures ids == ids'
  {
    var pieces := Split(text[1..|text| - 2], ',');
    assert forall i :: 0 <= i < |ids| ==> IsPlainDecimal(pieces[i], ids[i]);
    assert forall i :: 0 <= i < |ids'| ==> IsPlainDecimal(pieces[i], ids'[i]);
  }

  /** A GET lists a directory, with the ids of the index, and enters it into the index; it reads a file;
      there is nothing else. */
  lemma GetMeans(st: Store, dir: string, suffix: string)
    requires IndexOk(st.index)
    ensures var path := dir + "/" + suffix;
            var ids := if suffix in st.index then st.index[suffix] else [];
            var (st', reply) := HandleGet(st, dir, suffix);
            && st'.files == st.files && st'.dirs == st.dirs
            && (path in st.dirs ==>
                  reply.Listing? && ListsIds(reply.text, ids) && st'.index == st.index[suffix := ids])
            && (path !in st.dirs ==>
                  st' == st && reply == if path in st.files then Content(st.files[path]) else NotFound)
  {
    var ids := if suffix in st.index then st.index[suffix] else [];
    assert IsIdList(ids);
    ListingReads(ids);
  }

  // ---------- requests that write ----------

  /** The list of `key` has `id` more; no other list is touched. */
  ghost predicate Enters(index: map<string, seq<int>>, index': map<string, seq<int>>, key: string, id: int) {
    && key in index' && index' == index[key := index'[key]] && IsIdList(index'[key])
    && forall n :: n in index'[key] <==> n == id || (key in index && n in index[key])
  }

  lemma NumberedFile(path: string, id: nat)
    ensures Parent(path + "/" + ToString(id)) == path
  {
    DecimalIsPlain(id);
    NoSlashInPlain(ToDecimal(id), id);
    ParentIs(path, ToDecimal(id));
  }

  lemma FinishPostMeans(st: Store, id: int, path: string, file: string, body: string)
    requires Parent(file) == path
    ensures FinishPost(st, id, file, body) ==
            (st.(files := if file !in st.dirs && path in st.dirs then st.files[file := body] else st.files),
             if file in st.dirs then InternalError else Created(id))
  {
  }

  /** A POST gets the least free id of its key. It changes nothing if the index does not know the key and
      its directory cannot be made. A directory that has the new file's name makes it fail with the id
      entered; if the key's own directory is gone, the body is lost. */
  lemma PostMeans(st: Store, dir: string, suffix: string, body: string) returns (id: int)
    requires IndexOk(st.index)
    ensures IsLeastFree(if suffix in st.index then st.index[suffix] else [], id)
    ensures var path := dir + "/" + suffix;
            var file := path + "/" + ToString(id);
            var (st', reply) := HandlePost(st, dir, suffix, body);
            if suffix !in st.index && path !in st.dirs && (path in st.files || Parent(path) !in st.dirs)
            then st' == st && reply == Unprocessable
            else
              && st'.dirs == (if suffix in st.index then st.dirs else st.dirs + {path})
              && Enters(st.index, st'.index, suffix, id)
              && reply == (if file in st'.dirs then InternalError else Created(id))
              && st'.files == if file !in st'.dirs && path in st'.dirs then st.files[file := body] else st.files
  {
    id := NextId(st.index, suffix).0;
    NextIdKeepsIndex(st.index, suffix);
    var path := dir + "/" + suffix;
    var dirs := if suffix in st.index then st.dirs else st.dirs + {path};
    NumberedFile(path, id);
    FinishPostMeans(Store(st.files, dirs, NextId(st.index, suffix).1), id, path, path + "/" + ToString(id), body);
  }

  lemma NoSlashInPlain(s: string, n: int)
    requires IsPlainDecimal(s, n)
    ensures '/' !in s
  {
  }

  lemma IndexEntryMeans(st: Store, dir: string, e: string, id: int)
    requires IndexOk(st.index) && id >= 0
    ensures var path := dir + "/" + e;
            var (indexed, reply) := IndexEntry(st, dir, e, id);
            if e !in st.index && path !in st.dirs && (path in st.files || Parent(path) !in st.dirs)
            then indexed == None && reply == Unprocessable
            else
              && indexed.Some? && indexed.value.files == st.files
              && indexed.value.dirs == (if e in st.index then st.dirs else st.dirs + {path})
              && Enters(st.index, indexed.value.index, e, id)
              && reply == if e in st.index && id in st.index[e] then Updated(id) else Created(id)
  {
    IndexEntryKeepsIndex(st, dir, e, id);
    if e in st.index && id !in st.index[e] {
      InsertKeepsList(st.index[e], id);
    }
  }

  /** The PUT of a number `id`, to be stored at `file`. */
  lemma PutEntryMeans(st: Store, dir: string, e: string, id: int, file: string, body: string)
    requires IndexOk(st.index) && id >= 0
    ensures var entity := dir + "/" + e;
            var (st', reply) := PutEntry(st, dir, e, id, file, body);
            if e !in st.index && entity !in st.dirs && (entity in st.files || Parent(entity) !in st.dirs)
            then st' == st && reply == Unprocessable
            else
              && st'.dirs == (if e in st.index then st.dirs else st.dirs + {entity})
              && Enters(st.index, st'.index, e, id)
              && reply == (if file in st'.dirs then NotFound
                           else if e in st.index && id in st.index[e] then Updated(id) else Created(id))
              && st'.files == if file !in st'.dirs && Parent(file) in st'.dirs then st.files[file := body] else st.files
  {
    IndexEntryMeans(st, dir, e, id);
  }

  /** Which PUTs are numbers. */
  lemma PutOfName(st: Store, dir: string, suffix: string, e: string, name: string, body: string)
    requires HasParts(suffix, e, name)
    ensures if name == "" || exists i :: 0 <= i < |name| && !('0' <= name[i] <= '9')
            then HandlePut(st, dir, suffix, body) == (st, NotFound)
            else if DecimalValue(name) > 2147483647 then HandlePut(st, dir, suffix, body) == (st, Uncaught)
            else HandlePut(st, dir, suffix, body) == PutEntry(st, dir, e, DecimalValue(name), dir + "/" + suffix, body)
  {
    PartsAre(suffix, e, name);
    if name != "" && AllDigits(name) {
      StoiOfDigits(name);
    }
  }

  /** A PUT takes a number in digits. One that does not fit an int is not caught. It changes nothing if
      the index does not know the entity and its directory cannot be made; otherwise the id is entered,
      whatever becomes of the file. */
  lemma PutMeans(st: Store, dir: string, suffix: string, e: string, name: string, body: string)
    requires IndexOk(st.index) && HasParts(suffix, e, name)
    ensures var entity, file := dir + "/" + e, dir + "/" + suffix;
            var (st', reply) := HandlePut(st, dir, suffix, body);
            if name == "" || exists i :: 0 <= i < |name| && !('0' <= name[i] <= '9') then st' == st && reply == NotFound
            else if DecimalValue(name) > 2147483647 then st' == st && reply == Uncaught
            else if e !in st.index && entity !in st.dirs && (entity in st.files || Parent(entity) !in st.dirs)
            then st' == st && reply == Unprocessable
            else
              var id := DecimalValue(name);
              && st'.dirs == (if e in st.index then st.dirs else st.dirs + {entity})
              && Enters(st.index, st'.index, e, id)
              && reply == (if file in st'.dirs then NotFound
                           else if e in st.index && id in st.index[e] then Updated(id) else Created(id))
              && st'.files == if file !in st'.dirs && Parent(file) in st'.dirs then st.files[file := body] else st.files
  {
    PutOfName(st, dir, suffix, e, name, body);
    if name != "" && AllDigits(name) {
      PutEntryMeans(st, dir, e, DecimalValue(name), dir + "/" + suffix, body);
    }
  }

  /** On every store: a POST is unprocessable exactly if the index does not know the key, its directory is
      not there, and there is a file in its place or no directory to make it in; then nothing changes. */
  lemma PostRefused(st: Store, dir: string, suffix: string, body: string)
    ensures var path := dir + "/" + suffix;
            HandlePost(st, dir, suffix, body).1 == Unprocessable <==>
              suffix !in st.index && path !in st.dirs && (path in st.files || Parent(path) !in st.dirs)
    ensures HandlePost(st, dir, suffix, body).1 == Unprocessable ==> HandlePost(st, dir, suffix, body).0 == st
  {
  }

  /** The same for the entity of a PUT. */
  lemma PutRefused(st: Store, dir: string, suffix: string, e: string, name: string, body: string)
    requires HasParts(suffix, e, name)
    requires name != "" && (forall i :: 0 <= i < |name| ==> '0' <= name[i] <= '9') && DecimalValue(name) <= 2147483647
    ensures var entity := dir + "/" + e;
            HandlePut(st, dir, suffix, body).1 == Unprocessable <==>
              e !in st.index && entity !in st.dirs && (entity in st.files || Parent(entity) !in st.dirs)
    ensures HandlePut(st, dir, suffix, body).1 == Unprocessable ==> HandlePut(st, dir, suffix, body).0 == st
  {
    PutOfName(st, dir, suffix, e, name, body);
  }

  /** A DELETE removes a file whose name starts with a number, and that number from the entity's list, if
      the index knows the entity. */
  lemma DeleteMeans(st: Store, dir: string, suffix: string, e: string, name: string)
    requires IndexOk(st.index) && HasParts(suffix, e, name)
    ensures var path := dir + "/" + suffix;
            var (st', reply) := HandleDelete(st, dir, suffix);
            if path in st.dirs then st' == st && reply == BadRequest
            else if path !in st.files then st' == st && reply == NotFound
            else if Stoi(name).None? then st' == st && reply == BadRequest
            else if e !in st.index then st' == st && reply == NotFound
            else
              && reply == Deleted(e) && st'.dirs == st.dirs && st'.files == st.files - {path}
              && e in st'.index && st'.index == st.index[e := st'.index[e]] && IsIdList(st'.index[e])
              && forall n :: n in st'.index[e] <==> n in st.index[e] && n != Stoi(name).value
  {
    PartsAre(suffix, e, name);
    if e in st.index && Stoi(name).Some? {
      WithoutKeepsList(st.index[e], Stoi(name).value);
    }
  }
}
