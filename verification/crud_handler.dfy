/** The CRUD handler as an object: it changes the file system and the index it shares with its
    factory, and each request is proved against its effect on the store. */
module CrudHandlers {
  import opened CxxStrings
  import opened CrudStore
  import opened CrudRefinement
  import Routing

  /** The part of the disk the handler sees. */
  class FileSystem {
    var files: map<string, string>
    var dirs: set<string>

    predicate Exists(path: string)
      reads this
    {
      path in files || path in dirs
    }

    predicate IsDirectory(path: string)
      reads this
    {
      path in dirs
    }

    /** `create_directory`; false stands for the exception. */
    method CreateDirectory(path: string) returns (ok: bool)
      modifies this
      ensures files == old(files)
      ensures ok <==> path in old(dirs) || (path !in files && Parent(path) in old(dirs))
      ensures dirs == if ok then old(dirs) + {path} else old(dirs)
    {
      if path in dirs {
        return true;
      }
      if path in files || Parent(path) !in dirs {
        return false;
      }
      dirs := dirs + {path};
      return true;
    }

    /** Writing through a stream: nothing happens when the file cannot be opened. */
    method WriteStream(path: string, text: string)
      modifies this
      ensures dirs == old(dirs)
      ensures files == if path in dirs || Parent(path) !in dirs then old(files) else old(files)[path := text]
    {
      if path !in dirs && Parent(path) in dirs {
        files := files[path := text];
      }
    }

    /** `std::remove` on a file. */
    method Remove(path: string) returns (ok: bool)
      modifies this
      ensures dirs == old(dirs) && ok == (path in old(files)) && files == old(files) - {path}
    {
      ok := path in files;
      files := files - {path};
    }
  }

  /** `file_to_id`, owned by the handler's factory. */
  class IdIndex {
    var lists: map<string, seq<int>>

    constructor ()
      ensures lists == map[]
    {
      lists := map[];
    }
  }

  datatype Verb = PostVerb | GetVerb | PutVerb | DeleteVerb | OtherVerb

  class CrudHandler {
    const prefix: string
    const dir: string
    const index: IdIndex
    const fs: FileSystem

    constructor (location: string, root: string, index: IdIndex, fs: FileSystem)
      ensures this.prefix == location && this.dir == root && this.index == index && this.fs == fs
    {
      this.prefix, this.dir, this.index, this.fs := location, root, index, fs;
    }

    ghost function State(): Store
      reads index, fs
    {
      Store(fs.files, fs.dirs, index.lists)
    }

    /** `write_to_file` */
    method WriteToFile(path: string, content: string) returns (ok: bool)
      modifies fs
      ensures var r := WriteFile(old(State()), path, content);
              ok == r.Some? && State() == if ok then r.value else old(State())
    {
      if fs.IsDirectory(path) {
        return false;
      }
      fs.WriteStream(path, content);
      return true;
    }

    /** `create_dir` */
    method MakeDir(path: string) returns (ok: bool)
      modifies fs
      ensures var r := CreateDir(old(State()), path);
              ok == r.Some? && State() == if ok then r.value else old(State())
    {
      if fs.Exists(path) && fs.IsDirectory(path) {
        return true;
      }
      ok := fs.CreateDirectory(path);
    }

    method InsertToMap(key: string, id: int) returns (added: bool)
      modifies index
      ensures added <==> key in old(index.lists) && id !in old(index.lists)[key]
      ensures index.lists == if added
          then old(index.lists)[key := Insert(old(index.lists)[key], id)] else old(index.lists)
    {
      if key in index.lists {
        var idNames := index.lists[key];
        if id !in idNames {
          index.lists := index.lists[key := index.lists[key] + [id]];
          var valuesCopy := Sort(index.lists[key]);
          index.lists := index.lists[key := valuesCopy];
          return true;
        }
      }
      return false;
    }

    /** One pass over the list; on a list of ids, which every list in the index is, the result is
        the least positive number that is free. */
    method GetNextId(key: string) returns (id: int)
      modifies index
      ensures (id, index.lists) == NextId(old(index.lists), key)
      ensures IndexOk(old(index.lists)) ==>
                IsLeastFree(if key in old(index.lists) then old(index.lists)[key] else [], id)
    {
      ghost var lists := index.lists;
      if IndexOk(lists) {
        NextIdKeepsIndex(lists, key);
      }
      id := 1;
      if key !in index.lists {
        index.lists := index.lists[key := [1]];
        return;
      }
      var i := 0;
      while i < |index.lists[key]|
        invariant index.lists == lists && 0 <= i <= |lists[key]|
        invariant id == LowestScan(lists[key][..i])
      {
        assert lists[key][..i + 1][..i] == lists[key][..i];
        if index.lists[key][i] == id {
          id := id + 1;
        }
        i := i + 1;
      }
      assert lists[key][..i] == lists[key];
      var added := InsertToMap(key, id);
    }

    method HandlePostRequest(suffix: string, body: string) returns (reply: Reply)
      modifies index, fs
      ensures (State(), reply) == HandlePost(old(State()), dir, suffix, body)
    {
      var path := dir + "/" + suffix;
      if suffix !in index.lists {
        var made := MakeDir(path);
        if !made {
          return Unprocessable;
        }
      }
      var value := GetNextId(suffix);
      var written := WriteToFile(path + "/" + ToString(value), body);
      return if written then Created(value) else InternalError;
    }

    method HandleGetRequest(suffix: string) returns (reply: Reply)
      modifies index
      ensures (State(), reply) == HandleGet(old(State()), dir, suffix)
    {
      var path := dir + "/" + suffix;
      if fs.Exists(path) {
        if fs.IsDirectory(path) {
          if suffix !in index.lists {
            index.lists := index.lists[suffix := []];
          }
          var ids := index.lists[suffix];
          var idsStr: seq<string> := [];
          for i := 0 to |ids|
            invariant idsStr == DecimalStrings(ids[..i])
          {
            assert ids[..i + 1][..i] == ids[..i];
            idsStr := idsStr + [ToString(ids[i])];
          }
          assert ids[..|ids|] == ids;
          assert old(suffix in index.lists) ==> old(index.lists)[suffix := ids] == old(index.lists);
          return Listing("[" + Join(idsStr, ",") + "]\n");
        } else {
          return Content(fs.files[path]);
        }
      }
      return NotFound;
    }

    method HandlePutRequest(suffix: string, body: string) returns (reply: Reply)
      modifies index, fs
      ensures (State(), reply) == HandlePut(old(State()), dir, suffix, body)
    {
      var path := dir + "/" + suffix;
      var found := FindLast(suffix, '/');
      var idName := suffix[found + 1..];
      var entity := if found < 0 then suffix else suffix[..found];
      var it := 0;
      while it < |idName| && IsDigit(idName[it])
        invariant 0 <= it <= |idName|
        invariant forall i :: 0 <= i < it ==> IsDigit(idName[i])
      {
        it := it + 1;
      }
      if idName != "" && it == |idName| {
        match Stoi(idName)
        case None =>
          return Uncaught;
        case Some(value) =>
          reply := PutNumber(entity, value, path, body);
      } else {
        return NotFound;
      }
    }

    method PutNumber(entity: string, value: int, path: string, body: string) returns (reply: Reply)
      modifies index, fs
      ensures (State(), reply) == PutEntry(old(State()), dir, entity, value, path, body)
    {
      if entity in index.lists {
        var added := InsertToMap(entity, value);
        reply := if added then Created(value) else Updated(value);
      } else {
        var made := MakeDir(dir + "/" + entity);
        if !made {
          return Unprocessable;
        }
        index.lists := index.lists[entity := [value]];
        reply := Created(value);
      }
      var written := WriteToFile(path, body);
      if !written {
        reply := NotFound;
      }
    }

    method HandleDeleteRequest(suffix: string) returns (reply: Reply)
      modifies index, fs
      ensures (State(), reply) == HandleDelete(old(State()), dir, suffix)
    {
      var path := dir + "/" + suffix;
      if fs.Exists(path) {
        if fs.IsDirectory(path) {
          return BadRequest;
        }
        var found := FindLast(suffix, '/');
        var idName := suffix[found + 1..];
        var entity := if found < 0 then suffix else suffix[..found];
        match Stoi(idName)
        case None =>
          return BadRequest;
        case Some(value) =>
          if entity in index.lists {
            var removed := fs.Remove(path);
            if removed {
              EraseValue(entity, value);
              return Deleted(entity);
            } else {
              return InternalError;
            }
          }
      }
      return NotFound;
    }

    /** `erase(remove(...))` on a list of the index. */
    method EraseValue(key: string, value: int)
      requires key in index.lists
      modifies index
      ensures index.lists == old(index.lists)[key := Without(old(index.lists)[key], value)]
    {
      var ids := index.lists[key];
      var kept: seq<int> := [];
      for i := 0 to |ids|
        invariant kept == Without(ids[..i], value)
      {
        assert ids[..i + 1][..i] == ids[..i];
        if ids[i] != value {
          kept := kept + [ids[i]];
        }
      }
      assert ids[..|ids|] == ids;
      index.lists := index.lists[key := kept];
    }

    /** The whole request: URL check, then the verb's handler. In particular, in a flat store a POST under
        the handler's location gets the least free id of the name and leaves its body in that entry's file. */
    method HandleRequest(verb: Verb, target: string, body: string) returns (reply: Reply)
      modifies index, fs
      ensures var key := Routing.RequestKey(prefix, target, false);
              && (key.None? || verb == OtherVerb ==> State() == old(State()) && reply == BadRequest)
              && (key.Some? && verb == PostVerb ==> (State(), reply) == HandlePost(old(State()), dir, key.value, body))
              && (key.Some? && verb == GetVerb ==> (State(), reply) == HandleGet(old(State()), dir, key.value))
              && (key.Some? && verb == PutVerb ==> (State(), reply) == HandlePut(old(State()), dir, key.value, body))
              && (key.Some? && verb == DeleteVerb ==> (State(), reply) == HandleDelete(old(State()), dir, key.value))
      ensures verb == PostVerb && Flat(old(State()), dir) ==>
                forall e :: IsName(e) && target == prefix + "/" + e ==>
                  && reply.Created?
                  && IsLeastFree(if e in old(index.lists) then old(index.lists)[e] else [], reply.id)
                  && fs.files == old(fs.files)[dir + "/" + e + "/" + ToString(reply.id) := body]
                  && fs.dirs == old(fs.dirs) + {dir + "/" + e} && e in index.lists && reply.id in index.lists[e]
    {
      ghost var st := State();
      var ok, suffix := Routing.CheckRequestUrl(prefix, target, false);
      if verb == PostVerb && Flat(st, dir) {
        forall e | IsName(e) && target == prefix + "/" + e
          ensures ok && suffix == e
        {
          NameOfUrl(prefix, e);
        }
      }
      if !ok {
        return BadRequest;
      }
      match verb
      case PostVerb =>
        reply := HandlePostRequest(suffix, body);
        if Flat(st, dir) && IsName(suffix) {
          NewEntry(st, dir, suffix, body);
        }
      case GetVerb => reply := HandleGetRequest(suffix);
      case PutVerb => reply := HandlePutRequest(suffix, body);
      case DeleteVerb => reply := HandleDeleteRequest(suffix);
      case OtherVerb => reply := BadRequest;
    }
  }

  /** Behind the location a name is the key. */
  lemma NameOfUrl(prefix: string, e: string)
    requires IsName(e)
    ensures Routing.RequestKey(prefix, prefix + "/" + e, false) == Some(e)
  {
    assert e[|e| - 1] in e;
    assert prefix + "/" + e + "" == prefix + "/" + e;
    Routing.KeyOfUrl(prefix, e, "", false);
  }

  /** What a POST of a name does to a flat store. */
  lemma NewEntry(st: Store, dir: string, e: string, body: string)
    requires Flat(st, dir) && IsName(e)
    ensures var (st', reply) := HandlePost(st, dir, e, body);
            && reply.Created? && IsLeastFree(if e in st.index then st.index[e] else [], reply.id)
            && st'.files == st.files[dir + "/" + e + "/" + ToString(reply.id) := body]
            && st'.dirs == st.dirs + {dir + "/" + e} && e in st'.index && reply.id in st'.index[e]
  {
    PostResult(st, dir, e, body);
    KeyPath(dir, e, NextId(st.index, e).0);
  }
}
