/**
 * Level packs on the client (rogue_talk/client/level_pack.py): the tar
 * members or files received from the server are written into a directory,
 * skipping absolute and parent-relative paths; the level pack's files are then
 * located in that directory, and level.json is read for doors, streams and
 * interactions. The directory is a map from relative path to entry, the tar
 * archive its list of members, and level.json its parsed JSON value.
 */
module LevelPacks {
  import opened Wrappers
  import opened Bytes
  import opened Errors
  import Text
  import ClientLevel
  import opened JsonValues

  // ---------------------------------------------------------------- the directory

  datatype Entry = File(content: seq<byte>) | Directory

  /** The extraction directory: relative path to what is there. */
  type Dir = map<string, Entry>

  /** A tar member: its name, whether it is a directory, and its bytes. */
  datatype TarMember = TarMember(name: string, isDir: bool, content: seq<byte>)

  /** The path-safety rule: an absolute path, or one containing "..", is never written. */
  predicate Unsafe(path: string) {
    Text.StartsWith(path, "/") || Text.Contains(path, "..")
  }

  /** The directories above `path` that writing it creates (`parents=True`). */
  function Parents(path: string): set<string> {
    set i | 0 < i < |path| && path[i] == '/' :: path[..i]
  }

  /** Writing `entry` at `path`: missing parent directories appear, and the path itself is replaced. */
  function Put(dir: Dir, path: string, entry: Entry): (r: Dir)
    ensures r.Keys == dir.Keys + Parents(path) + {path}
    ensures r[path] == entry
    ensures forall p :: p in dir && p != path ==> r[p] == dir[p]
  {
    (map p | p in dir.Keys + Parents(path) :: if p in dir then dir[p] else Directory)[path := entry]
  }

  // ---------------------------------------------------------------- extract_level_pack

  /** The members that survive the filter, in archive order. */
  function KeepSafe(members: seq<TarMember>): seq<TarMember>
    decreases |members|
  {
    if |members| == 0 then []
    else
      var last := members[|members| - 1];
      KeepSafe(members[..|members| - 1]) + (if Unsafe(last.name) then [] else [last])
  }

  /** A member is kept exactly when its name is safe. */
  lemma {:induction false} KeepSafeMembers(members: seq<TarMember>, m: TarMember)
    ensures m in KeepSafe(members) <==> m in members && !Unsafe(m.name)
    decreases |members|
  {
    if members != [] {
      var init := members[..|members| - 1];
      KeepSafeMembers(init, m);
      assert members == init + [members[|members| - 1]];
    }
  }

  /** The filter keeps relative order: filtering two runs of members is filtering each. */
  lemma {:induction false} KeepSafeAppend(a: seq<TarMember>, b: seq<TarMember>)
    ensures KeepSafe(a + b) == KeepSafe(a) + KeepSafe(b)
    decreases |b|
  {
    if b == [] {
      assert a + b == a;
    } else {
      var init := b[..|b| - 1];
      KeepSafeAppend(a, init);
      assert (a + b)[..|a + b| - 1] == a + init;
    }
  }

  /** An archive of safe members passes the filter whole. */
  lemma {:induction false} KeepSafeAllSafe(members: seq<TarMember>)
    requires forall i :: 0 <= i < |members| ==> !Unsafe(members[i].name)
    ensures KeepSafe(members) == members
    decreases |members|
  {
    if members != [] {
      KeepSafeAllSafe(members[..|members| - 1]);
    }
  }

  /** The `safe_members` loop of `extract_level_pack`. */
  method SafeMembers(members: seq<TarMember>) returns (safe: seq<TarMember>)
    ensures safe == KeepSafe(members)
  {
    safe := [];
    for i := 0 to |members|
      invariant safe == KeepSafe(members[..i])
    {
      assert members[..i + 1][..i] == members[..i];
      if Text.StartsWith(members[i].name, "/") {
        continue;
      }
      if Text.Contains(members[i].name, "..") {
        continue;
      }
      safe := safe + [members[i]];
    }
    assert members[..|members|] == members;
  }

  /** `tar.extractall(members=safe_members)`: each member written in turn, a later one replacing an earlier one. */
  function ExtractAll(dir: Dir, members: seq<TarMember>): Dir
    decreases |members|
  {
    if |members| == 0 then dir
    else
      var m := members[|members| - 1];
      Put(ExtractAll(dir, members[..|members| - 1]), m.name, if m.isDir then Directory else File(m.content))
  }

  /** Where the level pack's files were found; the optional ones are None when absent. */
  datatype LevelPack = LevelPack(levelPath: string, tilesPath: Option<string>, assetsDir: Option<string>,
    levelJsonPath: Option<string>)

  /** `create_level_pack_from_dir`: level.txt is required; assets must be a directory. */
  function Resolve(dir: Dir): (r: Result<LevelPack, Error>)
    ensures r.Failure? <==> "level.txt" !in dir
    ensures r.Failure? ==> r.error == ValueError
    ensures r.Success? ==> r.value.levelPath == "level.txt"
    ensures r.Success? ==> (r.value.tilesPath.Some? <==> "tiles.json" in dir)
    ensures r.Success? ==> (r.value.assetsDir.Some? <==> "assets" in dir && dir["assets"].Directory?)
    ensures r.Success? ==> (r.value.levelJsonPath.Some? <==> "level.json" in dir)
  {
    if "level.txt" !in dir then Failure(ValueError)
    else
      Success(LevelPack(
        "level.txt",
        if "tiles.json" in dir then Some("tiles.json") else None,
        if "assets" in dir && dir["assets"].Directory? then Some("assets") else None,
        if "level.json" in dir then Some("level.json") else None))
  }

  /** `extract_level_pack(tarball, dir)`: the safe members are extracted, then the level pack is located. */
  method ExtractLevelPack(members: seq<TarMember>, dir: Dir) returns (extracted: Dir, r: Result<LevelPack, Error>)
    ensures extracted == ExtractAll(dir, KeepSafe(members))
    ensures r == Resolve(extracted)
  {
    var safe := SafeMembers(members);
    extracted := ExtractAll(dir, safe);
    r := Resolve(extracted);
  }

  /** A prefix of a path that contains no ".." contains none either. */
  lemma {:induction false} ContainsPrefix(s: string, i: nat, p: string)
    requires i <= |s|
    ensures Text.Contains(s[..i], p) ==> Text.Contains(s, p)
    decreases |s|
  {
    var t := s[..i];
    if Text.Contains(t, p) && !Text.StartsWith(t, p) {
      assert t[1..] == s[1..][..i - 1];
      ContainsPrefix(s[1..], i - 1, p);
    } else if Text.StartsWith(t, p) {
      assert s[..|p|] == t[..|p|];
    }
  }

  /** The directories above a safe path are safe. */
  lemma ParentsSafe(path: string, q: string)
    requires !Unsafe(path) && q in Parents(path)
    ensures !Unsafe(q)
  {
    var i :| 0 < i < |path| && path[i] == '/' && q == path[..i];
    ContainsPrefix(path, i, "..");
  }

  /** Extraction creates nothing at an unsafe path: every new entry is a safe member or a directory above one. */
  lemma {:induction false} ExtractCreatesOnlySafe(dir: Dir, members: seq<TarMember>, p: string)
    requires forall i :: 0 <= i < |members| ==> !Unsafe(members[i].name)
    requires p in ExtractAll(dir, members) && p !in dir
    ensures !Unsafe(p)
    decreases |members|
  {
    var m := members[|members| - 1];
    var init := members[..|members| - 1];
    if p in ExtractAll(dir, init) {
      ExtractCreatesOnlySafe(dir, init, p);
    } else if p != m.name {
      ParentsSafe(m.name, p);
    }
  }

  /** `extract_level_pack` never writes to an absolute or parent-relative path. */
  lemma ExtractLevelPackSafe(members: seq<TarMember>, dir: Dir, p: string)
    requires p in ExtractAll(dir, KeepSafe(members)) && p !in dir
    ensures !Unsafe(p)
  {
    var safe := KeepSafe(members);
    forall i | 0 <= i < |safe| ensures !Unsafe(safe[i].name) {
      KeepSafeMembers(members, safe[i]);
    }
    ExtractCreatesOnlySafe(dir, safe, p);
  }

  // ---------------------------------------------------------------- write_files_to_dir

  /** The files written by `write_files_to_dir`, in the dict's order, unsafe paths skipped. */
  function WriteAll(dir: Dir, files: seq<(string, seq<byte>)>): (r: Dir)
    decreases |files|
  {
    if |files| == 0 then dir
    else
      var (path, content) := files[|files| - 1];
      var d := WriteAll(dir, files[..|files| - 1]);
      if Unsafe(path) then d else Put(d, path, File(content))
  }

  /** `write_files_to_dir(files, dir)`: every file written in order except those at unsafe paths. */
  method WriteFilesToDir(files: seq<(string, seq<byte>)>, dir: Dir) returns (r: Dir)
    ensures r == WriteAll(dir, files)
  {
    r := dir;
    for i := 0 to |files|
      invariant r == WriteAll(dir, files[..i])
    {
      assert files[..i + 1][..i] == files[..i];
      var (relPath, content) := files[i];
      if Text.StartsWith(relPath, "/") || Text.Contains(relPath, "..") {
        continue;
      }
      r := Put(r, relPath, File(content));
    }
    assert files[..|files|] == files;
  }

  /**
   * The last safe entry for a path is what the directory holds there, and an
   * unsafe path is never created.
   */
  lemma {:induction false} WriteAllSpec(dir: Dir, files: seq<(string, seq<byte>)>, p: string)
    ensures Unsafe(p) ==> (p in WriteAll(dir, files) <==> p in dir) && (p in dir ==> WriteAll(dir, files)[p] == dir[p])
    ensures forall i :: 0 <= i < |files| && files[i].0 == p && !Unsafe(p) ==>
      p in WriteAll(dir, files) && WriteAll(dir, files)[p].File?
    decreases |files|
  {
    if files != [] {
      var n := |files| - 1;
      var init := files[..n];
      WriteAllSpec(dir, init, p);
      assert forall i :: 0 <= i < n ==> init[i] == files[i];
      var (path, content) := files[n];
      if Unsafe(p) && !Unsafe(path) {
        forall q | q in Parents(path) ensures q != p {
          ParentsSafe(path, q);
        }
      }
      if !Unsafe(p) && !Unsafe(path) && p != path {
        assert p in WriteAll(dir, init) ==> WriteAll(dir, files)[p] == WriteAll(dir, init)[p];
      }
    }
  }

  // ---------------------------------------------------------------- level.json

  /** A stream definition from level.json. */
  datatype StreamInfo = StreamInfo(x: int, y: int, url: string, radius: int)

  /** An interaction definition from level.json. */
  datatype InteractionInfo = InteractionInfo(x: int, y: int, text: string, hidden: bool)

  function AsInt(j: Json): Result<int, Error> {
    if j.JNumber? then Success(j.n) else Failure(TypeError)
  }

  function AsString(j: Json): Result<string, Error> {
    if j.JString? then Success(j.s) else Failure(TypeError)
  }

  /** A value that may be null: `target_level` is None when null or absent. */
  function AsOptString(j: Json): Result<Option<string>, Error> {
    match j
    case JNull => Success(None)
    case JString(s) => Success(Some(s))
    case _ => Failure(TypeError)
  }

  /**
   * `data.get(key, [])` iterated: an array gives its elements; an empty
   * string or object iterates to nothing; anything else cannot be iterated,
   * and a string or object with contents yields entries that cannot be indexed by name.
   */
  function Entries(data: Json, key: string): (r: Result<seq<Json>, Error>)
    ensures data.JObject? && key !in data.fields ==> r == Success([])
    ensures data.JObject? && key in data.fields && data.fields[key].JArray? ==> r == Success(data.fields[key].items)
    ensures !data.JObject? ==> r == Failure(AttributeError)
  {
    var v :- FieldOr(data, key, JArray([]));
    match v
    case JArray(items) => Success(items)
    case JString(s) => if s == "" then Success([]) else Failure(TypeError)
    case JObject(f) => if f == map[] then Success([]) else Failure(TypeError)
    case _ => Failure(TypeError)
  }

  /**
   * The `DoorInfo(...)` of `parse_doors` for one entry: every field is looked
   * up before any is converted, so a missing key is a KeyError whatever the
   * other values are. `see_through` is only ever tested for truth, so any
   * JSON value is taken by its Python truth value.
   */
  function ParseDoor(d: Json): Result<ClientLevel.DoorInfo, Error> {
    var x :- Field(d, "x");
    var y :- Field(d, "y");
    var targetLevel :- FieldOr(d, "target_level", JNull);
    var targetX :- Field(d, "target_x");
    var targetY :- Field(d, "target_y");
    var seeThrough :- FieldOr(d, "see_through", JBool(false));
    var x :- AsInt(x);
    var y :- AsInt(y);
    var targetLevel :- AsOptString(targetLevel);
    var targetX :- AsInt(targetX);
    var targetY :- AsInt(targetY);
    Success(ClientLevel.DoorInfo(x, y, targetLevel, targetX, targetY, Truthy(seeThrough)))
  }

  /** The `StreamInfo(...)` of `parse_streams` for one entry, looking up every field first. */
  function ParseStream(d: Json): Result<StreamInfo, Error> {
    var x :- Field(d, "x");
    var y :- Field(d, "y");
    var url :- Field(d, "url");
    var radius :- FieldOr(d, "radius", JNumber(5));
    var x :- AsInt(x);
    var y :- AsInt(y);
    var url :- AsString(url);
    var radius :- AsInt(radius);
    Success(StreamInfo(x, y, url, radius))
  }

  /** The `InteractionInfo(...)` of `parse_interactions` for one entry; `hidden` is taken by its truth value. */
  function ParseInteraction(d: Json): Result<InteractionInfo, Error> {
    var x :- Field(d, "x");
    var y :- Field(d, "y");
    var text :- Field(d, "text");
    var hidden :- FieldOr(d, "hidden", JBool(false));
    var x :- AsInt(x);
    var y :- AsInt(y);
    var text :- AsString(text);
    Success(InteractionInfo(x, y, text, Truthy(hidden)))
  }

  /** Every entry parsed in order; the first one that fails decides the error. */
  function ParseEach<T>(items: seq<Json>, parse: Json -> Result<T, Error>): Result<seq<T>, Error>
    decreases |items|
  {
    if |items| == 0 then Success([])
    else
      var init :- ParseEach(items[..|items| - 1], parse);
      var last :- parse(items[|items| - 1]);
      Success(init + [last])
  }

  /** The list succeeds exactly when every entry does, and then holds each entry's value in order. */
  lemma {:induction false} ParseEachSpec<T>(items: seq<Json>, parse: Json -> Result<T, Error>)
    ensures ParseEach(items, parse).Success? <==> forall i :: 0 <= i < |items| ==> parse(items[i]).Success?
    ensures ParseEach(items, parse).Success? ==>
      |ParseEach(items, parse).value| == |items|
      && forall i :: 0 <= i < |items| ==> ParseEach(items, parse).value[i] == parse(items[i]).value
    ensures ParseEach(items, parse).Failure? ==>
      exists i :: 0 <= i < |items| && parse(items[i]).Failure? && ParseEach(items, parse).error == parse(items[i]).error
        && forall j :: 0 <= j < i ==> parse(items[j]).Success?
    decreases |items|
  {
    if items != [] {
      var n := |items| - 1;
      var init := items[..n];
      ParseEachSpec(init, parse);
      assert forall i :: 0 <= i < n ==> init[i] == items[i];
      if ParseEach(init, parse).Success? && parse(items[n]).Failure? {
        assert forall j :: 0 <= j < n ==> parse(items[j]).Success?;
      }
    }
  }

  /** The loop of each `parse_*` function: one value appended per entry. */
  method ParseList<T>(items: seq<Json>, parse: Json -> Result<T, Error>) returns (r: Result<seq<T>, Error>)
    ensures r == ParseEach(items, parse)
  {
    var values: seq<T> := [];
    for i := 0 to |items|
      invariant ParseEach(items[..i], parse) == Success(values)
    {
      assert items[..i + 1][..i] == items[..i];
      var v := parse(items[i]);
      if v.Failure? {
        r := Failure(v.error);
        ParseEachFailsFrom(items, parse, i + 1);
        return;
      }
      values := values + [v.value];
    }
    assert items[..|items|] == items;
    r := Success(values);
  }

  /** Once a prefix fails, every longer prefix fails with the same error. */
  lemma {:induction false} ParseEachFailsFrom<T>(items: seq<Json>, parse: Json -> Result<T, Error>, i: nat)
    requires 0 < i <= |items| && ParseEach(items[..i], parse).Failure?
    ensures ParseEach(items, parse) == Failure(ParseEach(items[..i], parse).error)
    decreases |items| - i
  {
    if i < |items| {
      assert items[..i + 1][..i] == items[..i];
      ParseEachFailsFrom(items, parse, i + 1);
    } else {
      assert items[..i] == items;
    }
  }

  /**
   * `parse_doors(path)`. The file is given as what `json.load` made of it:
   * None when there is no file (no path, or nothing there), a `Failure` when
   * the file is not valid JSON in UTF-8 (`json.JSONDecodeError`, a ValueError,
   * or `UnicodeDecodeError`), which propagates, and the document otherwise.
   */
  method ParseDoors(levelJson: Option<Result<Json, Error>>) returns (r: Result<seq<ClientLevel.DoorInfo>, Error>)
    ensures levelJson.None? ==> r == Success([])
    ensures levelJson.Some? && levelJson.value.Failure? ==> r == Failure(levelJson.value.error)
    ensures levelJson.Some? && levelJson.value.Success? ==> r == (match Entries(levelJson.value.value, "doors")
      case Success(items) => ParseEach(items, ParseDoor)
      case Failure(e) => Failure(e))
  {
    if levelJson.None? {
      return Success([]);
    }
    if levelJson.value.Failure? {
      return Failure(levelJson.value.error);
    }
    var items := Entries(levelJson.value.value, "doors");
    if items.Failure? {
      return Failure(items.error);
    }
    r := ParseList(items.value, ParseDoor);
  }

  /** `parse_streams(path)`, with the file given as for `ParseDoors`. */
  method ParseStreams(levelJson: Option<Result<Json, Error>>) returns (r: Result<seq<StreamInfo>, Error>)
    ensures levelJson.None? ==> r == Success([])
    ensures levelJson.Some? && levelJson.value.Failure? ==> r == Failure(levelJson.value.error)
    ensures levelJson.Some? && levelJson.value.Success? ==> r == (match Entries(levelJson.value.value, "streams")
      case Success(items) => ParseEach(items, ParseStream)
      case Failure(e) => Failure(e))
  {
    if levelJson.None? {
      return Success([]);
    }
    if levelJson.value.Failure? {
      return Failure(levelJson.value.error);
    }
    var items := Entries(levelJson.value.value, "streams");
    if items.Failure? {
      return Failure(items.error);
    }
    r := ParseList(items.value, ParseStream);
  }

  /** `parse_interactions(path)`, with the file given as for `ParseDoors`. */
  method ParseInteractions(levelJson: Option<Result<Json, Error>>) returns (r: Result<seq<InteractionInfo>, Error>)
    ensures levelJson.None? ==> r == Success([])
    ensures levelJson.Some? && levelJson.value.Failure? ==> r == Failure(levelJson.value.error)
    ensures levelJson.Some? && levelJson.value.Success? ==> r == (match Entries(levelJson.value.value, "interactions")
      case Success(items) => ParseEach(items, ParseInteraction)
      case Failure(e) => Failure(e))
  {
    if levelJson.None? {
      return Success([]);
    }
    if levelJson.value.Failure? {
      return Failure(levelJson.value.error);
    }
    var items := Entries(levelJson.value.value, "interactions");
    if items.Failure? {
      return Failure(items.error);
    }
    r := ParseList(items.value, ParseInteraction);
  }

  /** A door entry without "target_level" or "see_through" is a same-level door that blocks sight. */
  lemma DoorDefaults(x: int, y: int, tx: int, ty: int)
    ensures ParseDoor(JObject(map["x" := JNumber(x), "y" := JNumber(y), "target_x" := JNumber(tx), "target_y" := JNumber(ty)]))
      == Success(ClientLevel.DoorInfo(x, y, None, tx, ty, false))
  {
  }

  /** A stream entry without "radius" has radius 5. */
  lemma StreamDefaults(x: int, y: int, url: string)
    ensures ParseStream(JObject(map["x" := JNumber(x), "y" := JNumber(y), "url" := JString(url)]))
      == Success(StreamInfo(x, y, url, 5))
  {
  }

  /** An interaction entry without "hidden" is shown. */
  lemma InteractionDefaults(x: int, y: int, text: string)
    ensures ParseInteraction(JObject(map["x" := JNumber(x), "y" := JNumber(y), "text" := JString(text)]))
      == Success(InteractionInfo(x, y, text, false))
  {
  }

  /**
   * A door entry lacking any of `x`, `y`, `target_x` and `target_y` is a
   * KeyError, whatever kind of value the other fields hold; an entry that is
   * not an object is a TypeError.
   */
  lemma DoorRequiredFields(d: Json)
    ensures d.JObject? && !({"x", "y", "target_x", "target_y"} <= d.fields.Keys) ==> ParseDoor(d) == Failure(KeyError)
    ensures !d.JObject? ==> ParseDoor(d) == Failure(TypeError)
  {
  }

  /** Any JSON value under `see_through` is accepted, and the door lets sight pass exactly when it is truthy. */
  lemma DoorSeeThroughTruthy(x: int, y: int, tx: int, ty: int, v: Json)
    ensures ParseDoor(JObject(map["x" := JNumber(x), "y" := JNumber(y), "target_x" := JNumber(tx), "target_y" := JNumber(ty),
                                  "see_through" := v]))
      == Success(ClientLevel.DoorInfo(x, y, None, tx, ty, Truthy(v)))
    ensures ParseDoor(JObject(map["x" := JNumber(x), "y" := JNumber(y), "target_x" := JNumber(tx), "target_y" := JNumber(ty),
                                  "see_through" := JNumber(1)])).value.seeThrough
  {
  }
}
