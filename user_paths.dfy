/**
 * The player store as rogue_talk/server/storage.py writes it: a player's
 * directory is the path `users_dir / name`, so a name holding `/`, `.` or
 * `..` reaches a directory other than `users/<name>`. This module models
 * the file system so that this can be seen. The file system is a set of
 * directories and a map of files. Each one is named by its absolute path,
 * a sequence of components. A path may also hold `..`, which the file
 * system resolves against the directory the walk has reached. Module
 * Storage is the intended store, in which every name is its own entry.
 */
module UserPaths {
  import opened Wrappers
  import opened Bytes
  import opened Errors
  import Text
  import opened Crypto
  import opened ServerPlayer
  import opened ServerMoves
  import Storage

  type Path = seq<string>

  datatype Fs = Fs(dirs: set<Path>, files: map<Path, seq<byte>>)

  /** Every directory other than the root, and every file, lies in a directory. */
  predicate Closed(fs: Fs) {
    (forall p :: p in fs.dirs && p != [] ==> p[..|p| - 1] in fs.dirs) &&
    (forall p :: p in fs.files ==> p != [] && p[..|p| - 1] in fs.dirs)
  }

  // ---------------------------------------------------------------- paths

  /** The components `PurePosixPath` keeps of the pieces between slashes: empty pieces and `.` are dropped. */
  function Keep(pieces: seq<string>): (p: Path)
    ensures forall k :: 0 <= k < |p| ==> p[k] != "" && p[k] != "."
    decreases |pieces|
  {
    if pieces == [] then []
    else if pieces[0] == "" || pieces[0] == "." then Keep(pieces[1..])
    else [pieces[0]] + Keep(pieces[1..])
  }

  /** `users_dir / name`: a name that starts with `/` is absolute and replaces the base. */
  function UserPath(usersDir: Path, name: string): Path {
    (if |name| > 0 && name[0] == '/' then [] else usersDir) + Keep(Text.Split(name, '/'))
  }

  function Parent(p: Path): Path {
    if p == [] then [] else p[..|p| - 1]
  }

  /** Where a walk through the file system ends. */
  datatype Walk = Reached(at: Path) | NotFound | NotADir

  /**
   * The kernel's walk along `rest`, starting in `cur`. Each step must
   * start from a directory; `..` steps back (the root is its own parent)
   * and any other component steps into it. The last component reached is
   * not itself checked.
   */
  function WalkFrom(fs: Fs, cur: Path, rest: Path): Walk
    decreases |rest|
  {
    if rest == [] then Reached(cur)
    else if cur !in fs.dirs then (if cur in fs.files then NotADir else NotFound)
    else if rest[0] == ".." then WalkFrom(fs, Parent(cur), rest[1..])
    else WalkFrom(fs, cur + [rest[0]], rest[1..])
  }

  /** What `stat` finds at a path: the directory or file it names, if any. */
  function Lookup(fs: Fs, p: Path): Option<Path> {
    match WalkFrom(fs, [], p)
    case Reached(q) => if q in fs.dirs || q in fs.files then Some(q) else None
    case _ => None
  }

  /** `Path.exists`: a missing component or a file used as a directory both answer false. */
  predicate Exists(fs: Fs, p: Path) {
    Lookup(fs, p).Some?
  }

  /** `Path.is_dir`. */
  predicate IsDir(fs: Fs, p: Path) {
    Lookup(fs, p).Some? && Lookup(fs, p).value in fs.dirs
  }

  // ---------------------------------------------------------------- file-system calls

  /** The file system after a call, and the exception the call raised, if any. */
  datatype Effect = Effect(fs: Fs, raised: Option<Error>)

  datatype MkdirResult = Made(fs: Fs) | AlreadyThere | NoParent | ParentNotDir

  /** `os.mkdir`: the parent must be a directory and the name must be free. */
  function OsMkdir(fs: Fs, p: Path): MkdirResult {
    if p == [] then AlreadyThere
    else
      match WalkFrom(fs, [], p[..|p| - 1])
      case NotFound => NoParent
      case NotADir => ParentNotDir
      case Reached(d) =>
        if d !in fs.dirs then (if d in fs.files then ParentNotDir else NoParent)
        else if p[|p| - 1] == ".." then AlreadyThere
        else if d + [p[|p| - 1]] in fs.dirs || d + [p[|p| - 1]] in fs.files then AlreadyThere
        else Made(fs.(dirs := fs.dirs + {d + [p[|p| - 1]]}))
  }

  /**
   * `Path.mkdir`: on a missing parent with `parents` set, the lexical parent
   * is made first (with `exist_ok`) and the call retried without
   * `parents`; any other refusal is forgiven when `exist_ok` is set and the
   * path is a directory.
   */
  function Mkdir(fs: Fs, p: Path, parents: bool, existOk: bool): (e: Effect)
    decreases |p|, if parents then 1 else 0
  {
    match OsMkdir(fs, p)
    case Made(fs') => Effect(fs', None)
    case NoParent =>
      if !parents || p == [] then Effect(fs, Some(OSError))
      else
        var up := Mkdir(fs, p[..|p| - 1], true, true);
        if up.raised.Some? then up else Mkdir(up.fs, p, false, existOk)
    case _ => if existOk && IsDir(fs, p) then Effect(fs, None) else Effect(fs, Some(OSError))
  }

  /** `Path.write_bytes`: the parent must be a directory and the path must not be one. */
  function WriteBytes(fs: Fs, p: Path, data: seq<byte>): Effect {
    if p == [] then Effect(fs, Some(OSError))
    else
      match WalkFrom(fs, [], p[..|p| - 1])
      case Reached(d) =>
        var q := if p[|p| - 1] == ".." then Parent(d) else d + [p[|p| - 1]];
        if d !in fs.dirs || q in fs.dirs then Effect(fs, Some(OSError))
        else Effect(fs.(files := fs.files[q := data]), None)
      case _ => Effect(fs, Some(OSError))
  }

  // ---------------------------------------------------------------- the store as written

  /** `get_public_key`: the key file under the name's path, if it exists; a directory there cannot be read. */
  function GetPublicKey(fs: Fs, usersDir: Path, name: string): Result<Option<seq<byte>>, Error> {
    match Lookup(fs, UserPath(usersDir, name) + ["pub"])
    case None => Success(None)
    case Some(q) => if q in fs.files then Success(Some(fs.files[q])) else Failure(OSError)
  }

  /** The names `iterdir` can list: the entries directly in the users directory. */
  function Entries(fs: Fs, usersDir: Path): set<string> {
    (set p | p in fs.dirs && |p| == |usersDir| + 1 && p[..|usersDir|] == usersDir :: p[|usersDir|]) +
    (set p | p in fs.files && |p| == |usersDir| + 1 && p[..|usersDir|] == usersDir :: p[|usersDir|])
  }

  /** `listing` is one order in which `iterdir` lists the users directory: every entry, once. */
  ghost predicate Lists(fs: Fs, usersDir: Path, listing: seq<string>) {
    (forall n :: n in listing <==> n in Entries(fs, usersDir)) &&
    (forall i, j :: 0 <= i < j < |listing| ==> listing[i] != listing[j])
  }

  /**
   * `get_name_by_key`, over the entries in the order `listing` gives: the
   * first directory whose `pub` file holds the key. A `pub` that is a
   * directory makes `read_bytes` raise when the loop reaches it.
   */
  function NameByKey(fs: Fs, usersDir: Path, listing: seq<string>, key: seq<byte>): Result<Option<string>, Error>
    decreases |listing|
  {
    if listing == [] then Success(None)
    else
      var d := usersDir + [listing[0]];
      if d in fs.dirs && d + ["pub"] in fs.dirs then Failure(OSError)
      else if d in fs.dirs && d + ["pub"] in fs.files && fs.files[d + ["pub"]] == key then Success(Some(listing[0]))
      else NameByKey(fs, usersDir, listing[1..], key)
  }

  /** The answer of `register_player` and the file system afterwards. */
  datatype Registered = Registered(result: Result<bool, Error>, fs: Fs)

  /** `register_player`: false when the path exists; otherwise make it, with its parents, and write the key file. */
  function Register(fs: Fs, usersDir: Path, name: string, key: seq<byte>): Registered {
    var user := UserPath(usersDir, name);
    if Exists(fs, user) then Registered(Success(false), fs)
    else
      var made := Mkdir(fs, user, true, true);
      if made.raised.Some? then Registered(Failure(made.raised.value), made.fs)
      else
        var written := WriteBytes(made.fs, user + ["pub"], key);
        if written.raised.Some? then Registered(Failure(written.raised.value), written.fs)
        else Registered(Success(true), written.fs)
  }

  /** The answer to an authentication attempt (or the exception that ended it) and the file system afterwards. */
  datatype Attempt = Attempt(result: Result<AuthResult, Error>, fs: Fs)

  /** `handle_client` on an `AUTH_RESPONSE`, with the store as written. */
  function Authenticate(fs: Fs, usersDir: Path, listing: seq<string>, players: map<int, Player>, lib: Ed25519,
                        printable: char -> bool, nonce: seq<byte>, name: string, key: seq<byte>,
                        signature: seq<byte>): Attempt
  {
    if !ValidName(name, printable) then Attempt(Success(InvalidName), fs)
    else if !VerifySignature(lib, key, nonce, name, signature) then Attempt(Success(InvalidSignature), fs)
    else
      match GetPublicKey(fs, usersDir, name)
      case Failure(e) => Attempt(Failure(e), fs)
      case Success(existingKey) =>
        match NameByKey(fs, usersDir, listing, key)
        case Failure(e) => Attempt(Failure(e), fs)
        case Success(existingName) =>
          var admitted := Success(if KeyInUse(players, key) then AlreadyConnected else AuthSuccess);
          if existingKey.Some? then
            if existingKey.value != key then Attempt(Success(NameTaken), fs)
            else Attempt(admitted, fs)
          else if existingName.Some? then Attempt(Success(KeyMismatch), fs)
          else
            var reg := Register(fs, usersDir, name, key);
            if reg.result.Failure? then Attempt(Failure(reg.result.error), reg.fs)
            else if !reg.result.value then Attempt(Success(NameTaken), reg.fs)
            else Attempt(admitted, reg.fs)
  }

  // ---------------------------------------------------------------- plain names

  /** A name that is one path component: not empty, no `/`, and not `.` or `..`. */
  predicate PlainName(name: string) {
    name != [] && '/' !in name && name != "." && name != ".."
  }

  /** The users directory is a directory, and the walk from the root reaches it as written. */
  predicate Ready(fs: Fs, usersDir: Path) {
    usersDir in fs.dirs && WalkFrom(fs, [], usersDir) == Reached(usersDir)
  }

  /** Walking two paths one after the other is walking their concatenation, when the first ends somewhere. */
  lemma {:induction false} WalkAppend(fs: Fs, cur: Path, a: Path, b: Path)
    requires WalkFrom(fs, cur, a).Reached?
    ensures WalkFrom(fs, cur, a + b) == WalkFrom(fs, WalkFrom(fs, cur, a).at, b)
    decreases |a|
  {
    if a != [] {
      assert (a + b)[0] == a[0];
      assert (a + b)[1..] == a[1..] + b;
      if a[0] == ".." {
        WalkAppend(fs, Parent(cur), a[1..], b);
      } else {
        WalkAppend(fs, cur + [a[0]], a[1..], b);
      }
    } else {
      assert a + b == b;
    }
  }

  /** A walk that ends somewhere ends at the same place when directories are added. */
  lemma {:induction false} WalkGrows(fs: Fs, fs': Fs, cur: Path, rest: Path)
    requires fs.dirs <= fs'.dirs && WalkFrom(fs, cur, rest).Reached?
    ensures WalkFrom(fs', cur, rest) == WalkFrom(fs, cur, rest)
    decreases |rest|
  {
    if rest != [] {
      if rest[0] == ".." {
        WalkGrows(fs, fs', Parent(cur), rest[1..]);
      } else {
        WalkGrows(fs, fs', cur + [rest[0]], rest[1..]);
      }
    }
  }

  /** From a ready directory, one component and then another. */
  lemma WalkUser(fs: Fs, usersDir: Path, n: string, c: string)
    requires Ready(fs, usersDir) && n != ".."
    ensures WalkFrom(fs, [], usersDir + [n]) == Reached(usersDir + [n])
    ensures WalkFrom(fs, [], usersDir + [n, c]) ==
      if usersDir + [n] !in fs.dirs then (if usersDir + [n] in fs.files then NotADir else NotFound)
      else if c == ".." then Reached(usersDir)
      else Reached(usersDir + [n, c])
  {
    var user := usersDir + [n];
    WalkAppend(fs, [], usersDir, [n]);
    assert [n][1..] == [];
    assert WalkFrom(fs, usersDir, [n]) == WalkFrom(fs, user, []);
    WalkAppend(fs, [], usersDir, [n, c]);
    assert [n, c][1..] == [c] && [c][1..] == [];
    assert WalkFrom(fs, usersDir, [n, c]) == WalkFrom(fs, user, [c]);
    if user in fs.dirs {
      if c == ".." {
        assert Parent(user) == usersDir;
        assert WalkFrom(fs, user, [c]) == WalkFrom(fs, usersDir, []);
      } else {
        assert user + [c] == usersDir + [n, c];
        assert WalkFrom(fs, user, [c]) == WalkFrom(fs, usersDir + [n, c], []);
      }
    }
  }

  /** In a closed file system nothing lies under a path that is not a directory. */
  lemma NotUnder(fs: Fs, p: Path, c: string)
    requires Closed(fs) && p !in fs.dirs
    ensures p + [c] !in fs.dirs && p + [c] !in fs.files
  {
    assert (p + [c])[..|p + [c]| - 1] == p;
  }

  /** A plain name's path is the users directory and the name. */
  lemma PlainUserPath(usersDir: Path, name: string)
    requires PlainName(name)
    ensures UserPath(usersDir, name) == usersDir + [name]
  {
    assert name[0] in name;
    assert Text.Split(name, '/') == [name];
    assert [name][1..] == [];
    assert Keep([name]) == [name] + Keep([]);
  }

  /** For a plain name, `get_public_key` reads `users/<name>/pub`. */
  lemma PlainGetPublicKey(fs: Fs, usersDir: Path, name: string)
    requires Closed(fs) && Ready(fs, usersDir) && PlainName(name)
    ensures var pub := usersDir + [name, "pub"];
      GetPublicKey(fs, usersDir, name) ==
        if pub in fs.files then Success(Some(fs.files[pub]))
        else if pub in fs.dirs then Failure(OSError)
        else Success(None)
  {
    PlainUserPath(usersDir, name);
    WalkUser(fs, usersDir, name, "pub");
    assert usersDir + [name] + ["pub"] == usersDir + [name, "pub"];
    if usersDir + [name] !in fs.dirs {
      NotUnder(fs, usersDir + [name], "pub");
    }
  }

  /** Making a free directory in a ready one adds just that directory. */
  lemma MkdirIn(fs: Fs, usersDir: Path, name: string, parents: bool)
    requires Ready(fs, usersDir) && name != ".."
    requires usersDir + [name] !in fs.dirs && usersDir + [name] !in fs.files
    ensures Mkdir(fs, usersDir + [name], parents, true) == Effect(fs.(dirs := fs.dirs + {usersDir + [name]}), None)
  {
    var user := usersDir + [name];
    assert user[..|user| - 1] == usersDir;
    assert OsMkdir(fs, user) == Made(fs.(dirs := fs.dirs + {user}));
  }

  /** Writing `pub` in a directory the walk reaches, where no `pub` directory is, stores the key there. */
  lemma WritePub(fs: Fs, user: Path, key: seq<byte>)
    requires user in fs.dirs && WalkFrom(fs, [], user) == Reached(user) && user + ["pub"] !in fs.dirs
    ensures WriteBytes(fs, user + ["pub"], key) == Effect(fs.(files := fs.files[user + ["pub"] := key]), None)
  {
    var pub := user + ["pub"];
    assert pub[..|pub| - 1] == user;
    assert pub[|pub| - 1] == "pub";
  }

  /**
   * For a plain name, `register_player` answers false when `users/<name>`
   * exists, and otherwise adds exactly that directory and its key file.
   */
  lemma PlainRegister(fs: Fs, usersDir: Path, name: string, key: seq<byte>)
    requires Closed(fs) && Ready(fs, usersDir) && PlainName(name)
    ensures var user := usersDir + [name];
      Register(fs, usersDir, name, key) ==
        if user in fs.dirs || user in fs.files then Registered(Success(false), fs)
        else Registered(Success(true), Fs(fs.dirs + {user}, fs.files[user + ["pub"] := key]))
  {
    PlainUserPath(usersDir, name);
    var user := usersDir + [name];
    WalkUser(fs, usersDir, name, "pub");
    if user !in fs.dirs && user !in fs.files {
      MkdirIn(fs, usersDir, name, true);
      var fs1 := fs.(dirs := fs.dirs + {user});
      WalkGrows(fs, fs1, [], user);
      NotUnder(fs, user, "pub");
      assert |user + ["pub"]| != |user|;
      WritePub(fs1, user, key);
    }
  }

  /** A listing of one entry without a key file finds nothing. */
  lemma NameByKeyOne(fs: Fs, usersDir: Path, n: string, key: seq<byte>)
    requires usersDir + [n, "pub"] !in fs.dirs && usersDir + [n, "pub"] !in fs.files
    ensures NameByKey(fs, usersDir, [n], key) == Success(None)
  {
    assert usersDir + [n] + ["pub"] == usersDir + [n, "pub"];
    assert [n][1..] == [];
  }

  /** A listing of one directory whose `pub` is a directory raises. */
  lemma NameByKeyPubDir(fs: Fs, usersDir: Path, n: string, key: seq<byte>)
    requires usersDir + [n] in fs.dirs && usersDir + [n, "pub"] in fs.dirs
    ensures NameByKey(fs, usersDir, [n], key) == Failure(OSError)
  {
    assert usersDir + [n] + ["pub"] == usersDir + [n, "pub"];
  }

  /** A name `get_name_by_key` returns is a listed directory whose key file holds the key. */
  lemma {:induction false} NameByKeyFound(fs: Fs, usersDir: Path, listing: seq<string>, key: seq<byte>)
    ensures var r := NameByKey(fs, usersDir, listing, key);
      r.Success? && r.value.Some? ==>
        r.value.value in listing && usersDir + [r.value.value] in fs.dirs &&
        usersDir + [r.value.value, "pub"] in fs.files && fs.files[usersDir + [r.value.value, "pub"]] == key
    decreases |listing|
  {
    if listing != [] {
      assert usersDir + [listing[0]] + ["pub"] == usersDir + [listing[0], "pub"];
      NameByKeyFound(fs, usersDir, listing[1..], key);
    }
  }

  /** Without a `pub` directory, `get_name_by_key` answers None exactly when no listed directory holds the key. */
  lemma {:induction false} NameByKeyNone(fs: Fs, usersDir: Path, listing: seq<string>, key: seq<byte>)
    requires forall n :: n in listing ==> usersDir + [n, "pub"] !in fs.dirs
    ensures var r := NameByKey(fs, usersDir, listing, key);
      r.Success? &&
      (r.value.None? <==>
        forall n :: n in listing && usersDir + [n] in fs.dirs && usersDir + [n, "pub"] in fs.files ==>
          fs.files[usersDir + [n, "pub"]] != key)
    decreases |listing|
  {
    if listing != [] {
      assert usersDir + [listing[0]] + ["pub"] == usersDir + [listing[0], "pub"];
      NameByKeyNone(fs, usersDir, listing[1..], key);
    }
  }

  // ---------------------------------------------------------------- names that are paths

  const USERS: Path := ["data", "users"]

  /** A fresh data directory: `PlayerStorage` has just made `data/users`, which is empty. */
  const FRESH: Fs := Fs({[], ["data"], ["data", "users"]}, map[])

  /** The users directory of the fresh store is ready. */
  lemma FreshReady()
    ensures Ready(FRESH, USERS)
  {
    assert [] + ["data"] == ["data"] && USERS[1..] == ["users"] && ["users"][1..] == [];
    assert WalkFrom(FRESH, [], USERS) == WalkFrom(FRESH, ["data"], ["users"]);
    assert WalkFrom(FRESH, ["data"], ["users"]) == WalkFrom(FRESH, USERS, []);
  }

  /** Pieces that are neither empty nor `.` are all kept. */
  lemma {:induction false} KeepPlain(pieces: seq<string>)
    requires "" !in pieces && "." !in pieces
    ensures Keep(pieces) == pieces
    decreases |pieces|
  {
    if pieces != [] {
      assert pieces == [pieces[0]] + pieces[1..];
      KeepPlain(pieces[1..]);
    }
  }

  /** The first occurrence of `c` is where `IndexOf` finds it. */
  lemma {:induction false} FirstIndex(s: string, c: char, k: nat)
    requires k < |s| && s[k] == c && c !in s[..k]
    ensures Text.IndexOf(s, c) == k
    decreases k
  {
    if k > 0 {
      assert s[0] == s[..k][0];
      assert s[1..][..k - 1] == s[..k][1..];
      FirstIndex(s[1..], c, k - 1);
    }
  }

  /** A name with one `/` splits into the two components around it. */
  lemma SplitPair(n1: string, n2: string)
    requires '/' !in n1 && '/' !in n2
    ensures Text.Split(n1 + "/" + n2, '/') == [n1, n2]
  {
    var s := n1 + "/" + n2;
    assert s[|n1|] == '/';
    assert s[..|n1|] == n1;
    FirstIndex(s, '/', |n1|);
    var i := Text.IndexOf(s, '/');
    assert s[i + 1..] == n2;
  }

  /** The path of `n1/n2` is `users/n1/n2`. */
  lemma NestedPath(n1: string, n2: string)
    requires PlainName(n1) && PlainName(n2)
    ensures UserPath(USERS, n1 + "/" + n2) == USERS + [n1, n2]
  {
    SplitPair(n1, n2);
    KeepPlain([n1, n2]);
    assert n1[0] in n1;
    assert (n1 + "/" + n2)[0] == n1[0];
  }

  /** The store after `n1/n2` registers with `key` in the fresh store. */
  function Nested(n1: string, n2: string, key: seq<byte>): Fs {
    Fs(FRESH.dirs + {USERS + [n1], USERS + [n1, n2]}, map[USERS + [n1, n2, "pub"] := key])
  }

  /**
   * In the fresh store, registering `n1/n2` makes `data/users/n1` and
   * `data/users/n1/n2` and writes the key to `n1/n2/pub`.
   */
  lemma RegisterNested(n1: string, n2: string, key: seq<byte>)
    requires PlainName(n1) && PlainName(n2)
    ensures Register(FRESH, USERS, n1 + "/" + n2, key) == Registered(Success(true), Nested(n1, n2, key))
  {
    FreshReady();
    NestedPath(n1, n2);
    var ab := USERS + [n1, n2];
    WalkUser(FRESH, USERS, n1, n2);
    NestedMkdir(n1, n2);
    var fs2 := FRESH.(dirs := Nested(n1, n2, key).dirs);
    assert |ab + ["pub"]| == 5;
    WritePub(fs2, ab, key);
    assert ab + ["pub"] == USERS + [n1, n2, "pub"];
  }

  /** `mkdir(parents=True, exist_ok=True)` of `data/users/n1/n2` in the fresh store makes both directories. */
  lemma NestedMkdir(n1: string, n2: string)
    requires PlainName(n1) && PlainName(n2)
    ensures var fs2 := FRESH.(dirs := FRESH.dirs + {USERS + [n1], USERS + [n1, n2]});
      Mkdir(FRESH, USERS + [n1, n2], true, true) == Effect(fs2, None) &&
      WalkFrom(fs2, [], USERS + [n1, n2]) == Reached(USERS + [n1, n2])
  {
    FreshReady();
    var a := USERS + [n1];
    var ab := USERS + [n1, n2];
    assert |a| == 3 && |ab| == 4;
    WalkUser(FRESH, USERS, n1, n2);
    assert ab[..|ab| - 1] == a && ab[|ab| - 1] == n2;
    assert OsMkdir(FRESH, ab) == NoParent;
    MkdirIn(FRESH, USERS, n1, true);
    var fs1 := FRESH.(dirs := FRESH.dirs + {a});
    WalkGrows(FRESH, fs1, [], USERS);
    WalkGrows(FRESH, fs1, [], a);
    assert a + [n2] == ab;
    MkdirIn(fs1, a, n2, false);
    var fs2 := fs1.(dirs := fs1.dirs + {ab});
    WalkUser(fs1, USERS, n1, n2);
    WalkGrows(fs1, fs2, [], ab);
  }

  /** A name is an entry of the users directory exactly when the users directory holds a directory or file of that name. */
  lemma EntriesOf(fs: Fs, usersDir: Path, n: string)
    ensures n in Entries(fs, usersDir) <==> usersDir + [n] in fs.dirs || usersDir + [n] in fs.files
  {
    var p := usersDir + [n];
    assert p[..|usersDir|] == usersDir && p[|usersDir|] == n;
    if n in Entries(fs, usersDir) {
      var q :| (q in fs.dirs || q in fs.files) && |q| == |usersDir| + 1 && q[..|usersDir|] == usersDir && q[|usersDir|] == n;
      assert q == p;
    }
  }

  /** The fresh users directory is empty. */
  lemma FreshLists()
    ensures Lists(FRESH, USERS, [])
  {
    forall n
      ensures n !in Entries(FRESH, USERS)
    {
      EntriesOf(FRESH, USERS, n);
    }
  }

  /** What lies directly in the users directory of `Nested`, and in its entries. */
  lemma NestedFacts(n1: string, n2: string, key: seq<byte>, n: string)
    requires PlainName(n1) && PlainName(n2)
    ensures var fs := Nested(n1, n2, key);
      (USERS + [n] in fs.dirs <==> n == n1) && USERS + [n] !in fs.files &&
      (USERS + [n, "pub"] in fs.dirs <==> n == n1 && n2 == "pub") && USERS + [n, "pub"] !in fs.files
  {
    assert (USERS + [n])[2] == n;
    assert (USERS + [n, "pub"])[2] == n && (USERS + [n, "pub"])[3] == "pub";
    assert (USERS + [n1, n2])[3] == n2;
  }

  /** `Nested` is closed. */
  lemma NestedClosed(n1: string, n2: string, key: seq<byte>)
    ensures Closed(Nested(n1, n2, key))
  {
    var a := USERS + [n1];
    var ab := USERS + [n1, n2];
    assert USERS[..1] == ["data"] && ["data"][..0] == [];
    assert a[..|a| - 1] == USERS && ab[..|ab| - 1] == a;
    assert (ab + ["pub"])[..4] == ab && ab + ["pub"] == USERS + [n1, n2, "pub"];
  }

  /** After `n1/n2` registers in the fresh store, `data/users/n1` is the only entry of the users directory. */
  lemma NestedEntries(n1: string, n2: string, key: seq<byte>)
    requires PlainName(n1) && PlainName(n2)
    ensures var fs := Nested(n1, n2, key);
      Lists(FRESH, USERS, []) && Lists(fs, USERS, [n1]) && Ready(fs, USERS) && Closed(fs)
  {
    FreshReady();
    FreshLists();
    NestedClosed(n1, n2, key);
    var fs := Nested(n1, n2, key);
    forall n
      ensures n in [n1] <==> n in Entries(fs, USERS)
    {
      EntriesOf(fs, USERS, n);
      NestedFacts(n1, n2, key, n);
    }
    WalkGrows(FRESH, fs, [], USERS);
  }

  /** Before anything registers, `n1/n2` has no key file: `data/users/n1` does not exist. */
  lemma FreshNestedKey(n1: string, n2: string)
    requires PlainName(n1) && PlainName(n2)
    ensures GetPublicKey(FRESH, USERS, n1 + "/" + n2) == Success(None)
  {
    FreshReady();
    NestedPath(n1, n2);
    var a := USERS + [n1];
    WalkUser(FRESH, USERS, n1, n2);
    assert USERS + [n1, n2] + ["pub"] == a + [n2, "pub"];
    WalkAppend(FRESH, [], a, [n2, "pub"]);
    assert |a| == 3;
  }

  /** A valid, signed attempt by a name with no key file and a key nobody holds gets what `register_player` answers. */
  lemma AuthenticateNewName(fs: Fs, usersDir: Path, listing: seq<string>, players: map<int, Player>, lib: Ed25519,
                            printable: char -> bool, nonce: seq<byte>, name: string, key: seq<byte>, signature: seq<byte>)
    requires ValidName(name, printable) && VerifySignature(lib, key, nonce, name, signature)
    requires GetPublicKey(fs, usersDir, name) == Success(None) && NameByKey(fs, usersDir, listing, key) == Success(None)
    ensures var reg := Register(fs, usersDir, name, key);
      var o := Authenticate(fs, usersDir, listing, players, lib, printable, nonce, name, key, signature);
      o.fs == reg.fs &&
      (reg.result == Success(true) ==> o.result == Success(if KeyInUse(players, key) then AlreadyConnected else AuthSuccess)) &&
      (reg.result == Success(false) ==> o.result == Success(NameTaken))
  {
  }

  /** The intended store: two valid, signed attempts on an empty store, the first by `first` with `key1`. */
  lemma IntendedSecond(players: map<int, Player>, lib: Ed25519, printable: char -> bool, nonce: seq<byte>,
                       first: string, second: string, key1: seq<byte>, key2: seq<byte>,
                       signature1: seq<byte>, signature2: seq<byte>)
    requires first != second
    requires ValidName(first, printable) && VerifySignature(lib, key1, nonce, first, signature1)
    requires ValidName(second, printable) && VerifySignature(lib, key2, nonce, second, signature2)
    ensures var o1 := ServerMoves.Authenticate(map[], players, lib, printable, nonce, first, key1, signature1);
      var o2 := ServerMoves.Authenticate(o1.users, players, lib, printable, nonce, second, key2, signature2);
      (key1 == key2 ==> o2.result == KeyMismatch) && (key1 != key2 ==> o2.result in {AuthSuccess, AlreadyConnected})
  {
    var o1 := ServerMoves.Authenticate(map[], players, lib, printable, nonce, first, key1, signature1);
    AuthenticateRegisters(map[], players, lib, printable, nonce, first, key1, signature1);
    assert o1.users == map[first := Storage.UserDir(Some(key1), None)];
    AuthenticateResults(o1.users, players, lib, printable, nonce, second, key2, signature2);
    assert KeyRegistered(o1.users, key2) <==> key1 == key2;
  }

  /** A valid, signed first attempt by `n1/n2` on the fresh store is admitted and leaves `Nested`. */
  lemma NestedFirst(players: map<int, Player>, lib: Ed25519, printable: char -> bool, nonce: seq<byte>,
                    n1: string, n2: string, key: seq<byte>, signature: seq<byte>)
    requires PlainName(n1) && PlainName(n2)
    requires ValidName(n1 + "/" + n2, printable) && VerifySignature(lib, key, nonce, n1 + "/" + n2, signature)
    ensures Authenticate(FRESH, USERS, [], players, lib, printable, nonce, n1 + "/" + n2, key, signature) ==
      Attempt(Success(if KeyInUse(players, key) then AlreadyConnected else AuthSuccess), Nested(n1, n2, key))
    ensures Lists(FRESH, USERS, []) && Lists(Nested(n1, n2, key), USERS, [n1])
    ensures Ready(Nested(n1, n2, key), USERS) && Closed(Nested(n1, n2, key))
  {
    FreshNestedKey(n1, n2);
    RegisterNested(n1, n2, key);
    NestedEntries(n1, n2, key);
    AuthenticateNewName(FRESH, USERS, [], players, lib, printable, nonce, n1 + "/" + n2, key, signature);
  }

  /** The store after `a/b` and then `c` register with `key` in the fresh store. */
  function Both(key: seq<byte>): Fs {
    Fs(Nested("a", "b", key).dirs + {USERS + ["c"]}, Nested("a", "b", key).files[USERS + ["c"] + ["pub"] := key])
  }

  /** In `Both`, the key file of `c` holds the key. */
  lemma BothHoldsPlain(key: seq<byte>)
    ensures GetPublicKey(Both(key), USERS, "c") == Success(Some(key))
  {
    var fs := Both(key);
    FreshReady();
    WalkGrows(FRESH, fs, [], USERS);
    PlainUserPath(USERS, "c");
    WalkUser(fs, USERS, "c", "pub");
    assert USERS + ["c"] + ["pub"] == USERS + ["c", "pub"];
    assert USERS + ["c"] in fs.dirs;
  }

  /** In `Both`, the key file of `a/b` holds the key. */
  lemma BothHoldsNested(key: seq<byte>)
    ensures GetPublicKey(Both(key), USERS, "a/b") == Success(Some(key))
  {
    var fs := Both(key);
    FreshReady();
    WalkGrows(FRESH, fs, [], USERS);
    assert "a/b" == "a" + "/" + "b";
    NestedPath("a", "b");
    var ab := USERS + ["a", "b"];
    WalkUser(fs, USERS, "a", "b");
    WalkAppend(fs, [], ab, ["pub"]);
    assert ab in fs.dirs;
    assert WalkFrom(fs, ab, ["pub"]) == WalkFrom(fs, ab + ["pub"], []);
    assert ab + ["pub"] == USERS + ["a", "b", "pub"];
    assert (USERS + ["c"] + ["pub"])[2] == "c";
  }

  /**
   * `a/b` and then `c` register with the same key: `get_name_by_key` only
   * looks at `data/users/a`, which has no key file, so the second
   * registration is not refused, and both names are bound to the key. The
   * intended store refuses the second attempt as a key mismatch.
   */
  lemma SlashNameSharesKey(players: map<int, Player>, lib: Ed25519, printable: char -> bool, nonce: seq<byte>,
                           key: seq<byte>, signature1: seq<byte>, signature2: seq<byte>)
    requires ValidName("a/b", printable) && VerifySignature(lib, key, nonce, "a/b", signature1)
    requires ValidName("c", printable) && VerifySignature(lib, key, nonce, "c", signature2)
    ensures var first := Authenticate(FRESH, USERS, [], players, lib, printable, nonce, "a/b", key, signature1);
      var second := Authenticate(first.fs, USERS, ["a"], players, lib, printable, nonce, "c", key, signature2);
      Lists(FRESH, USERS, []) && Lists(first.fs, USERS, ["a"]) &&
      first.result.Success? && first.result.value in {AuthSuccess, AlreadyConnected} &&
      second.result.Success? && second.result.value in {AuthSuccess, AlreadyConnected} &&
      GetPublicKey(second.fs, USERS, "a/b") == Success(Some(key)) &&
      GetPublicKey(second.fs, USERS, "c") == Success(Some(key))
    ensures var first := ServerMoves.Authenticate(map[], players, lib, printable, nonce, "a/b", key, signature1);
      ServerMoves.Authenticate(first.users, players, lib, printable, nonce, "c", key, signature2).result == KeyMismatch
  {
    assert "a/b" == "a" + "/" + "b";
    NestedFirst(players, lib, printable, nonce, "a", "b", key, signature1);
    var fs1 := Nested("a", "b", key);
    NestedFacts("a", "b", key, "c");
    NestedFacts("a", "b", key, "a");
    PlainGetPublicKey(fs1, USERS, "c");
    NameByKeyOne(fs1, USERS, "a", key);
    PlainRegister(fs1, USERS, "c", key);
    AuthenticateNewName(fs1, USERS, ["a"], players, lib, printable, nonce, "c", key, signature2);
    assert Register(fs1, USERS, "c", key).fs == Both(key);
    BothHoldsPlain(key);
    BothHoldsNested(key);
    IntendedSecond(players, lib, printable, nonce, "a/b", "c", key, key, signature1, signature2);
  }

  /**
   * `a/b` registers, and then `a` with another key is refused as a taken
   * name, because `data/users/a` exists. The intended store admits `a`.
   */
  lemma SlashNameTakesParent(players: map<int, Player>, lib: Ed25519, printable: char -> bool, nonce: seq<byte>,
                             key1: seq<byte>, key2: seq<byte>, signature1: seq<byte>, signature2: seq<byte>)
    requires key1 != key2
    requires ValidName("a/b", printable) && VerifySignature(lib, key1, nonce, "a/b", signature1)
    requires ValidName("a", printable) && VerifySignature(lib, key2, nonce, "a", signature2)
    ensures var first := Authenticate(FRESH, USERS, [], players, lib, printable, nonce, "a/b", key1, signature1);
      Lists(FRESH, USERS, []) && Lists(first.fs, USERS, ["a"]) &&
      first.result.Success? && first.result.value in {AuthSuccess, AlreadyConnected} &&
      Authenticate(first.fs, USERS, ["a"], players, lib, printable, nonce, "a", key2, signature2).result == Success(NameTaken)
    ensures var first := ServerMoves.Authenticate(map[], players, lib, printable, nonce, "a/b", key1, signature1);
      ServerMoves.Authenticate(first.users, players, lib, printable, nonce, "a", key2, signature2).result
        in {AuthSuccess, AlreadyConnected}
  {
    assert "a/b" == "a" + "/" + "b";
    NestedFirst(players, lib, printable, nonce, "a", "b", key1, signature1);
    var fs1 := Nested("a", "b", key1);
    NestedFacts("a", "b", key1, "a");
    PlainGetPublicKey(fs1, USERS, "a");
    NameByKeyOne(fs1, USERS, "a", key2);
    PlainRegister(fs1, USERS, "a", key2);
    AuthenticateNewName(fs1, USERS, ["a"], players, lib, printable, nonce, "a", key2, signature2);
    IntendedSecond(players, lib, printable, nonce, "a/b", "a", key1, key2, signature1, signature2);
  }

  /**
   * A name ending in `/pub` leaves a directory named `pub` in a player
   * directory. From then on `get_name_by_key` raises for every key nobody
   * holds, so every new player's attempt ends in an exception. The
   * intended store admits the new player.
   */
  lemma PubDirectoryBlocksNewPlayers(players: map<int, Player>, lib: Ed25519, printable: char -> bool, nonce: seq<byte>,
                                     key1: seq<byte>, key2: seq<byte>, signature1: seq<byte>, signature2: seq<byte>)
    requires key1 != key2
    requires ValidName("x/pub", printable) && VerifySignature(lib, key1, nonce, "x/pub", signature1)
    requires ValidName("y", printable) && VerifySignature(lib, key2, nonce, "y", signature2)
    ensures var first := Authenticate(FRESH, USERS, [], players, lib, printable, nonce, "x/pub", key1, signature1);
      Lists(FRESH, USERS, []) && Lists(first.fs, USERS, ["x"]) &&
      first.result.Success? && first.result.value in {AuthSuccess, AlreadyConnected} &&
      Authenticate(first.fs, USERS, ["x"], players, lib, printable, nonce, "y", key2, signature2).result == Failure(OSError)
    ensures var first := ServerMoves.Authenticate(map[], players, lib, printable, nonce, "x/pub", key1, signature1);
      ServerMoves.Authenticate(first.users, players, lib, printable, nonce, "y", key2, signature2).result
        in {AuthSuccess, AlreadyConnected}
  {
    assert "x/pub" == "x" + "/" + "pub";
    NestedFirst(players, lib, printable, nonce, "x", "pub", key1, signature1);
    PubDirSecond(players, lib, printable, nonce, key1, key2, signature2);
    IntendedSecond(players, lib, printable, nonce, "x/pub", "y", key1, key2, signature1, signature2);
  }

  /** After `x/pub` registered, a new player `y` makes `get_name_by_key` raise. */
  lemma PubDirSecond(players: map<int, Player>, lib: Ed25519, printable: char -> bool, nonce: seq<byte>,
                     key1: seq<byte>, key2: seq<byte>, signature2: seq<byte>)
    requires ValidName("y", printable) && VerifySignature(lib, key2, nonce, "y", signature2)
    ensures Authenticate(Nested("x", "pub", key1), USERS, ["x"], players, lib, printable, nonce, "y", key2, signature2).result
      == Failure(OSError)
  {
    var fs1 := Nested("x", "pub", key1);
    NestedEntries("x", "pub", key1);
    NestedFacts("x", "pub", key1, "y");
    NestedFacts("x", "pub", key1, "x");
    PlainGetPublicKey(fs1, USERS, "y");
    NameByKeyPubDir(fs1, USERS, "x", key2);
  }

  /** `.` names the users directory itself, which exists and holds no `pub`. */
  lemma DotPath()
    ensures UserPath(USERS, ".") == USERS && Lookup(FRESH, USERS) == Some(USERS)
    ensures Lookup(FRESH, USERS + ["pub"]) == None
  {
    FreshReady();
    assert Text.Split(".", '/') == ["."];
    assert Keep(["."]) == Keep([]);
    assert USERS + [] == USERS;
    WalkAppend(FRESH, [], USERS, ["pub"]);
  }

  /** `..` names the data directory, which exists and holds no `pub`. */
  lemma DotDotPath()
    ensures UserPath(USERS, "..") == USERS + [".."] && Lookup(FRESH, USERS + [".."]) == Some(["data"])
    ensures Lookup(FRESH, USERS + ["..", "pub"]) == None
  {
    FreshReady();
    assert Text.Split("..", '/') == [".."];
    assert Keep([".."]) == [".."] + Keep([]);
    assert Parent(USERS) == ["data"];
    WalkAppend(FRESH, [], USERS, [".."]);
    WalkAppend(FRESH, [], USERS, ["..", "pub"]);
    assert WalkFrom(FRESH, USERS, ["..", "pub"]) == WalkFrom(FRESH, ["data"], ["pub"]);
  }

  /**
   * The fresh store refuses `.` and `..` as taken names, because the paths
   * they name exist; the intended store registers either.
   */
  lemma DotNamesTaken(players: map<int, Player>, lib: Ed25519, printable: char -> bool, nonce: seq<byte>,
                      name: string, key: seq<byte>, signature: seq<byte>)
    requires name == "." || name == ".."
    requires ValidName(name, printable) && VerifySignature(lib, key, nonce, name, signature)
    ensures Lists(FRESH, USERS, [])
    ensures Authenticate(FRESH, USERS, [], players, lib, printable, nonce, name, key, signature) ==
      Attempt(Success(NameTaken), FRESH)
    ensures ServerMoves.Authenticate(map[], players, lib, printable, nonce, name, key, signature).result
      in {AuthSuccess, AlreadyConnected}
  {
    FreshLists();
    DotPath();
    DotDotPath();
    assert USERS + [".."] + ["pub"] == USERS + ["..", "pub"];
  }
}
