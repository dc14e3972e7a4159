/**
 * Player persistence on the server (rogue_talk/server/storage.py). The
 * users directory is a map from player name to that player's directory,
 * which may hold the public key file `pub` and the saved state file
 * `state.json`. A state file is either a JSON document or text that does
 * not parse as one.
 */
module Storage {
  import opened Wrappers
  import opened Bytes
  import opened Errors
  import opened JsonValues
  import Collections

  /** A saved position: where the player stood and on which level. */
  datatype PlayerState = PlayerState(x: int, y: int, level: string)

  datatype StateFile = Parsed(doc: Json) | Unparseable

  /** One player's directory: the key file and the state file, each possibly absent. */
  datatype UserDir = UserDir(pub: Option<seq<byte>>, state: Option<StateFile>)

  // ---------------------------------------------------------------- reading a state file

  predicate IsDigit(c: char) { '0' <= c <= '9' }

  /** Python's `str.isspace`, which `int()` strips: ASCII whitespace, the separators 0x1C..0x1F and Unicode spaces. */
  predicate IsSpace(c: char) {
    '\t' <= c <= '\r' || '\U{1C}' <= c <= ' ' || c == '\U{85}' || c == '\U{A0}' || c == '\U{1680}' ||
    '\U{2000}' <= c <= '\U{200A}' || c == '\U{2028}' || c == '\U{2029}' || c == '\U{202F}' || c == '\U{205F}' ||
    c == '\U{3000}'
  }

  function DigitsValue(s: string): (n: nat)
    requires forall i :: 0 <= i < |s| ==> IsDigit(s[i])
    decreases |s|
  {
    if |s| == 0 then 0
    else
      assert IsDigit(s[|s| - 1]);
      DigitsValue(s[..|s| - 1]) * 10 + (s[|s| - 1] as int - '0' as int)
  }

  function StripSpace(s: string): (r: string)
    ensures |r| <= |s|
    decreases |s|
  {
    if s != [] && IsSpace(s[0]) then StripSpace(s[1..])
    else if s != [] && IsSpace(s[|s| - 1]) then StripSpace(s[..|s| - 1])
    else s
  }

  /** `int(s)` for a string: surrounding whitespace, an optional sign, then one or more decimal digits. */
  function IntOfString(s: string): (r: Option<int>) {
    var t := StripSpace(s);
    var neg := t != [] && t[0] == '-';
    var digits := if t != [] && (t[0] == '-' || t[0] == '+') then t[1..] else t;
    if digits != [] && forall i :: 0 <= i < |digits| ==> IsDigit(digits[i]) then
      var v: int := DigitsValue(digits);
      Some(if neg then -v else v)
    else None
  }

  /** `int(v)` for a JSON value: integers as they are, booleans as 0 and 1, strings parsed, anything else a TypeError. */
  function IntOf(v: Json): (r: Result<int, Error>)
    ensures v.JNumber? ==> r == Success(v.n)
    ensures r.Failure? && r.error == TypeError <==> v.JNull? || v.JArray? || v.JObject?
    ensures r.Failure? ==> r.error == TypeError || (v.JString? && r.error == ValueError)
  {
    match v
    case JNumber(n) => Success(n)
    case JBool(b) => Success(if b then 1 else 0)
    case JString(s) => if IntOfString(s).Some? then Success(IntOfString(s).value) else Failure(ValueError)
    case _ => Failure(TypeError)
  }

  function DecimalString(n: nat): (r: string)
    decreases n
  {
    if n < 10 then [('0' as int + n) as char] else DecimalString(n / 10) + [('0' as int + n % 10) as char]
  }

  /**
   * `str(v)` for a JSON value: a string is itself, and numbers, booleans and
   * null are printed as Python prints them; how lists and dicts print is
   * given by `reprContainer`.
   */
  function StrOf(v: Json, reprContainer: Json -> string): (r: string)
    ensures v.JString? ==> r == v.s
  {
    match v
    case JString(s) => s
    case JNumber(n) => if n < 0 then "-" + DecimalString(-n) else DecimalString(n)
    case JBool(b) => if b then "True" else "False"
    case JNull => "None"
    case _ => reprContainer(v)
  }

  /** The `PlayerState(...)` construction: x, then y, then level, each converted as soon as it is read. */
  function LoadState(data: Json, reprContainer: Json -> string): Result<PlayerState, Error> {
    var xv :- Field(data, "x");
    var x :- IntOf(xv);
    var yv :- Field(data, "y");
    var y :- IntOf(yv);
    var lv :- Field(data, "level");
    Success(PlayerState(x, y, StrOf(lv, reprContainer)))
  }

  /**
   * `get_player_state` on a state file: absent, unparseable, missing a key
   * or holding a string that is not an integer gives None; a TypeError
   * from a value of the wrong kind is not caught.
   */
  function ReadState(file: Option<StateFile>, reprContainer: Json -> string): (r: Result<Option<PlayerState>, Error>)
    ensures file.None? || file == Some(Unparseable) ==> r == Success(None)
    ensures r.Failure? ==> r.error == TypeError
  {
    match file
    case None => Success(None)
    case Some(Unparseable) => Success(None)
    case Some(Parsed(doc)) =>
      match LoadState(doc, reprContainer)
      case Success(p) => Success(Some(p))
      case Failure(e) => if e == KeyError || e == ValueError then Success(None) else Failure(e)
  }

  /** What `save_player_state` writes: `{"x": x, "y": y, "level": level}`. */
  function StateJson(x: int, y: int, level: string): Json {
    JObject(map["x" := JNumber(x), "y" := JNumber(y), "level" := JString(level)])
  }

  /** A saved state reads back as the same x, y and level. */
  lemma SavedStateReadsBack(x: int, y: int, level: string, reprContainer: Json -> string)
    ensures ReadState(Some(Parsed(StateJson(x, y, level))), reprContainer) == Success(Some(PlayerState(x, y, level)))
  {
    var d := StateJson(x, y, level);
    assert Field(d, "x") == Success(JNumber(x));
    assert Field(d, "y") == Success(JNumber(y));
    assert Field(d, "level") == Success(JString(level));
  }

  /**
   * A document that is an object yields a state exactly when x, y and level
   * are present and x and y convert; a missing key gives None, and so does
   * an x or y string that is not an integer.
   */
  lemma ReadStateObject(fields: map<string, Json>, reprContainer: Json -> string)
    ensures var r := ReadState(Some(Parsed(JObject(fields))), reprContainer);
      (r.Success? && r.value.Some? <==>
        "x" in fields && "y" in fields && "level" in fields
        && IntOf(fields["x"]).Success? && IntOf(fields["y"]).Success?)
      && (r.Success? && r.value.Some? ==>
        r.value.value == PlayerState(IntOf(fields["x"]).value, IntOf(fields["y"]).value, StrOf(fields["level"], reprContainer)))
      && ("x" !in fields ==> r == Success(None))
  {
  }

  /** A document that is not an object cannot be indexed by name: the TypeError escapes. */
  lemma ReadStateNotObject(doc: Json, reprContainer: Json -> string)
    requires !doc.JObject?
    ensures ReadState(Some(Parsed(doc)), reprContainer) == Failure(TypeError)
  {
  }

  /** `int()` on a string gives back the number that was printed. */
  lemma {:induction false} DecimalDigits(n: nat)
    ensures DecimalString(n) != [] && forall i :: 0 <= i < |DecimalString(n)| ==> IsDigit(DecimalString(n)[i])
    ensures DigitsValue(DecimalString(n)) == n
    decreases n
  {
    if n >= 10 {
      DecimalDigits(n / 10);
      var s := DecimalString(n);
      var init := DecimalString(n / 10);
      assert s[..|s| - 1] == init;
    }
  }

  lemma IntOfDecimal(n: int)
    ensures IntOfString(if n < 0 then "-" + DecimalString(-n) else DecimalString(n)) == Some(n)
  {
    var m := if n < 0 then -n else n;
    DecimalDigits(m);
    var d := DecimalString(m);
    if n < 0 {
      var t := "-" + d;
      assert !IsSpace(t[0]) && !IsSpace(t[|t| - 1]);
      assert StripSpace(t) == t;
      assert t[1..] == d;
    } else {
      assert !IsSpace(d[0]) && !IsSpace(d[|d| - 1]);
      assert StripSpace(d) == d;
    }
  }

  /** A number saved as a string, as `str(x)` writes it, converts back like the number itself. */
  lemma IntOfStrOfNumber(n: int, reprContainer: Json -> string)
    ensures IntOf(JString(StrOf(JNumber(n), reprContainer))) == Success(n)
  {
    IntOfDecimal(n);
  }

  // ---------------------------------------------------------------- the store

  class PlayerStorage {
    /** The users directory: each player's name and directory. */
    var users: map<string, UserDir>

    /** Opening a data directory that already holds `existing` users. */
    constructor (existing: map<string, UserDir>)
      ensures users == existing
    {
      users := existing;
    }

    /** `get_public_key(name)`: the key file's bytes, or None when the player has none. */
    function GetPublicKey(name: string): (r: Option<seq<byte>>)
      reads this
      ensures r.Some? <==> name in users && users[name].pub.Some?
      ensures r.Some? ==> r.value == users[name].pub.value
    {
      if name in users then users[name].pub else None
    }

    /** `get_name_by_key(key)`: some player whose key file holds `key`, in directory order, or None when none does. */
    method GetNameByKey(key: seq<byte>) returns (r: Option<string>)
      ensures r.Some? ==> r.value in users && users[r.value].pub == Some(key)
      ensures r.None? <==> forall n :: n in users ==> users[n].pub != Some(key)
    {
      var rest := users.Keys;
      while rest != {}
        invariant rest <= users.Keys
        invariant forall n :: n in users && n !in rest ==> users[n].pub != Some(key)
        decreases rest
      {
        var n := Collections.Pick(rest);
        if users[n].pub == Some(key) {
          return Some(n);
        }
        rest := rest - {n};
      }
      return None;
    }

    /** `register_player(name, key)`: a taken name is refused; otherwise a directory with the key file is created. */
    method RegisterPlayer(name: string, key: seq<byte>) returns (ok: bool)
      modifies this
      ensures ok <==> name !in old(users)
      ensures !ok ==> users == old(users)
      ensures ok ==> users == old(users)[name := UserDir(Some(key), None)]
      ensures ok ==> GetPublicKey(name) == Some(key)
    {
      if name in users {
        return false;
      }
      users := users[name := UserDir(Some(key), None)];
      return true;
    }

    /** `get_player_state(name)`: None for an unknown player or a missing or malformed state file. */
    function GetPlayerState(name: string, reprContainer: Json -> string): (r: Result<Option<PlayerState>, Error>)
      reads this
      ensures name !in users ==> r == Success(None)
      ensures name in users ==> r == ReadState(users[name].state, reprContainer)
    {
      if name in users then ReadState(users[name].state, reprContainer) else Success(None)
    }

    /** `save_player_state(name, x, y, level)`: nothing for an unknown player; otherwise the state file is replaced. */
    method SavePlayerState(name: string, x: int, y: int, level: string)
      modifies this
      ensures name !in old(users) ==> users == old(users)
      ensures name in old(users) ==> users == old(users)[name := old(users)[name].(state := Some(Parsed(StateJson(x, y, level))))]
      ensures name in old(users) ==> forall f :: GetPlayerState(name, f) == Success(Some(PlayerState(x, y, level)))
    {
      if name !in users {
        return;
      }
      users := users[name := users[name].(state := Some(Parsed(StateJson(x, y, level))))];
      forall f: Json -> string
        ensures GetPlayerState(name, f) == Success(Some(PlayerState(x, y, level)))
      {
        SavedStateReadsBack(x, y, level, f);
      }
    }
  }
}
