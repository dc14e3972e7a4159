/**
 * Keyboard input (rogue_talk/client/input_handler.py): which key presses
 * move the player and which toggle mute, quit and the other views. A key
 * press is its text together with the terminal library's name for special
 * keys.
 */
module InputHandler {
  import opened Wrappers

  /** A key press: the text it produced and, for special keys, a name such as "KEY_UP". */
  datatype Keystroke = Keystroke(text: string, name: Option<string>)

  /**
   * `str.lower()` for the characters that can lower to an ASCII letter: the
   * ASCII capitals, the KELVIN SIGN (lowered to 'k') and the LATIN CAPITAL
   * LETTER I WITH DOT ABOVE (lowered to 'i' followed by a combining dot).
   * Every other character is left as it is.
   */
  function LowerChar(c: char): string {
    if 'A' <= c <= 'Z' then [(c as int + 32) as char]
    else if c == '\U{212A}' then "k"
    else if c == '\U{130}' then "i\U{307}"
    else [c]
  }

  function Lower(s: string): (r: string)
    ensures |r| >= |s|
    decreases |s|
  {
    if |s| == 0 then "" else LowerChar(s[0]) + Lower(s[1..])
  }

  /** `MOVEMENT_KEYS`: WASD and the vim keys HJKL. */
  const MovementKeys: map<string, (int, int)> := map[
    "w" := (0, -1), "a" := (-1, 0), "s" := (0, 1), "d" := (1, 0),
    "h" := (-1, 0), "j" := (0, 1), "k" := (0, -1), "l" := (1, 0)]

  /** `get_movement(key)`: an arrow key by its name, else the lowered text looked up in the table. */
  function GetMovement(key: Keystroke): (r: Option<(int, int)>)
    ensures r.Some? ==> IsUnitStep(r.value)
  {
    if key.name == Some("KEY_UP") then Some((0, -1))
    else if key.name == Some("KEY_DOWN") then Some((0, 1))
    else if key.name == Some("KEY_LEFT") then Some((-1, 0))
    else if key.name == Some("KEY_RIGHT") then Some((1, 0))
    else if Lower(key.text) in MovementKeys then Some(MovementKeys[Lower(key.text)])
    else None
  }

  predicate IsUnitStep(d: (int, int)) {
    (if d.0 < 0 then -d.0 else d.0) + (if d.1 < 0 then -d.1 else d.1) == 1
  }

  predicate IsMuteKey(key: Keystroke) { Lower(key.text) == "m" }
  predicate IsQuitKey(key: Keystroke) { Lower(key.text) == "q" }
  predicate IsShowNamesKey(key: Keystroke) { Lower(key.text) == "n" }
  predicate IsPlayerTableKey(key: Keystroke) { key.name == Some("KEY_TAB") }
  predicate IsHelpKey(key: Keystroke) { key.text == "?" }
  predicate IsInteractKey(key: Keystroke) { key.text == " " }

  /** A string lowers to a single character other than 'i' exactly when it is one character lowering to that one. */
  lemma {:induction false} LowerSingle(s: string, c: char)
    requires c != 'i'
    ensures Lower(s) == [c] <==> |s| == 1 && LowerChar(s[0]) == [c]
  {
    if |s| >= 2 {
      assert |Lower(s)| >= 2 by {
        assert Lower(s) == LowerChar(s[0]) + Lower(s[1..]);
      }
    } else if |s| == 1 {
      assert Lower(s) == LowerChar(s[0]) + Lower([]);
    }
  }

  /** The characters that lower to a given ASCII lowercase letter other than 'i' and 'k'. */
  lemma LowerCharTo(x: char, c: char)
    requires 'a' <= c <= 'z' && c != 'i' && c != 'k'
    ensures LowerChar(x) == [c] <==> x == c || x as int == c as int - 32
  {
  }

  /** The mute and quit keys are 'm' and 'q' in either case and nothing else. */
  lemma MuteQuitKeys(key: Keystroke)
    ensures IsMuteKey(key) <==> key.text == "m" || key.text == "M"
    ensures IsQuitKey(key) <==> key.text == "q" || key.text == "Q"
    ensures IsShowNamesKey(key) <==> key.text == "n" || key.text == "N"
  {
    LowerSingle(key.text, 'm');
    LowerSingle(key.text, 'q');
    LowerSingle(key.text, 'n');
    if |key.text| == 1 {
      LowerCharTo(key.text[0], 'm');
      LowerCharTo(key.text[0], 'q');
      LowerCharTo(key.text[0], 'n');
      assert key.text == [key.text[0]];
    }
  }

  /** Letter keys move the same way in either case. */
  lemma MovementCaseInsensitive(c: char, name: Option<string>)
    requires 'a' <= c <= 'z'
    requires name !in {Some("KEY_UP"), Some("KEY_DOWN"), Some("KEY_LEFT"), Some("KEY_RIGHT")}
    ensures GetMovement(Keystroke([c], name)) == GetMovement(Keystroke([(c as int - 32) as char], name))
  {
    assert Lower([c]) == LowerChar(c) + Lower([]);
    var u := (c as int - 32) as char;
    assert Lower([u]) == LowerChar(u) + Lower([]);
  }

  /** The arrow keys move one tile up, down, left and right, whatever text they carry. */
  lemma ArrowKeys(text: string)
    ensures GetMovement(Keystroke(text, Some("KEY_UP"))) == Some((0, -1))
    ensures GetMovement(Keystroke(text, Some("KEY_DOWN"))) == Some((0, 1))
    ensures GetMovement(Keystroke(text, Some("KEY_LEFT"))) == Some((-1, 0))
    ensures GetMovement(Keystroke(text, Some("KEY_RIGHT"))) == Some((1, 0))
  {
  }

  /** WASD and HJKL in either case. */
  const MovementLetters: set<char> := {'w', 'a', 's', 'd', 'h', 'j', 'k', 'l', 'W', 'A', 'S', 'D', 'H', 'J', 'K', 'L'}

  /** The one-letter keys of the movement table are the eight letters WASD and HJKL. */
  lemma OneLetterKeys(c: char)
    ensures [c] in MovementKeys <==> c in {'w', 'a', 's', 'd', 'h', 'j', 'k', 'l'}
  {
    assert MovementKeys.Keys == {"w", "a", "s", "d", "h", "j", "k", "l"};
    if [c] in MovementKeys {
      assert [c][0] == c;
    }
  }

  /** A one-character text lowers to a movement key exactly when it is one of WASD or HJKL in either case, or the KELVIN SIGN. */
  lemma LowerOneMoves(x: char)
    ensures Lower([x]) in MovementKeys <==> x in MovementLetters || x == '\U{212A}'
  {
    assert Lower([x]) == LowerChar(x) + Lower([]);
    if 'A' <= x <= 'Z' {
      var lx := (x as int + 32) as char;
      assert Lower([x]) == [lx];
      OneLetterKeys(lx);
    } else if x == '\U{212A}' {
      assert Lower([x]) == "k";
    } else if x == '\U{130}' {
      assert Lower([x]) == "i\U{307}";
    } else {
      assert Lower([x]) == [x];
      OneLetterKeys(x);
    }
  }

  /**
   * Without an arrow-key name, a key moves exactly when its text is one of
   * WASD or HJKL in either case, or the KELVIN SIGN, which lowers to 'k'.
   */
  lemma {:induction false} MovementKeysOnly(key: Keystroke)
    requires key.name !in {Some("KEY_UP"), Some("KEY_DOWN"), Some("KEY_LEFT"), Some("KEY_RIGHT")}
    ensures GetMovement(key).Some? <==>
      |key.text| == 1 && (key.text[0] in MovementLetters || key.text[0] == '\U{212A}')
  {
    var t := key.text;
    if |t| >= 2 {
      assert Lower(t) == LowerChar(t[0]) + Lower(t[1..]);
      assert |Lower(t)| >= 2;
    } else if |t| == 1 {
      assert t == [t[0]];
      LowerOneMoves(t[0]);
    } else {
      assert Lower(t) == "";
    }
  }
}
