/**
 * What the Python scripts take from Python and from pynput: the string operations they
 * use (`strip`, `lower`, `startswith`, `endswith`, `in`), the names of pynput's `Key`
 * members, and the controller calls a replay makes, logged as `Effect`s.
 */
module Pynput {
  import opened Wrappers

  // ---- Strings ----

  /** The characters `str.isspace` accepts, which `str.strip()` removes. */
  predicate IsSpace(c: char)
  {
    || c == ' ' || '\t' <= c <= '\r' || '\U{1c}' <= c <= '\U{1f}'
    || c == '\U{85}' || c == '\U{a0}' || c == '\U{1680}' || '\U{2000}' <= c <= '\U{200a}'
    || c == '\U{2028}' || c == '\U{2029}' || c == '\U{202f}' || c == '\U{205f}' || c == '\U{3000}'
  }

  /** `s.lstrip()`: drops the leading whitespace. */
  function TrimStart(s: string): (r: string)
    ensures |r| <= |s| && r == s[|s| - |r|..]
    ensures r == [] || !IsSpace(r[0])
    ensures forall k :: 0 <= k < |s| - |r| ==> IsSpace(s[k])
  {
    if s != [] && IsSpace(s[0]) then
      var r := TrimStart(s[1..]);
      assert forall k :: 1 <= k < |s| - |r| ==> s[k] == s[1..][k - 1];
      r
    else s
  }

  /** `s.rstrip()`: drops the trailing whitespace. */
  function TrimEnd(s: string): (r: string)
    ensures |r| <= |s| && r == s[..|r|]
    ensures r == [] || !IsSpace(r[|r| - 1])
    ensures forall k :: |r| <= k < |s| ==> IsSpace(s[k])
  {
    if s != [] && IsSpace(s[|s| - 1]) then
      var r := TrimEnd(s[..|s| - 1]);
      assert forall k :: |r| <= k < |s| - 1 ==> s[k] == s[..|s| - 1][k];
      r
    else s
  }

  /** `s.strip()`. */
  function Strip(s: string): string
  {
    TrimEnd(TrimStart(s))
  }

  /** Stripping twice is stripping once. */
  lemma StripIdempotent(s: string)
    ensures Strip(Strip(s)) == Strip(s)
  {
    var t := TrimStart(s);
    var r := TrimEnd(t);
    assert r != [] ==> r[0] == t[0];
  }

  lemma {:induction false} TrimStartDropsSpaces(pre: string, t: string)
    requires forall k :: 0 <= k < |pre| ==> IsSpace(pre[k])
    requires t == [] || !IsSpace(t[0])
    ensures TrimStart(pre + t) == t
    decreases |pre|
  {
    if pre != [] {
      assert (pre + t)[1..] == pre[1..] + t;
      TrimStartDropsSpaces(pre[1..], t);
    } else {
      assert pre + t == t;
    }
  }

  lemma {:induction false} TrimEndDropsSpaces(t: string, post: string)
    requires forall k :: 0 <= k < |post| ==> IsSpace(post[k])
    requires t == [] || !IsSpace(t[|t| - 1])
    ensures TrimEnd(t + post) == t
    decreases |post|
  {
    if post != [] {
      assert (t + post)[..|t + post| - 1] == t + post[..|post| - 1];
      TrimEndDropsSpaces(t, post[..|post| - 1]);
    } else {
      assert t + post == t;
    }
  }

  /** A line is its text surrounded by whitespace, such as a trailing newline: strip gives the text. */
  lemma StripSurrounded(pre: string, text: string, post: string)
    requires forall k :: 0 <= k < |pre| ==> IsSpace(pre[k])
    requires forall k :: 0 <= k < |post| ==> IsSpace(post[k])
    requires text != [] && !IsSpace(text[0]) && !IsSpace(text[|text| - 1])
    ensures Strip(pre + text + post) == text
  {
    assert pre + text + post == pre + (text + post);
    TrimStartDropsSpaces(pre, text + post);
    TrimEndDropsSpaces(text, post);
  }

  /** `c.lower()` for the ASCII letters; every other character is kept. */
  function LowerChar(c: char): char
  {
    if 'A' <= c <= 'Z' then (c as int + 32) as char else c
  }

  /** `s.lower()`, character by character. */
  function Lower(s: string): (r: string)
    ensures |r| == |s|
    ensures forall k :: 0 <= k < |s| ==> r[k] == LowerChar(s[k])
  {
    seq(|s|, k requires 0 <= k < |s| => LowerChar(s[k]))
  }

  /** A name without capital letters. */
  predicate IsLowerName(s: string)
  {
    forall k :: 0 <= k < |s| ==> !('A' <= s[k] <= 'Z')
  }

  /** Lowering a name that is already lower case changes nothing; the result is lower case. */
  lemma LowerFixesLowerNames(s: string)
    ensures IsLowerName(Lower(s))
    ensures IsLowerName(s) ==> Lower(s) == s
  {
  }

  predicate StartsWith(s: string, prefix: string)
  {
    |prefix| <= |s| && s[..|prefix|] == prefix
  }

  predicate EndsWith(s: string, suffix: string)
  {
    |suffix| <= |s| && s[|s| - |suffix|..] == suffix
  }

  /** `sub in s`: `sub` occurs at some position of `s`. */
  predicate Contains(s: string, sub: string)
  {
    exists i :: 0 <= i <= |s| - |sub| && OccursAt(s, sub, i)
  }

  predicate OccursAt(s: string, sub: string, i: int)
  {
    0 <= i <= |s| - |sub| && s[i..i + |sub|] == sub
  }

  /** A text whose first `n` characters hold no `sub[0]` has no `sub` starting there. */
  lemma Absent(s: string, sub: string, n: nat)
    requires sub != [] && |s| - |sub| < n <= |s|
    requires forall k :: 0 <= k < n ==> s[k] != sub[0]
    ensures !Contains(s, sub)
  {
    forall i | 0 <= i <= |s| - |sub| ensures !OccursAt(s, sub, i) {
      assert s[i..i + |sub|][0] == s[i];
    }
  }

  // ---- pynput ----

  /** The members of `pynput.keyboard.Key` on Windows, by attribute name. */
  const KeyMembers: seq<string> := [
    "alt", "alt_l", "alt_r", "alt_gr", "backspace", "caps_lock", "cmd", "cmd_l", "cmd_r",
    "ctrl", "ctrl_l", "ctrl_r", "delete", "down", "end", "enter", "esc",
    "f1", "f2", "f3", "f4", "f5", "f6", "f7", "f8", "f9", "f10", "f11", "f12",
    "f13", "f14", "f15", "f16", "f17", "f18", "f19", "f20",
    "home", "left", "page_down", "page_up", "right", "shift", "shift_l", "shift_r",
    "space", "tab", "up", "media_play_pause", "media_volume_mute", "media_volume_down",
    "media_volume_up", "media_previous", "media_next", "insert", "menu", "num_lock",
    "pause", "print_screen", "scroll_lock"
  ]

  /** `hasattr(Key, name)`: the name is one of the members. */
  predicate IsKeyMember(name: string)
  {
    Listed(name, KeyMembers)
  }

  predicate Listed(name: string, names: seq<string>)
  {
    names != [] && (names[0] == name || Listed(name, names[1..]))
  }

  /** A listed name is one of the names, at some index. */
  lemma {:induction false} ListedAt(name: string, names: seq<string>)
    ensures Listed(name, names) <==> exists k :: 0 <= k < |names| && names[k] == name
  {
    if names != [] {
      ListedAt(name, names[1..]);
      if Listed(name, names[1..]) {
        var k :| 0 <= k < |names[1..]| && names[1..][k] == name;
        assert names[k + 1] == name;
      }
      if exists k :: 0 <= k < |names| && names[k] == name {
        var k :| 0 <= k < |names| && names[k] == name;
        if k > 0 {
          assert names[1..][k - 1] == name;
        }
      }
    }
  }

  /** A key a listener reports: a `Key` member, or a `KeyCode` whose `char` may be None. */
  datatype KeyEvent = SpecialKey(name: string) | KeyCode(character: Option<string>)

  /**
   * `key.char`, or `str(key)` when the key has no `char` attribute: a `Key` member prints
   * as `Key.` and its name.
   */
  function KeyText(k: KeyEvent): (t: Option<string>)
    ensures k.SpecialKey? ==> t.Some? && StartsWith(t.value, "Key.") && t.value[4..] == k.name
  {
    match k
    case SpecialKey(name) => Some("Key." + name)
    case KeyCode(c) => c
  }

  /** What a replay's `parse_key` hands to the keyboard controller: a `Key` member or a string. */
  datatype ParsedKey = Special(name: string) | Text(s: string)

  /** `if key:` on a `parse_key` result: None and the empty string are falsy. */
  predicate Truthy(k: Option<ParsedKey>)
  {
    k.Some? && (k.value.Special? || |k.value.s| > 0)
  }

  datatype Button = Left | Right | Middle

  /** `str(button)`. */
  function ButtonText(b: Button): string
  {
    match b
    case Left => "Button.left"
    case Right => "Button.right"
    case Middle => "Button.middle"
  }

  /**
   * One callback a mouse or keyboard listener makes, with the arguments pynput passes;
   * coordinates and scroll amounts are numbers the scripts do not assume to be whole.
   */
  datatype ListenerEvent =
    | Moved(x: real, y: real)
    | Clicked(x: real, y: real, button: Button, pressed: bool)
    | Scrolled(x: real, y: real, dx: real, dy: real)
    | KeyPressed(key: KeyEvent)
    | KeyReleased(key: KeyEvent)

  /** Of the three button names, only the left button's contains "left". */
  lemma ButtonMentionsLeft(b: Button)
    ensures Contains(ButtonText(b), "left") <==> b == Left
  {
    var s, sub := ButtonText(b), "left";
    if b == Left {
      assert OccursAt(s, sub, 7);
    } else {
      var n := if b == Right then 9 else 10;
      var front := s[..n];
      assert front == (if b == Right then "Button.ri" else "Button.mid");
      assert forall k :: 0 <= k < n ==> s[k] == front[k];
      Absent(s, sub, n);
    }
  }

  /** One controller call a replay makes. */
  datatype Effect =
    | MoveTo(x: int, y: int)
    | Press(button: Button)
    | Release(button: Button)
    | Scroll(dx: int, dy: int)
    | PressKey(key: ParsedKey)
    | ReleaseKey(key: ParsedKey)
}
