/** The hotkey box shared by the shortcut and clipboard-shortcut dialogs:
    while it has focus, a key press with at least one of Ctrl, Alt and Shift
    held becomes the captured combination and its display name. Both
    dialogs carry identical copies of this handler. */
module HotkeyCapture {
  import opened Text
  import opened Hotkeys

  /** `Keys` codes of the modifier keys themselves. */
  const ShiftKey: Int32 := 16
  const ControlKey: Int32 := 17
  const Menu: Int32 := 18
  const LWin: Int32 := 91
  const RWin: Int32 := 92

  /** The text shown when a key is pressed without a modifier. It is
      written as two literals so that the verifier can read its first
      characters, which tell it apart from every display name. */
  const NoModifierText: string := "Please " + "use at least one modifier (Ctrl, Alt, Shift)"

  /** A `KeyDown` event: the modifier keys held and `e.KeyCode`. */
  datatype KeyPress = KeyPress(control: bool, alt: bool, shift: bool, key: Int32)

  /** The box's state: whether it has focus, the captured modifiers and key
      code, the display name of the captured combination, and the text the
      box shows. */
  datatype Capture = Capture(capturing: bool, modifiers: Int32, keyCode: Int32, display: string, text: string)

  predicate IsModifierKey(key: Int32) {
    key == ControlKey || key == ShiftKey || key == Menu || key == LWin || key == RWin
  }

  /** Bit `bit` (a power of two) is set in `mask`. */
  predicate HasBit(mask: int, bit: UInt32)
    requires bit > 0
  {
    (mask / bit) % 2 == 1
  }

  /** The modifiers mask of `RegisterHotKey` for the held keys. The flags
      are distinct bits, so or-ing them is adding them; Win never
      contributes. */
  function ModifierMask(control: bool, alt: bool, shift: bool): (r: UInt32)
    ensures 0 <= r < 8
    ensures HasBit(r, ModControl) == control
    ensures HasBit(r, ModAlt) == alt
    ensures HasBit(r, ModShift) == shift
    ensures !HasBit(r, ModWin)
    ensures r == 0 <==> !control && !alt && !shift
  {
    (if control then ModControl else 0) + (if alt then ModAlt else 0) + (if shift then ModShift else 0)
  }

  /** Distinct sets of held modifiers give distinct masks. */
  lemma ModifierMaskInjective(c1: bool, a1: bool, s1: bool, c2: bool, a2: bool, s2: bool)
    requires ModifierMask(c1, a1, s1) == ModifierMask(c2, a2, s2)
    ensures c1 == c2 && a1 == a2 && s1 == s2
  {
    assert HasBit(ModifierMask(c1, a1, s1), ModControl) == c1;
    assert HasBit(ModifierMask(c2, a2, s2), ModControl) == c2;
  }

  /** The display name of a combination: "Ctrl+", "Alt+", "Shift+" in that
      order for the held modifiers, then the key's name. */
  function DisplayName(control: bool, alt: bool, shift: bool, keyName: string): string {
    (if control then "Ctrl+" else "") + (if alt then "Alt+" else "") + (if shift then "Shift+" else "") + keyName
  }

  /** The display name read back from a mask: what a stored combination
      should show. */
  function DisplayOfMask(mask: Int32, keyName: string): (r: string)
    ensures 0 <= mask < 8 ==>
              r == DisplayName(HasBit(mask, ModControl), HasBit(mask, ModAlt), HasBit(mask, ModShift), keyName)
  {
    DisplayName(HasBit(mask, ModControl), HasBit(mask, ModAlt), HasBit(mask, ModShift), keyName)
  }

  /** Cuts prefix `p` off `s` when `s` starts with it. */
  function StripPrefix(s: string, p: string): (r: (bool, string))
    ensures r.0 == StartsWith(s, p)
    ensures r.0 ==> s == p + r.1
    ensures !r.0 ==> r.1 == s
  {
    if StartsWith(s, p) then
      assert s == s[..|p|] + s[|p|..];
      (true, s[|p|..])
    else (false, s)
  }

  /** Reads a display name back into the modifiers held and the key name. */
  function ParseDisplayName(s: string): (bool, bool, bool, string) {
    var (control, s1) := StripPrefix(s, "Ctrl+");
    var (alt, s2) := StripPrefix(s1, "Alt+");
    var (shift, s3) := StripPrefix(s2, "Shift+");
    (control, alt, shift, s3)
  }

  predicate NoPlus(s: string) {
    forall i :: 0 <= i < |s| ==> s[i] != '+'
  }

  lemma PrefixStripped(p: string, x: string)
    ensures StripPrefix(p + x, p) == (true, x)
  {
    assert (p + x)[..|p|] == p;
  }

  /** A string whose first letter differs from `p`'s does not start with
      `p`. */
  lemma FirstLetterDiffers(s: string, p: string)
    requires |s| > 0 && |p| > 0 && s[0] != p[0]
    ensures StripPrefix(s, p) == (false, s)
  {
    if |p| <= |s| {
      assert s[..|p|][0] == s[0];
    }
  }

  /** A key name without '+' starts with none of the three prefixes. */
  lemma NoPlusNotPrefixed(name: string, p: string)
    requires NoPlus(name) && |p| > 0 && p[|p| - 1] == '+'
    ensures StripPrefix(name, p) == (false, name)
  {
    if |p| <= |name| {
      assert name[..|p|][|p| - 1] == name[|p| - 1] != '+';
    }
  }

  /** A display name determines the combination: reading it back gives the
      modifiers held and the key name, since key names contain no '+'. */
  lemma DisplayNameRoundTrip(control: bool, alt: bool, shift: bool, keyName: string)
    requires NoPlus(keyName)
    ensures ParseDisplayName(DisplayName(control, alt, shift, keyName)) == (control, alt, shift, keyName)
  {
    var tail2 := if shift then "Shift+" + keyName else keyName;
    var tail1 := if alt then "Alt+" + tail2 else tail2;
    var s := if control then "Ctrl+" + tail1 else tail1;
    assert DisplayName(control, alt, shift, keyName) == s;
    if shift {
      PrefixStripped("Shift+", keyName);
    } else {
      NoPlusNotPrefixed(keyName, "Shift+");
    }
    if alt {
      PrefixStripped("Alt+", tail2);
    } else if shift {
      FirstLetterDiffers(tail2, "Alt+");
    } else {
      NoPlusNotPrefixed(tail2, "Alt+");
    }
    if control {
      PrefixStripped("Ctrl+", tail1);
    } else if alt || shift {
      FirstLetterDiffers(tail1, "Ctrl+");
    } else {
      NoPlusNotPrefixed(tail1, "Ctrl+");
    }
  }

  // ---------------------------------------------------------------------
  // The box
  // ---------------------------------------------------------------------

  /** `LoadShortcutData`: the box shows the stored display name and holds
      the stored combination; it has no focus yet. */
  function Load(modifiers: Int32, keyCode: Int32, keyDisplayName: string): (c: Capture)
    ensures !c.capturing && c.modifiers == modifiers && c.keyCode == keyCode
    ensures c.display == keyDisplayName && c.text == keyDisplayName
  {
    Capture(false, modifiers, keyCode, keyDisplayName, keyDisplayName)
  }

  /** `ShortcutTextBox_Enter` / `ShortcutTextBox_Leave`: focus turns
      capturing on and off and changes nothing else. */
  function Focus(c: Capture, focused: bool): (r: Capture)
    ensures r.capturing == focused
    ensures r.(capturing := c.capturing) == c
  {
    c.(capturing := focused)
  }

  /** `ShortcutTextBox_KeyDown`. `keyName` is `Keys.ToString`. */
  function KeyDown(c: Capture, p: KeyPress, keyName: Int32 -> string): (r: Capture)
    ensures r.capturing == c.capturing
    ensures !c.capturing || IsModifierKey(p.key) ==> r == c
    ensures c.capturing && !IsModifierKey(p.key) && !p.control && !p.alt && !p.shift ==>
              r == c.(text := NoModifierText)
    ensures c.capturing && !IsModifierKey(p.key) && (p.control || p.alt || p.shift) ==>
              && r.keyCode == p.key
              && r.modifiers == ModifierMask(p.control, p.alt, p.shift)
              && r.display == r.text
              && r.display == DisplayOfMask(r.modifiers, keyName(r.keyCode))
  {
    if !c.capturing || IsModifierKey(p.key) then c
    else
      var mask := ModifierMask(p.control, p.alt, p.shift);
      if mask == 0 then c.(text := NoModifierText)
      else
        var name := DisplayName(p.control, p.alt, p.shift, keyName(p.key));
        c.(modifiers := mask, keyCode := p.key, display := name, text := name)
  }

  /** The captured combination is one `RegisterHotKey` accepts as a
      hotkey: at least one of Ctrl, Alt, Shift and a key that is not itself
      a modifier. */
  predicate ValidCombination(c: Capture) {
    0 < c.modifiers < 8 && c.keyCode != 0 && !IsModifierKey(c.keyCode)
  }

  /** The display name agrees with the captured combination. */
  predicate DisplayInSync(c: Capture, keyName: Int32 -> string) {
    c.display == DisplayOfMask(c.modifiers, keyName(c.keyCode))
  }

  /** A key press keeps the captured combination valid and its display name
      in step with it; an accepted press makes it valid. */
  lemma KeyDownKeepsCombination(c: Capture, p: KeyPress, keyName: Int32 -> string)
    requires p.key != 0
    ensures var r := KeyDown(c, p, keyName);
            (ValidCombination(c) ==> ValidCombination(r)) &&
            (r.keyCode != c.keyCode ==> ValidCombination(r)) &&
            (DisplayInSync(c, keyName) ==> DisplayInSync(r, keyName))
  {
    var r := KeyDown(c, p, keyName);
    if c.capturing && !IsModifierKey(p.key) && (p.control || p.alt || p.shift) {
      var mask := ModifierMask(p.control, p.alt, p.shift);
      assert r.display == DisplayName(p.control, p.alt, p.shift, keyName(p.key));
      assert DisplayOfMask(mask, keyName(p.key)) == DisplayName(p.control, p.alt, p.shift, keyName(p.key));
    }
  }

  /** The key display name a dialog saves on OK. As written it is the box's
      text, which after a rejected press is the error message; the
      corrected reading saves the captured combination's display name. */
  function SavedDisplayName(c: Capture, asWritten: bool): (r: string)
    ensures asWritten ==> r == c.text
    ensures !asWritten ==> r == c.display
  {
    if asWritten then c.text else c.display
  }

  /** As written: capture Ctrl+A, then press B alone. The combination stays
      Ctrl+A but the text to be saved as its display name is the error
      message. */
  lemma RejectedPressReplacesDisplayNameAsWritten()
    ensures var keyName := (k: Int32) => if k == 65 then "A" else "B";
            var c0 := Focus(Load(0, 0, ""), true);
            var c1 := KeyDown(c0, KeyPress(true, false, false, 65), keyName);
            var c2 := KeyDown(c1, KeyPress(false, false, false, 66), keyName);
            && c2.modifiers == ModControl && c2.keyCode == 65
            && SavedDisplayName(c2, true) == NoModifierText
            && ParseDisplayName(SavedDisplayName(c2, true)).3 != keyName(c2.keyCode)
  {
    var keyName := (k: Int32) => if k == 65 then "A" else "B";
    var c1 := KeyDown(Focus(Load(0, 0, ""), true), KeyPress(true, false, false, 65), keyName);
    var c2 := KeyDown(c1, KeyPress(false, false, false, 66), keyName);
    assert c2.text == NoModifierText;
    FirstLetterDiffers(NoModifierText, "Ctrl+");
    FirstLetterDiffers(NoModifierText, "Alt+");
    FirstLetterDiffers(NoModifierText, "Shift+");
  }

  /** Corrected: the saved display name always names the captured
      combination, whatever was pressed since. */
  lemma SavedDisplayNameInSync(c: Capture, presses: seq<KeyPress>, keyName: Int32 -> string)
    requires DisplayInSync(c, keyName)
    requires forall i :: 0 <= i < |presses| ==> presses[i].key != 0
    ensures var r := KeyDowns(c, presses, keyName);
            SavedDisplayName(r, false) == DisplayOfMask(r.modifiers, keyName(r.keyCode))
  {
    KeyDownsInSync(c, presses, keyName);
  }

  /** A run of key presses. */
  function KeyDowns(c: Capture, presses: seq<KeyPress>, keyName: Int32 -> string): (r: Capture)
    ensures r.capturing == c.capturing
    ensures presses == [] ==> r == c
    decreases |presses|
  {
    if presses == [] then c else KeyDowns(KeyDown(c, presses[0], keyName), presses[1..], keyName)
  }

  lemma {:induction false} KeyDownsInSync(c: Capture, presses: seq<KeyPress>, keyName: Int32 -> string)
    requires DisplayInSync(c, keyName)
    requires forall i :: 0 <= i < |presses| ==> presses[i].key != 0
    ensures DisplayInSync(KeyDowns(c, presses, keyName), keyName)
    decreases |presses|
  {
    if presses != [] {
      KeyDownKeepsCombination(c, presses[0], keyName);
      KeyDownsInSync(KeyDown(c, presses[0], keyName), presses[1..], keyName);
    }
  }
}
