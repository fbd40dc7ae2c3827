/** The dialog that adds or edits a clipboard (paste) shortcut: its working
    copy and the checks its OK button makes. A hotkey used by an
    application shortcut is always refused; one used by another paste
    shortcut is refused unless the user accepts the clash. */
module ClipboardDialog {
  import opened Wrappers
  import opened Text
  import opened Seqs
  import opened Shortcuts
  import opened SettingsStore
  import opened HotkeyCapture

  /** The dialog's state. `original` is where the shortcut being edited
      sits in `allSettings`' paste-shortcut list (the source compares
      references; the model compares positions). */
  datatype Dialog = Dialog(
    shortcut: ClipboardShortcut,
    original: Option<nat>,
    allSettings: Option<Settings>,
    name: string,
    content: string,
    useTemplateVariables: bool,
    capture: Capture)

  /** Why OK left the dialog open. */
  datatype Rejection =
    | NameMissing
    | ContentMissing
    | NoHotkey
    | UsedByAppShortcut(app: nat)
    | ConflictDeclined(other: nat)

  /** The working copy of a shortcut being edited: name, content and hotkey;
      every other field, the template flag included, has its default. */
  function EditCopy(existing: ClipboardShortcut): (r: ClipboardShortcut)
    ensures r.name == existing.name && r.content == existing.content
    ensures r.modifiers == existing.modifiers && r.keyCode == existing.keyCode
    ensures r.keyDisplayName == existing.keyDisplayName
    ensures r.(name := "", content := "", modifiers := 0, keyCode := 0, keyDisplayName := "")
            == NewClipboardShortcut()
  {
    NewClipboardShortcut().(name := existing.name, content := existing.content, modifiers := existing.modifiers,
                            keyCode := existing.keyCode, keyDisplayName := existing.keyDisplayName)
  }

  /** The constructor and `LoadShortcutData`. The template box starts from
      the copy, which never carries the flag, so it starts unchecked even
      when the edited shortcut had it set. */
  function Open(existing: Option<ClipboardShortcut>, original: Option<nat>, allSettings: Option<Settings>)
    : (r: Dialog)
    requires original.Some? ==> existing.Some?
    ensures r.original == original && r.allSettings == allSettings
    ensures r.shortcut == (if existing.Some? then EditCopy(existing.value) else NewClipboardShortcut())
    ensures r.name == r.shortcut.name && r.content == r.shortcut.content
    ensures !r.useTemplateVariables
    ensures r.capture == Load(r.shortcut.modifiers, r.shortcut.keyCode, r.shortcut.keyDisplayName)
  {
    var shortcut := if existing.Some? then EditCopy(existing.value) else NewClipboardShortcut();
    Dialog(shortcut, original, allSettings, shortcut.name, shortcut.content, shortcut.useTemplateVariables,
           Load(shortcut.modifiers, shortcut.keyCode, shortcut.keyDisplayName))
  }

  /** Application shortcut `k` uses the captured combination. */
  predicate AppClash(shortcuts: seq<AppShortcut>, c: Capture, k: nat) {
    k < |shortcuts| && shortcuts[k].modifiers == c.modifiers && shortcuts[k].keyCode == c.keyCode
  }

  /** Paste shortcut `k` uses the captured combination and is not the one
      being edited. */
  predicate ClipClash(clips: seq<ClipboardShortcut>, skip: Option<nat>, c: Capture, k: nat) {
    k < |clips| && skip != Some(k) && clips[k].modifiers == c.modifiers && clips[k].keyCode == c.keyCode
  }

  function FirstAppClash(d: Dialog): (r: Option<nat>)
    ensures d.allSettings.None? ==> r.None?
    ensures r.Some? ==> AppClash(d.allSettings.value.shortcuts, d.capture, r.value)
    ensures r.Some? ==> forall j :: 0 <= j < r.value ==> !AppClash(d.allSettings.value.shortcuts, d.capture, j)
    ensures d.allSettings.Some? && r.None? ==>
              forall j :: 0 <= j < |d.allSettings.value.shortcuts| ==> !AppClash(d.allSettings.value.shortcuts, d.capture, j)
  {
    match d.allSettings
    case None => None
    case Some(s) =>
      var clash := (j: nat) => AppClash(s.shortcuts, d.capture, j);
      assert forall j: nat :: clash(j) == AppClash(s.shortcuts, d.capture, j);
      FirstIndex(|s.shortcuts|, clash)
  }

  function FirstClipClash(d: Dialog): (r: Option<nat>)
    ensures d.allSettings.None? ==> r.None?
    ensures r.Some? ==> ClipClash(d.allSettings.value.clipboardShortcuts, d.original, d.capture, r.value)
    ensures r.Some? ==>
              forall j :: 0 <= j < r.value ==> !ClipClash(d.allSettings.value.clipboardShortcuts, d.original, d.capture, j)
    ensures d.allSettings.Some? && r.None? ==>
              forall j :: 0 <= j < |d.allSettings.value.clipboardShortcuts| ==>
                !ClipClash(d.allSettings.value.clipboardShortcuts, d.original, d.capture, j)
  {
    match d.allSettings
    case None => None
    case Some(s) =>
      var clash := (j: nat) => ClipClash(s.clipboardShortcuts, d.original, d.capture, j);
      assert forall j: nat :: clash(j) == ClipClash(s.clipboardShortcuts, d.original, d.capture, j);
      FirstIndex(|s.clipboardShortcuts|, clash)
  }

  /** What OK checks, stated without its order: a name, a content, a
      hotkey no application shortcut uses, and no clash with another paste
      shortcut unless the user accepts it. */
  predicate Acceptable(d: Dialog, useAnyway: bool) {
    && !IsBlank(d.name)
    && !IsBlank(d.content)
    && d.capture.keyCode != 0
    && (d.allSettings.Some? ==>
          && (forall j :: 0 <= j < |d.allSettings.value.shortcuts| ==> !AppClash(d.allSettings.value.shortcuts, d.capture, j))
          && (useAnyway ||
              forall j :: 0 <= j < |d.allSettings.value.clipboardShortcuts| ==>
                !ClipClash(d.allSettings.value.clipboardShortcuts, d.original, d.capture, j)))
  }

  /** The shortcut as OK writes it: name, content, template flag, hotkey
      and display name; the other fields stay. */
  function Saved(d: Dialog, asWritten: bool): (r: ClipboardShortcut)
    ensures r.(name := d.shortcut.name, content := d.shortcut.content,
               useTemplateVariables := d.shortcut.useTemplateVariables, modifiers := d.shortcut.modifiers,
               keyCode := d.shortcut.keyCode, keyDisplayName := d.shortcut.keyDisplayName) == d.shortcut
    ensures r.name == d.name && r.content == d.content && r.useTemplateVariables == d.useTemplateVariables
    ensures r.modifiers == d.capture.modifiers && r.keyCode == d.capture.keyCode
    ensures r.keyDisplayName == SavedDisplayName(d.capture, asWritten)
  {
    d.shortcut.(name := d.name, content := d.content, useTemplateVariables := d.useTemplateVariables,
                modifiers := d.capture.modifiers, keyCode := d.capture.keyCode,
                keyDisplayName := SavedDisplayName(d.capture, asWritten))
  }

  /** `OkButton_Click`. `useAnyway` is the answer to the one question asked
      about a clash with another paste shortcut; `asWritten` selects the
      display name the source saves (the box's text). The first failing
      check is reported and leaves the dialog unchanged. */
  function Ok(d: Dialog, useAnyway: bool, asWritten: bool): (r: (Dialog, Option<Rejection>))
    ensures r.1.None? <==> Acceptable(d, useAnyway)
    ensures r.1.Some? ==> r.0 == d
    ensures r.1.None? ==> r.0 == d.(shortcut := Saved(d, asWritten))
    ensures r.1 == Some(NameMissing) <==> IsBlank(d.name)
    ensures r.1 == Some(ContentMissing) <==> !IsBlank(d.name) && IsBlank(d.content)
    ensures r.1 == Some(NoHotkey) <==> !IsBlank(d.name) && !IsBlank(d.content) && d.capture.keyCode == 0
    ensures r.1.Some? && r.1.value.UsedByAppShortcut? ==> FirstAppClash(d) == Some(r.1.value.app)
    ensures r.1.Some? && r.1.value.ConflictDeclined? ==>
              !useAnyway && FirstAppClash(d).None? && FirstClipClash(d) == Some(r.1.value.other)
  {
    if IsBlank(d.name) then (d, Some(NameMissing))
    else if IsBlank(d.content) then (d, Some(ContentMissing))
    else if d.capture.keyCode == 0 then (d, Some(NoHotkey))
    else match FirstAppClash(d)
      case Some(k) => (d, Some(UsedByAppShortcut(k)))
      case None =>
        match FirstClipClash(d)
        case Some(k) =>
          if !useAnyway then (d, Some(ConflictDeclined(k)))
          else (d.(shortcut := Saved(d, asWritten)), None)
        case None => (d.(shortcut := Saved(d, asWritten)), None)
  }

  /** A hotkey an application shortcut uses is refused whatever the user
      would answer: no answer can override it. */
  lemma AppClashCannotBeOverridden(d: Dialog, useAnyway: bool, asWritten: bool, k: nat)
    requires d.allSettings.Some? && AppClash(d.allSettings.value.shortcuts, d.capture, k)
    ensures Ok(d, useAnyway, asWritten).1.Some?
    ensures Ok(d, useAnyway, asWritten).0 == d
  {
    assert !Acceptable(d, useAnyway) by {
      assert 0 <= k < |d.allSettings.value.shortcuts|;
    }
  }

  /** After an accepted OK, no application shortcut has the saved hotkey,
      and no other paste shortcut has it unless the user accepted that. */
  lemma OkLeavesNoClash(d: Dialog, useAnyway: bool, asWritten: bool, k: nat)
    requires Ok(d, useAnyway, asWritten).1.None? && d.allSettings.Some?
    ensures var saved := Ok(d, useAnyway, asWritten).0.shortcut;
            && (k < |d.allSettings.value.shortcuts| ==>
                  !(d.allSettings.value.shortcuts[k].modifiers == saved.modifiers &&
                    d.allSettings.value.shortcuts[k].keyCode == saved.keyCode))
            && (!useAnyway && k < |d.allSettings.value.clipboardShortcuts| && d.original != Some(k) ==>
                  !(d.allSettings.value.clipboardShortcuts[k].modifiers == saved.modifiers &&
                    d.allSettings.value.clipboardShortcuts[k].keyCode == saved.keyCode))
  {
    if k < |d.allSettings.value.shortcuts| {
      assert !AppClash(d.allSettings.value.shortcuts, d.capture, k);
    }
    if !useAnyway && k < |d.allSettings.value.clipboardShortcuts| {
      assert !ClipClash(d.allSettings.value.clipboardShortcuts, d.original, d.capture, k);
    }
  }

  /** Pressing OK again after an accepted OK saves the same shortcut. */
  lemma OkIdempotent(d: Dialog, useAnyway: bool, asWritten: bool)
    requires Ok(d, useAnyway, asWritten).1.None?
    ensures var d1 := Ok(d, useAnyway, asWritten).0;
            Ok(d1, useAnyway, asWritten) == (d1, None)
  {
    var d1 := Ok(d, useAnyway, asWritten).0;
    assert d1.(shortcut := d.shortcut) == d;
    assert Acceptable(d1, useAnyway);
  }

  /** Editing a paste shortcut with template variables on and pressing OK
      without touching the box saves it with template variables off. */
  lemma EditDropsTemplateFlag(existing: ClipboardShortcut, original: Option<nat>, allSettings: Option<Settings>,
                              useAnyway: bool, asWritten: bool)
    requires existing.useTemplateVariables
    ensures var r := Ok(Open(Some(existing), original, allSettings), useAnyway, asWritten);
            r.1.None? ==> !r.0.shortcut.useTemplateVariables && r.0.shortcut.useTemplateVariables != existing.useTemplateVariables
  {
  }
}
