/** The dialog that adds or edits an application shortcut: the working
    copy it starts from, the application list it edits, and the checks the
    OK button makes before writing the result back. Message boxes, file
    pickers and the per-application details dialog are parameters. */
module ShortcutDialog {
  import opened Wrappers
  import opened Text
  import opened Seqs
  import opened Shortcuts
  import opened SettingsStore
  import opened HotkeyCapture

  /** The range of the launch-delay box, in milliseconds. */
  const DelayMaximum: Int32 := 10000

  /** The dialog's state. `original` is where the shortcut being edited
      sits in `allSettings`' list (the source compares references; the
      model compares positions). */
  datatype Dialog = Dialog(
    shortcut: AppShortcut,
    original: Option<nat>,
    allSettings: Option<Settings>,
    name: string,
    apps: seq<AppInfo>,
    delay: Int32,
    capture: Capture)

  /** Why OK left the dialog open. */
  datatype Rejection =
    | NameMissing
    | NoApplications
    | ApplicationNotFound(path: string)
    | NoHotkey
    | ConflictDeclined(other: nat)

  // ---------------------------------------------------------------------
  // Opening
  // ---------------------------------------------------------------------

  /** The copy of one application: path, arguments and run-as-administrator
      survive; the window layout and launch condition are reset. */
  function CopyApp(a: AppInfo): (r: AppInfo)
    ensures r.exePath == a.exePath && r.arguments == a.arguments && r.runAsAdmin == a.runAsAdmin
    ensures r.windowLayout == None && r.launchCondition == NewAppInfo(a.exePath).launchCondition
  {
    NewAppInfo(a.exePath).(arguments := a.arguments, runAsAdmin := a.runAsAdmin)
  }

  /** The working copy of a shortcut being edited: a new shortcut (with the
      fresh id `id`) carrying the name, the copied applications, the hotkey
      and the launch delay; every other field has its default. */
  function EditCopy(existing: AppShortcut, id: string): (r: AppShortcut)
    ensures r.name == existing.name && r.modifiers == existing.modifiers && r.keyCode == existing.keyCode
    ensures r.keyDisplayName == existing.keyDisplayName && r.launchDelay == existing.launchDelay
    ensures ExePaths(r) == ExePaths(existing)
    ensures |r.apps| == |existing.apps|
    ensures forall i :: 0 <= i < |r.apps| ==> r.apps[i] == CopyApp(existing.apps[i])
    ensures r.(name := "", apps := [], modifiers := 0, keyCode := 0, keyDisplayName := "", launchDelay := 0)
            == NewShortcut(id)
  {
    var apps := seq(|existing.apps|, i requires 0 <= i < |existing.apps| => CopyApp(existing.apps[i]));
    NewShortcut(id).(name := existing.name, apps := apps, modifiers := existing.modifiers,
                     keyCode := existing.keyCode, keyDisplayName := existing.keyDisplayName,
                     launchDelay := existing.launchDelay)
  }

  /** Copying a copy changes nothing more: what an edit loses, it loses at
      the first copy. */
  lemma EditCopyIdempotent(existing: AppShortcut, id: string)
    ensures EditCopy(EditCopy(existing, id), id) == EditCopy(existing, id)
  {
    var once := EditCopy(existing, id);
    var twice := EditCopy(once, id);
    assert twice.apps == once.apps by {
      forall i | 0 <= i < |once.apps|
        ensures twice.apps[i] == once.apps[i]
      {
        assert once.apps[i] == CopyApp(existing.apps[i]);
      }
    }
  }

  /** The constructor and `LoadShortcutData`. `existing` is the shortcut to
      edit, `id` the fresh id of the working copy. Setting the delay box
      throws when the stored delay is outside its range: `None`. */
  function Open(existing: Option<AppShortcut>, original: Option<nat>, allSettings: Option<Settings>, id: string)
    : (r: Option<Dialog>)
    requires original.Some? ==> existing.Some?
    ensures r.Some? <==> existing.None? || 0 <= existing.value.launchDelay <= DelayMaximum
    ensures r.Some? ==>
              && r.value.original == original && r.value.allSettings == allSettings
              && r.value.shortcut == (if existing.Some? then EditCopy(existing.value, id) else NewShortcut(id))
              && r.value.name == r.value.shortcut.name && r.value.apps == r.value.shortcut.apps
              && r.value.delay == r.value.shortcut.launchDelay
              && r.value.capture == Load(r.value.shortcut.modifiers, r.value.shortcut.keyCode,
                                         r.value.shortcut.keyDisplayName)
  {
    var shortcut := if existing.Some? then EditCopy(existing.value, id) else NewShortcut(id);
    if !(0 <= shortcut.launchDelay <= DelayMaximum) then None
    else Some(Dialog(shortcut, original, allSettings, shortcut.name, shortcut.apps, shortcut.launchDelay,
                     Load(shortcut.modifiers, shortcut.keyCode, shortcut.keyDisplayName)))
  }

  // ---------------------------------------------------------------------
  // The application list
  // ---------------------------------------------------------------------

  predicate HasPath(apps: seq<AppInfo>, path: string) {
    exists i :: 0 <= i < |apps| && apps[i].exePath == path
  }

  /** No two applications share a path. */
  predicate DistinctPaths(apps: seq<AppInfo>) {
    forall i, j :: 0 <= i < j < |apps| ==> apps[i].exePath != apps[j].exePath
  }

  /** The details dialog keeps the path it was opened on. */
  ghost predicate KeepsPath(details: AppInfo -> Option<AppInfo>) {
    forall a :: details(a).Some? ==> details(a).value.exePath == a.exePath
  }

  /** The loop of `AddAppButton_Click`: each chosen file not already in the
      list goes through the details dialog and is appended when that
      dialog answers OK. */
  function AddFiles(apps: seq<AppInfo>, files: seq<string>, details: AppInfo -> Option<AppInfo>)
    : (r: seq<AppInfo>)
    ensures |apps| <= |r| <= |apps| + |files|
    ensures r[..|apps|] == apps
    decreases |files|
  {
    if files == [] then apps
    else
      var f := files[0];
      var next :=
        if HasPath(apps, f) then apps
        else match details(NewAppInfo(f))
          case None => apps
          case Some(a) => apps + [a];
      var r := AddFiles(next, files[1..], details);
      assert r[..|apps|] == r[..|next|][..|apps|];
      r
  }

  /** Adding files never gives two applications the same path. */
  lemma {:induction false} AddFilesKeepsPathsDistinct(apps: seq<AppInfo>, files: seq<string>,
                                                      details: AppInfo -> Option<AppInfo>)
    requires DistinctPaths(apps) && KeepsPath(details)
    ensures DistinctPaths(AddFiles(apps, files, details))
    decreases |files|
  {
    if files != [] {
      var f := files[0];
      if !HasPath(apps, f) && details(NewAppInfo(f)).Some? {
        var next := apps + [details(NewAppInfo(f)).value];
        assert next[|apps|].exePath == f;
        assert DistinctPaths(next) by {
          forall i, j | 0 <= i < j < |next|
            ensures next[i].exePath != next[j].exePath
          {
            if j == |apps| {
              assert apps[i].exePath != f;
            } else {
              assert next[i] == apps[i] && next[j] == apps[j];
            }
          }
        }
        AddFilesKeepsPathsDistinct(next, files[1..], details);
      } else {
        AddFilesKeepsPathsDistinct(apps, files[1..], details);
      }
    }
  }

  /** Files already in the list are not offered again: choosing only
      listed files leaves the list as it was. */
  lemma {:induction false} AddFilesSkipsListed(apps: seq<AppInfo>, files: seq<string>,
                                               details: AppInfo -> Option<AppInfo>)
    requires forall k :: 0 <= k < |files| ==> HasPath(apps, files[k])
    ensures AddFiles(apps, files, details) == apps
    decreases |files|
  {
    if files != [] {
      assert HasPath(apps, files[0]);
      AddFilesSkipsListed(apps, files[1..], details);
    }
  }

  /** `AddAppButton_Click`. `chosen` is the file picker's answer (`None`
      for Cancel). A blank name is filled from a single chosen file. */
  function AddApps(d: Dialog, chosen: Option<seq<string>>, details: AppInfo -> Option<AppInfo>)
    : (r: Dialog)
    ensures chosen.None? ==> r == d
    ensures r.(apps := d.apps, name := d.name) == d
    ensures |d.apps| <= |r.apps| && r.apps[..|d.apps|] == d.apps
    ensures chosen.Some? && IsBlank(d.name) && |chosen.value| == 1 ==>
              r.name == FileNameWithoutExtension(chosen.value[0])
    ensures chosen.None? || !IsBlank(d.name) || |chosen.value| != 1 ==> r.name == d.name
  {
    match chosen
    case None => d
    case Some(files) =>
      var apps := AddFiles(d.apps, files, details);
      var name := if IsBlank(d.name) && |files| == 1 then FileNameWithoutExtension(files[0]) else d.name;
      d.(apps := apps, name := name)
  }

  /** `EditAppButton_Click`: the selected application is replaced by what
      the details dialog answers; Cancel or no selection changes nothing. */
  function EditApp(d: Dialog, selected: Option<nat>, details: AppInfo -> Option<AppInfo>): (r: Dialog)
    requires selected.Some? ==> selected.value < |d.apps|
    ensures r.(apps := d.apps) == d && |r.apps| == |d.apps|
    ensures forall i :: 0 <= i < |d.apps| && selected != Some(i) ==> r.apps[i] == d.apps[i]
    ensures selected.Some? && details(d.apps[selected.value]).Some? ==>
              r.apps[selected.value] == details(d.apps[selected.value]).value
    ensures selected.None? || details(d.apps[selected.value]).None? ==> r == d
  {
    if selected.None? then d
    else match details(d.apps[selected.value])
      case None => d
      case Some(a) => d.(apps := d.apps[selected.value := a])
  }

  /** `RemoveAppButton_Click`: the selected application leaves the list and
      the others keep their order. */
  function RemoveApp(d: Dialog, selected: Option<nat>): (r: Dialog)
    requires selected.Some? ==> selected.value < |d.apps|
    ensures r.(apps := d.apps) == d
    ensures selected.None? ==> r == d
    ensures selected.Some? ==>
              |r.apps| == |d.apps| - 1 &&
              (forall i :: 0 <= i < selected.value ==> r.apps[i] == d.apps[i]) &&
              (forall i :: selected.value <= i < |r.apps| ==> r.apps[i] == d.apps[i + 1])
  {
    if selected.None? then d
    else d.(apps := d.apps[..selected.value] + d.apps[selected.value + 1..])
  }

  // ---------------------------------------------------------------------
  // OK
  // ---------------------------------------------------------------------

  /** Index of the first application whose file is missing. */
  function FirstMissing(apps: seq<AppInfo>, fileExists: string -> bool): (r: Option<nat>)
    ensures r.Some? ==> r.value < |apps| && !fileExists(apps[r.value].exePath)
    ensures r.Some? ==> forall j :: 0 <= j < r.value ==> fileExists(apps[j].exePath)
    ensures r.None? <==> forall j :: 0 <= j < |apps| ==> fileExists(apps[j].exePath)
  {
    var missing := (j: nat) => j < |apps| && !fileExists(apps[j].exePath);
    assert forall j :: 0 <= j < |apps| ==> (missing(j) <==> !fileExists(apps[j].exePath));
    FirstIndex(|apps|, missing)
  }

  /** Shortcut `k` of `shortcuts` uses the captured combination and is not
      the one being edited. */
  predicate Clashes(shortcuts: seq<AppShortcut>, skip: Option<nat>, c: Capture, k: nat) {
    k < |shortcuts| && skip != Some(k) &&
    shortcuts[k].modifiers == c.modifiers && shortcuts[k].keyCode == c.keyCode
  }

  /** The shortcut the conflict question names: the first clash. */
  function FirstClash(d: Dialog): (r: Option<nat>)
    ensures d.allSettings.None? ==> r.None?
    ensures r.Some? ==> Clashes(d.allSettings.value.shortcuts, d.original, d.capture, r.value)
    ensures r.Some? ==> forall j :: 0 <= j < r.value ==> !Clashes(d.allSettings.value.shortcuts, d.original, d.capture, j)
    ensures d.allSettings.Some? && r.None? ==>
              forall j :: 0 <= j < |d.allSettings.value.shortcuts| ==>
                !Clashes(d.allSettings.value.shortcuts, d.original, d.capture, j)
  {
    match d.allSettings
    case None => None
    case Some(s) =>
      var clash := (j: nat) => Clashes(s.shortcuts, d.original, d.capture, j);
      assert forall j: nat :: clash(j) == Clashes(s.shortcuts, d.original, d.capture, j);
      FirstIndex(|s.shortcuts|, clash)
  }

  /** What OK checks, stated without its order: a name, applications whose
      files all exist, a hotkey, and no clash unless the user accepts it. */
  predicate Acceptable(d: Dialog, fileExists: string -> bool, useAnyway: bool) {
    && !IsBlank(d.name)
    && |d.apps| > 0
    && (forall j :: 0 <= j < |d.apps| ==> fileExists(d.apps[j].exePath))
    && d.capture.keyCode != 0
    && (useAnyway || d.allSettings.None? ||
        forall j :: 0 <= j < |d.allSettings.value.shortcuts| ==>
          !Clashes(d.allSettings.value.shortcuts, d.original, d.capture, j))
  }

  /** The shortcut as OK writes it: name, applications (replaced
      wholesale), hotkey, display name and delay; the other fields stay. */
  function Saved(d: Dialog, asWritten: bool): (r: AppShortcut)
    ensures r.(name := d.shortcut.name, apps := d.shortcut.apps, modifiers := d.shortcut.modifiers,
               keyCode := d.shortcut.keyCode, keyDisplayName := d.shortcut.keyDisplayName,
               launchDelay := d.shortcut.launchDelay) == d.shortcut
    ensures r.name == d.name && r.apps == d.apps && r.launchDelay == d.delay
    ensures r.modifiers == d.capture.modifiers && r.keyCode == d.capture.keyCode
    ensures r.keyDisplayName == SavedDisplayName(d.capture, asWritten)
  {
    d.shortcut.(name := d.name, apps := d.apps, modifiers := d.capture.modifiers,
                keyCode := d.capture.keyCode, keyDisplayName := SavedDisplayName(d.capture, asWritten),
                launchDelay := d.delay)
  }

  /** `OkButton_Click`. `useAnyway` is the answer to the one conflict
      question asked; `asWritten` selects the display name the source saves
      (the box's text) over the captured combination's. The first failing
      check is reported and leaves the dialog unchanged. */
  function Ok(d: Dialog, fileExists: string -> bool, useAnyway: bool, asWritten: bool): (r: (Dialog, Option<Rejection>))
    ensures r.1.None? <==> Acceptable(d, fileExists, useAnyway)
    ensures r.1.Some? ==> r.0 == d
    ensures r.1.None? ==> r.0 == d.(shortcut := Saved(d, asWritten))
    ensures r.1 == Some(NameMissing) <==> IsBlank(d.name)
    ensures r.1 == Some(NoApplications) <==> !IsBlank(d.name) && d.apps == []
    ensures r.1.Some? && r.1.value.ApplicationNotFound? ==>
              FirstMissing(d.apps, fileExists).Some? &&
              r.1.value.path == d.apps[FirstMissing(d.apps, fileExists).value].exePath
    ensures r.1 == Some(NoHotkey) <==>
              !IsBlank(d.name) && d.apps != [] && FirstMissing(d.apps, fileExists).None? && d.capture.keyCode == 0
    ensures r.1.Some? && r.1.value.ApplicationNotFound? ==> !IsBlank(d.name) && d.apps != []
    ensures r.1.Some? && r.1.value.ConflictDeclined? ==> !useAnyway && FirstClash(d) == Some(r.1.value.other)
    ensures r.1.Some? && r.1.value.ConflictDeclined? ==>
              !IsBlank(d.name) && d.apps != [] && FirstMissing(d.apps, fileExists).None? && d.capture.keyCode != 0
  {
    if IsBlank(d.name) then (d, Some(NameMissing))
    else if |d.apps| == 0 then (d, Some(NoApplications))
    else match FirstMissing(d.apps, fileExists)
      case Some(k) => (d, Some(ApplicationNotFound(d.apps[k].exePath)))
      case None =>
        if d.capture.keyCode == 0 then (d, Some(NoHotkey))
        else match FirstClash(d)
          case Some(k) =>
            if !useAnyway then (d, Some(ConflictDeclined(k)))
            else (d.(shortcut := Saved(d, asWritten)), None)
          case None => (d.(shortcut := Saved(d, asWritten)), None)
  }

  /** Unless the user chose to use it anyway, an accepted hotkey is used by
      no other shortcut of the settings. */
  lemma OkLeavesNoUnconfirmedClash(d: Dialog, fileExists: string -> bool, asWritten: bool, k: nat)
    requires Ok(d, fileExists, false, asWritten).1.None?
    requires d.allSettings.Some? && k < |d.allSettings.value.shortcuts| && d.original != Some(k)
    ensures var saved := Ok(d, fileExists, false, asWritten).0.shortcut;
            !(d.allSettings.value.shortcuts[k].modifiers == saved.modifiers &&
              d.allSettings.value.shortcuts[k].keyCode == saved.keyCode)
  {
    assert !Clashes(d.allSettings.value.shortcuts, d.original, d.capture, k);
  }

  /** Pressing OK again after an accepted OK saves the same shortcut. */
  lemma OkIdempotent(d: Dialog, fileExists: string -> bool, useAnyway: bool, asWritten: bool)
    requires Ok(d, fileExists, useAnyway, asWritten).1.None?
    ensures var d1 := Ok(d, fileExists, useAnyway, asWritten).0;
            Ok(d1, fileExists, useAnyway, asWritten) == (d1, None)
  {
    var d1 := Ok(d, fileExists, useAnyway, asWritten).0;
    assert d1.(shortcut := d.shortcut) == d;
    assert Acceptable(d1, fileExists, useAnyway);
  }

  /** Corrected: when the dialog opened on a shortcut whose display name
      matched its hotkey, the saved display name still matches the saved
      hotkey after any key presses. */
  lemma OkSavesDisplayInSync(d: Dialog, presses: seq<KeyPress>, keyName: Int32 -> string,
                             fileExists: string -> bool, useAnyway: bool)
    requires DisplayInSync(d.capture, keyName)
    requires forall i :: 0 <= i < |presses| ==> presses[i].key != 0
    ensures var d1 := d.(capture := KeyDowns(d.capture, presses, keyName));
            var r := Ok(d1, fileExists, useAnyway, false);
            r.1.None? ==> r.0.shortcut.keyDisplayName == DisplayOfMask(r.0.shortcut.modifiers, keyName(r.0.shortcut.keyCode))
  {
    SavedDisplayNameInSync(d.capture, presses, keyName);
  }
}
