/** `MainForm`: the list of application shortcuts, the registration of
    their hotkeys, the dispatch of `WM_HOTKEY` messages to a launch, and the
    close-to-tray decision. Dialogs, file checks and process starts are
    parameters. */
module MainForm {
  import opened Wrappers
  import opened Text
  import opened Shortcuts
  import opened SettingsStore
  import opened Hotkeys

  /** The form's state: the settings, the hotkey manager and the map from
      registered hotkey id to the shortcut it launches. */
  datatype Form = Form(settings: Settings, hotkeys: Manager, idMap: map<int, AppShortcut>)

  /** The registration call for shortcut `s` under id `id`. */
  function RegistrationOf(window: nat, id: Int32, s: AppShortcut): HotkeyCall {
    RegisterHotKey(window, id, UInt32Of(s.modifiers), UInt32Of(s.keyCode))
  }

  // ---------------------------------------------------------------------
  // Registering every hotkey
  // ---------------------------------------------------------------------

  /** After a registration pass, id `k` stands for the `k`-th shortcut and
      is in the map exactly when the operating system accepted it. */
  predicate DispatchTable(form: Form, accept: HotkeyCall -> bool) {
    var shortcuts := form.settings.shortcuts;
    |shortcuts| <= ArrayMaxLength &&
    (forall id :: id in form.idMap ==> 1 <= id <= |shortcuts| && form.idMap[id] == shortcuts[id - 1]) &&
    (forall k :: 0 <= k < |shortcuts| ==>
       ((k + 1) in form.idMap <==> accept(RegistrationOf(form.hotkeys.window, k + 1, shortcuts[k]))))
  }

  /** `RegisterAllHotkeys`: unregister everything, clear the map, then
      register every shortcut, enabled or not, in order; `accept` is the
      operating system's answer to each registration. */
  method RegisterAllHotkeys(form: Form, accept: HotkeyCall -> bool)
    returns (form': Form, calls: seq<HotkeyCall>)
    requires |form.settings.shortcuts| <= ArrayMaxLength
    ensures form'.settings == form.settings && form'.hotkeys.window == form.hotkeys.window
    ensures form'.hotkeys.currentId == |form.settings.shortcuts| + 1
    ensures DispatchTable(form', accept)
    ensures var unregistered := if form.hotkeys.currentId > 1 then form.hotkeys.currentId - 1 else 0;
            |calls| == unregistered + |form.settings.shortcuts| &&
            (forall k :: 0 <= k < unregistered ==> calls[k] == UnregisterHotKey(form.hotkeys.window, k + 1)) &&
            (forall k :: 0 <= k < |form.settings.shortcuts| ==>
               calls[unregistered + k] ==
                 RegistrationOf(form.hotkeys.window, k + 1, form.settings.shortcuts[k]))
  {
    var shortcuts := form.settings.shortcuts;
    var window := form.hotkeys.window;
    var m, unregister := UnregisterAll(form.hotkeys);
    var idMap: map<int, AppShortcut> := map[];
    var registered: seq<HotkeyCall> := [];
    var i := 0;
    while i < |shortcuts|
      invariant 0 <= i <= |shortcuts|
      invariant m == Manager(window, i + 1)
      invariant forall id :: id in idMap ==> 1 <= id <= i && idMap[id] == shortcuts[id - 1]
      invariant forall k :: 0 <= k < i ==>
                  ((k + 1) in idMap <==> accept(RegistrationOf(window, k + 1, shortcuts[k])))
      invariant |registered| == i
      invariant forall k :: 0 <= k < i ==> registered[k] == RegistrationOf(window, k + 1, shortcuts[k])
    {
      var s := shortcuts[i];
      var call := RegistrationOf(window, i + 1, s);
      var (next, id, made) := Register(m, UInt32Of(s.modifiers), UInt32Of(s.keyCode), accept(call));
      assert made == call;
      registered := registered + [made];
      if id != -1 {
        idMap := idMap[id := s];
      }
      m := next;
      i := i + 1;
    }
    form' := form.(hotkeys := m, idMap := idMap);
    calls := unregister + registered;
  }

  /** Opening the form: a new manager for `window`, then one registration
      pass; a new manager has nothing to unregister. */
  method Open(settings: Settings, window: nat, accept: HotkeyCall -> bool)
    returns (form: Form, calls: seq<HotkeyCall>)
    requires |settings.shortcuts| <= ArrayMaxLength
    ensures form.settings == settings && form.hotkeys.window == window
    ensures DispatchTable(form, accept)
    ensures |calls| == |settings.shortcuts|
    ensures forall k :: 0 <= k < |calls| ==> calls[k] == RegistrationOf(window, k + 1, settings.shortcuts[k])
  {
    form, calls := RegisterAllHotkeys(Form(settings, NewManager(window), map[]), accept);
  }

  // ---------------------------------------------------------------------
  // Launching
  // ---------------------------------------------------------------------

  /** What happened to one application of a launched shortcut: started with
      its path as the only start information, reported missing, or
      reported failing to start. */
  datatype LaunchOutcome = Started(fileName: string) | NotFound(path: string) | StartFailed(path: string)

  function OutcomeOf(path: string, fileExists: string -> bool, startThrows: string -> bool): LaunchOutcome {
    if !fileExists(path) then NotFound(path)
    else if startThrows(path) then StartFailed(path)
    else Started(path)
  }

  /** `LaunchApplication`: every path in order; a missing file or a failing
      start is reported and the loop goes on. */
  function LaunchApplication(s: AppShortcut, fileExists: string -> bool, startThrows: string -> bool)
    : (r: seq<LaunchOutcome>)
    ensures |r| == |ExePaths(s)|
    ensures forall i :: 0 <= i < |r| ==>
              (r[i].Started? <==> fileExists(ExePaths(s)[i]) && !startThrows(ExePaths(s)[i])) &&
              (r[i].NotFound? <==> !fileExists(ExePaths(s)[i]))
    ensures forall i :: 0 <= i < |r| ==>
              (if r[i].Started? then r[i].fileName else r[i].path) == ExePaths(s)[i]
  {
    var paths := ExePaths(s);
    seq(|paths|, i requires 0 <= i < |paths| => OutcomeOf(paths[i], fileExists, startThrows))
  }

  /** Only the paths matter to a launch: arguments, run-as-administrator,
      layouts, delays and the other fields are not read. */
  lemma LaunchReadsOnlyPaths(s: AppShortcut, t: AppShortcut, fileExists: string -> bool, startThrows: string -> bool)
    requires ExePaths(s) == ExePaths(t)
    ensures LaunchApplication(s, fileExists, startThrows) == LaunchApplication(t, fileExists, startThrows)
  {
  }

  /** `WndProc`: a `WM_HOTKEY` message whose id is in the map launches that
      shortcut; any other message launches nothing. */
  function WndProc(form: Form, msg: int, wParam: Int32, fileExists: string -> bool, startThrows: string -> bool)
    : (r: seq<LaunchOutcome>)
    ensures msg != WmHotkey || wParam !in form.idMap ==> r == []
    ensures msg == WmHotkey && wParam in form.idMap ==>
              r == LaunchApplication(form.idMap[wParam], fileExists, startThrows)
  {
    if msg == WmHotkey && wParam in form.idMap then
      LaunchApplication(form.idMap[wParam], fileExists, startThrows)
    else []
  }

  /** After a registration pass, the hotkey with id `k` launches the `k`-th
      shortcut when its registration was accepted, and nothing otherwise. */
  lemma HotkeyLaunchesItsShortcut(form: Form, accept: HotkeyCall -> bool, k: nat,
                                  fileExists: string -> bool, startThrows: string -> bool)
    requires DispatchTable(form, accept)
    requires 0 < k <= |form.settings.shortcuts| && k <= IntMax
    ensures accept(RegistrationOf(form.hotkeys.window, k, form.settings.shortcuts[k - 1])) ==>
              WndProc(form, WmHotkey, k, fileExists, startThrows) ==
              LaunchApplication(form.settings.shortcuts[k - 1], fileExists, startThrows)
    ensures !accept(RegistrationOf(form.hotkeys.window, k, form.settings.shortcuts[k - 1])) ==>
              WndProc(form, WmHotkey, k, fileExists, startThrows) == []
  {
    assert (k - 1) + 1 == k;
  }

  // ---------------------------------------------------------------------
  // The list and closing
  // ---------------------------------------------------------------------

  /** One row of the list: name, applications, hotkey. */
  datatype Row = Row(name: string, applications: string, shortcut: string)

  /** The applications column: the one path, or the number of
      applications. */
  function ApplicationsColumn(s: AppShortcut): (r: string)
    ensures |ExePaths(s)| == 1 ==> r == ExePaths(s)[0]
    ensures |ExePaths(s)| != 1 ==> |r| > 13
    ensures |ExePaths(s)| != 1 ==>
              AllDigits(r[..|r| - 13]) && DigitsValue(r[..|r| - 13]) == |ExePaths(s)| &&
              r[|r| - 13..] == " applications"
  {
    if |ExePaths(s)| == 1 then ExePaths(s)[0]
    else
      ApplicationsCountRoundTrip(|ExePaths(s)|);
      ApplicationsCount(|ExePaths(s)|)
  }

  /** `LoadShortcuts`: one row per shortcut, in order. */
  function LoadShortcuts(settings: Settings): (r: seq<Row>)
    ensures |r| == |settings.shortcuts|
    ensures forall i :: 0 <= i < |r| ==>
              r[i].name == settings.shortcuts[i].name &&
              r[i].shortcut == settings.shortcuts[i].keyDisplayName &&
              r[i].applications == ApplicationsColumn(settings.shortcuts[i])
  {
    seq(|settings.shortcuts|, i requires 0 <= i < |settings.shortcuts| =>
      var s := settings.shortcuts[i];
      Row(s.name, ApplicationsColumn(s), s.keyDisplayName))
  }

  /** `CloseReason`. */
  datatype CloseReason =
    | NoReason | WindowsShutDown | MdiFormClosing | UserClosing
    | TaskManagerClosing | FormOwnerClosing | ApplicationExitCall

  /** `MainForm_FormClosing`: with minimize-to-tray on, a close by the user
      only hides the form and keeps the hotkeys; any other close
      unregisters them all. */
  method FormClosing(form: Form, reason: CloseReason)
    returns (cancel: bool, form': Form, calls: seq<HotkeyCall>)
    ensures cancel <==> form.settings.minimizeToTray && reason == UserClosing
    ensures cancel ==> form' == form && calls == []
    ensures !cancel ==>
              form' == form.(hotkeys := form.hotkeys.(currentId := 1)) &&
              |calls| == (if form.hotkeys.currentId > 1 then form.hotkeys.currentId - 1 else 0) &&
              forall k :: 0 <= k < |calls| ==> calls[k] == UnregisterHotKey(form.hotkeys.window, k + 1)
  {
    if form.settings.minimizeToTray && reason == UserClosing {
      return true, form, [];
    }
    var m;
    m, calls := UnregisterAll(form.hotkeys);
    cancel, form' := false, form.(hotkeys := m);
  }
}
