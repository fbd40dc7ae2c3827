/** The two kinds of shortcut: an application shortcut launching a list of
    executables and a clipboard shortcut pasting text, with the legacy
    single-path and path-list accessors kept for old settings files. */
module Shortcuts {
  import opened Wrappers
  import opened Text
  import opened WindowLayouts

  /** One application of a shortcut. */
  datatype AppInfo = AppInfo(
    exePath: string,
    arguments: string,
    runAsAdmin: bool,
    windowLayout: Option<WindowLayout>,
    launchCondition: LaunchCondition)

  /** A hotkey bound to an ordered list of applications. */
  datatype AppShortcut = AppShortcut(
    id: string,
    name: string,
    apps: seq<AppInfo>,
    modifiers: Int32,
    keyCode: Int32,
    keyDisplayName: string,
    launchDelay: Int32,
    delayType: DelayType,
    maxWaitTime: Int32,
    launchInParallel: bool,
    category: string,
    isEnabled: bool)

  /** A hotkey bound to a text to paste. The last three fields are read by
      the command palette and the clipboard dialog although the record's own
      source file does not declare them. */
  datatype ClipboardShortcut = ClipboardShortcut(
    name: string,
    content: string,
    modifiers: Int32,
    keyCode: Int32,
    keyDisplayName: string,
    useTemplateVariables: bool,
    isEnabled: bool,
    category: string)

  /** `new AppInfo { ExePath = path }`. */
  function NewAppInfo(path: string): (a: AppInfo)
    ensures a.exePath == path
    ensures a.arguments == "" && !a.runAsAdmin && a.windowLayout == None
    ensures a.launchCondition == DefaultLaunchCondition()
  {
    AppInfo(path, "", false, None, DefaultLaunchCondition())
  }

  /** `new AppShortcut()`, with `id` standing for the fresh GUID string. */
  function NewShortcut(id: string): (s: AppShortcut)
    ensures s.id == id && s.name == "" && s.apps == [] && s.keyDisplayName == ""
    ensures s.modifiers == 0 && s.keyCode == 0
    ensures s.launchDelay == 0 && s.delayType == Fixed && s.maxWaitTime == 10000
    ensures !s.launchInParallel && s.category == "General" && s.isEnabled
  {
    AppShortcut(id, "", [], 0, 0, "", 0, Fixed, 10000, false, "General", true)
  }

  /** The full constructor: a null application list becomes empty, the other
      arguments are stored as given and the remaining fields keep their
      defaults. */
  function ConstructShortcut(id: string, name: string, apps: Option<seq<AppInfo>>,
                             modifiers: Int32, keyCode: Int32, keyDisplayName: string,
                             launchDelay: Int32): (s: AppShortcut)
    ensures s.apps == (if apps.Some? then apps.value else [])
    ensures s.name == name && s.modifiers == modifiers && s.keyCode == keyCode
    ensures s.keyDisplayName == keyDisplayName && s.launchDelay == launchDelay
    ensures s.(name := "", apps := [], modifiers := 0, keyCode := 0,
               keyDisplayName := "", launchDelay := 0) == NewShortcut(id)
  {
    NewShortcut(id).(name := name, apps := apps.GetOr([]), modifiers := modifiers,
                     keyCode := keyCode, keyDisplayName := keyDisplayName,
                     launchDelay := launchDelay)
  }

  /** `new ClipboardShortcut()`. */
  function NewClipboardShortcut(): (c: ClipboardShortcut)
    ensures c.name == "" && c.content == "" && c.keyDisplayName == ""
    ensures c.modifiers == 0 && c.keyCode == 0
    ensures !c.useTemplateVariables && c.isEnabled && c.category == "General"
  {
    ClipboardShortcut("", "", 0, 0, "", false, true, "General")
  }

  // ---------------------------------------------------------------------
  // Legacy accessors
  // ---------------------------------------------------------------------

  /** Getter of `ExePaths`: the applications' paths in order. */
  function ExePaths(s: AppShortcut): (r: seq<string>)
    ensures |r| == |s.apps|
    ensures forall i :: 0 <= i < |r| ==> r[i] == s.apps[i].exePath
  {
    seq(|s.apps|, i requires 0 <= i < |s.apps| => s.apps[i].exePath)
  }

  /** One default application per path. */
  function AppsOfPaths(paths: seq<string>): (r: seq<AppInfo>)
    ensures |r| == |paths|
    ensures forall i :: 0 <= i < |r| ==> r[i] == NewAppInfo(paths[i])
  {
    seq(|paths|, i requires 0 <= i < |paths| => NewAppInfo(paths[i]))
  }

  /** Setter of `ExePaths`: only fills an empty application list; a null
      value or a non-empty list leaves the shortcut as it is. */
  function SetExePaths(s: AppShortcut, value: Option<seq<string>>): (r: AppShortcut)
    ensures r.(apps := s.apps) == s
    ensures value.None? || |s.apps| > 0 ==> r == s
    ensures value.Some? && |s.apps| == 0 ==> ExePaths(r) == value.value
  {
    if value.Some? && |s.apps| == 0 then s.(apps := AppsOfPaths(value.value)) else s
  }

  /** Getter of `ExePath`: the first application's path, or "". */
  function ExePath(s: AppShortcut): (r: string)
    ensures |s.apps| == 0 ==> r == ""
    ensures |s.apps| > 0 ==> r == ExePaths(s)[0]
  {
    if |s.apps| > 0 then s.apps[0].exePath else ""
  }

  /** Setter of `ExePath`: appends one application for a non-blank path not
      already present; otherwise nothing changes. */
  function SetExePath(s: AppShortcut, value: string): (r: AppShortcut)
    ensures r.(apps := s.apps) == s
    ensures IsBlank(value) || value in ExePaths(s) ==> r == s
    ensures !IsBlank(value) && value !in ExePaths(s) ==> r.apps == s.apps + [NewAppInfo(value)]
    ensures !IsBlank(value) ==> value in ExePaths(r)
  {
    if !IsBlank(value) && !(exists i :: 0 <= i < |s.apps| && s.apps[i].exePath == value) then
      var r := s.(apps := s.apps + [NewAppInfo(value)]);
      assert ExePaths(r)[|s.apps|] == value;
      r
    else
      assert !IsBlank(value) ==> value in ExePaths(s) by {
        if !IsBlank(value) {
          var i :| 0 <= i < |s.apps| && s.apps[i].exePath == value;
          assert ExePaths(s)[i] == value;
        }
      }
      s
  }

  /** "N applications", how the lists show a shortcut with other than one
      application. */
  function ApplicationsCount(n: nat): (r: string)
    ensures |r| > 13 && r[|r| - 13..] == " applications"
  {
    NatToString(n) + " applications"
  }

  /** The count can be read back from the text. */
  lemma ApplicationsCountRoundTrip(n: nat)
    ensures var r := ApplicationsCount(n);
            AllDigits(r[..|r| - 13]) && DigitsValue(r[..|r| - 13]) == n
  {
    var r := ApplicationsCount(n);
    assert r[..|r| - 13] == NatToString(n);
    NatToStringRoundTrip(n);
  }

  /** Round trip of the old single-path field: loading it into a new
      shortcut and reading it back gives the path. */
  lemma ExePathRoundTrip(id: string, value: string)
    requires !IsBlank(value)
    ensures ExePath(SetExePath(NewShortcut(id), value)) == value
    ensures ExePaths(SetExePath(NewShortcut(id), value)) == [value]
  {
  }

  /** Setting the same path twice has the effect of setting it once. */
  lemma SetExePathIdempotent(s: AppShortcut, value: string)
    ensures SetExePath(SetExePath(s, value), value) == SetExePath(s, value)
  {
  }

  /** Round trip of the old path-list field on a new shortcut. */
  lemma ExePathsRoundTrip(id: string, paths: seq<string>)
    ensures ExePaths(SetExePaths(NewShortcut(id), Some(paths))) == paths
    ensures |paths| > 0 ==> ExePath(SetExePaths(NewShortcut(id), Some(paths))) == paths[0]
  {
  }
}
