# QuickLauncher core in Dafny

QuickLauncher is a Windows tray application. It registers global hotkeys
that launch one or more applications ("app shortcuts") or paste a text
snippet ("paste shortcuts", whose text may contain `{{…}}` template
variables). It keeps profiles that switch automatically on time of day,
monitor, running process, network and battery conditions. Its command
palette searches every enabled shortcut.

This project models that core as immutable datatypes and pure functions,
with a few methods where the source loops. Every call into the operating
system becomes a parameter:

- The registration answer of `RegisterHotKey` is an `accept` function.
- `File.Exists` and `Process.Start` are `fileExists` and `startThrows`.
- `Process.GetProcessesByName` becomes a sequence of process lists, one per poll.
- The main-window lookup and its visibility are a `window` function.
- `Screen.AllScreens` and the primary screen are a list of rectangles and an option.
- The system state a profile trigger reads is a `Probe` record: time of day, weekday, screens, processes, network, power.
- The template values (date and time texts, user and machine names, clipboard, GUIDs, environment, input dialog answers, random draws) are an `Oracles` record.
- `Keys.ToString()` is a `keyName` function.

A probe that throws in the source is `None` in the model.

The modules follow the source files:

| module | file | models |
|---|---|---|
| `Wrappers`, `Text`, `Seqs`, `StableSort` | wrappers.dfy, text.dfy, seqs.dfy, stable_sort.dfy | `Option`/`Result`; C# `int` width, `IsNullOrWhiteSpace`, ASCII `ToLower`, `Contains`, `Replace`, `Path.GetFileName…`; LINQ `Where`/`Take`; the stable sort behind `OrderBy` |
| `Shortcuts`, `Profiles`, `WindowLayouts`, `SettingsStore` | shortcuts.dfy, profiles.dfy, window_layout.dfy, settings.dfy | the records and their defaults, the `ExePaths`/`ExePath` compatibility accessors |
| `Hotkeys` | hotkeys.dfy | `HotkeyManager` |
| `MainForm` | main_form.dfy | hotkey registration, dispatch, launching, the list rows, closing |
| `ProfileManager` | profile_manager.dfy | trigger evaluation, best-profile selection, switching, the "enabled in active profile" gate |
| `CommandPalette` | command_palette.dfy | item loading, fuzzy scoring, search, grouping, selection |
| `Templates` | template.dfy | `TemplateProcessor.ProcessTemplate` as twenty ordered case-insensitive rewrite passes |
| `WindowManager` | window_manager.dfy | bounded polling, target screen, window placement, bring-to-front |
| `HotkeyCapture` | hotkey_capture.dfy | the hotkey capture box shared by both shortcut dialogs |
| `ShortcutDialog`, `ClipboardDialog`, `ProfilesDialog` | shortcut_dialog.dfy, clipboard_dialog.dfy, profiles_dialog.dfy | the dialogs' working copies, validation order, conflict rules and edits of `Settings` |

In two places the model follows what the code reads rather than what its
record classes declare:

- `ClipboardShortcut` is given the `IsEnabled`, `Category` and
  `UseTemplateVariables` properties that the palette and the paste dialog
  read, although ClipboardShortcut.cs does not declare them.
- The launch-sequencing fields (`DelayType`, `MaxWaitTime`,
  `LaunchInParallel`, `LaunchCondition`, `WindowLayout`) are records only,
  because no code shown reads them.

## Model

| member | source | states |
|---|---|---|
| Text.TryParseInt32 | TemplateProcessor.cs:76-77 | `int.TryParse` on a run of digits succeeds exactly when the value fits in an `int`, and then yields that value |
| Text.FileNameWithoutExtension | CommandPalette.cs:78-80 | the result is the path's file name cut just before its last period, or the whole file name when it has no period; it contains no directory separator |
| Text.FileNameSplitsAtLastDot | CommandPalette.cs:78-80 | the file name is the result followed by its extension, which is empty for a name without a period and otherwise a period followed by text without one |
| Text.ReplaceAllNoLonger | CommandPalette.cs:96-98 | replacing a pattern by a text no longer than it never lengthens the string (so a preview never grows when newlines become spaces) |
| Seqs.Take | CommandPalette.cs:139 | `Take(n)` keeps the first min(n, length) items, unchanged and in order |
| Shortcuts.NewAppInfo | AppShortcut.cs:7-18 | a new `AppInfo` has the given path, no arguments, no elevation, no layout and the default launch condition |
| Shortcuts.NewShortcut | AppShortcut.cs:20-68 | a new shortcut has no apps or hotkey, delay 0, delay type Fixed, wait 10000, sequential launch, category "General" and is enabled |
| Shortcuts.ConstructShortcut | AppShortcut.cs:70-78 | the full constructor stores its arguments verbatim, turns a null app list into an empty one, and leaves every other field at its default |
| Shortcuts.NewClipboardShortcut | ClipboardShortcut.cs:7-15 | a new paste shortcut is empty, has no hotkey, template variables off, is enabled and in "General" |
| Shortcuts.ExePaths | AppShortcut.cs:27 | the `ExePaths` getter lists each app's path, same length and order |
| Shortcuts.SetExePaths | AppShortcut.cs:28-38 | the setter changes only `Apps`; it is a no-op for null or when apps exist, and otherwise the getter then returns exactly the assigned paths |
| Shortcuts.ExePath | AppShortcut.cs:44 | the `ExePath` getter is the first app's path, or "" when there is none |
| Shortcuts.SetExePath | AppShortcut.cs:45-51 | the setter ignores a blank or already-listed path and otherwise appends exactly one app with that path; afterwards a non-blank path is always listed |
| Shortcuts.ExePathRoundTrip | AppShortcut.cs:42-52 | setting a non-blank `ExePath` on a new shortcut and reading it back gives that path, and `ExePaths` is exactly that one path |
| Shortcuts.SetExePathIdempotent | AppShortcut.cs:47-50 | assigning the same `ExePath` twice has the effect of assigning it once |
| Shortcuts.ExePathsRoundTrip | AppShortcut.cs:25-39 | assigning `ExePaths` on a new shortcut and reading it back gives the same list, whose head is then `ExePath` |
| Shortcuts.ApplicationsCountRoundTrip | MainForm.cs:162-164 | the "N applications" text carries N: its leading digits parse back to N |
| Profiles.NewTrigger | Profile.cs:16-38 | a new trigger is of type Manual and every type-specific field is unset |
| Profiles.NewProfile | Profile.cs:40-58 | a new profile is inactive, not default, priority 0, with no triggers and empty enabled-id lists |
| Profiles.NewProfileIsFresh | Profile.cs:42 | a profile created with an id not yet in use differs in id from every existing profile |
| SettingsStore.DefaultSettings | SettingsManager.cs:8-30 | fresh settings have no shortcuts or profiles, no active profile, minimize-to-tray on, start-with-Windows off, palette hotkey "Ctrl+Shift+Space" |
| WindowLayouts.DefaultLayout | WindowLayout.cs:6-16 | a new layout targets monitor 0 in Normal state at the origin with zero size |
| WindowLayouts.DefaultLaunchCondition | WindowLayout.cs:42-55 | a new launch condition always launches, requires neither network nor AC, has no battery or process requirement, and "must be running" is on |
| Hotkeys.NewManager | HotkeyManager.cs:24-29 | a new manager's id counter is 1 |
| Hotkeys.Register | HotkeyManager.cs:31-39 | every registration consumes the counter (wrapping as a C# `int`), asks the OS with the pre-call id, and returns that id on success and -1 on failure |
| Hotkeys.RegisterIdsIncrease | HotkeyManager.cs:33-38 | two successful registrations from a positive counter return positive, strictly increasing ids |
| Hotkeys.Unregister | HotkeyManager.cs:41-44 | unregistering one id makes exactly that OS call and leaves the counter alone |
| Hotkeys.UnregisterAll | HotkeyManager.cs:46-53 | ids 1 .. counter-1 are unregistered in order and the counter returns to 1 |
| HotkeyCapture.ModifierMask | ShortcutDialog.cs:322-325 | the capture mask has the Ctrl, Alt and Shift bits exactly for the held keys, never the Win bit, and is 0 exactly when none is held |
| HotkeyCapture.ModifierMaskInjective | HotkeyManager.cs:18-21 | the modifier constants are distinct bits: different held-key sets give different masks |
| HotkeyCapture.DisplayOfMask | ShortcutDialog.cs:345-349 | the display name of a mask lists "Ctrl+", "Alt+", "Shift+" for its bits, in that order, before the key name |
| HotkeyCapture.DisplayNameRoundTrip | ShortcutDialog.cs:345-349 | the display name determines the held modifiers and the key name (for a key name without '+') |
| HotkeyCapture.Load | ShortcutDialog.cs:215-223 | opening a dialog starts the capture from the stored modifiers, key and display name, not capturing |
| HotkeyCapture.Focus | ShortcutDialog.cs:301-311 | entering the box starts capturing and leaving it stops, nothing else changes |
| HotkeyCapture.KeyDown | ShortcutDialog.cs:313-352 | outside capture or for a modifier key nothing changes; with no modifier only the box text becomes the error message; otherwise key, mask and display name are taken together |
| HotkeyCapture.KeyDownKeepsCombination | ShortcutDialog.cs:331-342 | a valid stored combination stays valid after any key press, and any newly taken key comes with at least one modifier |
| HotkeyCapture.SavedDisplayName | ShortcutDialog.cs:428 | the source saves the box's text; the corrected dialog saves the display name of the captured combination |
| HotkeyCapture.RejectedPressReplacesDisplayNameAsWritten | ShortcutDialog.cs:335-338 | after Ctrl+A and then a bare B, the source keeps Ctrl+A but would save the error message as its display name |
| HotkeyCapture.SavedDisplayNameInSync | ShortcutDialog.cs:341-351 | in the corrected dialog, after any key presses the saved display name describes the captured modifiers and key |
| HotkeyCapture.KeyDownsInSync | ShortcutDialog.cs:313-352 | any sequence of key presses keeps the captured display name in agreement with the captured combination |
| HotkeyCapture.KeyDowns | ShortcutDialog.cs:313-352 | a run of key presses never changes whether the box is capturing, and no presses change nothing |
| MainForm.RegisterAllHotkeys | MainForm.cs:177-190 | all old ids are unregistered first; every shortcut is registered in list order with id k+1, whether enabled or not; the map holds exactly the accepted ids, each mapped to its shortcut |
| MainForm.Open | MainForm.cs:26-38 | a new form registers every shortcut once, in order, and builds the dispatch map from the accepted registrations |
| MainForm.LaunchApplication | MainForm.cs:205-229 | every path is tried in order; a missing file or a failed start is reported for that path and the loop goes on |
| MainForm.LaunchReadsOnlyPaths | MainForm.cs:213-217 | launching depends on the paths only: arguments, elevation and delays make no difference |
| MainForm.WndProc | MainForm.cs:192-203 | a message other than `WM_HOTKEY`, or an id not in the map, launches nothing; a mapped id launches its shortcut |
| MainForm.HotkeyLaunchesItsShortcut | MainForm.cs:182-200 | after registration, hotkey k launches shortcut k exactly when the OS accepted its registration, and nothing otherwise |
| MainForm.ApplicationsColumn | MainForm.cs:162-164 | the column shows the path for one application, else a count that parses back to the number of applications followed by " applications" |
| MainForm.LoadShortcuts | MainForm.cs:157-175 | one row per shortcut, in order, with its name, applications column and display name |
| MainForm.FormClosing | MainForm.cs:143-155 | the close is cancelled exactly for a user close with minimize-to-tray; otherwise every hotkey is unregistered and the counter reset |
| ProfileManager.EvaluateTimeTrigger | ProfileManager.cs:121-149 | false without both times; a non-empty day list must contain today; for start <= end the window is the closed range |
| ProfileManager.TimeTriggerIsClockArc | ProfileManager.cs:137-148 | for times within a day, both branches amount to "now lies on the clock arc from start to end" (wrapping past midnight) |
| ProfileManager.MidnightWindowExample | ProfileManager.cs:144-148 | a 22:00–06:00 window matches at 23:30 and 02:00 but not at noon |
| ProfileManager.EvaluateMonitorTrigger | ProfileManager.cs:151-165 | true exactly when the name is non-blank and some screen's device name contains it ignoring case; a failing probe gives false |
| ProfileManager.EvaluateApplicationTrigger | ProfileManager.cs:167-183 | false for no names or a failing probe; otherwise true exactly when some listed name equals some running process name ignoring case |
| ProfileManager.EvaluateNetworkTrigger | ProfileManager.cs:185-199 | true without a requirement; otherwise true exactly when the probe succeeds and agrees with it |
| ProfileManager.EvaluateBatteryTrigger | ProfileManager.cs:201-229 | true exactly when the probe succeeds, the level is within the inclusive bounds given, and AC matches when required |
| ProfileManager.EvaluateTrigger | ProfileManager.cs:96-119 | each trigger type is judged by its own predicate, and Manual never matches |
| ProfileManager.EvaluateProfile | ProfileManager.cs:85-94 | a profile matches exactly when every trigger matches |
| ProfileManager.ManualTriggerNeverMatches | ProfileManager.cs:85-119 | one Manual trigger keeps a profile from ever matching |
| ProfileManager.SelectBestMatch | ProfileManager.cs:65-76 | the choice is a matching profile with triggers of greatest priority, the earliest among equals; none when nothing qualifies |
| ProfileManager.WinnerUnique | ProfileManager.cs:66-76 | at most one profile satisfies the winner conditions |
| ProfileManager.HigherPriorityBeatsLower | ProfileManager.cs:71-74 | a matching profile is never chosen over a matching one of higher priority |
| ProfileManager.EarlierWinsTie | ProfileManager.cs:71 | of two matching profiles of equal priority the later is never chosen |
| ProfileManager.NeverChosen | ProfileManager.cs:67-71 | a profile without triggers, or with priority `int.MinValue`, is never chosen |
| ProfileManager.FindProfile | ProfileManager.cs:233 | the first profile with the id, or none when no profile has it |
| ProfileManager.SwitchToProfile | ProfileManager.cs:231-253 | an unknown id changes nothing and raises nothing; a known id becomes active and the event carries the previous id, the new id and the profile |
| ProfileManager.EvaluateProfiles | ProfileManager.cs:60-83 | only the active id may change; it changes to the winner exactly when there is one and it is not already active, and the event then carries the previous id, the winner's id and the first profile with that id; otherwise nothing happens |
| ProfileManager.GetActiveProfile | ProfileManager.cs:255-261 | none for a missing or blank id; otherwise the first profile with the active id whenever one exists |
| ProfileManager.IsShortcutEnabledInActiveProfile | ProfileManager.cs:263-270 | everything is enabled without an active profile; otherwise exactly the ids listed in it |
| ProfileManager.IsClipboardShortcutEnabledInActiveProfile | ProfileManager.cs:272-279 | the same gate over the profile's paste-shortcut ids |
| ProfileManager.NoActiveProfileEnablesAll | ProfileManager.cs:257-279 | when the active id names no profile, every shortcut and paste shortcut is enabled |
| ProfileManager.NewEngine | ProfileManager.cs:18-22 | a new engine holds the settings and no timer |
| ProfileManager.StartAutoSwitching | ProfileManager.cs:24-35 | after starting, the timer runs; the settings are untouched |
| ProfileManager.StopAutoSwitching | ProfileManager.cs:37-46 | after stopping, no timer runs; the settings are untouched |
| ProfileManager.Tick | ProfileManager.cs:48-58 | a tick without a running timer does nothing; a running tick switches to the winning profile, with its event, exactly when the winner is not already active, and otherwise changes nothing; the timer is never changed |
| CommandPalette.JoinLines | CommandPalette.cs:96-98 | the result has no line feed, is no longer than the input, and is the input when it had none |
| CommandPalette.JoinLinesIsLinesJoined | CommandPalette.cs:96-98 | the two `Replace` passes equal a one-scan reading in which each CR LF pair and each lone LF becomes one space and every other character is kept |
| CommandPalette.JoinLinesWithoutCarriageReturns | CommandPalette.cs:96-98 | for text without CR, each LF becomes a space in place and every other character stays at its position |
| CommandPalette.Preview | CommandPalette.cs:94-98 | content over 50 characters shows its first 50 characters with line breaks joined, followed by "..."; shorter content shows all of it joined; a preview has no line feed and at most 53 characters |
| CommandPalette.LoadAllItems | CommandPalette.cs:71-109 | the enabled app shortcuts in settings order, then the enabled paste shortcuts in settings order, each as its search item |
| CommandPalette.AppsDisplayDescribesApps | CommandPalette.cs:78-80 | an app shortcut's description is its one application's file name without extension, otherwise a count that parses back to the number of applications followed by " applications" |
| CommandPalette.LoadAllItemsAreEnabled | CommandPalette.cs:76-106 | every listed item comes from the settings and is enabled, and no app item follows a paste item |
| CommandPalette.LoadAllItemsListsEveryEnabled | CommandPalette.cs:76-106 | every enabled shortcut of either kind is listed |
| CommandPalette.FuzzyScore | CommandPalette.cs:168-214 | a score is never negative |
| CommandPalette.CalculateFuzzyScore | CommandPalette.cs:168-214 | the loop computes the score the functional definition gives |
| CommandPalette.ScanLoop | CommandPalette.cs:190-207 | the character loop computes the points and matched count of the recursive scan |
| CommandPalette.ScanMatchesAllIffSubsequence | CommandPalette.cs:190-210 | the +10 bonus is earned exactly when the query is a subsequence of the name |
| CommandPalette.ContainsIsSubsequence | CommandPalette.cs:176-210 | a name containing the query also earns the subsequence bonus |
| CommandPalette.ScanMatchesSome | CommandPalette.cs:194-207 | the scan matches something exactly when the query's first character occurs in the name |
| CommandPalette.ScanOfPrefix | CommandPalette.cs:179-207 | a name starting with the query scores the first character then +5 for each following one |
| CommandPalette.ScoreIsPositive | CommandPalette.cs:159-214 | an item is kept exactly when the query is empty, its first character is in the name, or the description or category contains the query |
| CommandPalette.NameMatchScores | CommandPalette.cs:176-180 | a name containing the query scores at least 110 plus its length; a name starting with it scores at least 160 + 5·length − 4 |
| CommandPalette.ScoreAll | CommandPalette.cs:156-158 | each item is paired with its own score, in order |
| CommandPalette.ByScoreDescendingIsPreorder | CommandPalette.cs:165 | "higher or equal score first" is a total preorder, as the stable sort needs |
| CommandPalette.Kept | CommandPalette.cs:156-163 | only items from the input with a positive score are kept, each with its score |
| CommandPalette.FuzzySearch | CommandPalette.cs:151-166 | the result holds exactly the items with positive score, from the input, in non-increasing score order |
| CommandPalette.FuzzySearchIsStable | CommandPalette.cs:165 | the result is a permutation of the kept items, sorted by score, with equal scores in input order |
| CommandPalette.StrLeIsPreorder | CommandPalette.cs:126 | the category order is a total preorder |
| CommandPalette.GroupKeys | CommandPalette.cs:126 | the group keys are the categories present, each once |
| CommandPalette.Groups | CommandPalette.cs:127-133 | the flattened groups hold only input items whose category is a key |
| CommandPalette.GroupedByCategorySorted | CommandPalette.cs:126-133 | the blank-query list is in ascending category order |
| CommandPalette.GroupedByCategoryKeepsEachCategory | CommandPalette.cs:126-133 | for each category the blank-query list holds exactly that category's items, in their original order |
| CommandPalette.RefreshResults | CommandPalette.cs:119-148 | a blank query shows all items grouped by category; otherwise the first 20 search results; the first row is selected whenever there is one |
| CommandPalette.SearchShowsAtMostTwenty | CommandPalette.cs:136-142 | a non-blank query shows at most 20 items, all loaded and all with positive score |
| CommandPalette.Open | CommandPalette.cs:19-24 | the palette opens on the loaded items shown grouped, nothing chosen and not closed |
| CommandPalette.ExecuteSelectedItem | CommandPalette.cs:315-340 | with no selection nothing happens; otherwise the selected item's shortcut is chosen, by kind, and the palette closes with OK |
| CommandPalette.SearchBoxKeyDown | CommandPalette.cs:255-285 | Down and Up move the selection by one, clamped to the list, and change nothing else; Enter runs the selected item; Escape closes; the list never changes and the selection stays valid |
| CommandPalette.DownRepeated | CommandPalette.cs:259-266 | n presses of Down from the top select row min(n, count − 1) |
| CommandPalette.PressDown | CommandPalette.cs:257-265 | any number of Down presses keeps the selection within the shown list and never changes the list |
| Templates.DayName | TemplateProcessor.cs:26 | the weekday name ends in "day" |
| Templates.Expand | TemplateProcessor.cs:45 | a replacement text without '$' is inserted literally |
| Templates.ParseDigits | TemplateProcessor.cs:76-77 | a bound parses exactly when it is digits whose value fits in an `int` |
| Templates.Next | TemplateProcessor.cs:80 | `Random.Next(lo, hi)` returns lo when the bounds are equal and otherwise a value in [lo, hi) |
| Templates.MatchArgument | TemplateProcessor.cs:19 | `([^}]+)\}\}` captures a non-empty argument without '}' followed by "}}" |
| Templates.MatchRange | TemplateProcessor.cs:74 | the random pattern captures two non-empty runs of digits |
| Templates.MatchAt | TemplateProcessor.cs:18-83 | a match starts with the pattern's head ignoring case, and a literal token matches exactly its own length |
| Templates.MatchNeedsBraces | TemplateProcessor.cs:18-83 | every pattern can only match where the text has "{{" |
| Templates.StepAt | TemplateProcessor.cs:18-83 | every pass except the clipboard one is a replacement, and each pass's head is its token's opening |
| Templates.Steps | TemplateProcessor.cs:18-83 | the expander is exactly the twenty passes, in source order |
| Templates.ClipboardStep | TemplateProcessor.cs:39-52 | the clipboard pass replaces only when the clipboard holds text |
| Templates.StepsWellFormed | TemplateProcessor.cs:18-83 | every pattern opens with "{{" and a letter from a fixed set |
| Templates.ProcessTemplateWith | TemplateProcessor.cs:12-13 | blank input is returned unchanged |
| Templates.ProcessTemplate | TemplateProcessor.cs:10-86 | the corrected expander also returns blank input unchanged |
| Templates.ProcessTemplateAsWritten | TemplateProcessor.cs:10-86 | the expander as written also returns blank input unchanged |
| Templates.NoBracesUnchanged | TemplateProcessor.cs:18-83 | text without "{{" is returned unchanged |
| Templates.UnknownTokensUnchanged | TemplateProcessor.cs:18-83 | text in which no pass's token head occurs (letters compared without case) is returned unchanged, so unknown tokens such as "{{foo}}", "{{today}}" or "{{guidx}}" pass through |
| Templates.NoTokenStartsHasNoKnownToken | TemplateProcessor.cs:18-83 | every token the expander knows opens with "{{" and one of its name initials, so text without such an opening holds no token |
| Templates.LookalikeTokensUnchanged | TemplateProcessor.cs:18-83 | "{{today}} {{user}}", whose names only resemble "{{time}}" and "{{username}}", comes back unchanged |
| Templates.FixedPassIsReplace | TemplateProcessor.cs:18 | on lower-case text a fixed-token pass is plain left-to-right string replacement |
| Templates.UserNameTokenRun | TemplateProcessor.cs:34 | "{{username}}" is replaced by the user name and the later passes then run over it |
| Templates.InsertedTokensExpandLater | TemplateProcessor.cs:34-55 | a value inserted by an early pass is rewritten by a later one: a user name "{{guid}}" comes out as a GUID |
| Templates.ClipboardTokenRun | TemplateProcessor.cs:39-52 | with clipboard text the token is replaced by it and the remaining passes run on the result |
| Templates.ClipboardTokenKeptWithoutText | TemplateProcessor.cs:39-52 | without clipboard text, or when reading it fails, the token is kept |
| Templates.ClipboardInsertedVerbatim | TemplateProcessor.cs:45 | the corrected expander inserts clipboard text literally |
| Templates.ClipboardDollarAmpersandAsWritten | TemplateProcessor.cs:45 | as written, clipboard text "$&" is read as a substitution and yields the token itself |
| Templates.SubstitutedPassAgrees | TemplateProcessor.cs:18-57 | for a value without '$' the substitution and literal readings give the same pass |
| Templates.ReadingsAgreeWithoutDollars | TemplateProcessor.cs:18-71 | when no fixed value contains '$', the source's and the corrected first nineteen passes agree on every text |
| Templates.EnvTokenRun | TemplateProcessor.cs:60-64 | "{{env:NAME}}" becomes the variable's value, or stays as the token text when it is unset, before the remaining passes |
| Templates.EnvTokenValue | TemplateProcessor.cs:60-64 | an unset variable keeps the token; a set value without "{{" is the whole result |
| Templates.InputPassOnToken | TemplateProcessor.cs:67-71 | the input pass replaces "{{input:label}}" by the entered text, or "" on cancel |
| Templates.InputTokenValue | TemplateProcessor.cs:67-71 | a template that is one input token yields the entered text, or "" on cancel |
| Templates.RandomTokenRun | TemplateProcessor.cs:74-83 | "{{random:a:b}}" reaches the random pass unchanged and becomes its value |
| Templates.RandomValueInRange | TemplateProcessor.cs:76-80 | for a <= b the drawn number lies in [a, b] |
| Templates.RandomTokenInRange | TemplateProcessor.cs:74-83 | "{{random:a:b}}" with a <= b < `int.MaxValue` yields a number in [a, b] in both readings |
| Templates.RandomTokenOtherCases | TemplateProcessor.cs:76-82 | a bound that does not fit keeps the token; a = b + 1 yields a; a > b + 1 makes the expander fail |
| Templates.RandomTokenUpToMaxInt | TemplateProcessor.cs:80 | the corrected expander yields a number in [a, b] also for b = `int.MaxValue` |
| Templates.RandomMaxIntThrowsAsWritten | TemplateProcessor.cs:80 | as written, b = `int.MaxValue` makes `max + 1` wrap and the draw fail |
| WindowManager.PollBudget | WindowManager.cs:46-60 | the number of polls is ceil(maxWaitTime / 100), and 0 for a non-positive wait |
| WindowManager.Poll | WindowManager.cs:46-63 | polling stops at the first success, returning it, or after the budget with nothing; no earlier poll succeeded |
| WindowManager.WaitForProcess | WindowManager.cs:42-64 | at most the budget of queries; the first process of the first non-empty answer, else none; none without any query for a non-positive wait |
| WindowManager.WaitForWindow | WindowManager.cs:66-90 | no process gives handle 0 without a window query; otherwise the first visible main window within a fresh budget, else 0 |
| WindowManager.AsWrittenPollsWithinBudget | WindowManager.cs:46-60 | for waits up to 2147483600 ms the wrapping counter stops the loop after exactly the budget |
| WindowManager.AsWrittenPollsPastDeadline | WindowManager.cs:46-59 | for larger waits the counter wraps negative after the budget, so the loop keeps polling |
| WindowManager.GetTargetScreen | WindowManager.cs:206-213 | an index in range picks that screen, else the primary, else the first; nothing only without any screen |
| WindowManager.TargetScreenIsListed | WindowManager.cs:206-213 | when the primary monitor is among the screens, the target is always a listed screen, and there is one exactly when any screen is listed |
| WindowManager.PositionWindow | WindowManager.cs:129-182 | no handle or no screen gives no command; every command targets the handle; Maximized and Minimized only change the state; only Fullscreen alters the layout, and then only its size |
| WindowManager.NormalPlacement | WindowManager.cs:144-174 | a Normal window is restored then placed at the monitor origin plus the layout offset with the layout size |
| WindowManager.FullscreenPlacement | WindowManager.cs:160-174 | a Fullscreen window is restored then given the monitor's bounds, which are written back into the layout |
| WindowManager.StatePlacement | WindowManager.cs:148-158 | Maximized and Minimized issue the one matching show command |
| WindowManager.PlacementIdempotent | WindowManager.cs:160-166 | placing again with the layout a placement left behind gives the same commands and layout |
| WindowManager.IsProcessRunning | WindowManager.cs:92-103 | true exactly when the query succeeds with at least one process |
| WindowManager.BringProcessToFront | WindowManager.cs:105-127 | on success a restore then a foreground call on one non-zero handle; on failure no command |
| WindowManager.BringToFrontIffWindow | WindowManager.cs:109-119 | it succeeds exactly when a process runs and the first one has a main window, which is then the handle used |
| ShortcutDialog.CopyApp | ShortcutDialog.cs:40-45 | an app copy keeps path, arguments and elevation, and resets layout and launch condition |
| ShortcutDialog.EditCopy | ShortcutDialog.cs:35-52 | the working copy keeps name, copied apps, hotkey, display name and delay; id and every other field are defaults |
| ShortcutDialog.EditCopyIdempotent | ShortcutDialog.cs:37-50 | copying a working copy changes nothing more |
| ShortcutDialog.Open | ShortcutDialog.cs:30-59 | the dialog opens on the copy (or a new shortcut), and fails for a delay outside 0..10000, which the delay box cannot hold |
| ShortcutDialog.AddFiles | ShortcutDialog.cs:249-264 | adding files only appends, at most one app per chosen file |
| ShortcutDialog.AddFilesKeepsPathsDistinct | ShortcutDialog.cs:251 | adding files never creates a second app with the same path |
| ShortcutDialog.AddFilesSkipsListed | ShortcutDialog.cs:251 | files already in the list add nothing |
| ShortcutDialog.AddApps | ShortcutDialog.cs:239-274 | the list only grows at its end; a blank name is filled from a single chosen file's name without extension |
| ShortcutDialog.EditApp | ShortcutDialog.cs:276-290 | only the selected app is replaced, and only when its details dialog returns OK |
| ShortcutDialog.RemoveApp | ShortcutDialog.cs:292-299 | exactly the selected app is removed, the others keep their order |
| ShortcutDialog.FirstMissing | ShortcutDialog.cs:378-386 | the first app whose file does not exist, or none when all exist |
| ShortcutDialog.FirstClash | ShortcutDialog.cs:396-419 | the first other shortcut with the same combination, skipping the edited one |
| ShortcutDialog.Ok | ShortcutDialog.cs:360-430 | OK succeeds exactly when the shortcut is acceptable; each rejection implies that every earlier check in the order name, apps, files, hotkey, conflict passed; a failure changes nothing; success writes name, apps, hotkey, display name and delay |
| ShortcutDialog.OkLeavesNoUnconfirmedClash | ShortcutDialog.cs:396-420 | a save without accepting a conflict shares its combination with no other shortcut |
| ShortcutDialog.OkIdempotent | ShortcutDialog.cs:360-430 | pressing OK again after a successful OK saves the same shortcut |
| ShortcutDialog.OkSavesDisplayInSync | ShortcutDialog.cs:422-429 | in the corrected dialog, the saved display name describes the saved combination after any key presses |
| ClipboardDialog.EditCopy | ClipboardShortcutDialog.cs:28-37 | the working copy keeps name, content, hotkey and display name; every other field, the template flag included, is a default |
| ClipboardDialog.Open | ClipboardShortcutDialog.cs:23-46 | the dialog opens on the copy, so the template box starts unchecked |
| ClipboardDialog.FirstAppClash | ClipboardShortcutDialog.cs:265-277 | the first app shortcut with the same combination |
| ClipboardDialog.FirstClipClash | ClipboardShortcutDialog.cs:279-300 | the first other paste shortcut with the same combination, skipping the edited one |
| ClipboardDialog.Saved | ClipboardShortcutDialog.cs:303-309 | the save writes name, content, template flag, hotkey and display name and nothing else |
| ClipboardDialog.Ok | ClipboardShortcutDialog.cs:238-310 | OK succeeds exactly when acceptable; checks run in order name, content, hotkey, app clash, paste clash; a failure changes nothing |
| ClipboardDialog.AppClashCannotBeOverridden | ClipboardShortcutDialog.cs:265-277 | a combination used by an app shortcut is refused whatever the user answers |
| ClipboardDialog.OkLeavesNoClash | ClipboardShortcutDialog.cs:262-300 | after a save no app shortcut, and without accepting a conflict no other paste shortcut, has the saved combination |
| ClipboardDialog.OkIdempotent | ClipboardShortcutDialog.cs:238-310 | pressing OK again after a successful OK saves the same shortcut |
| ClipboardDialog.EditDropsTemplateFlag | ClipboardShortcutDialog.cs:169-177 | editing a paste shortcut with template variables and pressing OK saves it with them turned off |
| ProfilesDialog.ApplyEdit | ProfileEditDialog.cs:132-134 | the edit dialog writes name, description and priority and nothing else |
| ProfilesDialog.Header | ProfilesDialog.cs:108-111 | the header names the active profile, or reads "None (All shortcuts active)" when the active id matches no profile |
| ProfilesDialog.TriggerCountRoundTrip | ProfilesDialog.cs:118-119 | the " (N triggers)" suffix carries N |
| ProfilesDialog.Entry | ProfilesDialog.cs:115-119 | an entry is the name, then " [ACTIVE]" exactly for the active profile, then " (N triggers)" with N the number of triggers when there are any |
| ProfilesDialog.LoadProfiles | ProfilesDialog.cs:104-123 | the header and one entry per profile, in order |
| ProfilesDialog.HeaderMatchesMarkedEntry | ProfilesDialog.cs:108-117 | with distinct ids, the header names exactly the profile whose entry is marked active |
| ProfilesDialog.NewProfileSeed | ProfilesDialog.cs:127-131 | a new profile is named "New Profile" with priority equal to the current count |
| ProfilesDialog.AddProfile | ProfilesDialog.cs:125-142 | the new profile is appended only on OK; with more than 100 profiles the edit dialog cannot open |
| ProfilesDialog.AddProfileKeepsIdsDistinct | ProfilesDialog.cs:127-139 | adding a profile with a fresh id keeps profile ids distinct |
| ProfilesDialog.EditProfile | ProfilesDialog.cs:144-157 | only the selected profile changes, in place; a priority outside 0..100 keeps the editor from opening |
| ProfilesDialog.EditProfileKeepsIds | ProfilesDialog.cs:144-157 | editing keeps every id and the active id |
| ProfilesDialog.DeleteProfile | ProfilesDialog.cs:159-179 | after Yes exactly the selected profile is removed, and the active id is cleared exactly when it was that profile's |
| ProfilesDialog.DeleteActiveEnablesAll | ProfilesDialog.cs:170-176 | deleting the active profile enables every shortcut and resets the header; deleting another keeps the active profile |
| ProfilesDialog.ActivateProfile | ProfilesDialog.cs:181-192 | activating sets the active id to the selected profile's id and changes nothing else |
| ProfilesDialog.ActivateAgreesWithSwitch | ProfilesDialog.cs:186 | activating from the dialog has the same effect on the settings as the engine's switch, and the header then names that profile |
| StableSort.SortByCorrect | CommandPalette.cs:165 | the sort is a permutation that is ordered and keeps equal elements in input order |
| StableSort.SortByOrdered | CommandPalette.cs:126 | the sorted sequence is ordered |
| StableSort.SortBy | CommandPalette.cs:126 | the sort keeps the length, every output element comes from the input, and every input element appears in the output |

Three functions have no row of their own because other rows state their
properties. `CommandPalette.GroupedByCategory` (CommandPalette.cs:126-133) is
covered by `GroupedByCategorySorted` and `GroupedByCategoryKeepsEachCategory`.
`HotkeyCapture.DisplayName` (ShortcutDialog.cs:341-349) is covered by
`DisplayOfMask` and `DisplayNameRoundTrip`. `MainForm.OutcomeOf`
(MainForm.cs:211-213) is covered by `LaunchApplication`.

## Left out

- Windows Forms layout, painting, message boxes, tray icon and focus handling are not modelled. The validation a message box reports is modelled as a `Rejection` value.
- The WinForms timer and `Task.Delay` are not modelled. A timer tick is a call to `Tick`, and one poll is one loop step.
- Logging is left out. So are `SettingsManager` load, save and export (file I/O and JSON); only the `Settings` record is kept.
- The `Settings` fields `Groups`, `DarkMode`, `ShowNotifications`, `EnableLogging` and `LogLevel` are not modelled, because no modelled operation reads them.
- `StartupManager` (registry access), `SettingsDialog`, `AppDetailsDialog`, `ToastNotification` and `ShortcutGroup` are not part of this model.
- The app-details dialog is the `details` parameter of `ShortcutDialog.AddFiles`, `ShortcutDialog.AddApps` and `ShortcutDialog.EditApp`.
- The `MainForm` add, edit, remove and start-with-Windows handlers are left out. They only chain a dialog, a settings save, `LoadShortcuts` and `RegisterAllHotkeys`.
- `ShortcutDialog.RefreshAppsList` (the display text of each app) is not modelled.
- `CommandPalette.ResultsListBox_KeyDown`, `ResultsListBox_DoubleClick` and `CommandPalette_KeyDown` are not modelled separately. Their Enter and Escape branches do what `SearchBoxKeyDown` does for those keys.
- `GetMainWindowHandle` (window enumeration) is an oracle, the `window` or `mainWindow` parameter.
- The clock is read once per expansion. The source reads `DateTime.Now` afresh in each of the date and time passes and for each `date:`, `time:` and `datetime:` match, so two "{{time:HH:mm:ss.fffffff}}" tokens can expand to different values there but not in the model.
- A profile evaluation reads one `Probe` snapshot for every trigger of every profile. The source queries the screens, the processes, the network interfaces and the power status afresh for each trigger, so the system can change between triggers there.
- The date, time and `DateTime.ToString(format)` texts are oracle values. So are the weekday, GUIDs, environment variables, the clipboard, the input dialog's answer and `Random`. A format string that `ToString` rejects is the `BadDateFormat` failure.
- Case folding is ASCII only. `ToLower`, `OrdinalIgnoreCase` and the regex option `IgnoreCase` are culture- or Unicode-aware in .NET.
- Strings are sequences of Unicode code points. C# `Length`, `Substring` and indexing count UTF-16 code units, so text outside the Basic Multilingual Plane (emoji, for example) measures and indexes differently.
- CommandPalette.JoinLines: counts code points, not UTF-16 units (see the string line above); what it does to each character is stated by `JoinLinesIsLinesJoined`.
- CommandPalette.Preview: cuts after 50 code points. The source cuts after 50 UTF-16 units, so 30 emoji show in full in the model but as 25 emoji and "..." in the source.
- CommandPalette.FuzzyScore: scans code points and tests `StartsWith` ordinally. The source scans UTF-16 units, so two emoji sharing a high surrogate match one character there, and its one-argument `StartsWith` compares by the current culture, so "å" starts with "a" plus a combining ring there.
- CommandPalette.CalculateFuzzyScore: the loop form of `FuzzyScore`, with the same code-point and ordinal reading.
- CommandPalette.ScanLoop: steps over code points where the source's `name[nameIndex]` steps over UTF-16 units.
- Category order compares character codes. The source's `OrderBy` on strings uses the current culture's comparison.
- Of the .NET replacement-pattern syntax, only `$$` and `$&` are modelled. Other forms, such as `$0`, `${name}`, `` $` `` and `$'`, are read literally.
- Null strings and null references are not modelled. Nullable fields are `Option`s, and a null template is outside the model.
- The battery level is an integer percentage. The source multiplies a `float` fraction by 100.
- `TimeSpan` values are integer ticks.
- Shortcut and profile ids (`Guid.NewGuid`) are parameters.
- Object identity (an edited shortcut skipped "by reference", the selected list item) is a position in the list.
- Profiles.NewProfileIsFresh: that `Guid.NewGuid` gives an unused id is a premise, not a proof.
- ProfilesDialog.ApplyEdit: accepts any name, although the edit dialog's OK refuses a blank name; a cancelled or refused edit is `None`.
- MainForm.RegisterAllHotkeys: requires at most 2,147,483,591 shortcuts, the .NET array limit, so that one pass cannot wrap the id counter. `Hotkeys.Register` itself models the wrap.
- MainForm.Open: the same array-size premise as `RegisterAllHotkeys`.
- ProfilesDialog.AddProfile: requires a profile list within the .NET array limit.
- MainForm.WndProc: takes the hotkey id as an `int`. The overflow that `WParam.ToInt32()` can throw on 64-bit Windows is not modelled.
- WindowManager.NormalPlacement: stated only when the monitor origin plus the offset fits in an `int`. `PositionWindow` itself wraps the sum as C# does.
- Templates.EnvTokenValue: stated for a template that is a single token whose value contains no "{{". Text around the token, and values that later passes would rewrite, are left to `EnvTokenRun`.
- Templates.InputTokenValue: stated for a template that is a single token whose entered text contains no "{{".
- Templates.RandomTokenInRange: stated for a template that is a single token.
- Templates.ClipboardTokenRun: stated for a template that is a single token.
- HotkeyCapture.DisplayNameRoundTrip: holds for key names without '+'. `Keys.Oemplus` is named "Oemplus", so every key name qualifies, but the `keyName` oracle does not promise it.

## Findings

| source | as written | input that shows it | evidently intended | confidence | as-written member | corrected member |
|---|---|---|---|---|---|---|
| TemplateProcessor.cs:45 | clipboard text, like every fixed value, is passed as the replacement string of `Regex.Replace`, so `$$` and `$&` in it are substitution patterns | template "{{clipboard}}" with clipboard text "$&" gives "{{clipboard}}" | the clipboard text is inserted literally, giving "$&" | high; not executed | Templates.ClipboardDollarAmpersandAsWritten | Templates.ClipboardInsertedVerbatim |
| TemplateProcessor.cs:80 | `random.Next(min, max + 1)` computes `max + 1` in 32 bits | "{{random:5:2147483647}}": `max + 1` wraps to `int.MinValue` and `Random.Next` throws | a number in [5, 2147483647] | high; not executed | Templates.RandomMaxIntThrowsAsWritten | Templates.RandomTokenUpToMaxInt |
| WindowManager.cs:46-59 | `elapsed += pollInterval` is a 32-bit add checked against `maxWaitTime` | maxWaitTime = 2147483647: after 21474837 polls `elapsed` wraps to -2147483596, so the loop never reaches its deadline (the same holds at lines 72-85) | stop after ceil(maxWaitTime / 100) polls | high; not executed | WindowManager.AsWrittenPollsPastDeadline | WindowManager.WaitForProcess |
| ShortcutDialog.cs:428 | the saved `KeyDisplayName` is the capture box's text, which a rejected press replaces with an error message (line 337; likewise ClipboardShortcutDialog.cs:215, 309) | press Ctrl+A, then B alone, then OK: the hotkey is Ctrl+A but its display name is "Please use at least one modifier (Ctrl, Alt, Shift)" | the display name of the captured combination, "Ctrl+A" | high; not executed | HotkeyCapture.RejectedPressReplacesDisplayNameAsWritten | HotkeyCapture.SavedDisplayNameInSync |
