/** The persisted settings record every component reads and edits. Loading
    and saving it (JSON files) is not part of this model. */
module SettingsStore {
  import opened Wrappers
  import opened Text
  import opened Shortcuts
  import opened Profiles

  datatype Settings = Settings(
    shortcuts: seq<AppShortcut>,
    clipboardShortcuts: seq<ClipboardShortcut>,
    startWithWindows: bool,
    minimizeToTray: bool,
    profiles: seq<Profile>,
    activeProfileId: Option<string>,
    commandPaletteHotkey: string,
    commandPaletteHotkeyModifiers: Int32,
    commandPaletteHotkeyKeyCode: Int32)

  /** `new Settings()`. */
  function DefaultSettings(): (s: Settings)
    ensures s.shortcuts == [] && s.clipboardShortcuts == [] && s.profiles == []
    ensures !s.startWithWindows && s.minimizeToTray && s.activeProfileId == None
    ensures s.commandPaletteHotkey == "Ctrl+Shift+Space"
    ensures s.commandPaletteHotkeyModifiers == 0 && s.commandPaletteHotkeyKeyCode == 0
  {
    Settings([], [], false, true, [], None, "Ctrl+Shift+Space", 0, 0)
  }
}
