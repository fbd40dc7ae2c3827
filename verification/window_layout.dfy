/** The window-placement and launch-condition records attached to each
    application of a shortcut, with their defaults. */
module WindowLayouts {
  import opened Wrappers
  import opened Text

  /** The state a placed window is put in. */
  datatype WindowState = Normal | Maximized | Minimized | Fullscreen

  /** What to do when the application is already running. */
  datatype LaunchBehavior = AlwaysLaunch | LaunchIfNotRunning | BringToFrontIfRunning | LaunchNewInstance

  /** How to wait between the applications of one shortcut. */
  datatype DelayType = Fixed | WaitForProcess | WaitForWindow | WaitForNetwork

  /** Desired monitor, rectangle (relative to that monitor) and state. */
  datatype WindowLayout = WindowLayout(
    processName: string,
    x: Int32,
    y: Int32,
    width: Int32,
    height: Int32,
    monitorIndex: Int32,
    state: WindowState,
    rememberLayout: bool)

  /** Gate on launching one application; declared but never evaluated. */
  datatype LaunchCondition = LaunchCondition(
    checkIfRunning: bool,
    behavior: LaunchBehavior,
    requireNetwork: bool,
    minBatteryLevel: Option<Int32>,
    requireAC: bool,
    requiredProcess: Option<string>,
    requiredProcessMustBeRunning: bool)

  /** `new WindowLayout()`. */
  function DefaultLayout(): (l: WindowLayout)
    ensures l.monitorIndex == 0 && l.state == Normal
    ensures l.x == 0 && l.y == 0 && l.width == 0 && l.height == 0
    ensures l.processName == "" && !l.rememberLayout
  {
    WindowLayout("", 0, 0, 0, 0, 0, Normal, false)
  }

  /** `new LaunchCondition()`. */
  function DefaultLaunchCondition(): (c: LaunchCondition)
    ensures !c.checkIfRunning && c.behavior == AlwaysLaunch
    ensures !c.requireNetwork && !c.requireAC
    ensures c.minBatteryLevel == None && c.requiredProcess == None
    ensures c.requiredProcessMustBeRunning
  {
    LaunchCondition(false, AlwaysLaunch, false, None, false, None, true)
  }
}
