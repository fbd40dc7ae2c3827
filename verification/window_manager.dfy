/** `WindowManager`: bounded polling for a process and its window, choice of
    the target monitor, and the window commands that place a window. The
    operating system is an oracle: process lookups, window handles and the
    monitor list are parameters, and the Win32 calls the program would make
    are returned as a list of commands. */
module WindowManager {
  import opened Wrappers
  import opened Text
  import opened WindowLayouts

  // ---------------------------------------------------------------------
  // Handles, monitors and window commands
  // ---------------------------------------------------------------------

  /** A window handle; 0 is `IntPtr.Zero`. */
  type Handle = nat

  /** A process, known by its id. */
  type ProcessId = nat

  /** A rectangle in virtual-screen coordinates (`Screen.Bounds`). */
  datatype Rect = Rect(x: Int32, y: Int32, width: Int32, height: Int32)

  const SwRestore: int := 9
  const SwMaximize: int := 3
  const SwMinimize: int := 6
  const SwpShowWindow: bv32 := 0x0040
  const SwpNoZOrder: bv32 := 0x0004

  /** The Win32 calls the window manager makes, in order. */
  datatype WindowCommand =
    | ShowWindow(handle: Handle, command: int)
    | SetWindowPos(handle: Handle, x: Int32, y: Int32, cx: Int32, cy: Int32, flags: bv32)
    | SetForegroundWindow(handle: Handle)

  // ---------------------------------------------------------------------
  // Bounded polling
  // ---------------------------------------------------------------------

  const PollInterval: nat := 100

  /** How many polls a wait of `maxWait` milliseconds allows: one per
      started 100 ms, none for a non-positive wait. */
  function PollBudget(maxWait: int): (n: nat)
    ensures maxWait <= 0 ==> n == 0
    ensures maxWait > 0 ==> (n - 1) * PollInterval < maxWait <= n * PollInterval
  {
    if maxWait <= 0 then 0 else (maxWait + 99) / 100
  }

  /** Reference definition of a bounded poll: the first of the polls
      `j .. budget - 1` that succeeds, with its index. */
  function FirstHit<T>(probe: nat -> Option<T>, j: nat, budget: nat): (r: Option<(nat, T)>)
    ensures r.Some? ==>
              j <= r.value.0 < budget && probe(r.value.0) == Some(r.value.1) &&
              forall m :: j <= m < r.value.0 ==> probe(m).None?
    ensures r.None? ==> forall m :: j <= m < budget ==> probe(m).None?
    decreases budget - j
  {
    if j >= budget then None
    else match probe(j)
      case Some(v) => Some((j, v))
      case None => FirstHit(probe, j + 1, budget)
  }

  /** A poll that succeeds after only failures is the first hit. */
  lemma {:induction false} FirstHitIsFirstSuccess<T>(probe: nat -> Option<T>, j: nat, budget: nat, k: nat)
    requires j <= k < budget && probe(k).Some?
    requires forall m :: j <= m < k ==> probe(m).None?
    ensures FirstHit(probe, j, budget) == Some((k, probe(k).value))
    decreases k - j
  {
    if j < k {
      FirstHitIsFirstSuccess(probe, j + 1, budget, k);
    }
  }

  /** The poll loop of `WaitForProcess` and `WaitForWindow`: probe, stop at
      the first success, otherwise wait 100 ms, until `maxWait` has
      elapsed. `elapsed` is counted exactly (see `Elapsed` for the 32-bit
      counter of the program). */
  method Poll<T>(maxWait: Int32, probe: nat -> Option<T>) returns (r: Option<T>, queries: nat)
    ensures queries <= PollBudget(maxWait)
    ensures r.Some? ==> 0 < queries && probe(queries - 1) == r
    ensures r.None? ==> queries == PollBudget(maxWait)
    ensures forall m :: 0 <= m < queries - 1 ==> probe(m).None?
    ensures r.None? ==> forall m :: 0 <= m < queries ==> probe(m).None?
    ensures r.Some? ==> FirstHit(probe, 0, PollBudget(maxWait)) == Some((queries - 1, r.value))
    ensures r.None? ==> FirstHit(probe, 0, PollBudget(maxWait)) == None
  {
    var elapsed: int := 0;
    queries := 0;
    while elapsed < maxWait
      invariant elapsed == queries * PollInterval
      invariant queries <= PollBudget(maxWait)
      invariant elapsed < maxWait ==> queries < PollBudget(maxWait)
      invariant forall m :: 0 <= m < queries ==> probe(m).None?
      decreases maxWait - elapsed
    {
      var p := probe(queries);
      queries := queries + 1;
      if p.Some? {
        FirstHitIsFirstSuccess(probe, 0, PollBudget(maxWait), queries - 1);
        return p, queries;
      }
      elapsed := elapsed + PollInterval;
    }
    r := None;
  }

  /** What one process lookup by name yields: the first process found. */
  function ProcessProbe(processes: nat -> seq<ProcessId>): nat -> Option<ProcessId> {
    j => if |processes(j)| > 0 then Some(processes(j)[0]) else None
  }

  /** `WaitForProcess`: `processes(j)` is what the `j`-th lookup by name
      returns. The first process of the first non-empty lookup is returned,
      after at most one lookup per started 100 ms of `maxWait`. */
  method WaitForProcess(maxWait: Int32, processes: nat -> seq<ProcessId>)
    returns (r: Option<ProcessId>, queries: nat)
    ensures queries <= PollBudget(maxWait)
    ensures maxWait <= 0 ==> r.None? && queries == 0
    ensures r.Some? ==> 0 < queries && |processes(queries - 1)| > 0 && r.value == processes(queries - 1)[0]
    ensures forall m :: 0 <= m < queries - 1 ==> |processes(m)| == 0
    ensures r.None? ==> queries == PollBudget(maxWait) && forall m :: 0 <= m < queries ==> |processes(m)| == 0
  {
    var probe := ProcessProbe(processes);
    r, queries := Poll(maxWait, probe);
    forall m | 0 <= m < queries
      ensures probe(m).None? <==> |processes(m)| == 0
    {
    }
  }

  /** What one window lookup sees: the process's main window handle (0 for
      none) and whether it is visible. */
  datatype WindowProbe = WindowProbe(handle: Handle, visible: bool)

  function WindowProbeOf(window: (ProcessId, nat) -> WindowProbe, p: ProcessId): nat -> Option<Handle> {
    j => if window(p, j).handle != 0 && window(p, j).visible then Some(window(p, j).handle) else None
  }

  /** `WaitForWindow`: wait for the process, then, with a fresh budget of
      `maxWait`, for a visible main window; 0 when either wait runs out. */
  method WaitForWindow(maxWait: Int32, processes: nat -> seq<ProcessId>,
                       window: (ProcessId, nat) -> WindowProbe)
    returns (h: Handle, process: Option<ProcessId>, processQueries: nat, windowQueries: nat)
    ensures processQueries <= PollBudget(maxWait) && windowQueries <= PollBudget(maxWait)
    ensures process.Some? ==>
              0 < processQueries && |processes(processQueries - 1)| > 0 &&
              process.value == processes(processQueries - 1)[0]
    ensures forall m :: 0 <= m < processQueries - 1 ==> |processes(m)| == 0
    ensures process.None? ==>
              h == 0 && windowQueries == 0 && processQueries == PollBudget(maxWait) &&
              forall m :: 0 <= m < processQueries ==> |processes(m)| == 0
    ensures h != 0 ==>
              process.Some? && 0 < windowQueries &&
              window(process.value, windowQueries - 1) == WindowProbe(h, true)
    ensures process.Some? ==>
              forall m :: 0 <= m < windowQueries - 1 ==>
                window(process.value, m).handle == 0 || !window(process.value, m).visible
    ensures process.Some? && h == 0 ==>
              windowQueries == PollBudget(maxWait) &&
              forall m :: 0 <= m < windowQueries ==>
                window(process.value, m).handle == 0 || !window(process.value, m).visible
  {
    process, processQueries := WaitForProcess(maxWait, processes);
    if process.None? {
      return 0, process, processQueries, 0;
    }
    var probe := WindowProbeOf(window, process.value);
    var found;
    found, windowQueries := Poll(maxWait, probe);
    forall m | 0 <= m < windowQueries
      ensures probe(m).None? <==> window(process.value, m).handle == 0 || !window(process.value, m).visible
    {
    }
    h := found.GetOr(0);
  }

  // ---------------------------------------------------------------------
  // The program's 32-bit elapsed-time counter
  // ---------------------------------------------------------------------

  /** The program's `elapsed` after `k` polls: `elapsed += 100` on a C#
      `int`, which wraps around. */
  function Elapsed(k: nat): (e: Int32) {
    if k == 0 then 0 else Wrap32(Elapsed(k - 1) + PollInterval)
  }

  /** While the counter stays below `int.MaxValue` it is `100 * k`. */
  lemma {:induction false} ElapsedExact(k: nat)
    requires k * PollInterval <= IntMax
    ensures Elapsed(k) == k * PollInterval
  {
    if k > 0 {
      ElapsedExact(k - 1);
    }
  }

  /** For waits up to 2147483600 ms the 32-bit counter stops the loop
      after exactly `PollBudget(maxWait)` polls, as `Poll` does. */
  lemma AsWrittenPollsWithinBudget(maxWait: Int32)
    requires maxWait <= 2147483600
    ensures forall k :: 0 <= k <= PollBudget(maxWait) ==>
              (Elapsed(k) < maxWait <==> k < PollBudget(maxWait))
  {
    forall k | 0 <= k <= PollBudget(maxWait)
      ensures Elapsed(k) < maxWait <==> k < PollBudget(maxWait)
    {
      ElapsedExact(k);
    }
  }

  /** For longer waits the counter wraps to a negative value before it
      reaches `maxWait`: the loop condition still holds after
      `PollBudget(maxWait)` polls, so the program polls past its deadline. */
  lemma AsWrittenPollsPastDeadline(maxWait: Int32)
    requires maxWait > 2147483600
    ensures PollBudget(maxWait) == 21474837
    ensures forall k :: 0 <= k <= PollBudget(maxWait) ==> Elapsed(k) < maxWait
    ensures Elapsed(PollBudget(maxWait)) < 0
  {
    PollBudgetNearMax(maxWait);
    var n := PollBudget(maxWait);
    forall k | 0 <= k < n
      ensures Elapsed(k) < maxWait
    {
      assert k * PollInterval <= 2147483600;
      ElapsedExact(k);
    }
    ElapsedWraps(PollBudget(maxWait));
  }

  lemma PollBudgetNearMax(maxWait: Int32)
    requires maxWait > 2147483600
    ensures PollBudget(maxWait) == 21474837
  {
    assert 2147483700 <= maxWait + 99 < 2147483800;
  }

  /** The poll after the 21474836th adds 100 to 2147483600 and wraps. */
  lemma ElapsedWraps(k: nat)
    requires k == 21474837
    ensures Elapsed(k) == -2147483596
  {
    ElapsedExact(k - 1);
    var x := Elapsed(k - 1) + PollInterval;
    assert x == 2147483700;
    WrapAbove(x);
  }

  /** A value just past `int.MaxValue` wraps to the negative value
      `2^32` below it. */
  lemma WrapAbove(x: int)
    requires IntMax < x <= IntMax + 0x1_0000_0000
    ensures Wrap32(x) == x - 0x1_0000_0000
  {
    var d := x - IntMin;
    assert 0x1_0000_0000 <= d < 2 * 0x1_0000_0000;
    assert d % 0x1_0000_0000 == d - 0x1_0000_0000;
  }

  // ---------------------------------------------------------------------
  // Target monitor and placement
  // ---------------------------------------------------------------------

  /** `GetTargetScreen`: the monitor at `monitorIndex` when there is one,
      else the primary monitor, else the first; `None` stands for the
      `IndexOutOfRangeException` of `screens[0]` on an empty list. */
  function GetTargetScreen(monitorIndex: Int32, screens: seq<Rect>, primary: Option<Rect>): (r: Option<Rect>)
    ensures 0 <= monitorIndex < |screens| ==> r == Some(screens[monitorIndex])
    ensures r.Some? ==> r.value in screens || r == primary
    ensures r.None? <==> primary.None? && |screens| == 0
    ensures !(0 <= monitorIndex < |screens|) ==>
              r == (if primary.Some? then primary else if |screens| > 0 then Some(screens[0]) else None)
  {
    if 0 <= monitorIndex < |screens| then Some(screens[monitorIndex])
    else if primary.Some? then primary
    else if |screens| > 0 then Some(screens[0])
    else None
  }

  /** When the primary monitor is one of the listed screens, as Windows
      reports it, the target is always a listed screen, and there is one
      exactly when any screen is listed. */
  lemma TargetScreenIsListed(monitorIndex: Int32, screens: seq<Rect>, primary: Option<Rect>)
    requires primary.Some? ==> primary.value in screens
    ensures var r := GetTargetScreen(monitorIndex, screens, primary);
            (r.Some? <==> |screens| > 0) && (r.Some? ==> r.value in screens)
  {
  }

  /** The Win32 calls `PositionWindow` makes, and the layout afterwards
      (fullscreen overwrites the caller's width and height). */
  datatype Placement = Placement(commands: seq<WindowCommand>, layout: WindowLayout)

  /** `PositionWindow` for a process whose main window is `handle`. Every
      exception is swallowed, so a missing monitor gives no command. */
  function PositionWindow(handle: Handle, layout: WindowLayout, screens: seq<Rect>, primary: Option<Rect>)
    : (r: Placement)
    ensures handle == 0 ==> r == Placement([], layout)
    ensures forall c :: c in r.commands ==> c.handle == handle
    ensures r.commands != [] ==> GetTargetScreen(layout.monitorIndex, screens, primary).Some?
    ensures layout.state != Fullscreen ==> r.layout == layout
    ensures r.layout.(width := layout.width, height := layout.height) == layout
    ensures layout.state == Maximized || layout.state == Minimized ==>
              forall c :: c in r.commands ==> c.ShowWindow?
  {
    if handle == 0 then Placement([], layout)
    else match GetTargetScreen(layout.monitorIndex, screens, primary)
      case None => Placement([], layout)
      case Some(screen) =>
        var x := Wrap32(screen.x + layout.x);
        var y := Wrap32(screen.y + layout.y);
        match layout.state
        case Maximized => Placement([ShowWindow(handle, SwMaximize)], layout)
        case Minimized => Placement([ShowWindow(handle, SwMinimize)], layout)
        case Fullscreen =>
          Placement([ShowWindow(handle, SwRestore),
                     SetWindowPos(handle, screen.x, screen.y, screen.width, screen.height,
                                  SwpNoZOrder | SwpShowWindow)],
                    layout.(width := screen.width, height := screen.height))
        case Normal =>
          Placement([ShowWindow(handle, SwRestore),
                     SetWindowPos(handle, x, y, layout.width, layout.height,
                                  SwpNoZOrder | SwpShowWindow)],
                    layout)
  }

  /** A normal window is restored, then moved to the monitor's origin plus
      the layout's offset and given the layout's size; the offset relative
      to the monitor is what the layout asked for. */
  lemma NormalPlacement(handle: Handle, layout: WindowLayout, screens: seq<Rect>, primary: Option<Rect>, screen: Rect)
    requires handle != 0 && layout.state == Normal
    requires GetTargetScreen(layout.monitorIndex, screens, primary) == Some(screen)
    requires IntMin <= screen.x + layout.x <= IntMax && IntMin <= screen.y + layout.y <= IntMax
    ensures PositionWindow(handle, layout, screens, primary).commands ==
              [ShowWindow(handle, SwRestore),
               SetWindowPos(handle, screen.x + layout.x, screen.y + layout.y, layout.width, layout.height, 0x44)]
    ensures PositionWindow(handle, layout, screens, primary).commands[1].x - screen.x == layout.x
    ensures PositionWindow(handle, layout, screens, primary).commands[1].y - screen.y == layout.y
  {
  }

  /** A fullscreen window is restored, then made to cover its monitor; the
      layout's size becomes the monitor's. */
  lemma FullscreenPlacement(handle: Handle, layout: WindowLayout, screens: seq<Rect>, primary: Option<Rect>, screen: Rect)
    requires handle != 0 && layout.state == Fullscreen
    requires GetTargetScreen(layout.monitorIndex, screens, primary) == Some(screen)
    ensures PositionWindow(handle, layout, screens, primary).commands ==
              [ShowWindow(handle, SwRestore),
               SetWindowPos(handle, screen.x, screen.y, screen.width, screen.height, 0x44)]
    ensures PositionWindow(handle, layout, screens, primary).layout.width == screen.width
    ensures PositionWindow(handle, layout, screens, primary).layout.height == screen.height
  {
  }

  /** A maximized or minimized window only gets its state shown. */
  lemma StatePlacement(handle: Handle, layout: WindowLayout, screens: seq<Rect>, primary: Option<Rect>)
    requires handle != 0 && GetTargetScreen(layout.monitorIndex, screens, primary).Some?
    ensures layout.state == Maximized ==>
              PositionWindow(handle, layout, screens, primary).commands == [ShowWindow(handle, SwMaximize)]
    ensures layout.state == Minimized ==>
              PositionWindow(handle, layout, screens, primary).commands == [ShowWindow(handle, SwMinimize)]
  {
  }

  /** Placing again with the layout a placement leaves behind issues the
      same commands and leaves the layout as it is. */
  lemma PlacementIdempotent(handle: Handle, layout: WindowLayout, screens: seq<Rect>, primary: Option<Rect>)
    ensures var r := PositionWindow(handle, layout, screens, primary);
            PositionWindow(handle, r.layout, screens, primary) == r
  {
  }

  // ---------------------------------------------------------------------
  // Process queries
  // ---------------------------------------------------------------------

  /** `IsProcessRunning`: `processes` is the lookup by name, `None` when it
      throws. */
  function IsProcessRunning(processes: Option<seq<ProcessId>>): (r: bool)
    ensures r <==> processes.Some? && |processes.value| > 0
  {
    match processes
    case Some(ps) => |ps| > 0
    case None => false
  }

  /** `BringProcessToFront`: restore and focus the main window of the first
      process found; `false`, and no command, when there is no process or
      no window or the lookup throws. */
  function BringProcessToFront(processes: Option<seq<ProcessId>>, mainWindow: ProcessId -> Handle)
    : (r: (bool, seq<WindowCommand>))
    ensures r.0 ==> IsProcessRunning(processes)
    ensures !r.0 ==> r.1 == []
    ensures r.0 ==>
              |r.1| == 2 && r.1[0].ShowWindow? && r.1[0].command == SwRestore &&
              r.1[1].SetForegroundWindow? && r.1[0].handle == r.1[1].handle != 0
  {
    if processes.Some? && |processes.value| > 0 && mainWindow(processes.value[0]) != 0 then
      var h := mainWindow(processes.value[0]);
      (true, [ShowWindow(h, SwRestore), SetForegroundWindow(h)])
    else (false, [])
  }

  /** A process brought to the front is the first one found, and only a
      running process with a window can be. */
  lemma BringToFrontIffWindow(processes: Option<seq<ProcessId>>, mainWindow: ProcessId -> Handle)
    ensures BringProcessToFront(processes, mainWindow).0 <==>
              IsProcessRunning(processes) && mainWindow(processes.value[0]) != 0
    ensures BringProcessToFront(processes, mainWindow).0 ==>
              BringProcessToFront(processes, mainWindow).1[0].handle == mainWindow(processes.value[0])
  {
  }
}
