/** The profile engine: per-type trigger predicates over a snapshot of the
    system state, AND-combination of a profile's triggers, highest-priority
    selection, the active-profile bookkeeping and the per-shortcut gate.

    Every operating-system query is a field of `Probe`; a query that throws
    is `None`, which the trigger that asked turns into "no match". */
module ProfileManager {
  import opened Wrappers
  import opened Text
  import opened Profiles
  import opened SettingsStore

  /** Ticks in one day (`TimeSpan.TicksPerDay`). */
  const TicksPerDay: int := 864_000_000_000

  /** Battery level (percent, whole numbers) and mains-power state. */
  datatype PowerProbe = PowerProbe(batteryPercent: int, onAC: bool)

  /** One snapshot of everything the triggers read. */
  datatype Probe = Probe(
    now: TimeOfDayTicks,
    today: DayOfWeek,
    screens: Option<seq<string>>,
    processes: Option<seq<string>>,
    network: Option<bool>,
    power: Option<PowerProbe>)

  /** The notification raised when the active profile changes. */
  datatype ProfileChanged = ProfileChanged(previousId: Option<string>, newId: string, newProfile: Profile)

  /** The engine: the settings it edits and whether its 5-second timer
      runs. */
  datatype Engine = Engine(settings: Settings, timerRunning: bool)

  // ---------------------------------------------------------------------
  // Triggers
  // ---------------------------------------------------------------------

  /** `now` lies on the closed arc of the daily clock running forward from
      `start` to `end`: a reference definition of the time window that does
      not distinguish the two cases of the source. */
  predicate OnClockArc(now: int, start: int, end: int) {
    (now - start) % TicksPerDay <= (end - start) % TicksPerDay
  }

  /** The day filter passes: no days configured, or today is one of them. */
  predicate DayAllowed(t: ProfileTrigger, today: DayOfWeek) {
    t.daysOfWeek.None? || |t.daysOfWeek.value| == 0 || today in t.daysOfWeek.value
  }

  function EvaluateTimeTrigger(t: ProfileTrigger, probe: Probe): (r: bool)
    ensures r ==> t.startTime.Some? && t.endTime.Some? && DayAllowed(t, probe.today)
    ensures t.startTime.Some? && t.endTime.Some? && t.startTime.value <= t.endTime.value ==>
              (r <==> DayAllowed(t, probe.today) && t.startTime.value <= probe.now <= t.endTime.value)
  {
    if t.startTime.None? || t.endTime.None? then false
    else if t.daysOfWeek.Some? && |t.daysOfWeek.value| > 0 && probe.today !in t.daysOfWeek.value then false
    else
      var start := t.startTime.value;
      var end := t.endTime.value;
      if start <= end then start <= probe.now <= end
      else probe.now >= start || probe.now <= end
  }

  /** For times of day within one day, the two cases of the time trigger
      together are exactly the forward clock arc from start to end, which
      wraps past midnight when start > end. */
  lemma TimeTriggerIsClockArc(t: ProfileTrigger, probe: Probe)
    requires t.startTime.Some? && t.endTime.Some?
    requires 0 <= t.startTime.value < TicksPerDay && 0 <= t.endTime.value < TicksPerDay
    requires 0 <= probe.now < TicksPerDay
    ensures EvaluateTimeTrigger(t, probe) <==>
              DayAllowed(t, probe.today) && OnClockArc(probe.now, t.startTime.value, t.endTime.value)
  {
    var s, e, n := t.startTime.value, t.endTime.value, probe.now;
    if s <= e {
      if n >= s {
        assert (n - s) % TicksPerDay == n - s;
      } else {
        assert (n - s) % TicksPerDay == n - s + TicksPerDay;
      }
      assert (e - s) % TicksPerDay == e - s;
    } else {
      if n >= s {
        assert (n - s) % TicksPerDay == n - s;
      } else {
        assert (n - s) % TicksPerDay == n - s + TicksPerDay;
      }
      assert (e - s) % TicksPerDay == e - s + TicksPerDay;
    }
  }

  /** 22:00 to 06:00 matches at 23:30 and 02:00 but not at 12:00. */
  lemma MidnightWindowExample(today: DayOfWeek)
    ensures var hour := 36_000_000_000;
            var t := NewTrigger().(triggerType := TimeOfDay, startTime := Some(22 * hour), endTime := Some(6 * hour));
            var at := (ticks: int) => Probe(ticks, today, None, None, None, None);
            && EvaluateTimeTrigger(t, at(23 * hour + hour / 2))
            && EvaluateTimeTrigger(t, at(2 * hour))
            && !EvaluateTimeTrigger(t, at(12 * hour))
  {
  }

  function EvaluateMonitorTrigger(t: ProfileTrigger, probe: Probe): (r: bool)
    ensures r <==> t.monitorName.Some? && !IsBlank(t.monitorName.value) && probe.screens.Some?
                   && exists i :: 0 <= i < |probe.screens.value|
                                  && ContainsIgnoreCase(probe.screens.value[i], t.monitorName.value)
  {
    if t.monitorName.None? || IsBlank(t.monitorName.value) then false
    else if probe.screens.None? then false
    else exists i :: 0 <= i < |probe.screens.value|
                     && ContainsIgnoreCase(probe.screens.value[i], t.monitorName.value)
  }

  /** Some configured name equals some running process's name, ignoring
      case. */
  predicate AnyProcessRunning(names: seq<string>, running: seq<string>) {
    exists i, j :: 0 <= i < |names| && 0 <= j < |running| && EqualsIgnoreCase(running[j], names[i])
  }

  function EvaluateApplicationTrigger(t: ProfileTrigger, probe: Probe): (r: bool)
    ensures t.processNames.None? || |t.processNames.value| == 0 || probe.processes.None? ==> !r
    ensures t.processNames.Some? && probe.processes.Some? ==>
              (r <==> AnyProcessRunning(t.processNames.value, probe.processes.value))
  {
    if t.processNames.None? || |t.processNames.value| == 0 then false
    else if probe.processes.None? then false
    else AnyProcessRunning(t.processNames.value, probe.processes.value)
  }

  function EvaluateNetworkTrigger(t: ProfileTrigger, probe: Probe): (r: bool)
    ensures t.requireNetwork.None? ==> r
    ensures t.requireNetwork.Some? ==>
              (r <==> probe.network.Some? && probe.network.value == t.requireNetwork.value)
  {
    if t.requireNetwork.None? then true
    else if probe.network.None? then false
    else probe.network.value == t.requireNetwork.value
  }

  function EvaluateBatteryTrigger(t: ProfileTrigger, probe: Probe): (r: bool)
    ensures r <==> probe.power.Some?
                   && (t.minBatteryLevel.Some? ==> t.minBatteryLevel.value <= probe.power.value.batteryPercent)
                   && (t.maxBatteryLevel.Some? ==> probe.power.value.batteryPercent <= t.maxBatteryLevel.value)
                   && (t.requireAC.Some? ==> probe.power.value.onAC == t.requireAC.value)
  {
    if probe.power.None? then false
    else
      var battery := probe.power.value.batteryPercent;
      if t.minBatteryLevel.Some? && battery < t.minBatteryLevel.value then false
      else if t.maxBatteryLevel.Some? && battery > t.maxBatteryLevel.value then false
      else if t.requireAC.Some? && probe.power.value.onAC != t.requireAC.value then false
      else true
  }

  function EvaluateTrigger(t: ProfileTrigger, probe: Probe): (r: bool)
    ensures t.triggerType == Manual ==> !r
    ensures t.triggerType == TimeOfDay ==> (r <==> EvaluateTimeTrigger(t, probe))
    ensures t.triggerType == ConnectedMonitor ==> (r <==> EvaluateMonitorTrigger(t, probe))
    ensures t.triggerType == ActiveApplication ==> (r <==> EvaluateApplicationTrigger(t, probe))
    ensures t.triggerType == NetworkStatus ==> (r <==> EvaluateNetworkTrigger(t, probe))
    ensures t.triggerType == BatteryLevel ==> (r <==> EvaluateBatteryTrigger(t, probe))
  {
    match t.triggerType
    case TimeOfDay => EvaluateTimeTrigger(t, probe)
    case ConnectedMonitor => EvaluateMonitorTrigger(t, probe)
    case ActiveApplication => EvaluateApplicationTrigger(t, probe)
    case NetworkStatus => EvaluateNetworkTrigger(t, probe)
    case BatteryLevel => EvaluateBatteryTrigger(t, probe)
    case Manual => false
  }

  /** A profile matches when every one of its triggers does; the first
      failing trigger ends the scan. */
  function EvaluateProfile(triggers: seq<ProfileTrigger>, probe: Probe): (r: bool)
    ensures r <==> forall i :: 0 <= i < |triggers| ==> EvaluateTrigger(triggers[i], probe)
    decreases |triggers|
  {
    if |triggers| == 0 then true
    else if !EvaluateTrigger(triggers[0], probe) then false
    else EvaluateProfile(triggers[1..], probe)
  }

  /** A manual trigger anywhere in the list keeps the profile from ever
      matching automatically. */
  lemma ManualTriggerNeverMatches(triggers: seq<ProfileTrigger>, probe: Probe, k: nat)
    requires k < |triggers| && triggers[k].triggerType == Manual
    ensures !EvaluateProfile(triggers, probe)
  {
    assert !EvaluateTrigger(triggers[k], probe);
  }

  // ---------------------------------------------------------------------
  // Selection
  // ---------------------------------------------------------------------

  /** A profile that can win: it has triggers, they all match, and its
      priority beats the starting bound `int.MinValue`. */
  predicate Candidate(p: Profile, probe: Probe) {
    |p.triggers| > 0 && EvaluateProfile(p.triggers, probe) && p.priority > IntMin
  }

  /** `k` is the winner: a candidate of greatest priority, earlier than every
      other candidate of that priority. */
  predicate IsWinner(profiles: seq<Profile>, probe: Probe, k: int) {
    && 0 <= k < |profiles|
    && Candidate(profiles[k], probe)
    && (forall j :: 0 <= j < |profiles| && Candidate(profiles[j], probe) ==>
          profiles[j].priority <= profiles[k].priority)
    && (forall j :: 0 <= j < k && Candidate(profiles[j], probe) ==>
          profiles[j].priority < profiles[k].priority)
  }

  /** The scan over profiles with at least one trigger, keeping a profile
      only when its priority is strictly greater than the best so far. */
  method SelectBestMatch(profiles: seq<Profile>, probe: Probe) returns (best: Option<nat>)
    ensures best.Some? ==> IsWinner(profiles, probe, best.value)
    ensures best.None? ==> forall j :: 0 <= j < |profiles| ==> !Candidate(profiles[j], probe)
  {
    best := None;
    var highest: int := IntMin;
    for i := 0 to |profiles|
      invariant best.None? ==> highest == IntMin
      invariant best.None? ==> forall j :: 0 <= j < i ==> !Candidate(profiles[j], probe)
      invariant best.Some? ==> best.value < i && Candidate(profiles[best.value], probe)
      invariant best.Some? ==> highest == profiles[best.value].priority
      invariant best.Some? ==> forall j :: 0 <= j < i && Candidate(profiles[j], probe) ==>
                                 profiles[j].priority <= highest
      invariant best.Some? ==> forall j :: 0 <= j < best.value && Candidate(profiles[j], probe) ==>
                                 profiles[j].priority < highest
    {
      var p := profiles[i];
      if |p.triggers| > 0 {
        if EvaluateProfile(p.triggers, probe) && p.priority > highest {
          best := Some(i);
          highest := p.priority;
        }
      }
    }
  }

  /** At most one profile is the winner. */
  lemma WinnerUnique(profiles: seq<Profile>, probe: Probe, k1: int, k2: int)
    requires IsWinner(profiles, probe, k1) && IsWinner(profiles, probe, k2)
    ensures k1 == k2
  {
  }

  /** Of two matching profiles, the one of strictly higher priority beats
      the other. */
  lemma HigherPriorityBeatsLower(profiles: seq<Profile>, probe: Probe, hi: nat, lo: nat, k: int)
    requires hi < |profiles| && lo < |profiles|
    requires Candidate(profiles[hi], probe) && Candidate(profiles[lo], probe)
    requires profiles[hi].priority > profiles[lo].priority
    requires IsWinner(profiles, probe, k)
    ensures k != lo
  {
  }

  /** Of two matching profiles of equal priority, the later one never
      wins. */
  lemma EarlierWinsTie(profiles: seq<Profile>, probe: Probe, i: nat, j: nat, k: int)
    requires i < j < |profiles|
    requires Candidate(profiles[i], probe) && Candidate(profiles[j], probe)
    requires profiles[i].priority == profiles[j].priority
    requires IsWinner(profiles, probe, k)
    ensures k != j
  {
  }

  /** A profile with no triggers, or with priority `int.MinValue`, is never
      chosen automatically. */
  lemma NeverChosen(profiles: seq<Profile>, probe: Probe, k: int)
    requires 0 <= k < |profiles|
    requires |profiles[k].triggers| == 0 || profiles[k].priority == IntMin
    ensures !IsWinner(profiles, probe, k)
  {
  }

  // ---------------------------------------------------------------------
  // Active profile
  // ---------------------------------------------------------------------

  /** Index of the first profile with id `id` (`FirstOrDefault`). */
  function FindProfile(profiles: seq<Profile>, id: string): (r: Option<nat>)
    ensures r.Some? ==> r.value < |profiles| && profiles[r.value].id == id
    ensures r.Some? ==> forall j :: 0 <= j < r.value ==> profiles[j].id != id
    ensures r.None? ==> forall j :: 0 <= j < |profiles| ==> profiles[j].id != id
    decreases |profiles|
  {
    if |profiles| == 0 then None
    else if profiles[0].id == id then Some(0)
    else match FindProfile(profiles[1..], id)
      case None => None
      case Some(k) => Some(k + 1)
  }

  /** Makes `id` the active profile and reports the change; an unknown id
      changes nothing and reports nothing. */
  function SwitchToProfile(s: Settings, id: string): (r: (Settings, Option<ProfileChanged>))
    ensures r.0.(activeProfileId := s.activeProfileId) == s
    ensures FindProfile(s.profiles, id).None? ==> r.0 == s && r.1 == None
    ensures FindProfile(s.profiles, id).Some? ==>
              && r.0.activeProfileId == Some(id)
              && r.1 == Some(ProfileChanged(s.activeProfileId, id, s.profiles[FindProfile(s.profiles, id).value]))
  {
    match FindProfile(s.profiles, id)
    case None => (s, None)
    case Some(k) => (s.(activeProfileId := Some(id)), Some(ProfileChanged(s.activeProfileId, id, s.profiles[k])))
  }

  /** One evaluation pass: switch to the winner when there is one and it is
      not already active. */
  method EvaluateProfiles(s: Settings, probe: Probe) returns (s': Settings, event: Option<ProfileChanged>)
    ensures s'.(activeProfileId := s.activeProfileId) == s
    ensures |s.profiles| == 0 ==> s' == s && event == None
    ensures (forall k :: !IsWinner(s.profiles, probe, k)) ==> s' == s && event == None
    ensures forall k :: IsWinner(s.profiles, probe, k) && s.activeProfileId != Some(s.profiles[k].id) ==>
              && s'.activeProfileId == Some(s.profiles[k].id)
              && FindProfile(s.profiles, s.profiles[k].id).Some?
              && event == Some(ProfileChanged(s.activeProfileId, s.profiles[k].id,
                                              s.profiles[FindProfile(s.profiles, s.profiles[k].id).value]))
    ensures forall k :: IsWinner(s.profiles, probe, k) && s.activeProfileId == Some(s.profiles[k].id) ==>
              s' == s && event == None
  {
    s', event := s, None;
    if |s.profiles| == 0 {
      return;
    }
    var best := SelectBestMatch(s.profiles, probe);
    if best.Some? && Some(s.profiles[best.value].id) != s.activeProfileId {
      var id := s.profiles[best.value].id;
      assert FindProfile(s.profiles, id).Some?;
      var r := SwitchToProfile(s, id);
      s', event := r.0, r.1;
    }
    forall k | IsWinner(s.profiles, probe, k)
      ensures best == Some(k)
    {
      if best.Some? {
        WinnerUnique(s.profiles, probe, k, best.value);
      }
    }
  }

  /** `GetActiveProfile`: none when the active id is blank or unknown,
      otherwise the first profile with that id (`FirstOrDefault`). */
  function GetActiveProfile(s: Settings): (r: Option<Profile>)
    ensures s.activeProfileId.None? || IsBlank(s.activeProfileId.value) ==> r.None?
    ensures r.Some? ==> r.value in s.profiles && Some(r.value.id) == s.activeProfileId
    ensures (&& s.activeProfileId.Some? && !IsBlank(s.activeProfileId.value)
             && exists i :: 0 <= i < |s.profiles| && s.profiles[i].id == s.activeProfileId.value) ==> r.Some?
    ensures r.Some? ==> FindProfile(s.profiles, s.activeProfileId.value).Some? &&
                        r.value == s.profiles[FindProfile(s.profiles, s.activeProfileId.value).value]
  {
    if s.activeProfileId.None? || IsBlank(s.activeProfileId.value) then None
    else match FindProfile(s.profiles, s.activeProfileId.value)
      case None => None
      case Some(k) => Some(s.profiles[k])
  }

  /** A shortcut is enabled unless an existing profile is active and does
      not list it. */
  function IsShortcutEnabledInActiveProfile(s: Settings, shortcutId: string): (r: bool)
    ensures GetActiveProfile(s).None? ==> r
    ensures GetActiveProfile(s).Some? ==> (r <==> shortcutId in GetActiveProfile(s).value.enabledShortcutIds)
  {
    match GetActiveProfile(s)
    case None => true
    case Some(p) => shortcutId in p.enabledShortcutIds
  }

  function IsClipboardShortcutEnabledInActiveProfile(s: Settings, clipboardShortcutId: string): (r: bool)
    ensures GetActiveProfile(s).None? ==> r
    ensures GetActiveProfile(s).Some? ==>
              (r <==> clipboardShortcutId in GetActiveProfile(s).value.enabledClipboardShortcutIds)
  {
    match GetActiveProfile(s)
    case None => true
    case Some(p) => clipboardShortcutId in p.enabledClipboardShortcutIds
  }

  /** With no profile active, or an active id naming no profile, every
      shortcut is enabled. */
  lemma NoActiveProfileEnablesAll(s: Settings, shortcutId: string, clipboardShortcutId: string)
    requires s.activeProfileId.None? || forall i :: 0 <= i < |s.profiles| ==> Some(s.profiles[i].id) != s.activeProfileId
    ensures IsShortcutEnabledInActiveProfile(s, shortcutId)
    ensures IsClipboardShortcutEnabledInActiveProfile(s, clipboardShortcutId)
  {
  }

  // ---------------------------------------------------------------------
  // Timer
  // ---------------------------------------------------------------------

  /** `new ProfileManager(settings)`: the timer is not running. */
  function NewEngine(s: Settings): (e: Engine)
    ensures e.settings == s && !e.timerRunning
  {
    Engine(s, false)
  }

  /** Starting an already running timer does nothing. */
  function StartAutoSwitching(e: Engine): (r: Engine)
    ensures r.timerRunning && r.settings == e.settings
  {
    if e.timerRunning then e else e.(timerRunning := true)
  }

  function StopAutoSwitching(e: Engine): (r: Engine)
    ensures !r.timerRunning && r.settings == e.settings
  {
    if e.timerRunning then e.(timerRunning := false) else e
  }

  /** One timer tick, which happens only while the timer runs: it
      evaluates the profiles and switches to the winner when that is not
      already active. A tick that fails is caught, so it always leaves a
      usable engine. */
  method Tick(e: Engine, probe: Probe) returns (r: Engine, event: Option<ProfileChanged>)
    ensures !e.timerRunning ==> r == e && event == None
    ensures r.timerRunning == e.timerRunning
    ensures r.settings.(activeProfileId := e.settings.activeProfileId) == e.settings
    ensures e.timerRunning && (forall k :: !IsWinner(e.settings.profiles, probe, k)) ==> r == e && event == None
    ensures forall k :: e.timerRunning && IsWinner(e.settings.profiles, probe, k)
                        && e.settings.activeProfileId != Some(e.settings.profiles[k].id) ==>
              && r.settings.activeProfileId == Some(e.settings.profiles[k].id)
              && FindProfile(e.settings.profiles, e.settings.profiles[k].id).Some?
              && event == Some(ProfileChanged(e.settings.activeProfileId, e.settings.profiles[k].id,
                                              e.settings.profiles[FindProfile(e.settings.profiles,
                                                                              e.settings.profiles[k].id).value]))
    ensures forall k :: e.timerRunning && IsWinner(e.settings.profiles, probe, k)
                        && e.settings.activeProfileId == Some(e.settings.profiles[k].id) ==>
              r == e && event == None
  {
    if !e.timerRunning {
      return e, None;
    }
    var s';
    s', event := EvaluateProfiles(e.settings, probe);
    r := e.(settings := s');
  }
}
