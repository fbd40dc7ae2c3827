/** Profiles: named, prioritised bundles of automatic-activation triggers and
    of the shortcut ids they enable. */
module Profiles {
  import opened Wrappers
  import opened Text

  datatype ProfileTriggerType = Manual | TimeOfDay | ConnectedMonitor | ActiveApplication | NetworkStatus | BatteryLevel

  /** `System.DayOfWeek`. */
  datatype DayOfWeek = Sunday | Monday | Tuesday | Wednesday | Thursday | Friday | Saturday

  /** A time of day as a `TimeSpan`, in ticks since midnight. */
  type TimeOfDayTicks = int

  /** One condition; only the fields of its type are read. */
  datatype ProfileTrigger = ProfileTrigger(
    triggerType: ProfileTriggerType,
    startTime: Option<TimeOfDayTicks>,
    endTime: Option<TimeOfDayTicks>,
    daysOfWeek: Option<seq<DayOfWeek>>,
    monitorName: Option<string>,
    processNames: Option<seq<string>>,
    requireNetwork: Option<bool>,
    minBatteryLevel: Option<Int32>,
    maxBatteryLevel: Option<Int32>,
    requireAC: Option<bool>)

  datatype Profile = Profile(
    id: string,
    name: string,
    description: string,
    isActive: bool,
    isDefault: bool,
    priority: Int32,
    triggers: seq<ProfileTrigger>,
    enabledShortcutIds: seq<string>,
    enabledClipboardShortcutIds: seq<string>,
    enabledGroupIds: seq<string>)

  /** `new ProfileTrigger()`: a manual trigger with every optional field
      null. */
  function NewTrigger(): (t: ProfileTrigger)
    ensures t.triggerType == Manual
    ensures t.startTime == None && t.endTime == None && t.daysOfWeek == None
    ensures t.monitorName == None && t.processNames == None && t.requireNetwork == None
    ensures t.minBatteryLevel == None && t.maxBatteryLevel == None && t.requireAC == None
  {
    ProfileTrigger(Manual, None, None, None, None, None, None, None, None, None)
  }

  /** `new Profile()`, with `id` standing for the fresh GUID string. */
  function NewProfile(id: string): (p: Profile)
    ensures p.id == id && p.name == "" && p.description == ""
    ensures !p.isActive && !p.isDefault && p.priority == 0
    ensures p.triggers == [] && p.enabledShortcutIds == []
    ensures p.enabledClipboardShortcutIds == [] && p.enabledGroupIds == []
  {
    Profile(id, "", "", false, false, 0, [], [], [], [])
  }

  /** Ids of a profile list, in order. */
  function Ids(profiles: seq<Profile>): (r: seq<string>)
    ensures |r| == |profiles|
    ensures forall i :: 0 <= i < |r| ==> r[i] == profiles[i].id
  {
    seq(|profiles|, i requires 0 <= i < |profiles| => profiles[i].id)
  }

  /** Two profiles created with distinct fresh GUIDs have distinct ids, so a
      new profile never shares its id with an existing one. */
  lemma NewProfileIsFresh(profiles: seq<Profile>, id: string)
    requires id !in Ids(profiles)
    ensures forall i :: 0 <= i < |profiles| ==> profiles[i].id != NewProfile(id).id
  {
    forall i | 0 <= i < |profiles|
      ensures profiles[i].id != NewProfile(id).id
    {
      assert Ids(profiles)[i] == profiles[i].id;
    }
  }
}
