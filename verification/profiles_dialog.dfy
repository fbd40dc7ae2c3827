/** The profile list dialog: its header and entries, and the add, edit,
    delete and activate buttons' effect on the settings. The profile editor
    it opens is a parameter: its answer is the name, description and
    priority typed in, or `None` for Cancel. Saving the settings file after
    each change is not part of this model. */
module ProfilesDialog {
  import opened Wrappers
  import opened Text
  import opened Profiles
  import opened SettingsStore
  import opened ProfileManager

  const HeaderPrefix: string := "Active Profile: "
  const NoActiveHeader: string := "Active Profile: None (All shortcuts active)"
  const ActiveMark: string := " [ACTIVE]"

  /** The range of the profile editor's priority box. */
  const PriorityMaximum: Int32 := 100

  /** What the profile editor writes back on OK. */
  datatype ProfileEdit = ProfileEdit(name: string, description: string, priority: Int32)

  /** The editor's OK: name, description and priority; the id, triggers and
      enabled lists stay. */
  function ApplyEdit(p: Profile, e: ProfileEdit): (r: Profile)
    ensures r.name == e.name && r.description == e.description && r.priority == e.priority
    ensures r.(name := p.name, description := p.description, priority := p.priority) == p
  {
    p.(name := e.name, description := e.description, priority := e.priority)
  }

  /** The editor's constructor sets its priority box to the profile's
      priority, which throws outside the box's range. */
  predicate EditorOpens(p: Profile) {
    0 <= p.priority <= PriorityMaximum
  }

  // ---------------------------------------------------------------------
  // The list
  // ---------------------------------------------------------------------

  /** The header: the first profile whose id is the active id, or none. */
  function Header(s: Settings): (r: string)
    ensures s.activeProfileId.Some? && FindProfile(s.profiles, s.activeProfileId.value).Some? ==>
              r == HeaderPrefix + s.profiles[FindProfile(s.profiles, s.activeProfileId.value).value].name
    ensures s.activeProfileId.None? || FindProfile(s.profiles, s.activeProfileId.value).None? ==>
              r == NoActiveHeader
  {
    if s.activeProfileId.None? then NoActiveHeader
    else match FindProfile(s.profiles, s.activeProfileId.value)
      case None => NoActiveHeader
      case Some(k) => HeaderPrefix + s.profiles[k].name
  }

  /** The trigger-count suffix of an entry. */
  function TriggerCount(n: nat): (r: string)
    ensures |r| > 12 && r[..2] == " (" && r[|r| - 10..] == " triggers)"
  {
    " (" + NatToString(n) + " triggers)"
  }

  /** The suffix reads back as the number of triggers. */
  lemma TriggerCountRoundTrip(n: nat)
    ensures var r := TriggerCount(n);
            AllDigits(r[2..|r| - 10]) && DigitsValue(r[2..|r| - 10]) == n
  {
    var r := TriggerCount(n);
    assert r[2..|r| - 10] == NatToString(n);
    NatToStringRoundTrip(n);
  }

  /** One entry: the name, " [ACTIVE]" when the profile's id is the active
      id, and the trigger count when it has triggers. */
  function Entry(p: Profile, active: Option<string>): (r: string)
    ensures |p.name| <= |r| && r[..|p.name|] == p.name
    ensures Some(p.id) == active && |p.triggers| == 0 ==> r == p.name + ActiveMark
    ensures Some(p.id) != active && |p.triggers| == 0 ==> r == p.name
    ensures |p.triggers| > 0 ==> |r| > |p.name| + 12 && r[|r| - 10..] == " triggers)"
    ensures |p.triggers| > 0 ==>
              r == (if Some(p.id) == active then p.name + ActiveMark else p.name) + TriggerCount(|p.triggers|)
  {
    var marked := if Some(p.id) == active then p.name + ActiveMark else p.name;
    var r := if |p.triggers| > 0 then marked + TriggerCount(|p.triggers|) else marked;
    assert r[..|p.name|] == p.name by {
      assert r[..|p.name|] == marked[..|p.name|];
    }
    r
  }

  /** `LoadProfiles`: the header and one entry per profile, in order. */
  function LoadProfiles(s: Settings): (r: (string, seq<string>))
    ensures r.0 == Header(s)
    ensures |r.1| == |s.profiles|
    ensures forall i :: 0 <= i < |r.1| ==> r.1[i] == Entry(s.profiles[i], s.activeProfileId)
  {
    (Header(s), seq(|s.profiles|, i requires 0 <= i < |s.profiles| => Entry(s.profiles[i], s.activeProfileId)))
  }

  /** Profile ids are distinct (fresh GUIDs). */
  predicate DistinctIds(profiles: seq<Profile>) {
    forall i, j :: 0 <= i < j < |profiles| ==> profiles[i].id != profiles[j].id
  }

  /** The header and the entries agree: with distinct ids, the header names
      the profile whose entry is marked active, and says "None" when no
      entry is marked. */
  lemma HeaderMatchesMarkedEntry(s: Settings, k: nat)
    requires DistinctIds(s.profiles) && k < |s.profiles|
    ensures Some(s.profiles[k].id) == s.activeProfileId ==> Header(s) == HeaderPrefix + s.profiles[k].name
    ensures (forall i :: 0 <= i < |s.profiles| ==> Some(s.profiles[i].id) != s.activeProfileId) ==>
              Header(s) == NoActiveHeader
  {
    if Some(s.profiles[k].id) == s.activeProfileId {
      var found := FindProfile(s.profiles, s.profiles[k].id);
      assert found.Some?;
      assert s.profiles[found.value].id == s.profiles[k].id;
    }
  }

  // ---------------------------------------------------------------------
  // Buttons
  // ---------------------------------------------------------------------

  /** The profile `AddButton_Click` hands to the editor: named
      "New Profile", with the current number of profiles as priority. */
  function NewProfileSeed(s: Settings, id: string): (p: Profile)
    requires |s.profiles| <= IntMax
    ensures p.name == "New Profile" && p.priority == |s.profiles|
    ensures p.(name := "", priority := 0) == NewProfile(id)
  {
    NewProfile(id).(name := "New Profile", priority := |s.profiles|)
  }

  /** `AddButton_Click`: the edited seed is appended on OK; Cancel changes
      nothing. With more profiles than the editor's priority box allows
      the editor throws: `None`. */
  function AddProfile(s: Settings, id: string, edit: Option<ProfileEdit>): (r: Option<Settings>)
    requires |s.profiles| <= ArrayMaxLength
    ensures r.None? <==> |s.profiles| > PriorityMaximum
    ensures r.Some? && edit.None? ==> r.value == s
    ensures r.Some? && edit.Some? ==>
              r.value == s.(profiles := s.profiles + [ApplyEdit(NewProfileSeed(s, id), edit.value)])
  {
    var seed := NewProfileSeed(s, id);
    if !EditorOpens(seed) then None
    else match edit
      case None => Some(s)
      case Some(e) => Some(s.(profiles := s.profiles + [ApplyEdit(seed, e)]))
  }

  /** Adding a profile with a fresh id keeps the ids distinct, and the
      added profile is last with the id it was given. */
  lemma AddProfileKeepsIdsDistinct(s: Settings, id: string, e: ProfileEdit)
    requires |s.profiles| <= PriorityMaximum
    requires DistinctIds(s.profiles) && id !in Ids(s.profiles)
    ensures var r := AddProfile(s, id, Some(e)).value;
            DistinctIds(r.profiles) && r.profiles[|r.profiles| - 1].id == id
  {
    NewProfileIsFresh(s.profiles, id);
  }

  /** `EditButton_Click`: the selected profile is edited in place. The
      editor throws when the profile's priority is outside its box's
      range: `None`. */
  function EditProfile(s: Settings, selected: Option<nat>, edit: Option<ProfileEdit>): (r: Option<Settings>)
    requires selected.Some? ==> selected.value < |s.profiles|
    ensures r.None? <==> selected.Some? && !EditorOpens(s.profiles[selected.value])
    ensures r.Some? && (selected.None? || edit.None?) ==> r.value == s
    ensures r.Some? && selected.Some? && edit.Some? ==>
              r.value == s.(profiles := s.profiles[selected.value := ApplyEdit(s.profiles[selected.value], edit.value)])
  {
    if selected.None? then Some(s)
    else if !EditorOpens(s.profiles[selected.value]) then None
    else match edit
      case None => Some(s)
      case Some(e) => Some(s.(profiles := s.profiles[selected.value := ApplyEdit(s.profiles[selected.value], e)]))
  }

  /** An edit keeps every id, so it keeps the active profile's identity. */
  lemma EditProfileKeepsIds(s: Settings, k: nat, e: ProfileEdit)
    requires k < |s.profiles| && EditorOpens(s.profiles[k])
    ensures Ids(EditProfile(s, Some(k), Some(e)).value.profiles) == Ids(s.profiles)
    ensures EditProfile(s, Some(k), Some(e)).value.activeProfileId == s.activeProfileId
  {
    var r := EditProfile(s, Some(k), Some(e)).value;
    assert forall i :: 0 <= i < |s.profiles| ==> r.profiles[i].id == s.profiles[i].id;
  }

  /** `DeleteButton_Click`: after Yes the selected profile leaves the list,
      and the active id is cleared when it was that profile's. */
  function DeleteProfile(s: Settings, selected: Option<nat>, confirmed: bool): (r: Settings)
    requires selected.Some? ==> selected.value < |s.profiles|
    ensures selected.None? || !confirmed ==> r == s
    ensures selected.Some? && confirmed ==>
              && r.(profiles := s.profiles, activeProfileId := s.activeProfileId) == s
              && r.profiles == s.profiles[..selected.value] + s.profiles[selected.value + 1..]
              && (r.activeProfileId == None <==> s.activeProfileId == None || s.activeProfileId == Some(s.profiles[selected.value].id))
              && (r.activeProfileId != None ==> r.activeProfileId == s.activeProfileId)
  {
    if selected.None? || !confirmed then s
    else
      var k := selected.value;
      var active := if s.activeProfileId == Some(s.profiles[k].id) then None else s.activeProfileId;
      s.(profiles := s.profiles[..k] + s.profiles[k + 1..], activeProfileId := active)
  }

  /** Deleting the active profile makes every shortcut enabled again and
      the header say "None"; deleting another keeps the active profile. */
  lemma DeleteActiveEnablesAll(s: Settings, k: nat, shortcutId: string, clipboardShortcutId: string)
    requires k < |s.profiles| && DistinctIds(s.profiles)
    ensures var r := DeleteProfile(s, Some(k), true);
            s.activeProfileId == Some(s.profiles[k].id) ==>
              && IsShortcutEnabledInActiveProfile(r, shortcutId)
              && IsClipboardShortcutEnabledInActiveProfile(r, clipboardShortcutId)
              && Header(r) == NoActiveHeader
    ensures var r := DeleteProfile(s, Some(k), true);
            s.activeProfileId != Some(s.profiles[k].id) ==> GetActiveProfile(r) == GetActiveProfile(s)
  {
    var r := DeleteProfile(s, Some(k), true);
    if s.activeProfileId != Some(s.profiles[k].id) && s.activeProfileId.Some? {
      FindAfterRemoval(s.profiles, k, s.activeProfileId.value);
    }
  }

  /** Removing a profile other than `id`'s keeps `id`'s profile findable,
      and finds the same profile. */
  lemma FindAfterRemoval(profiles: seq<Profile>, k: nat, id: string)
    requires k < |profiles| && DistinctIds(profiles) && profiles[k].id != id
    ensures var rest := profiles[..k] + profiles[k + 1..];
            && (FindProfile(rest, id).None? <==> FindProfile(profiles, id).None?)
            && (FindProfile(rest, id).Some? ==>
                  rest[FindProfile(rest, id).value] == profiles[FindProfile(profiles, id).value])
  {
    var rest := profiles[..k] + profiles[k + 1..];
    forall a | 0 <= a < |rest|
      ensures rest[a] == profiles[if a < k then a else a + 1]
    {
    }
    var before := FindProfile(profiles, id);
    var after := FindProfile(rest, id);
    if before.Some? {
      var b := before.value;
      assert rest[if b < k then b else b - 1] == profiles[b];
      assert after.Some?;
      var m := if after.value < k then after.value else after.value + 1;
      assert profiles[m] == rest[after.value];
      assert m == b;
    } else {
      assert forall a :: 0 <= a < |rest| ==> rest[a].id != id;
    }
  }

  /** `ActivateButton_Click`: the selected profile's id becomes the active
      id. */
  function ActivateProfile(s: Settings, selected: Option<nat>): (r: Settings)
    requires selected.Some? ==> selected.value < |s.profiles|
    ensures selected.None? ==> r == s
    ensures selected.Some? ==> r == s.(activeProfileId := Some(s.profiles[selected.value].id))
  {
    if selected.None? then s
    else s.(activeProfileId := Some(s.profiles[selected.value].id))
  }

  /** Activating from the list does what the engine's switch does, and
      then the header names the activated profile. */
  lemma ActivateAgreesWithSwitch(s: Settings, k: nat)
    requires k < |s.profiles| && DistinctIds(s.profiles)
    ensures ActivateProfile(s, Some(k)) == SwitchToProfile(s, s.profiles[k].id).0
    ensures Header(ActivateProfile(s, Some(k))) == HeaderPrefix + s.profiles[k].name
  {
    var found := FindProfile(s.profiles, s.profiles[k].id);
    assert found.Some?;
    assert s.profiles[found.value].id == s.profiles[k].id;
  }
}
