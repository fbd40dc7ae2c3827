/** `HotkeyManager`: hands out hotkey ids from a counter starting at 1 and
    asks the operating system to register and unregister them. The
    operating system's answer to a registration is a parameter; the calls
    made are returned in order. */
module Hotkeys {
  import opened Text

  const WmHotkey: int := 0x0312

  /** The modifier flags of `RegisterHotKey`, one bit each. */
  const ModAlt: UInt32 := 0x0001
  const ModControl: UInt32 := 0x0002
  const ModShift: UInt32 := 0x0004
  const ModWin: UInt32 := 0x0008

  /** A call into user32. */
  datatype HotkeyCall =
    | RegisterHotKey(window: nat, id: Int32, modifiers: UInt32, key: UInt32)
    | UnregisterHotKey(window: nat, id: Int32)

  /** The manager: the window that receives `WM_HOTKEY` and the next id. */
  datatype Manager = Manager(window: nat, currentId: Int32)

  /** `new HotkeyManager(windowHandle)`. */
  function NewManager(window: nat): (m: Manager)
    ensures m.window == window && m.currentId == 1
  {
    Manager(window, 1)
  }

  /** `RegisterHotkey`: takes the next id (`_currentId++`, a C# `int`)
      whatever the outcome; `accepted` is what `RegisterHotKey` answers. */
  function Register(m: Manager, modifiers: UInt32, key: UInt32, accepted: bool)
    : (r: (Manager, int, HotkeyCall))
    ensures r.0.window == m.window
    ensures r.0.currentId == Wrap32(m.currentId + 1)
    ensures m.currentId < IntMax ==> r.0.currentId == m.currentId + 1
    ensures r.2 == RegisterHotKey(m.window, m.currentId, modifiers, key)
    ensures accepted ==> r.1 == m.currentId
    ensures !accepted ==> r.1 == -1
  {
    var id := m.currentId;
    (m.(currentId := Wrap32(m.currentId + 1)), if accepted then id else -1,
     RegisterHotKey(m.window, id, modifiers, key))
  }

  /** While the counter is positive, a successful registration returns a
      positive id, and later ids are larger. */
  lemma RegisterIdsIncrease(m: Manager, mod1: UInt32, key1: UInt32, mod2: UInt32, key2: UInt32)
    requires 0 < m.currentId < IntMax - 1
    ensures var (m1, id1, _) := Register(m, mod1, key1, true);
            var (_, id2, _) := Register(m1, mod2, key2, true);
            0 < id1 < id2
  {
  }

  /** `UnregisterHotkey`: one call; the counter stays. */
  function Unregister(m: Manager, id: Int32): (r: (Manager, HotkeyCall))
    ensures r.0 == m
    ensures r.1.UnregisterHotKey? && r.1.id == id && r.1.window == m.window
  {
    (m, UnregisterHotKey(m.window, id))
  }

  /** `UnregisterAll`: unregisters the ids 1 .. currentId - 1 in order and
      resets the counter to 1. */
  method UnregisterAll(m: Manager) returns (m': Manager, calls: seq<HotkeyCall>)
    ensures m' == m.(currentId := 1)
    ensures |calls| == if m.currentId > 1 then m.currentId - 1 else 0
    ensures forall k :: 0 <= k < |calls| ==> calls[k] == UnregisterHotKey(m.window, k + 1)
  {
    calls := [];
    var i: int := 1;
    while i < m.currentId
      invariant 1 <= i <= if m.currentId > 1 then m.currentId else 1
      invariant |calls| == i - 1
      invariant forall k :: 0 <= k < |calls| ==> calls[k] == UnregisterHotKey(m.window, k + 1)
    {
      calls := calls + [UnregisterHotKey(m.window, i)];
      i := i + 1;
    }
    m' := m.(currentId := 1);
  }
}
