/** The hotkey channels of the main process (src/helpers/ipcHandlers.js): renderer windows
    ask for the F2 double-click and for an ordinary hotkey, and the main process counts
    which windows ("senders") hold them.

    F2 is reference counted: the first sender registers it with the registry, later
    senders only join the set, and the last one to leave (by the unregister call or by its
    window being destroyed) unregisters it.  Ordinary hotkeys are deduplicated per sender.
    The registry is the one of module HotkeyManager; callbacks are numbers, the operating
    system's answer to a registration is an input, and sender ids are naturals.
 */
module IpcHotkeys {
  import opened Wrappers
  import HotkeyManager

  type Manager = HotkeyManager.Manager

  const DefaultHotkey: string := "CommandOrControl+Shift+Space"
  const NotInitialized: string := "热键管理器未初始化"
  const F2Failed: string := "F2热键注册失败"
  const NotRegisteredHere: string := "热键管理器未初始化或未注册"

  /** The `{ success, error? }` object a handler resolves with. */
  datatype Reply = Reply(success: bool, error: Option<string>)

  const Ok: Reply := Reply(true, None)

  function Fail(message: string): Reply {
    Reply(false, Some(message))
  }

  /** The handler object's state.  A sender in `f2Listeners` (`hotkeyListeners`) has a
      `destroyed` listener attached that clears its F2 (hotkey) registration; listeners
      stay attached after an explicit unregister. */
  datatype Ipc = Ipc(
    manager: Option<Manager>,
    f2Senders: set<nat>,
    f2Listeners: set<nat>,
    hotkeySenders: set<nat>,
    hotkeyListeners: set<nat>)

  /** The registry is well formed and every counted sender has its clean-up listener. */
  predicate Wf(s: Ipc) {
    && (s.manager.Some? ==> HotkeyManager.Inv(s.manager.value))
    && s.f2Senders <= s.f2Listeners
    && s.hotkeySenders <= s.hotkeyListeners
  }

  /** While some sender holds F2, the registry has F2. */
  predicate F2Held(s: Ipc) {
    s.f2Senders != {} ==> s.manager.Some? && HotkeyManager.F2 in s.manager.value.handlers
  }

  /** `register-f2-hotkey`.  A sender already counted is answered with success before the
      registry is even looked at; only a registration into an empty set reaches the
      registry, and when the registry refuses, the sender is not counted (the double-click
      callback has been stored all the same). */
  function RegisterF2(s: Ipc, sender: nat, callback: nat, osAccepts: bool): (r: (Reply, Ipc))
    requires Wf(s)
    ensures Wf(r.1)
    ensures r.1.hotkeySenders == s.hotkeySenders && r.1.hotkeyListeners == s.hotkeyListeners
    ensures r.0.success <==> sender in r.1.f2Senders
    ensures r.1.f2Senders <= s.f2Senders + {sender}
  {
    if sender in s.f2Senders then (Ok, s)
    else if s.manager.None? then (Fail(NotInitialized), s)
    else
      var m := s.manager.value;
      var (accepted, m') := if s.f2Senders == {} then HotkeyManager.RegisterF2DoubleClick(m, callback, osAccepts)
                            else (true, m);
      if !accepted then (Fail(F2Failed), s.(manager := Some(m')))
      else (Ok, s.(manager := Some(m'), f2Senders := s.f2Senders + {sender},
                   f2Listeners := s.f2Listeners + {sender}))
  }

  /** `unregister-f2-hotkey`: only a counted sender may leave; the last one unregisters F2
      and answers with the registry's verdict. */
  function UnregisterF2(s: Ipc, sender: nat): (r: (Reply, Ipc))
    requires Wf(s)
    ensures Wf(r.1)
    ensures s.manager.None? ==> r == (Fail(NotRegisteredHere), s)
    ensures s.manager.Some? ==> r.1.f2Senders == s.f2Senders - {sender}
    ensures r.1.f2Listeners == s.f2Listeners
    ensures r.1.hotkeySenders == s.hotkeySenders && r.1.hotkeyListeners == s.hotkeyListeners
  {
    if s.manager.Some? && sender in s.f2Senders then
      var rest := s.f2Senders - {sender};
      if rest == {} then
        var (ok, m') := HotkeyManager.Unregister(s.manager.value, HotkeyManager.F2);
        (Reply(ok, None), s.(manager := Some(m'), f2Senders := rest))
      else (Ok, s.(f2Senders := rest))
    else (Fail(NotRegisteredHere), s)
  }

  /** The `destroyed` listeners of a window: it leaves both sets, and F2 is unregistered
      when the F2 set is left empty.  A window without listeners changes nothing. */
  function SenderDestroyed(s: Ipc, sender: nat): (s': Ipc)
    requires Wf(s)
    ensures Wf(s')
    ensures s'.f2Senders == s.f2Senders - {sender} && s'.hotkeySenders == s.hotkeySenders - {sender}
    ensures s'.f2Listeners == s.f2Listeners - {sender} && s'.hotkeyListeners == s.hotkeyListeners - {sender}
  {
    var s1 := if sender in s.hotkeyListeners
              then s.(hotkeySenders := s.hotkeySenders - {sender}, hotkeyListeners := s.hotkeyListeners - {sender})
              else s;
    if sender !in s1.f2Listeners then s1
    else
      var s2 := s1.(f2Senders := s1.f2Senders - {sender}, f2Listeners := s1.f2Listeners - {sender});
      if s2.f2Senders == {} && s2.manager.Some? then
        s2.(manager := Some(HotkeyManager.Unregister(s2.manager.value, HotkeyManager.F2).1))
      else s2
  }

  /** `register-hotkey`: a sender that registered any hotkey before is answered with
      success whatever key it names now; otherwise the registry decides, and the sender is
      counted only on success. */
  function RegisterHotkey(s: Ipc, sender: nat, key: string, callback: nat, osAccepts: bool): (r: (Reply, Ipc))
    requires Wf(s)
    ensures Wf(r.1)
    ensures r.1.f2Senders == s.f2Senders && r.1.f2Listeners == s.f2Listeners
    ensures s.manager.None? ==> r == (Fail(NotInitialized), s)
    ensures s.manager.Some? ==> (r.0.success <==> sender in r.1.hotkeySenders)
    ensures r.1.hotkeySenders <= s.hotkeySenders + {sender}
  {
    if s.manager.None? then (Fail(NotInitialized), s)
    else if sender in s.hotkeySenders then (Ok, s)
    else
      var (ok, m') := HotkeyManager.RegisterHotkey(s.manager.value, key, callback, osAccepts);
      if ok then (Ok, s.(manager := Some(m'), hotkeySenders := s.hotkeySenders + {sender},
                         hotkeyListeners := s.hotkeyListeners + {sender}))
      else (Reply(false, None), s.(manager := Some(m')))
  }

  /** `unregister-hotkey`: the registry's verdict. */
  function UnregisterHotkey(s: Ipc, key: string): (r: (Reply, Ipc))
    requires Wf(s)
    ensures Wf(r.1)
    ensures s.manager.None? ==> r == (Fail(NotInitialized), s)
    ensures s.manager.Some? ==>
      r.0 == Reply(key in s.manager.value.handlers, None)
      && r.1.manager.Some?
      && r.1.manager.value.handlers.Keys == s.manager.value.handlers.Keys - {key}
  {
    if s.manager.None? then (Fail(NotInitialized), s)
    else
      var (ok, m') := HotkeyManager.Unregister(s.manager.value, key);
      (Reply(ok, None), s.(manager := Some(m')))
  }

  /** The first key of `keys` other than F2, as `Array.prototype.find` returns it. */
  function FindNonF2(keys: seq<string>): (r: Option<string>)
    ensures r.None? <==> forall i :: 0 <= i < |keys| ==> keys[i] == HotkeyManager.F2
    ensures r.Some? ==> exists i :: 0 <= i < |keys| && keys[i] == r.value
                          && r.value != HotkeyManager.F2
                          && forall j :: 0 <= j < i ==> keys[j] == HotkeyManager.F2
  {
    if keys == [] then None
    else if keys[0] != HotkeyManager.F2 then Some(keys[0])
    else
      var r := FindNonF2(keys[1..]);
      if r.Some? then
        ghost var i :| 0 <= i < |keys[1..]| && keys[1..][i] == r.value
                       && forall j :: 0 <= j < i ==> keys[1..][j] == HotkeyManager.F2;
        assert keys[i + 1] == r.value;
        r
      else r
  }

  /** `get-current-hotkey`: the first registered key other than F2, falling back to the
      default when there is none or it is the empty (falsy) string. */
  function GetCurrentHotkey(s: Ipc): string {
    if s.manager.None? then DefaultHotkey
    else
      match FindNonF2(HotkeyManager.Registered(s.manager.value))
      case Some(k) => if k != [] then k else DefaultHotkey
      case None => DefaultHotkey
  }

  // ---------------------------------------------------------------------------
  // Properties

  /** A sender already holding F2 is answered with success and nothing changes. */
  lemma RegisterF2Repeated(s: Ipc, sender: nat, callback: nat, osAccepts: bool)
    requires Wf(s) && sender in s.f2Senders
    ensures RegisterF2(s, sender, callback, osAccepts) == (Ok, s)
  {
  }

  /** Joining a non-empty set leaves the registry alone; the first registration is the
      registry's, and a refused one leaves the set empty with the error reply. */
  lemma RegisterF2OnlyFirstCalls(s: Ipc, sender: nat, callback: nat, osAccepts: bool)
    requires Wf(s) && s.manager.Some? && sender !in s.f2Senders
    ensures var (reply, s') := RegisterF2(s, sender, callback, osAccepts);
      var (accepted, m') := HotkeyManager.RegisterF2DoubleClick(s.manager.value, callback, osAccepts);
      && (s.f2Senders != {} ==> reply == Ok && s' == s.(f2Senders := s.f2Senders + {sender},
                                                        f2Listeners := s.f2Listeners + {sender}))
      && (s.f2Senders == {} ==> s'.manager == Some(m') && (reply.success <==> accepted))
      && (s.f2Senders == {} && !accepted ==> reply == Fail(F2Failed) && s'.f2Senders == {})
  {
  }

  /** Leaving: an unknown sender is refused; the last sender unregisters F2 and any other
      leaves the registry as it was. */
  lemma UnregisterF2Cases(s: Ipc, sender: nat)
    requires Wf(s)
    ensures var (reply, s') := UnregisterF2(s, sender);
      && (sender !in s.f2Senders ==> reply == Fail(NotRegisteredHere) && s' == s)
      && (s.manager.Some? && sender in s.f2Senders && s.f2Senders != {sender} ==>
            reply == Ok && s'.manager == s.manager)
      && (s.manager.Some? && s.f2Senders == {sender} ==>
            s'.manager.Some? && HotkeyManager.F2 !in s'.manager.value.handlers
            && (reply.success <==> HotkeyManager.F2 in s.manager.value.handlers))
  {
    if s.manager.Some? && sender in s.f2Senders && s.f2Senders != {sender} {
      var other :| other in s.f2Senders && other != sender;
      assert other in s.f2Senders - {sender};
    }
    if s.manager.Some? && s.f2Senders == {sender} {
      assert s.f2Senders - {sender} == {};
    }
  }

  /** The destruction of the last F2 holder unregisters F2; of any other holder keeps the
      registry. */
  lemma DestroyedLastUnregisters(s: Ipc, sender: nat)
    requires Wf(s) && s.manager.Some? && sender in s.f2Senders
    ensures var s' := SenderDestroyed(s, sender);
      && (s.f2Senders == {sender} ==> s'.manager.Some? && HotkeyManager.F2 !in s'.manager.value.handlers)
      && (s.f2Senders != {sender} ==> s'.manager == s.manager)
  {
    if s.f2Senders != {sender} {
      var other :| other in s.f2Senders && other != sender;
      assert other in s.f2Senders - {sender};
    } else {
      assert s.f2Senders - {sender} == {};
    }
  }

  /** The F2 channel keeps F2 registered while any sender holds it. */
  lemma F2OperationsKeepF2Held(s: Ipc, sender: nat, callback: nat, osAccepts: bool)
    requires Wf(s) && F2Held(s)
    ensures F2Held(RegisterF2(s, sender, callback, osAccepts).1)
    ensures F2Held(UnregisterF2(s, sender).1)
    ensures F2Held(SenderDestroyed(s, sender))
  {
    var (reply, s') := RegisterF2(s, sender, callback, osAccepts);
    if s'.f2Senders != {} && sender !in s.f2Senders && s.manager.Some? && s.f2Senders == {} {
      var m := s.manager.value;
      if HotkeyManager.F2 !in m.handlers {
        assert osAccepts;
      }
    }
  }

  /** A window that asks for F2 on an empty channel and then releases it leaves the
      registry exactly as it found it. */
  lemma F2RoundTrip(s: Ipc, sender: nat, callback: nat)
    requires Wf(s) && s.manager.Some? && s.f2Senders == {}
    requires HotkeyManager.F2 !in s.manager.value.handlers
    ensures var first := RegisterF2(s, sender, callback, true);
      var last := UnregisterF2(first.1, sender);
      && first.0 == Ok && last.0 == Ok
      && last.1.manager == Some(s.manager.value.(onDoubleClick := Some(callback)))
      && last.1.f2Senders == {}
  {
    var m1 := s.manager.value.(onDoubleClick := Some(callback));
    var first := RegisterF2(s, sender, callback, true);
    FirstF2Registration(s, sender, callback);
    HotkeyManager.UnregisterUndoesAdd(m1, HotkeyManager.F2, HotkeyManager.ClickListener);
    LastF2Release(first.1, sender);
  }

  lemma FirstF2Registration(s: Ipc, sender: nat, callback: nat)
    requires Wf(s) && s.manager.Some? && s.f2Senders == {}
    requires HotkeyManager.F2 !in s.manager.value.handlers
    ensures var m1 := s.manager.value.(onDoubleClick := Some(callback));
      var first := RegisterF2(s, sender, callback, true);
      && first.0 == Ok
      && first.1.manager == Some(HotkeyManager.Add(m1, HotkeyManager.F2, HotkeyManager.ClickListener))
      && first.1.f2Senders == {sender}
  {
  }

  lemma LastF2Release(s: Ipc, sender: nat)
    requires Wf(s) && s.manager.Some? && s.f2Senders == {sender}
    ensures var last := UnregisterF2(s, sender);
      var u := HotkeyManager.Unregister(s.manager.value, HotkeyManager.F2);
      last.1.manager == Some(u.1) && last.0 == Reply(u.0, None) && last.1.f2Senders == {}
  {
    assert s.f2Senders - {sender} == {};
  }

  /** A sender that registered a hotkey is answered with success for any other key,
      which the registry never sees. */
  lemma HotkeyDedupedPerSender(s: Ipc, sender: nat, key: string, callback: nat, osAccepts: bool)
    requires Wf(s) && s.manager.Some? && sender in s.hotkeySenders
    ensures RegisterHotkey(s, sender, key, callback, osAccepts) == (Ok, s)
  {
  }

  /** A first registration counts the sender exactly when the registry accepts the key. */
  lemma HotkeyRecordedOnSuccess(s: Ipc, sender: nat, key: string, callback: nat, osAccepts: bool)
    requires Wf(s) && s.manager.Some? && sender !in s.hotkeySenders
    ensures var (reply, s') := RegisterHotkey(s, sender, key, callback, osAccepts);
      && reply.success == HotkeyManager.RegisterHotkey(s.manager.value, key, callback, osAccepts).0
      && (reply.success <==> (key in s.manager.value.handlers || osAccepts))
      && (reply.success ==> s'.hotkeySenders == s.hotkeySenders + {sender})
      && (!reply.success ==> s' == s)
  {
  }

  /** The current hotkey is a registered non-F2 key before which only F2 is registered,
      or the default when no such non-empty key exists. */
  lemma CurrentHotkeyIsFirstOther(s: Ipc)
    requires s.manager.Some?
    ensures var keys := s.manager.value.keys;
      var k := GetCurrentHotkey(s);
      && (k != DefaultHotkey ==> exists i :: 0 <= i < |keys| && keys[i] == k && k != HotkeyManager.F2
                                            && forall j :: 0 <= j < i ==> keys[j] == HotkeyManager.F2)
      && ((forall i :: 0 <= i < |keys| ==> keys[i] == HotkeyManager.F2) ==> k == DefaultHotkey)
  {
  }

  /** With the main hotkey registered after F2, the current hotkey is that key. */
  lemma CurrentHotkeyAfterF2(s: Ipc, key: string)
    requires s.manager.Some? && s.manager.value.keys == [HotkeyManager.F2, key]
    requires key != HotkeyManager.F2 && key != []
    ensures GetCurrentHotkey(s) == key
  {
    assert s.manager.value.keys[1..] == [key];
  }
}
