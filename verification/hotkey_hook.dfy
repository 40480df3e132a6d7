/** The renderer's hotkey hook (src/hooks/useHotkey.js): the key loaded at start, the
    guarded registration and the unregistration through IPC, and the display formatting.
    IPC answers are inputs.
 */
module HotkeyHook {
  import opened Wrappers
  import opened Text
  import IpcHotkeys

  const DefaultHotkey: string := "CommandOrControl+Shift+Space"

  datatype Hook = Hook(hotkey: string, isRegistered: bool, registeredRef: Option<string>)

  const Initial: Hook := Hook(DefaultHotkey, false, None)

  // ---------------------------------------------------------------------------
  // Loading, registering, unregistering

  /** The start-up effect: the saved `hotkey` setting when truthy, else the main
      process's current hotkey when truthy, else the default stays. */
  function LoadHotkey(h: Hook, apiPresent: bool, saved: Option<string>, current: string): (r: Hook)
    ensures r.isRegistered == h.isRegistered && r.registeredRef == h.registeredRef
    ensures !apiPresent ==> r == h
    ensures apiPresent && saved.Some? && saved.value != [] ==> r.hotkey == saved.value
    ensures apiPresent && !(saved.Some? && saved.value != []) ==> r.hotkey == (if current != [] then current else h.hotkey)
  {
    if !apiPresent then h
    else if saved.Some? && saved.value != [] then h.(hotkey := saved.value)
    else if current != [] then h.(hotkey := current)
    else h
  }

  /** `registerHotkey(newHotkey)`: the updated hook, the answer, and whether the IPC call
      was made. */
  function Register(h: Hook, key: string, apiPresent: bool, ipcSuccess: bool): (r: (Hook, bool, bool))
    ensures h.registeredRef == Some(key) && h.isRegistered ==> r == (h, true, false)
    ensures !(h.registeredRef == Some(key) && h.isRegistered) ==> r.2 == apiPresent
    ensures r.1 ==> r.0.hotkey == (if r.2 then key else h.hotkey) && r.0.isRegistered
    ensures !r.1 ==> r.0 == h
    ensures r.1 <==> (h.registeredRef == Some(key) && h.isRegistered) || (apiPresent && ipcSuccess)
  {
    if h.registeredRef == Some(key) && h.isRegistered then (h, true, false)
    else if apiPresent && ipcSuccess then (Hook(key, true, Some(key)), true, true)
    else (h, false, apiPresent)
  }

  /** `unregisterHotkey(key)`: the key sent (`key || hotkey`), and the hook afterwards. */
  function Unregister(h: Hook, key: string, apiPresent: bool, ipcSuccess: bool): (r: (Option<string>, Hook))
    ensures !apiPresent ==> r == (None, h)
    ensures apiPresent ==> r.0 == Some(if key != [] then key else h.hotkey)
    ensures r.1 == (if apiPresent && ipcSuccess then h.(isRegistered := false) else h)
  {
    if !apiPresent then (None, h)
    else (Some(if key != [] then key else h.hotkey), if ipcSuccess then h.(isRegistered := false) else h)
  }

  /** Registering the key just registered again answers true without another IPC call. */
  lemma RegisterTwiceCallsOnce(h: Hook, key: string, ipcSuccess: bool, second: bool)
    requires ipcSuccess
    ensures var (h1, ok1, called1) := Register(h, key, true, ipcSuccess);
      && ok1
      && Register(h1, key, true, second) == (h1, true, false)
  {
  }

  /** After unregistering, the same key goes through IPC again. */
  lemma UnregisterAllowsRegisterAgain(h: Hook, key: string, ok: bool)
    requires h.isRegistered && h.registeredRef == Some(key)
    ensures var (_, h1) := Unregister(h, key, true, true);
      Register(h1, key, true, ok).2
  {
  }

  /** With nothing saved the hook shows what `get-current-hotkey` answers. */
  lemma LoadsMainProcessHotkey(h: Hook, s: IpcHotkeys.Ipc)
    requires IpcHotkeys.GetCurrentHotkey(s) != []
    ensures LoadHotkey(h, true, None, IpcHotkeys.GetCurrentHotkey(s)).hotkey == IpcHotkeys.GetCurrentHotkey(s)
  {
  }

  // ---------------------------------------------------------------------------
  // formatHotkey

  /** The replacements `formatHotkey` applies, in order, each to the first occurrence
      only: the modifier and key names, the function keys (replaced by themselves), and
      the plus sign. */
  function Modifiers(isMac: bool): seq<(string, string)> {
    [("CommandOrControl", if isMac then "⌘" else "Ctrl"), ("Shift", "⇧"), ("Alt", "⌥"), ("Space", "空格")]
  }

  const FunctionKeys: seq<(string, string)> :=
    [("F1", "F1"), ("F3", "F3"), ("F4", "F4"), ("F5", "F5"), ("F6", "F6"), ("F7", "F7"), ("F8", "F8"),
     ("F9", "F9"), ("F10", "F10"), ("F11", "F11"), ("F12", "F12")]

  const PlusSign: (string, string) := ("+", " + ")

  function Replacements(isMac: bool): seq<(string, string)> {
    Modifiers(isMac) + FunctionKeys + [PlusSign]
  }

  function ApplyAll(s: string, rs: seq<(string, string)>): string
    decreases |rs|
  {
    if rs == [] then s else ApplyAll(ReplaceFirst(s, rs[0].0, rs[0].1), rs[1..])
  }

  /** `formatHotkey`: the first `CommandOrControl`, `Shift`, `Alt` and `Space` renamed,
      then the first plus sign spaced; the function-key replacements do nothing. */
  function FormatHotkey(key: string, isMac: bool): (r: string)
    ensures r
      == ReplaceFirst(ReplaceFirst(ReplaceFirst(ReplaceFirst(ReplaceFirst(key, "CommandOrControl", if isMac then "⌘" else "Ctrl"),
                                                             "Shift", "⇧"), "Alt", "⌥"), "Space", "空格"), "+", " + ")
  {
    FormatIgnoresFunctionKeys(key, isMac);
    ApplyAll(key, Replacements(isMac))
  }

  /** The hook's two views of the key: formatted, and raw. The formatted view renames the
      first modifier and key names and spaces the first plus sign. */
  function Exposed(h: Hook, isMac: bool): (r: (string, string))
    ensures r.0
      == ReplaceFirst(ReplaceFirst(ReplaceFirst(ReplaceFirst(ReplaceFirst(h.hotkey, "CommandOrControl", if isMac then "⌘" else "Ctrl"),
                                                             "Shift", "⇧"), "Alt", "⌥"), "Space", "空格"), "+", " + ")
    ensures r.1 == h.hotkey
  {
    (FormatHotkey(h.hotkey, isMac), h.hotkey)
  }

  /** Replacing a text by itself changes nothing. */
  lemma ReplaceSelf(s: string, pat: string)
    ensures ReplaceFirst(s, pat, pat) == s
  {
    match IndexOf(s, pat)
    case None =>
    case Some(i) =>
      assert s[i..i + |pat|] == pat;
      assert s[..i] + pat + s[i + |pat|..] == s[..i] + s[i..i + |pat|] + s[i + |pat|..];
      assert s[..i] + s[i..i + |pat|] + s[i + |pat|..] == s;
  }

  lemma {:induction false} SelfReplacementsNoop(s: string, rs: seq<(string, string)>)
    requires forall i :: 0 <= i < |rs| ==> rs[i].0 == rs[i].1
    ensures ApplyAll(s, rs) == s
    decreases |rs|
  {
    if rs != [] {
      ReplaceSelf(s, rs[0].0);
      SelfReplacementsNoop(s, rs[1..]);
    }
  }

  lemma {:induction false} ApplyAllAppend(s: string, rs: seq<(string, string)>, ts: seq<(string, string)>)
    ensures ApplyAll(s, rs + ts) == ApplyAll(ApplyAll(s, rs), ts)
    decreases |rs|
  {
    if rs == [] {
      assert rs + ts == ts;
    } else {
      assert (rs + ts)[0] == rs[0];
      assert (rs + ts)[1..] == rs[1..] + ts;
      ApplyAllAppend(ReplaceFirst(s, rs[0].0, rs[0].1), rs[1..], ts);
    }
  }

  lemma ApplyOne(s: string, r: (string, string))
    ensures ApplyAll(s, [r]) == ReplaceFirst(s, r.0, r.1)
  {
    assert [r][1..] == [];
  }

  lemma ModifiersApplied(key: string, isMac: bool)
    ensures ApplyAll(key, Modifiers(isMac))
      == ReplaceFirst(ReplaceFirst(ReplaceFirst(ReplaceFirst(key, "CommandOrControl", if isMac then "⌘" else "Ctrl"),
                                                "Shift", "⇧"), "Alt", "⌥"), "Space", "空格")
  {
    var ms := Modifiers(isMac);
    assert ms == [ms[0]] + [ms[1]] + [ms[2]] + [ms[3]];
    ApplyAllAppend(key, [ms[0]] + [ms[1]] + [ms[2]], [ms[3]]);
    ApplyAllAppend(key, [ms[0]] + [ms[1]], [ms[2]]);
    ApplyAllAppend(key, [ms[0]], [ms[1]]);
    var s1 := ApplyAll(key, [ms[0]]);
    ApplyOne(key, ms[0]);
    var s2 := ApplyAll(s1, [ms[1]]);
    ApplyOne(s1, ms[1]);
    var s3 := ApplyAll(s2, [ms[2]]);
    ApplyOne(s2, ms[2]);
    ApplyOne(s3, ms[3]);
  }

  /** The eleven function-key replacements change nothing: the formatting is the four
      modifier and key names, then the first plus sign. */
  lemma FormatIgnoresFunctionKeys(key: string, isMac: bool)
    ensures ApplyAll(key, Replacements(isMac))
      == ReplaceFirst(ReplaceFirst(ReplaceFirst(ReplaceFirst(ReplaceFirst(key, "CommandOrControl", if isMac then "⌘" else "Ctrl"),
                                                             "Shift", "⇧"), "Alt", "⌥"), "Space", "空格"), "+", " + ")
  {
    var m := ApplyAll(key, Modifiers(isMac));
    var f := ApplyAll(m, FunctionKeys);
    ApplyAllAppend(key, Modifiers(isMac) + FunctionKeys, [PlusSign]);
    ApplyAllAppend(key, Modifiers(isMac), FunctionKeys);
    FunctionKeysNoop(m);
    assert f == m;
    ApplyOne(m, PlusSign);
    ModifiersApplied(key, isMac);
  }

  lemma FunctionKeysNoop(s: string)
    ensures ApplyAll(s, FunctionKeys) == s
  {
    forall i | 0 <= i < |FunctionKeys| ensures FunctionKeys[i].0 == FunctionKeys[i].1 {
    }
    SelfReplacementsNoop(s, FunctionKeys);
  }

  /** The first occurrence of `pat` is at `i` when it occurs there and the first character
      of `pat` appears nowhere before. */
  lemma ReplaceAt(s: string, pat: string, rep: string, i: nat)
    requires pat != [] && OccursAt(s, pat, i)
    requires forall k :: 0 <= k < i ==> s[k] != pat[0]
    ensures ReplaceFirst(s, pat, rep) == s[..i] + rep + s[i + |pat|..]
  {
    forall k | 0 <= k < i ensures !OccursAt(s, pat, k) {
      if k + |pat| <= |s| {
        assert s[k..k + |pat|][0] == s[k];
      }
    }
  }

  lemma ReplaceAbsent(s: string, pat: string, rep: string)
    requires pat != [] && forall k :: 0 <= k < |s| ==> s[k] != pat[0]
    ensures ReplaceFirst(s, pat, rep) == s
  {
    forall k ensures !OccursAt(s, pat, k) {
      if 0 <= k && k + |pat| <= |s| {
        assert s[k..k + |pat|][0] == s[k];
      }
    }
  }

  /** The same, with the result named. */
  lemma ReplaceAtTo(s: string, pat: string, rep: string, i: nat, out: string)
    requires pat != [] && OccursAt(s, pat, i)
    requires forall k :: 0 <= k < i ==> s[k] != pat[0]
    requires s[..i] + rep + s[i + |pat|..] == out
    ensures ReplaceFirst(s, pat, rep) == out
  {
    ReplaceAt(s, pat, rep, i);
  }

  lemma StepCtrl(s: string)
    requires s == DefaultHotkey
    ensures ReplaceFirst(s, "CommandOrControl", "Ctrl") == "Ctrl+Shift+Space"
  {
    assert s == "CommandOrControl+Shift+Space";
    assert OccursAt(s, "CommandOrControl", 0) by {
      assert s[0..16] == "CommandOrControl";
    }
    assert s[..0] + "Ctrl" + s[16..] == "Ctrl+Shift+Space" by {
      assert s[16..] == "+Shift+Space";
    }
    ReplaceAtTo(s, "CommandOrControl", "Ctrl", 0, "Ctrl+Shift+Space");
  }

  lemma StepShift(s: string)
    requires s == "Ctrl+Shift+Space"
    ensures ReplaceFirst(s, "Shift", "⇧") == "Ctrl+⇧+Space"
  {
    assert s[5..10] == "Shift" && s[..5] == "Ctrl+" && s[10..] == "+Space";
    ReplaceAtTo(s, "Shift", "⇧", 5, "Ctrl+⇧+Space");
  }

  lemma StepAltSpace(s: string)
    requires s == "Ctrl+⇧+Space"
    ensures ReplaceFirst(ReplaceFirst(s, "Alt", "⌥"), "Space", "空格") == "Ctrl+⇧+空格"
  {
    StepAlt(s);
    StepSpace(s);
  }

  lemma StepAlt(s: string)
    requires s == "Ctrl+⇧+Space"
    ensures ReplaceFirst(s, "Alt", "⌥") == s
  {
    ReplaceAbsent(s, "Alt", "⌥");
  }

  lemma StepSpace(s: string)
    requires s == "Ctrl+⇧+Space"
    ensures ReplaceFirst(s, "Space", "空格") == "Ctrl+⇧+空格"
  {
    assert s[7..12] == "Space" && s[..7] == "Ctrl+⇧+" && s[12..] == [];
    ReplaceAtTo(s, "Space", "空格", 7, "Ctrl+⇧+空格");
  }

  lemma StepPlus(s: string)
    requires s == "Ctrl+⇧+空格"
    ensures ReplaceFirst(s, "+", " + ") == "Ctrl + ⇧+空格"
  {
    assert s[4..5] == "+" && s[..4] == "Ctrl" && s[5..] == "⇧+空格";
    ReplaceAtTo(s, "+", " + ", 4, "Ctrl + ⇧+空格");
  }

  /** Only the first plus sign is spaced: the default key formats to "Ctrl + ⇧+空格" off a
      Mac. */
  lemma DefaultFormatsFirstPlusOnly(key: string)
    requires key == DefaultHotkey
    ensures FormatHotkey(key, false) == "Ctrl + ⇧+空格"
  {
    StepCtrl(key);
    var s1 := ReplaceFirst(key, "CommandOrControl", "Ctrl");
    StepShift(s1);
    var s2 := ReplaceFirst(s1, "Shift", "⇧");
    StepAltSpace(s2);
    var s3 := ReplaceFirst(ReplaceFirst(s2, "Alt", "⌥"), "Space", "空格");
    StepPlus(s3);
  }
}
