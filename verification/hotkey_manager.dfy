/** The main process's hotkey registry (src/helpers/hotkeyManager.js): F2 double-click
    detection over a sliding window, per-key debounce of ordinary hotkeys, and a registry
    that keeps keys in registration order.

    The operating system's shortcut table is an input (`osAccepts`: whether it accepts a
    registration), callbacks are named by numbers, and the clock is passed to every press.
 */
module HotkeyManager {
  import opened Wrappers

  const DoubleClickWindow: int := 500
  const DebounceTime: int := 200
  const F2: string := "F2"

  /** What a registered key runs when pressed: the F2 click handler, or a debounced
      callback. */
  datatype Handler = ClickListener | Debounced(callback: nat)

  datatype Action = Start | Stop

  /** A callback invocation. */
  datatype Fired =
    | DoubleClick(callback: nat, action: Action, currentState: bool)
    | Pressed(callback: nat)

  datatype Manager = Manager(
    keys: seq<string>,               // the registry's keys in insertion order
    handlers: map<string, Handler>,
    clicks: seq<int>,                // recent F2 press times
    onDoubleClick: Option<nat>,
    recording: bool,
    lastTrigger: map<string, int>)

  const Fresh: Manager := Manager([], map[], [], None, false, map[])

  predicate Distinct(s: seq<string>) {
    forall i, j :: 0 <= i < j < |s| ==> s[i] != s[j]
  }

  /** The key list and the handler map describe the same registry. */
  predicate Inv(m: Manager) {
    Distinct(m.keys) && m.handlers.Keys == set k | k in m.keys
  }

  /** Registering a new key appends it. */
  function Add(m: Manager, key: string, h: Handler): (m': Manager)
    requires Inv(m) && key !in m.handlers
    ensures Inv(m')
    ensures m'.keys == m.keys + [key] && m'.handlers == m.handlers[key := h]
  {
    m.(keys := m.keys + [key], handlers := m.handlers[key := h])
  }

  /** `registerF2DoubleClick`: an already registered F2 only gets the new callback; a new
      registration stores the callback even when the operating system refuses the key. */
  function RegisterF2DoubleClick(m: Manager, callback: nat, osAccepts: bool): (r: (bool, Manager))
    requires Inv(m)
    ensures Inv(r.1)
    ensures r.1.onDoubleClick == Some(callback)
    ensures F2 in m.handlers ==> r == (true, m.(onDoubleClick := Some(callback)))
    ensures F2 !in m.handlers ==>
      r.0 == osAccepts
      && r.1.keys == (if osAccepts then m.keys + [F2] else m.keys)
      && (osAccepts ==> r.1.handlers[F2] == ClickListener)
  {
    if F2 in m.handlers then (true, m.(onDoubleClick := Some(callback)))
    else
      var m1 := m.(onDoubleClick := Some(callback));
      if osAccepts then (true, Add(m1, F2, ClickListener)) else (false, m1)
  }

  /** The presses still inside the window that ends at `now`. */
  function Recent(times: seq<int>, now: int): (r: seq<int>)
    ensures forall i :: 0 <= i < |r| ==> now - r[i] <= DoubleClickWindow
    ensures forall t :: t in r <==> t in times && now - t <= DoubleClickWindow
    ensures |r| <= |times|
  {
    if times == [] then []
    else (if now - times[0] <= DoubleClickWindow then [times[0]] else []) + Recent(times[1..], now)
  }

  /** `handleF2Click`: the press joins the history, old presses leave it, and two or more
      presses in the window fire the double-click handler once and empty the history. */
  function Click(m: Manager, now: int): (r: (seq<Fired>, Manager))
    ensures r.1 == m.(clicks := r.1.clicks)
    ensures |r.0| <= 1
  {
    var kept := Recent(m.clicks + [now], now);
    if |kept| >= 2 then (DoubleClickOf(m), m.(clicks := []))
    else ([], m.(clicks := kept))
  }

  /** `handleF2DoubleClick`: the action follows the recording flag, which it leaves alone. */
  function DoubleClickOf(m: Manager): (fs: seq<Fired>)
    ensures m.onDoubleClick.None? ==> fs == []
    ensures m.onDoubleClick.Some? ==>
      fs == [DoubleClick(m.onDoubleClick.value, if m.recording then Stop else Start, m.recording)]
  {
    match m.onDoubleClick
    case None => []
    case Some(cb) => [DoubleClick(cb, if m.recording then Stop else Start, m.recording)]
  }

  /** `registerHotkey`: a key already in the registry is accepted as is. */
  function RegisterHotkey(m: Manager, key: string, callback: nat, osAccepts: bool): (r: (bool, Manager))
    requires Inv(m)
    ensures Inv(r.1)
    ensures key in m.handlers ==> r == (true, m)
    ensures key !in m.handlers && !osAccepts ==> r == (false, m)
    ensures key !in m.handlers && osAccepts ==>
      r.0 && r.1.keys == m.keys + [key] && r.1.handlers[key] == Debounced(callback)
  {
    if key in m.handlers then (true, m)
    else if osAccepts then (true, Add(m, key, Debounced(callback)))
    else (false, m)
  }

  /** The debounced callback: a press less than 200 ms after the last accepted one of the
      same key is dropped; an accepted press becomes the new reference. */
  function Trigger(m: Manager, key: string, callback: nat, now: int): (r: (seq<Fired>, Manager))
    ensures var last := if key in m.lastTrigger then m.lastTrigger[key] else 0;
      && (r.0 != [] <==> now - last >= DebounceTime)
      && (r.0 != [] ==> r.0 == [Pressed(callback)] && r.1 == m.(lastTrigger := m.lastTrigger[key := now]))
      && (r.0 == [] ==> r.1 == m)
  {
    var last := if key in m.lastTrigger then m.lastTrigger[key] else 0;
    if now - last < DebounceTime then ([], m)
    else ([Pressed(callback)], m.(lastTrigger := m.lastTrigger[key := now]))
  }

  /** A press of `key` at `now`: only registered keys reach a handler. */
  function Press(m: Manager, key: string, now: int): (r: (seq<Fired>, Manager))
    requires Inv(m)
    ensures Inv(r.1) && r.1.keys == m.keys && r.1.recording == m.recording
    ensures key !in m.handlers ==> r == ([], m)
  {
    if key !in m.handlers then ([], m)
    else match m.handlers[key]
      case ClickListener => Click(m, now)
      case Debounced(cb) => Trigger(m, key, cb, now)
  }

  /** `unregisterHotkey`. */
  function Unregister(m: Manager, key: string): (r: (bool, Manager))
    requires Inv(m)
    ensures Inv(r.1)
    ensures r.0 <==> key in m.handlers
    ensures !r.0 ==> r.1 == m
    ensures r.0 ==> r.1.handlers.Keys == m.handlers.Keys - {key}
  {
    if key !in m.handlers then (false, m)
    else (true, m.(keys := Remove(m.keys, key), handlers := m.handlers - {key}))
  }

  /** `s` without `x`, order kept. */
  function Remove(s: seq<string>, x: string): (r: seq<string>)
    requires Distinct(s)
    ensures Distinct(r)
    ensures forall k :: k in r <==> k in s && k != x
  {
    if s == [] then []
    else
      var rest := Remove(s[1..], x);
      assert s[0] !in s[1..] by {
        forall j | 0 <= j < |s[1..]| ensures s[1..][j] != s[0] { assert s[1..][j] == s[j + 1]; }
      }
      (if s[0] == x then [] else [s[0]]) + rest
  }

  /** `unregisterAllHotkeys`: the registry and the click history are emptied; the debounce
      times and the double-click callback stay. */
  function UnregisterAll(m: Manager): (m': Manager)
    ensures Inv(m') && m'.keys == [] && m'.clicks == []
    ensures m'.lastTrigger == m.lastTrigger && m'.onDoubleClick == m.onDoubleClick
  {
    m.(keys := [], handlers := map[], clicks := [])
  }

  /** `getRegisteredHotkeys`. */
  function Registered(m: Manager): seq<string> {
    m.keys
  }

  function SetRecording(m: Manager, recording: bool): Manager {
    m.(recording := recording)
  }

  function GetRecording(m: Manager): bool {
    m.recording
  }

  // ---------------------------------------------------------------------------
  // Properties

  /** A press fires the double-click exactly when an earlier press in the history lies in
      the window; otherwise the history keeps just the presses in the window. */
  lemma ClickFiresIffRecentPress(m: Manager, now: int)
    requires m.onDoubleClick.Some?
    ensures var (fired, m') := Click(m, now);
      && (fired != [] <==> exists i :: 0 <= i < |m.clicks| && now - m.clicks[i] <= DoubleClickWindow)
      && (fired != [] ==> m'.clicks == [])
      && (fired == [] ==> m'.clicks == [now])
  {
    var all := m.clicks + [now];
    var kept := Recent(all, now);
    assert now in kept by { assert all[|all| - 1] == now; }
    if exists i :: 0 <= i < |m.clicks| && now - m.clicks[i] <= DoubleClickWindow {
      var i :| 0 <= i < |m.clicks| && now - m.clicks[i] <= DoubleClickWindow;
      RecentKeepsTwo(m.clicks, now, i);
    } else {
      RecentOnlyNow(m.clicks, now);
    }
  }

  lemma {:induction false} RecentKeepsTwo(times: seq<int>, now: int, i: nat)
    requires i < |times| && now - times[i] <= DoubleClickWindow
    ensures |Recent(times + [now], now)| >= 2
    decreases |times|
  {
    assert (times + [now])[1..] == times[1..] + [now];
    if i == 0 {
      RecentHasNow(times[1..], now);
    } else {
      RecentKeepsTwo(times[1..], now, i - 1);
    }
  }

  lemma RecentHasNow(times: seq<int>, now: int)
    ensures |Recent(times + [now], now)| >= 1
  {
    assert now in Recent(times + [now], now) by { assert (times + [now])[|times|] == now; }
  }

  lemma {:induction false} RecentOnlyNow(times: seq<int>, now: int)
    requires forall i :: 0 <= i < |times| ==> now - times[i] > DoubleClickWindow
    ensures Recent(times + [now], now) == [now]
    decreases |times|
  {
    if times == [] {
      assert [now][1..] == [];
    } else {
      assert (times + [now])[1..] == times[1..] + [now];
      RecentOnlyNow(times[1..], now);
    }
  }

  /** Two presses 500 ms apart or closer, on an empty history, fire one double-click whose
      action follows the recording flag, and leave the flag as it was. */
  lemma TwoQuickPressesFire(m: Manager, t1: int, t2: int)
    requires Inv(m) && m.clicks == [] && F2 in m.handlers && m.handlers[F2] == ClickListener
    requires m.onDoubleClick.Some? && 0 <= t2 - t1 <= DoubleClickWindow
    ensures var (f1, m1) := Press(m, F2, t1);
      var (f2, m2) := Press(m1, F2, t2);
      && f1 == []
      && f2 == [DoubleClick(m.onDoubleClick.value, if m.recording then Stop else Start, m.recording)]
      && m2.recording == m.recording && m2.clicks == []
  {
    ClickFiresIffRecentPress(m, t1);
    var m1 := Press(m, F2, t1).1;
    assert m1.clicks == [t1];
    ClickFiresIffRecentPress(m1, t2);
  }

  /** Accepted presses of one key are at least 200 ms apart. */
  lemma DebounceSpacing(m: Manager, key: string, cb: nat, t1: int, t2: int)
    requires Trigger(m, key, cb, t1).0 != []
    ensures Trigger(Trigger(m, key, cb, t1).1, key, cb, t2).0 != [] <==> t2 - t1 >= DebounceTime
  {
  }

  /** Registering a new key appends it to the registry's key list. */
  lemma RegistrationOrder(m: Manager, key: string, cb: nat)
    requires Inv(m) && key !in m.handlers
    ensures Registered(RegisterHotkey(m, key, cb, true).1) == Registered(m) + [key]
  {
  }

  /** Unregistering a key and registering it again moves it to the end. */
  lemma ReRegisterMovesLast(m: Manager, key: string, cb: nat)
    requires Inv(m) && key in m.handlers
    ensures var m1 := Unregister(m, key).1;
      var keys := Registered(RegisterHotkey(m1, key, cb, true).1);
      keys[|keys| - 1] == key && |keys| == |m.keys|
  {
    var m1 := Unregister(m, key).1;
    RemoveLength(m.keys, key);
  }

  lemma {:induction false} RemoveLength(s: seq<string>, x: string)
    requires Distinct(s) && x in s
    ensures |Remove(s, x)| == |s| - 1
    decreases |s|
  {
    if s[0] != x {
      RemoveLength(s[1..], x);
    } else {
      RemoveAbsent(s[1..], x);
    }
  }

  lemma {:induction false} RemoveAbsent(s: seq<string>, x: string)
    requires Distinct(s) && x !in s
    ensures Remove(s, x) == s
    decreases |s|
  {
    if s != [] {
      RemoveAbsent(s[1..], x);
      assert [s[0]] + s[1..] == s;
    }
  }

  /** Unregistering a key just registered restores the registry exactly. */
  lemma UnregisterUndoesRegister(m: Manager, key: string, cb: nat)
    requires Inv(m) && key !in m.handlers
    ensures var (ok, m1) := RegisterHotkey(m, key, cb, true);
      ok && Unregister(m1, key) == (true, m)
  {
    UnregisterUndoesAdd(m, key, Debounced(cb));
  }

  lemma UnregisterUndoesAdd(m: Manager, key: string, h: Handler)
    requires Inv(m) && key !in m.handlers
    ensures Unregister(Add(m, key, h), key) == (true, m)
  {
    var m1 := Add(m, key, h);
    RemoveAppended(m.keys, key);
    assert m1.handlers - {key} == m.handlers;
  }

  lemma {:induction false} RemoveAppended(s: seq<string>, x: string)
    requires Distinct(s + [x])
    ensures Remove(s + [x], x) == s
    decreases |s|
  {
    if s == [] {
      assert [x][1..] == [];
    } else {
      assert (s + [x])[1..] == s[1..] + [x];
      assert (s + [x])[0] == s[0] && (s + [x])[|s|] == x;
      assert Distinct(s[1..] + [x]) by {
        forall i, j | 0 <= i < j < |s[1..] + [x]|
          ensures (s[1..] + [x])[i] != (s[1..] + [x])[j]
        {
          assert (s[1..] + [x])[i] == (s + [x])[i + 1];
          assert (s[1..] + [x])[j] == (s + [x])[j + 1];
        }
      }
      RemoveAppended(s[1..], x);
      assert [s[0]] + s[1..] == s;
    }
  }

  /** The recording flag set is the one read back. */
  lemma RecordingRoundTrip(m: Manager, b: bool)
    ensures GetRecording(SetRecording(m, b)) == b
    ensures SetRecording(m, b) == m.(recording := b)
  {
  }
}
