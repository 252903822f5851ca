/**
 * The single-file WinForms recorder (`SimpleRecorder.cs`): the raw `LowLevelHook` that
 * turns hook messages into events, the `MainForm` capture buffer and library of
 * recordings, the nested replay loops of `PlayRecording`, and `FormatDuration`.
 *
 * A recording's event list is a heap object (`EventList`), so that handing the live
 * capture buffer to a new `Recording` is visible as sharing. Clocks, cursor positions,
 * hook handles, fresh ids and formatted dates are parameters. The `playing` flag is
 * cleared by another thread; the moment it is cleared is an input (`stopAt`, the index
 * of the first read of the flag that comes after `StopPlayback`).
 */
module SimpleRecorder {
  import opened Wrappers
  import opened Win32
  import opened Timeline
  import InputHook
  import Models

  // ---- Events ----

  datatype EventType = MouseMove | MouseClick | MouseWheel | KeyDown | KeyUp

  /** `InputEvent`, its `double` millisecond timestamp kept as whole milliseconds. */
  datatype InputEvent = InputEvent(
    eventType: EventType, timestamp: int, x: int32, y: int32,
    isDown: bool, isLeft: bool, delta: int32, keyCode: int32)

  /** One of the five events `LowLevelHook` raises, with the arguments it passes. */
  datatype HookEvent =
    | MouseMoved(x: int32, y: int32)
    | MouseClicked(x: int32, y: int32, isDown: bool, isLeft: bool)
    | MouseWheeled(x: int32, y: int32, delta: int16)
    | KeyWentDown(keyCode: int32)
    | KeyWentUp(keyCode: int32)

  /** The event `MouseCallback` raises for a message, if any. */
  function ClassifyMouse(nCode: int, wParam: int, data: InputHook.MouseHookData): Option<HookEvent>
  {
    if nCode < 0 then None
    else if wParam == WM_MOUSEMOVE then Some(MouseMoved(data.ptX, data.ptY))
    else if wParam == WM_LBUTTONDOWN then Some(MouseClicked(data.ptX, data.ptY, true, true))
    else if wParam == WM_LBUTTONUP then Some(MouseClicked(data.ptX, data.ptY, false, true))
    else if wParam == WM_RBUTTONDOWN then Some(MouseClicked(data.ptX, data.ptY, true, false))
    else if wParam == WM_RBUTTONUP then Some(MouseClicked(data.ptX, data.ptY, false, false))
    else if wParam == WM_MOUSEWHEEL then Some(MouseWheeled(data.ptX, data.ptY, InputHook.WheelDelta(data.mouseData)))
    else None
  }

  /** The mouse table: which messages raise which event, and that all others raise none. */
  lemma MouseCallbackTable(nCode: int, wParam: int, data: InputHook.MouseHookData)
    ensures ClassifyMouse(nCode, wParam, data).Some? <==> nCode >= 0 && InputHook.IsMouseMessage(wParam)
    ensures nCode >= 0 ==>
              var e := ClassifyMouse(nCode, wParam, data);
              && (wParam == WM_MOUSEMOVE ==> e == Some(MouseMoved(data.ptX, data.ptY)))
              && (wParam == WM_LBUTTONDOWN ==> e == Some(MouseClicked(data.ptX, data.ptY, true, true)))
              && (wParam == WM_LBUTTONUP ==> e == Some(MouseClicked(data.ptX, data.ptY, false, true)))
              && (wParam == WM_RBUTTONDOWN ==> e == Some(MouseClicked(data.ptX, data.ptY, true, false)))
              && (wParam == WM_RBUTTONUP ==> e == Some(MouseClicked(data.ptX, data.ptY, false, false)))
              && (wParam == WM_MOUSEWHEEL ==>
                    e.Some? && e.value.MouseWheeled? &&
                    e.value.delta * 0x1_0000 <= data.mouseData < e.value.delta * 0x1_0000 + 0x1_0000)
  {
  }

  /** The event `KeyboardCallback` raises for a message, if any. */
  function ClassifyKey(nCode: int, wParam: int, data: InputHook.KeyboardHookData): Option<HookEvent>
  {
    if nCode < 0 then None
    else if wParam == WM_KEYDOWN || wParam == WM_SYSKEYDOWN then Some(KeyWentDown(data.vkCode))
    else if wParam == WM_KEYUP || wParam == WM_SYSKEYUP then Some(KeyWentUp(data.vkCode))
    else None
  }

  /** Key-down and system-key-down raise `OnKeyDown`, the two releases `OnKeyUp`, nothing else raises. */
  lemma KeyCallbackTable(nCode: int, wParam: int, data: InputHook.KeyboardHookData)
    ensures ClassifyKey(nCode, wParam, data) == Some(KeyWentDown(data.vkCode)) <==>
              nCode >= 0 && (wParam == WM_KEYDOWN || wParam == WM_SYSKEYDOWN)
    ensures ClassifyKey(nCode, wParam, data) == Some(KeyWentUp(data.vkCode)) <==>
              nCode >= 0 && (wParam == WM_KEYUP || wParam == WM_SYSKEYUP)
    ensures ClassifyKey(nCode, wParam, data).None? <==>
              nCode < 0 || wParam !in {WM_KEYDOWN, WM_SYSKEYDOWN, WM_KEYUP, WM_SYSKEYUP}
  {
  }

  /**
   * The event a `MainForm` handler appends for a raised event, `ts` milliseconds into the
   * recording. Moves and clicks take the position from GetCursorPos (`cursorX`, `cursorY`)
   * rather than from the hook; wheel events keep the hook's position.
   */
  function Handled(e: HookEvent, cursorX: int32, cursorY: int32, ts: int): (r: InputEvent)
    ensures r.timestamp == ts
    ensures e.MouseMoved? <==> r.eventType == MouseMove
    ensures e.MouseClicked? <==> r.eventType == MouseClick
    ensures e.MouseWheeled? <==> r.eventType == MouseWheel
    ensures e.KeyWentDown? <==> r.eventType == KeyDown
    ensures e.KeyWentUp? <==> r.eventType == KeyUp
    ensures (e.MouseMoved? || e.MouseClicked?) ==> r.x == cursorX && r.y == cursorY
    ensures e.MouseClicked? ==> r.isDown == e.isDown && r.isLeft == e.isLeft
    ensures e.MouseWheeled? ==> r.x == e.x && r.y == e.y && r.delta == e.delta && !r.isDown
    ensures (e.KeyWentDown? || e.KeyWentUp?) ==>
              r.x == 0 && r.y == 0 && r.keyCode == e.keyCode && !r.isLeft && (r.isDown <==> e.KeyWentDown?)
    ensures r.eventType != MouseWheel ==> r.delta == 0
  {
    match e
    case MouseMoved(_, _) => InputEvent(MouseMove, ts, cursorX, cursorY, false, false, 0, 0)
    case MouseClicked(_, _, isDown, isLeft) => InputEvent(MouseClick, ts, cursorX, cursorY, isDown, isLeft, 0, 0)
    case MouseWheeled(x, y, delta) => InputEvent(MouseWheel, ts, x, y, false, false, delta, 0)
    case KeyWentDown(k) => InputEvent(KeyDown, ts, 0, 0, true, false, 0, k)
    case KeyWentUp(k) => InputEvent(KeyUp, ts, 0, 0, false, false, 0, k)
  }

  // ---- Replay of one event ----

  /**
   * The injection call `PlayRecording` makes for an event. Clicks press or release the
   * left button whatever `isLeft` says, at wherever the cursor is; the wheel data is the
   * recorded delta.
   */
  function Dispatch(e: InputEvent): (c: NativeCmd)
    ensures e.eventType == MouseMove <==> c.SetCursorPos?
    ensures e.eventType == MouseClick || e.eventType == MouseWheel <==> c.MouseEvent?
    ensures e.eventType == KeyDown || e.eventType == KeyUp <==> c.KeybdEvent?
  {
    match e.eventType
    case MouseMove => SetCursorPos(e.x, e.y)
    case MouseClick => MouseEvent(if e.isDown then MOUSEEVENTF_LEFTDOWN else MOUSEEVENTF_LEFTUP, 0, 0, 0)
    case MouseWheel => MouseEvent(MOUSEEVENTF_WHEEL, 0, 0, e.delta)
    case KeyDown => KeybdEvent(ToByte(e.keyCode), 0, KEYEVENTF_KEYDOWN)
    case KeyUp => KeybdEvent(ToByte(e.keyCode), 0, KEYEVENTF_KEYUP)
  }

  /**
   * Replaying what the hook captured: a move goes back to the cursor position read when
   * it was handled, any button message comes back as the left button going the same way,
   * a wheel message comes back with the delta packed in its high word, and a key message
   * as the same transition of the key's low byte.
   */
  lemma ReplayOfCapture(nCode: int, wParam: int, mouse: InputHook.MouseHookData, key: InputHook.KeyboardHookData,
                        cursorX: int32, cursorY: int32, ts: int)
    requires nCode >= 0
    ensures var e := ClassifyMouse(nCode, wParam, mouse);
            e.Some? ==>
              var c := Dispatch(Handled(e.value, cursorX, cursorY, ts));
              && (wParam == WM_MOUSEMOVE ==> c == SetCursorPos(cursorX, cursorY))
              && (wParam == WM_LBUTTONDOWN || wParam == WM_RBUTTONDOWN ==> c == MouseEvent(MOUSEEVENTF_LEFTDOWN, 0, 0, 0))
              && (wParam == WM_LBUTTONUP || wParam == WM_RBUTTONUP ==> c == MouseEvent(MOUSEEVENTF_LEFTUP, 0, 0, 0))
              && (wParam == WM_MOUSEWHEEL ==>
                    c.MouseEvent? && c.flags == MOUSEEVENTF_WHEEL &&
                    c.data * 0x1_0000 <= mouse.mouseData < c.data * 0x1_0000 + 0x1_0000)
    ensures var e := ClassifyKey(nCode, wParam, key);
            e.Some? ==>
              var c := Dispatch(Handled(e.value, cursorX, cursorY, ts));
              && c.KeybdEvent? && c.vk == ToByte(key.vkCode) && c.scan == 0
              && (c.flags == KEYEVENTF_KEYUP <==> wParam == WM_KEYUP || wParam == WM_SYSKEYUP)
              && (c.flags == KEYEVENTF_KEYDOWN <==> wParam == WM_KEYDOWN || wParam == WM_SYSKEYDOWN)
  {
  }

  /** A recorded right click is replayed as a left click: `isLeft` never reaches the injection. */
  lemma ClicksReplayAsLeft(e: InputEvent)
    requires e.eventType == MouseClick
    ensures Dispatch(e) == MouseEvent(if e.isDown then MOUSEEVENTF_LEFTDOWN else MOUSEEVENTF_LEFTUP, 0, 0, 0)
    ensures Dispatch(e) == Dispatch(e.(isLeft := !e.isLeft))
  {
  }

  // ---- The replay schedule ----

  /** The deadline of each event: its timestamp, measured from the start of the pass. */
  function Times(evs: seq<InputEvent>): (t: seq<int>)
    ensures |t| == |evs| && forall k :: 0 <= k < |evs| ==> t[k] == evs[k].timestamp
  {
    seq(|evs|, k requires 0 <= k < |evs| => evs[k].timestamp)
  }

  /** One uninterrupted pass of the inner loop. */
  function PassTrace(evs: seq<InputEvent>): seq<Step<InputEvent>>
  {
    DeadlinePass(Times(evs), evs, |evs|)
  }

  /** `n` uninterrupted passes, back to back, each restarting its clock. */
  function Rounds(evs: seq<InputEvent>, n: nat): seq<Step<InputEvent>>
  {
    Repeated(PassTrace(evs), [], n)
  }

  /** The injection calls of the events a trace injects, in order. */
  function Commands(t: seq<Step<InputEvent>>): (cs: seq<NativeCmd>)
    ensures |cs| == |Injected(t)| && forall k :: 0 <= k < |cs| ==> cs[k] == Dispatch(Injected(t)[k])
  {
    var es := Injected(t);
    seq(|es|, k requires 0 <= k < |es| => Dispatch(es[k]))
  }

  lemma RoundsOneMore(evs: seq<InputEvent>, n: nat)
    ensures Rounds(evs, n + 1) == Rounds(evs, n) + PassTrace(evs)
  {
    if n == 0 {
      assert Rounds(evs, 1) == PassTrace(evs);
    }
  }

  /**
   * Event `k - 1` of a pass is injected at the running maximum of the timestamps so far,
   * a pass injects every event once in order, and `n` passes take `n` times as long as one
   * and inject `n` times as many events: there is no pause between passes.
   */
  lemma RoundsTiming(evs: seq<InputEvent>, k: nat, n: nat)
    requires k <= |evs|
    ensures TotalWait(DeadlinePass(Times(evs), evs, k)) == RunMax(Times(evs), k)
    ensures Injected(PassTrace(evs)) == evs
    ensures TotalWait(Rounds(evs, n)) == n * RunMax(Times(evs), |evs|)
    ensures |Injected(Rounds(evs, n))| == n * |evs|
  {
    DeadlineFiresAtRunningMax(Times(evs), evs, k);
    DeadlineFiresAtRunningMax(Times(evs), evs, |evs|);
    if n >= 1 {
      RepeatedTotals(PassTrace(evs), [], n);
      assert TotalWait<InputEvent>([]) == 0 && Injected<InputEvent>([]) == [];
    }
  }

  /** Replaying an empty event list, any number of times, injects nothing and takes no time. */
  lemma {:induction false} NothingToReplay(n: nat)
    ensures Rounds([], n) == []
  {
    if n > 0 {
      NothingToReplay(n - 1);
      RoundsOneMore([], n - 1);
      assert PassTrace([]) == [];
    }
  }

  /** `if (repeatCount > 0)` passes are asked for, `repeatCount` of them; otherwise none. */
  function PassCount(repeatCount: int): nat
  {
    if repeatCount > 0 then repeatCount else 0
  }

  // ---- Where a stop cuts the replay ----

  /**
   * The reads of `playing` and the steps of one pass: the outer loop's condition reads the
   * flag, then the inner loop reads it before each event's sleep and injection.
   */
  function PassTicks(evs: seq<InputEvent>): seq<Tick<InputEvent>>
  {
    [Check] + DeadlineTicks(Times(evs), evs, |evs|)
  }

  /** The reads and steps of `n` passes that no stop interrupts. */
  function ReplayTicks(evs: seq<InputEvent>, n: nat): seq<Tick<InputEvent>>
  {
    if n == 0 then [] else ReplayTicks(evs, n - 1) + PassTicks(evs)
  }

  /**
   * Which of the replay's own reads of `playing` is the first to find it cleared, when the
   * replay begins after `polls0` reads with the flag `began` and every read from `stopAt` on
   * finds it cleared.
   */
  function StopRead(stopAt: nat, polls0: nat, began: bool): nat
  {
    if began && stopAt > polls0 then stopAt - polls0 else 0
  }

  /** What a replay asked for `n` passes plays when its read `k` is the first to find the flag cleared. */
  function StoppedReplay(evs: seq<InputEvent>, n: nat, k: nat): seq<Step<InputEvent>>
  {
    StepsBefore(ReplayTicks(evs, n), k)
  }

  /** One pass reads the flag `|evs| + 1` times; cut at read `j`, it plays its first `j - 1` events. */
  lemma PassTicksPlay(evs: seq<InputEvent>, j: nat)
    ensures Steps(PassTicks(evs)) == PassTrace(evs) && Checks(PassTicks(evs)) == |evs| + 1
    ensures j == 0 ==> StepsBefore(PassTicks(evs), j) == []
    ensures 1 <= j <= |evs| + 1 ==> StepsBefore(PassTicks(evs), j) == DeadlinePass(Times(evs), evs, j - 1)
  {
    var d := DeadlineTicks(Times(evs), evs, |evs|);
    assert PassTicks(evs) == [Check] + d;
    assert Steps([Check] + d) == Steps(d) && Checks([Check] + d) == 1 + Checks(d)
           && StepsBefore([Check] + d, j) == (if j == 0 then [] else StepsBefore(d, j - 1)) by {
      ConsTick<InputEvent>(Check, d, j);
    }
    assert Steps(d) == PassTrace(evs) && Checks(d) == |evs| by { DeadlineTicksCut(Times(evs), evs, |evs|, 0); }
    if 1 <= j <= |evs| + 1 {
      assert StepsBefore(d, j - 1) == DeadlinePass(Times(evs), evs, j - 1) by {
        DeadlineTicksCut(Times(evs), evs, |evs|, j - 1);
      }
    }
  }

  /** Without a stop, `n` passes read the flag `n * (|evs| + 1)` times and play `Rounds(evs, n)`. */
  lemma {:induction false} ReplayTicksPlay(evs: seq<InputEvent>, n: nat)
    ensures Steps(ReplayTicks(evs, n)) == Rounds(evs, n)
    ensures Checks(ReplayTicks(evs, n)) == n * (|evs| + 1)
  {
    if n == 0 {
      assert Rounds(evs, 0) == [];
    } else {
      var r, g := ReplayTicks(evs, n - 1), PassTicks(evs);
      assert Steps(r) == Rounds(evs, n - 1) && Checks(r) == (n - 1) * (|evs| + 1) by { ReplayTicksPlay(evs, n - 1); }
      assert Steps(g) == PassTrace(evs) && Checks(g) == |evs| + 1 by { PassTicksPlay(evs, 0); }
      assert Steps(r + g) == Steps(r) + Steps(g) && Checks(r + g) == Checks(r) + Checks(g) by { StepsAppend(r, g); }
      assert Rounds(evs, n) == Rounds(evs, n - 1) + PassTrace(evs) by { RoundsOneMore(evs, n - 1); }
      ShiftMul(n - 1, |evs| + 1);
      assert ReplayTicks(evs, n) == r + g;
    }
  }

  lemma {:induction false} ReplayTicksGrows(evs: seq<InputEvent>, i: nat, n: nat)
    requires i <= n
    ensures ReplayTicks(evs, i) <= ReplayTicks(evs, n)
    decreases n - i
  {
    if i < n {
      ReplayTicksGrows(evs, i, n - 1);
      var a, b := ReplayTicks(evs, i), ReplayTicks(evs, n - 1);
      assert ReplayTicks(evs, n) == b + PassTicks(evs);
      assert (b + PassTicks(evs))[..|a|] == b[..|a|];
    }
  }

  /**
   * A stop first seen at read `j` of pass `i` cuts the replay after the `i` passes before it
   * and what pass `i` plays before that read.
   */
  lemma CutInPass(evs: seq<InputEvent>, n: nat, i: nat, j: nat)
    requires i < n && j <= |evs|
    ensures StoppedReplay(evs, n, i * (|evs| + 1) + j) == Rounds(evs, i) + StepsBefore(PassTicks(evs), j)
  {
    var r, g := ReplayTicks(evs, i), PassTicks(evs);
    assert Steps(r) == Rounds(evs, i) && Checks(r) == i * (|evs| + 1) by { ReplayTicksPlay(evs, i); }
    assert Checks(g) == |evs| + 1 by { PassTicksPlay(evs, 0); }
    assert StepsBefore(r + g, Checks(r) + j) == Steps(r) + StepsBefore(g, j) by { CutInSecond(r, g, Checks(r) + j); }
    assert Checks(r + g) == Checks(r) + Checks(g) by { StepsAppend(r, g); }
    assert ReplayTicks(evs, i + 1) == r + g;
    assert ReplayTicks(evs, i + 1) <= ReplayTicks(evs, n) by { ReplayTicksGrows(evs, i + 1, n); }
    CutWithinPrefix(r + g, ReplayTicks(evs, n), Checks(r) + j);
  }

  /** A stop first seen at the loop head of pass `i` ends the replay after `i` whole passes. */
  lemma StopAtHead(evs: seq<InputEvent>, n: nat, i: nat)
    requires i < n
    ensures StoppedReplay(evs, n, i * (|evs| + 1)) == Rounds(evs, i)
  {
    CutInPass(evs, n, i, 0);
    PassTicksPlay(evs, 0);
    assert Rounds(evs, i) + [] == Rounds(evs, i);
  }

  /** A stop first seen before event `played` of pass `i` ends the replay after that pass's earlier events. */
  lemma StopInPass(evs: seq<InputEvent>, n: nat, i: nat, played: nat)
    requires i < n && played < |evs|
    ensures StoppedReplay(evs, n, i * (|evs| + 1) + 1 + played) ==
              Rounds(evs, i) + DeadlinePass(Times(evs), evs, played)
  {
    CutInPass(evs, n, i, 1 + played);
    PassTicksPlay(evs, 1 + played);
  }

  /** A stop that none of the replay's reads sees lets every pass play. */
  lemma RanToEnd(evs: seq<InputEvent>, n: nat, k: nat)
    requires n * (|evs| + 1) <= k
    ensures StoppedReplay(evs, n, k) == Rounds(evs, n)
  {
    ReplayTicksPlay(evs, n);
    StepsBeforeLateRequest(ReplayTicks(evs, n), k);
  }

  /** Wherever the stop falls, the replay is a prefix of the uninterrupted passes. */
  lemma StoppedReplayIsPrefix(evs: seq<InputEvent>, n: nat, k: nat)
    ensures StoppedReplay(evs, n, k) <= Rounds(evs, n)
  {
    ReplayTicksPlay(evs, n);
    StepsBeforeIsPrefix(ReplayTicks(evs, n), k);
  }

  /** The later the stop is first seen, the more of the replay is played. */
  lemma LaterStopPlaysMore(evs: seq<InputEvent>, n: nat, k: nat)
    ensures StoppedReplay(evs, n, k) <= StoppedReplay(evs, n, k + 1)
  {
    StepsBeforeGrows(ReplayTicks(evs, n), k);
  }

  /** A replay begun with the flag cleared, or with the stop already made, plays nothing. */
  lemma StopBeforeStartPlaysNothing(evs: seq<InputEvent>, n: nat, stopAt: nat, polls0: nat, began: bool)
    requires !began || stopAt <= polls0
    ensures StoppedReplay(evs, n, StopRead(stopAt, polls0, began)) == []
  {
    if n > 0 {
      StopAtHead(evs, n, 0);
      assert Rounds(evs, 0) == [];
    } else {
      assert ReplayTicks(evs, 0) == [];
    }
  }

  // ---- The hook ----

  /** The unhook calls `Uninstall` makes: one per non-zero handle, mouse first. */
  function UnhookCalls(mouseHook: int, keyboardHook: int): (cs: seq<HookCall>)
    ensures |cs| <= 2 && forall k :: 0 <= k < |cs| ==> cs[k].Unhook? && cs[k].handle != 0
    ensures Unhook(mouseHook) in cs <==> mouseHook != 0
    ensures Unhook(keyboardHook) in cs <==> keyboardHook != 0
    ensures mouseHook == 0 && keyboardHook == 0 <==> cs == []
  {
    (if mouseHook != 0 then [Unhook(mouseHook)] else []) + (if keyboardHook != 0 then [Unhook(keyboardHook)] else [])
  }

  /** `LowLevelHook`: the two handles and the calls it has made into the hook chain. */
  class LowLevelHook {
    var mouseHook: int
    var keyboardHook: int
    var calls: seq<HookCall>

    constructor()
      ensures mouseHook == 0 && keyboardHook == 0 && calls == []
    {
      mouseHook, keyboardHook, calls := 0, 0, [];
    }

    /** The handles SetWindowsHookEx returned, zero for a hook that could not be set. */
    method Install(mouseHandle: int, keyboardHandle: int)
      modifies this`mouseHook, this`keyboardHook
      ensures mouseHook == mouseHandle && keyboardHook == keyboardHandle
    {
      mouseHook := mouseHandle;
      keyboardHook := keyboardHandle;
    }

    method Uninstall()
      modifies this`mouseHook, this`keyboardHook, this`calls
      ensures mouseHook == 0 && keyboardHook == 0
      ensures calls == old(calls) + UnhookCalls(old(mouseHook), old(keyboardHook))
    {
      if mouseHook != 0 {
        calls := calls + [Unhook(mouseHook)];
      }
      if keyboardHook != 0 {
        calls := calls + [Unhook(keyboardHook)];
      }
      mouseHook := 0;
      keyboardHook := 0;
    }

    method Dispose()
      modifies this`mouseHook, this`keyboardHook, this`calls
      ensures mouseHook == 0 && keyboardHook == 0
      ensures calls == old(calls) + UnhookCalls(old(mouseHook), old(keyboardHook))
    {
      Uninstall();
    }

    /** Raises the event for the message, if any, and always passes it on down the chain. */
    method MouseCallback(nCode: int, wParam: int, data: InputHook.MouseHookData) returns (raised: Option<HookEvent>)
      modifies this`calls
      ensures raised == ClassifyMouse(nCode, wParam, data)
      ensures calls == old(calls) + [CallNext(mouseHook, nCode, wParam)]
    {
      raised := ClassifyMouse(nCode, wParam, data);
      calls := calls + [CallNext(mouseHook, nCode, wParam)];
    }

    method KeyboardCallback(nCode: int, wParam: int, data: InputHook.KeyboardHookData) returns (raised: Option<HookEvent>)
      modifies this`calls
      ensures raised == ClassifyKey(nCode, wParam, data)
      ensures calls == old(calls) + [CallNext(keyboardHook, nCode, wParam)]
    {
      raised := ClassifyKey(nCode, wParam, data);
      calls := calls + [CallNext(keyboardHook, nCode, wParam)];
    }
  }

  /** Uninstalling twice unhooks what the first call unhooks and nothing more. */
  method UninstallTwice(h: LowLevelHook)
    modifies h
    ensures h.mouseHook == 0 && h.keyboardHook == 0
    ensures h.calls == old(h.calls) + UnhookCalls(old(h.mouseHook), old(h.keyboardHook))
  {
    h.Uninstall();
    ghost var once := h.calls;
    h.Uninstall();
    assert h.calls == once + [];
  }

  // ---- Recordings ----

  /** A `List<InputEvent>`: a heap object that several recordings may share. */
  class EventList {
    var items: seq<InputEvent>

    constructor()
      ensures items == []
    {
      items := [];
    }

    /** `new List<InputEvent>(source)`: a separate list with the same contents. */
    constructor Copy(source: seq<InputEvent>)
      ensures items == source
    {
      items := source;
    }

    method Add(e: InputEvent)
      modifies this
      ensures items == old(items) + [e]
    {
      items := items + [e];
    }

    method Clear()
      modifies this
      ensures items == []
    {
      items := [];
    }
  }

  /** `Recording`: its `Events` is a reference to a list. */
  class Recording {
    var id: Models.Guid
    var name: string
    var createdAt: int
    var events: EventList

    constructor(id: Models.Guid, name: string, createdAt: int, events: EventList)
      ensures this.id == id && this.name == name && this.createdAt == createdAt && this.events == events
    {
      this.id, this.name, this.createdAt, this.events := id, name, createdAt, events;
    }
  }

  /** What SaveRecording writes to `<id>.json`: the recording with its events at that moment. */
  datatype SavedRecording = SavedRecording(id: Models.Guid, name: string, createdAt: int, events: seq<InputEvent>)

  /** The name `StopRecord` gives, for the current time formatted as `yyyy-MM-dd HH:mm:ss`. */
  function RecordingName(stamp: string): string
  {
    "录制 " + stamp
  }

  // ---- The form ----

  class MainForm {
    var recording: bool
    var playing: bool
    var recordings: seq<Recording>
    var selected: Recording?
    var hook: LowLevelHook?
    var recordStartTime: int
    const currentEvents: EventList
    /** The recordings directory: file id to contents. */
    var files: map<Models.Guid, SavedRecording>
    /** What the replay thread has done: its sleeps and the events it injected. */
    var trace: seq<Step<InputEvent>>
    /** How many times the replay thread has read `playing`. */
    var polls: nat

    /** A form with an empty library over the recordings directory `stored`. */
    constructor(stored: map<Models.Guid, SavedRecording>)
      ensures !recording && !playing && recordings == [] && selected == null && hook == null
      ensures fresh(currentEvents) && currentEvents.items == []
      ensures files == stored && trace == [] && polls == 0
    {
      recording, playing, recordings, selected, hook := false, false, [], null, null;
      recordStartTime := 0;
      currentEvents := new EventList();
      files, trace, polls := stored, [], 0;
    }

    /** A hook is installed exactly while recording. */
    predicate Valid()
      reads this
    {
      recording == (hook != null)
    }

    /** Starts recording if it is not, and stops it otherwise. */
    method ToggleRecord(now: int, mouseHandle: int, keyboardHandle: int, newId: Models.Guid, stamp: string)
      requires Valid()
      modifies this, currentEvents, hook
      ensures Valid() && recording == !old(recording)
      ensures currentEvents.items == []
      ensures playing == old(playing) && trace == old(trace) && polls == old(polls)
      ensures !old(recording) ==>
                && recordStartTime == now && selected == null
                && fresh(hook) && hook.mouseHook == mouseHandle && hook.keyboardHook == keyboardHandle
                && hook.calls == []
                && recordings == old(recordings) && files == old(files)
      ensures old(recording) ==>
                && hook == null
                && old(hook).mouseHook == 0 && old(hook).keyboardHook == 0
                && old(hook).calls == old(hook.calls) + UnhookCalls(old(hook.mouseHook), old(hook.keyboardHook))
                && selected == old(selected) && recordStartTime == old(recordStartTime)
                && (old(currentEvents.items) == [] ==> recordings == old(recordings) && files == old(files))
                && (old(currentEvents.items) != [] ==>
                      && |recordings| == |old(recordings)| + 1 && recordings[..|old(recordings)|] == old(recordings)
                      && var r := recordings[|old(recordings)|];
                      && fresh(r) && r.id == newId && r.name == RecordingName(stamp) && r.createdAt == now
                      && r.events == currentEvents && r.events.items == []
                      && files == old(files)[newId := SavedRecording(newId, RecordingName(stamp), now, old(currentEvents.items))])
    {
      if !recording {
        StartRecord(now, mouseHandle, keyboardHandle);
      } else {
        StopRecord(newId, stamp, now);
      }
    }

    /** Empties the buffer, forgets the selection and installs a new hook with these handles. */
    method StartRecord(now: int, mouseHandle: int, keyboardHandle: int)
      modifies this, currentEvents
      ensures recording && recordStartTime == now && currentEvents.items == [] && selected == null
      ensures hook != null && fresh(hook) && hook.mouseHook == mouseHandle && hook.keyboardHook == keyboardHandle
      ensures hook.calls == []
      ensures recordings == old(recordings) && files == old(files)
      ensures playing == old(playing) && trace == old(trace) && polls == old(polls)
    {
      recording := true;
      recordStartTime := now;
      currentEvents.Clear();
      selected := null;
      hook := new LowLevelHook();
      hook.Install(mouseHandle, keyboardHandle);
    }

    /**
     * `StopRecord` as the source writes it: the new recording is given `currentEvents`
     * itself, which is then cleared, so the recording kept in memory ends up with no
     * events while its file holds them all.
     */
    method StopRecord(newId: Models.Guid, stamp: string, now: int)
      modifies this, currentEvents, hook
      ensures !recording && hook == null && currentEvents.items == []
      ensures old(hook) != null ==>
                old(hook).mouseHook == 0 && old(hook).keyboardHook == 0 &&
                old(hook).calls == old(hook.calls) + UnhookCalls(old(hook.mouseHook), old(hook.keyboardHook))
      ensures old(currentEvents.items) == [] ==> recordings == old(recordings) && files == old(files)
      ensures old(currentEvents.items) != [] ==>
                && |recordings| == |old(recordings)| + 1 && recordings[..|old(recordings)|] == old(recordings)
                && var r := recordings[|old(recordings)|];
                && fresh(r) && r.id == newId && r.name == RecordingName(stamp) && r.createdAt == now
                && r.events == currentEvents && r.events.items == []
                && files == old(files)[newId := SavedRecording(newId, RecordingName(stamp), now, old(currentEvents.items))]
      ensures selected == old(selected) && recordStartTime == old(recordStartTime)
      ensures playing == old(playing) && trace == old(trace) && polls == old(polls)
    {
      recording := false;
      if hook != null {
        hook.Uninstall();
      }
      hook := null;
      if |currentEvents.items| > 0 {
        var r := new Recording(newId, RecordingName(stamp), now, currentEvents);
        Save(r);
        recordings := recordings + [r];
      }
      currentEvents.Clear();
    }

    /**
     * `StopRecord` with the list copied (`Events = new List<InputEvent>(currentEvents)`):
     * the recording keeps what was captured, in memory as on disk.
     */
    method StopRecordCopying(newId: Models.Guid, stamp: string, now: int)
      modifies this, currentEvents, hook
      ensures !recording && hook == null && currentEvents.items == []
      ensures old(hook) != null ==>
                old(hook).mouseHook == 0 && old(hook).keyboardHook == 0 &&
                old(hook).calls == old(hook.calls) + UnhookCalls(old(hook.mouseHook), old(hook.keyboardHook))
      ensures old(currentEvents.items) == [] ==> recordings == old(recordings) && files == old(files)
      ensures old(currentEvents.items) != [] ==>
                && |recordings| == |old(recordings)| + 1 && recordings[..|old(recordings)|] == old(recordings)
                && var r := recordings[|old(recordings)|];
                && fresh(r) && r.id == newId && r.name == RecordingName(stamp) && r.createdAt == now
                && fresh(r.events) && r.events.items == old(currentEvents.items)
                && files == old(files)[newId := SavedRecording(newId, RecordingName(stamp), now, old(currentEvents.items))]
      ensures selected == old(selected) && recordStartTime == old(recordStartTime)
      ensures playing == old(playing) && trace == old(trace) && polls == old(polls)
    {
      recording := false;
      if hook != null {
        hook.Uninstall();
      }
      hook := null;
      if |currentEvents.items| > 0 {
        var copy := new EventList.Copy(currentEvents.items);
        var r := new Recording(newId, RecordingName(stamp), now, copy);
        Save(r);
        recordings := recordings + [r];
      }
      currentEvents.Clear();
    }

    /** `SaveRecording`: writes the recording, with its events as they are now, to its file. */
    method Save(r: Recording)
      modifies this`files
      ensures files == old(files)[r.id := SavedRecording(r.id, r.name, r.createdAt, r.events.items)]
    {
      files := files[r.id := SavedRecording(r.id, r.name, r.createdAt, r.events.items)];
    }

    // The five handlers, each stamping the event with the time since recording started.

    method OnMouseMove(cursorX: int32, cursorY: int32, now: int)
      modifies currentEvents
      ensures currentEvents.items ==
                old(currentEvents.items) + [InputEvent(MouseMove, now - recordStartTime, cursorX, cursorY, false, false, 0, 0)]
    {
      currentEvents.Add(InputEvent(MouseMove, now - recordStartTime, cursorX, cursorY, false, false, 0, 0));
    }

    method OnMouseClick(isDown: bool, isLeft: bool, cursorX: int32, cursorY: int32, now: int)
      modifies currentEvents
      ensures currentEvents.items ==
                old(currentEvents.items) + [InputEvent(MouseClick, now - recordStartTime, cursorX, cursorY, isDown, isLeft, 0, 0)]
    {
      currentEvents.Add(InputEvent(MouseClick, now - recordStartTime, cursorX, cursorY, isDown, isLeft, 0, 0));
    }

    method OnMouseWheel(x: int32, y: int32, delta: int16, now: int)
      modifies currentEvents
      ensures currentEvents.items ==
                old(currentEvents.items) + [InputEvent(MouseWheel, now - recordStartTime, x, y, false, false, delta, 0)]
    {
      currentEvents.Add(InputEvent(MouseWheel, now - recordStartTime, x, y, false, false, delta, 0));
    }

    method OnKeyDown(keyCode: int32, now: int)
      modifies currentEvents
      ensures currentEvents.items ==
                old(currentEvents.items) + [InputEvent(KeyDown, now - recordStartTime, 0, 0, true, false, 0, keyCode)]
    {
      currentEvents.Add(InputEvent(KeyDown, now - recordStartTime, 0, 0, true, false, 0, keyCode));
    }

    method OnKeyUp(keyCode: int32, now: int)
      modifies currentEvents
      ensures currentEvents.items ==
                old(currentEvents.items) + [InputEvent(KeyUp, now - recordStartTime, 0, 0, false, false, 0, keyCode)]
    {
      currentEvents.Add(InputEvent(KeyUp, now - recordStartTime, 0, 0, false, false, 0, keyCode));
    }

    /** The handler `StartRecord` subscribed to the raised event. */
    method Deliver(e: HookEvent, cursorX: int32, cursorY: int32, now: int)
      modifies currentEvents
      ensures currentEvents.items == old(currentEvents.items) + [Handled(e, cursorX, cursorY, now - recordStartTime)]
    {
      match e
      case MouseMoved(_, _) => OnMouseMove(cursorX, cursorY, now);
      case MouseClicked(_, _, isDown, isLeft) => OnMouseClick(isDown, isLeft, cursorX, cursorY, now);
      case MouseWheeled(x, y, delta) => OnMouseWheel(x, y, delta, now);
      case KeyWentDown(k) => OnKeyDown(k, now);
      case KeyWentUp(k) => OnKeyUp(k, now);
    }

    /** A mouse message reaching the installed hook while the cursor is at (`cursorX`, `cursorY`). */
    method HookMouse(nCode: int, wParam: int, data: InputHook.MouseHookData, cursorX: int32, cursorY: int32, now: int)
      requires hook != null
      modifies hook, currentEvents
      ensures hook.calls == old(hook.calls) + [CallNext(hook.mouseHook, nCode, wParam)]
      ensures currentEvents.items == old(currentEvents.items) +
                (match ClassifyMouse(nCode, wParam, data)
                 case None => []
                 case Some(e) => [Handled(e, cursorX, cursorY, now - recordStartTime)])
    {
      var raised := hook.MouseCallback(nCode, wParam, data);
      if raised.Some? {
        Deliver(raised.value, cursorX, cursorY, now);
      }
    }

    /** A keyboard message reaching the installed hook. */
    method HookKeyboard(nCode: int, wParam: int, data: InputHook.KeyboardHookData, now: int)
      requires hook != null
      modifies hook, currentEvents
      ensures hook.calls == old(hook.calls) + [CallNext(hook.keyboardHook, nCode, wParam)]
      ensures currentEvents.items == old(currentEvents.items) +
                (match ClassifyKey(nCode, wParam, data)
                 case None => []
                 case Some(e) => [Handled(e, 0, 0, now - recordStartTime)])
    {
      var raised := hook.KeyboardCallback(nCode, wParam, data);
      if raised.Some? {
        Deliver(raised.value, 0, 0, now);
      }
    }

    /** Selecting row `index` of the list, or clearing the selection (`None`). */
    method OnRecordingSelected(index: Option<int>)
      modifies this`selected
      ensures index.None? ==> selected == null
      ensures index.Some? && 0 <= index.value < |recordings| ==> selected == recordings[index.value]
      ensures index.Some? && !(0 <= index.value < |recordings|) ==> selected == old(selected)
    {
      if index.Some? {
        if 0 <= index.value < |recordings| {
          selected := recordings[index.value];
        }
      } else {
        selected := null;
      }
    }

    /** `StopPlayback`, run on the interface thread. */
    method StopPlayback()
      modifies this`playing
      ensures !playing
    {
      playing := false;
    }

    /**
     * One read of `playing` by the replay thread; from read `stopAt` on, `StopPlayback`
     * has run and the flag reads false.
     */
    method Poll(stopAt: nat) returns (go: bool)
      modifies this`playing, this`polls
      ensures playing == (old(playing) && old(polls) < stopAt)
      ensures polls == old(polls) + 1 && go == playing
    {
      if polls >= stopAt {
        playing := false;
      }
      polls := polls + 1;
      go := playing;
    }

    /** Sets `playing` and runs the replay of the selected recording `repeatCount` times. */
    method PlaySelected(repeatCount: int, stopAt: nat)
      modifies this`playing, this`trace, this`polls
      ensures selected == null ==> playing == old(playing) && trace == old(trace) && polls == old(polls)
      ensures selected != null ==>
                && !playing
                && trace == old(trace) +
                     StoppedReplay(selected.events.items, PassCount(repeatCount), StopRead(stopAt, old(polls), true))
    {
      if selected == null {
        return;
      }
      playing := true;
      PlayRecording(selected, repeatCount, stopAt);
    }

    /**
     * The replay thread: up to `repeatCount` passes while `playing` holds, each restarting
     * its clock and stopping early if the flag is cleared. It plays exactly what the passes
     * play before the first read of the flag that finds it cleared.
     */
    method PlayRecording(r: Recording, repeatCount: int, stopAt: nat)
      modifies this`playing, this`trace, this`polls
      ensures !playing
      ensures trace == old(trace) +
                StoppedReplay(r.events.items, PassCount(repeatCount), StopRead(stopAt, old(polls), old(playing)))
    {
      var evs := r.events.items;
      ghost var t0, p0, began, n := trace, polls, playing, PassCount(repeatCount);
      // the loop condition `i < repeatCount && playing`, which reads the flag only when there is a pass left
      var i := 0;
      var go := false;
      if i < repeatCount {
        go := Poll(stopAt);
        if !go {
          StopBeforeStartPlaysNothing(evs, n, stopAt, p0, began);
        }
      } else {
        assert ReplayTicks(evs, n) == [];
      }
      assert Rounds(evs, 0) == [];
      while go
        invariant 0 <= i <= n
        invariant go ==>
                    && i < repeatCount && trace == t0 + Rounds(evs, i)
                    && polls == p0 + i * (|evs| + 1) + 1 && began && playing && polls <= stopAt
        invariant !go ==> trace == t0 + StoppedReplay(evs, n, StopRead(stopAt, p0, began))
        decreases repeatCount - i
      {
        go := PlayRound(evs, repeatCount, stopAt, i, t0, p0);
        i := i + 1;
      }
      playing := false;
    }

    /**
     * One iteration of the outer loop, entered after the loop condition read the flag set:
     * pass `i`, then the condition for the next pass.
     */
    method PlayRound(evs: seq<InputEvent>, repeatCount: int, stopAt: nat, i: nat,
                     ghost t0: seq<Step<InputEvent>>, ghost p0: nat)
      returns (go: bool)
      requires i < repeatCount && trace == t0 + Rounds(evs, i)
      requires polls == p0 + i * (|evs| + 1) + 1 && playing && polls <= stopAt
      modifies this`playing, this`trace, this`polls
      ensures go ==>
                && i + 1 < repeatCount && trace == t0 + Rounds(evs, i + 1)
                && polls == p0 + (i + 1) * (|evs| + 1) + 1 && playing && polls <= stopAt
      ensures !go ==> trace == t0 + StoppedReplay(evs, PassCount(repeatCount), StopRead(stopAt, p0, true))
    {
      ghost var n := PassCount(repeatCount);
      var played := PlayPass(evs, stopAt);
      if played < |evs| {
        assert StopRead(stopAt, p0, true) == i * (|evs| + 1) + 1 + played;
        StopInPass(evs, n, i, played);
        assert trace == t0 + (Rounds(evs, i) + DeadlinePass(Times(evs), evs, played));
        go := false;
        if i + 1 < repeatCount {
          // the condition reads the flag once more, and it stays false
          go := Poll(stopAt);
        }
        return;
      }
      assert trace == t0 + Rounds(evs, i + 1) by {
        Extend(trace, t0, Rounds(evs, i), old(trace), PassTrace(evs));
        RoundsOneMore(evs, i);
      }
      ShiftMul(i, |evs| + 1);
      if i + 1 < repeatCount {
        go := Poll(stopAt);
        if !go {
          assert StopRead(stopAt, p0, true) == (i + 1) * (|evs| + 1);
          StopAtHead(evs, n, i + 1);
        }
      } else {
        go := false;
        RanToEnd(evs, n, StopRead(stopAt, p0, true));
      }
    }

    /** One pass of the inner loop, begun after a read of the flag that saw it set. */
    method PlayPass(evs: seq<InputEvent>, stopAt: nat) returns (played: nat)
      requires playing && polls <= stopAt
      modifies this`playing, this`trace, this`polls
      ensures played <= |evs|
      ensures trace == old(trace) + DeadlinePass(Times(evs), evs, played)
      ensures played == |evs| ==> playing && polls == old(polls) + |evs| && polls <= stopAt
      ensures played < |evs| ==> !playing && polls == old(polls) + played + 1 && stopAt == old(polls) + played
    {
      ghost var t0 := trace;
      var elapsed := 0;
      played := 0;
      while played < |evs|
        invariant played <= |evs| && playing && polls == old(polls) + played && polls <= stopAt
        invariant trace == t0 + DeadlinePass(Times(evs), evs, played)
        invariant elapsed == DeadlineClock(Times(evs), played)
      {
        var go := Poll(stopAt);
        if !go {
          return;
        }
        elapsed := PlayEvent(evs, played, elapsed, t0);
        played := played + 1;
      }
    }

    /**
     * One iteration of the inner loop, on event `i`: sleeps for what is left until the
     * event's timestamp, `elapsed` milliseconds into the pass, then injects it.
     */
    method PlayEvent(evs: seq<InputEvent>, i: nat, elapsed: int, ghost t0: seq<Step<InputEvent>>) returns (now: int)
      requires i < |evs|
      requires trace == t0 + DeadlinePass(Times(evs), evs, i) && elapsed == DeadlineClock(Times(evs), i)
      modifies this`trace
      ensures trace == t0 + DeadlinePass(Times(evs), evs, i + 1)
      ensures now == DeadlineClock(Times(evs), i + 1)
    {
      var e := evs[i];
      now := elapsed;
      var wait := e.timestamp - elapsed;
      if wait > 0 {
        trace := trace + [Wait(wait)];
        now := now + wait;
      }
      trace := trace + [Inject(e)];
      Associate(trace, t0, DeadlinePass(Times(evs), evs, i), SleepUntil(e.timestamp, elapsed), [Inject(e)]);
    }
  }

  /**
   * With the source's `StopRecord`, a one-key recording is saved with its event, but the
   * recording kept in the list has none, and replaying it injects nothing.
   */
  method AliasedRecordingIsEmpty() returns (inMemory: nat, onDisk: nat, injected: nat)
    ensures inMemory == 0 && onDisk == 1 && injected == 0
  {
    var form := new MainForm(map[]);
    form.StartRecord(1000, 1, 2);
    form.OnKeyDown(0x41, 1010);
    form.StopRecord(7, "2024-01-01 00:00:00", 1020);
    inMemory := |form.recordings[0].events.items|;
    onDisk := |form.files[7].events|;
    form.OnRecordingSelected(Some(0));
    form.PlaySelected(1, 100);
    StoppedReplayIsPrefix([], 1, 100);
    NothingToReplay(1);
    injected := |Injected(form.trace)|;
  }

  /** With the list copied, the same session keeps its event in memory and replays it. */
  method CopiedRecordingKeepsEvents() returns (inMemory: nat, onDisk: nat, injected: nat)
    ensures inMemory == 1 && onDisk == 1 && injected == 1
  {
    var form := new MainForm(map[]);
    form.StartRecord(1000, 1, 2);
    form.OnKeyDown(0x41, 1010);
    form.StopRecordCopying(7, "2024-01-01 00:00:00", 1020);
    inMemory := |form.recordings[0].events.items|;
    onDisk := |form.files[7].events|;
    form.OnRecordingSelected(Some(0));
    form.PlaySelected(1, 100);
    ghost var evs := form.recordings[0].events.items;
    assert |evs| == 1 && form.trace == StoppedReplay(evs, 1, 100);
    assert form.trace == Rounds(evs, 1) by { RanToEnd(evs, 1, 100); }
    assert |Injected(Rounds(evs, 1))| == 1 by { RoundsTiming(evs, 0, 1); }
    injected := |Injected(form.trace)|;
  }

  // ---- FormatDuration ----

  function Digit(d: nat): char
    requires d < 10
  {
    ('0' as int + d) as char
  }

  predicate IsDigits(s: string)
  {
    forall k :: 0 <= k < |s| ==> '0' <= s[k] <= '9'
  }

  /** `n.ToString()`: the decimal digits, most significant first, without leading zeros. */
  function DecimalText(n: nat): (s: string)
    ensures |s| >= 1 && IsDigits(s)
    ensures n < 10 <==> |s| == 1
    ensures 10 <= n < 100 ==> |s| == 2
    decreases n
  {
    if n < 10 then [Digit(n)] else DecimalText(n / 10) + [Digit(n % 10)]
  }

  /** `n.ToString("D2")` for `n < 100`: two digits, zero-padded. */
  function TwoDigits(n: nat): (s: string)
    requires n < 100
    ensures |s| == 2 && IsDigits(s)
  {
    [Digit(n / 10), Digit(n % 10)]
  }

  /** The number a string of decimal digits denotes. */
  function DecimalValue(s: string): nat
    requires IsDigits(s)
  {
    if s == [] then 0 else DecimalValue(s[..|s| - 1]) * 10 + (s[|s| - 1] as int - '0' as int)
  }

  lemma {:induction false} DecimalRoundTrip(n: nat)
    ensures DecimalValue(DecimalText(n)) == n
    decreases n
  {
    if n >= 10 {
      DecimalRoundTrip(n / 10);
      var s := DecimalText(n);
      assert s[..|s| - 1] == DecimalText(n / 10);
    }
  }

  lemma TwoDigitsRoundTrip(n: nat)
    requires n < 100
    ensures DecimalValue(TwoDigits(n)) == n
  {
    var a, b := Digit(n / 10), Digit(n % 10);
    assert [a, b][..1] == [a] && [a][..0] == [];
    assert DecimalValue([a]) == n / 10;
  }

  /** `TimeSpan.Minutes`: the minutes component, without the hours. */
  function MinutesPart(ms: nat): nat { (ms / 60000) % 60 }

  /** `TimeSpan.Seconds`: the seconds component. */
  function SecondsPart(ms: nat): nat { (ms / 1000) % 60 }

  /** `FormatDuration`: `M:SS` from a duration of at least a minute, `0:SS` below one. */
  function FormatDuration(ms: nat): (s: string)
    ensures |s| == 4 || |s| == 5
  {
    if ms >= 60000 then DecimalText(MinutesPart(ms)) + ":" + TwoDigits(SecondsPart(ms))
    else "0:" + TwoDigits(SecondsPart(ms))
  }

  /** The minutes field of the text: the component itself from a minute on, and "0" below. */
  function MinutesText(ms: nat): (m: string)
    ensures IsDigits(m) && (|m| == 1 || |m| == 2) && DecimalValue(m) == MinutesPart(ms)
  {
    if ms >= 60000 then
      DecimalRoundTrip(MinutesPart(ms));
      DecimalText(MinutesPart(ms))
    else
      assert "0"[..0] == [];
      "0"
  }

  lemma FormatDurationFields(ms: nat)
    ensures FormatDuration(ms) == MinutesText(ms) + ":" + TwoDigits(SecondsPart(ms))
  {
  }

  /**
   * The text reads back as the minutes component (0-59), a colon, and the seconds
   * component (00-59) in two digits.
   */
  lemma FormatDurationReadsBack(ms: nat)
    ensures var s := FormatDuration(ms);
            var k := |s| - 3;
            && s[k] == ':' && IsDigits(s[..k]) && IsDigits(s[k + 1..]) && |s[k + 1..]| == 2
            && DecimalValue(s[..k]) == MinutesPart(ms) < 60
            && DecimalValue(s[k + 1..]) == SecondsPart(ms) < 60
  {
    var s, m, t := FormatDuration(ms), MinutesText(ms), TwoDigits(SecondsPart(ms));
    FormatDurationFields(ms);
    TwoDigitsRoundTrip(SecondsPart(ms));
    var k := |s| - 3;
    assert k == |m|;
    assert s[..k] == m && s[k] == ':' && s[k + 1..] == t;
  }

  /** Under an hour, the two fields together give the whole seconds of the duration. */
  lemma FieldsGiveWholeSeconds(ms: nat)
    requires ms < 3_600_000
    ensures MinutesPart(ms) * 60 + SecondsPart(ms) == ms / 1000
  {
    var q, r := ms / 1000, ms % 1000;
    var a, b := q / 60, q % 60;
    assert ms == 60000 * a + (1000 * b + r);
    assert 0 <= 1000 * b + r < 60000;
    assert ms / 60000 == a;
    assert a < 60;
  }

  /** The hours are dropped: an hour and a minute shows as one minute. */
  lemma HoursAreDropped()
    ensures FormatDuration(3_660_000) == FormatDuration(60_000) == "1:00"
  {
    assert MinutesPart(3_660_000) == MinutesPart(60_000) == 1;
    assert SecondsPart(3_660_000) == SecondsPart(60_000) == 0;
    assert DecimalText(1) == "1" && TwoDigits(0) == "00";
  }
}
