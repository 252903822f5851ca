/**
 * The capture engine of the WPF application (`InputHookService`): translation of raw
 * low-level hook messages into `InputAction`s, and the recording state machine around the
 * capture buffer. Installing hooks, reading the clock and resolving key names are foreign
 * calls; their results are parameters, and calls into the hook chain are logged.
 */
module InputHook {
  import opened Wrappers
  import opened Win32
  import opened Models

  /** The fields of MSLLHOOKSTRUCT that the callback reads. */
  datatype MouseHookData = MouseHookData(ptX: int32, ptY: int32, mouseData: int32)

  /** The fields of KBDLLHOOKSTRUCT that the callback reads. */
  datatype KeyboardHookData = KeyboardHookData(vkCode: int32, scanCode: int32)

  /**
   * `(short)(mouseData >> 16)`: the arithmetic shift keeps the sign, so the result is the
   * high word of `mouseData` read as a signed 16-bit value.
   */
  function WheelDelta(mouseData: int32): (d: int16)
    ensures d * 0x1_0000 <= mouseData < d * 0x1_0000 + 0x1_0000
  {
    ToInt16(mouseData / 0x1_0000)
  }

  /** Extracting the wheel delta recovers the high word packed into `mouseData`. */
  lemma WheelDeltaOfPacked(d: int16, low: int)
    requires 0 <= low < 0x1_0000
    ensures -0x8000_0000 <= d * 0x1_0000 + low < 0x8000_0000
    ensures WheelDelta(d * 0x1_0000 + low) == d
  {
    var m := d * 0x1_0000 + low;
    assert m / 0x1_0000 == d;
  }

  /** Classification inside `MouseHookCallback` (for nCode >= 0 while recording). */
  function ClassifyMouse(wParam: int, data: MouseHookData, ts: int): (r: Option<InputAction>)
    ensures r.Some? ==> r.value.timestamp == ts && !r.value.kind.KeyAction?
    ensures r.Some? ==> r.value.kind.x == data.ptX && r.value.kind.y == data.ptY
  {
    if wParam == WM_MOUSEMOVE then
      Some(InputAction(ts, MouseMoveAction(data.ptX, data.ptY)))
    else if wParam == WM_LBUTTONDOWN || wParam == WM_RBUTTONDOWN then
      Some(InputAction(ts, MouseClickAction(data.ptX, data.ptY, wParam == WM_LBUTTONDOWN, true)))
    else if wParam == WM_LBUTTONUP || wParam == WM_RBUTTONUP then
      Some(InputAction(ts, MouseClickAction(data.ptX, data.ptY, wParam == WM_LBUTTONUP, false)))
    else if wParam == WM_MOUSEWHEEL then
      Some(InputAction(ts, MouseWheelAction(WheelDelta(data.mouseData), data.ptX, data.ptY)))
    else
      None
  }

  predicate IsMouseMessage(wParam: int)
  {
    wParam == WM_MOUSEMOVE || wParam == WM_LBUTTONDOWN || wParam == WM_LBUTTONUP ||
    wParam == WM_RBUTTONDOWN || wParam == WM_RBUTTONUP || wParam == WM_MOUSEWHEEL
  }

  /** The mouse classification table, message by message. */
  lemma MouseClassificationTable(wParam: int, data: MouseHookData, ts: int)
    ensures ClassifyMouse(wParam, data, ts).Some? <==> IsMouseMessage(wParam)
    ensures ClassifyMouse(wParam, data, ts) == Some(InputAction(ts, MouseMoveAction(data.ptX, data.ptY)))
            <==> wParam == WM_MOUSEMOVE
    ensures ClassifyMouse(wParam, data, ts).Some? && ClassifyMouse(wParam, data, ts).value.kind.MouseClickAction? ==>
              var c := ClassifyMouse(wParam, data, ts).value.kind;
              && (c.isDown <==> wParam == WM_LBUTTONDOWN || wParam == WM_RBUTTONDOWN)
              && (c.isLeftButton <==> wParam == WM_LBUTTONDOWN || wParam == WM_LBUTTONUP)
    ensures ClassifyMouse(wParam, data, ts).Some? && ClassifyMouse(wParam, data, ts).value.kind.MouseClickAction?
            <==> wParam in {WM_LBUTTONDOWN, WM_LBUTTONUP, WM_RBUTTONDOWN, WM_RBUTTONUP}
    ensures ClassifyMouse(wParam, data, ts).Some? && ClassifyMouse(wParam, data, ts).value.kind.MouseWheelAction?
            <==> wParam == WM_MOUSEWHEEL
    ensures wParam == WM_MOUSEWHEEL ==>
              ClassifyMouse(wParam, data, ts).value.kind.delta == WheelDelta(data.mouseData)
  {
  }

  /**
   * `GetKeyName`'s argument to GetKeyNameText: `(scanCode << 16) | 1` on a 32-bit int.
   * The shift drops the scan code's upper half and the low word becomes 1.
   */
  function KeyNameParam(scanCode: int32): (p: int32)
    ensures p % 0x1_0000 == 1
    ensures (p / 0x1_0000) % 0x1_0000 == scanCode % 0x1_0000
  {
    var hi := scanCode % 0x1_0000;
    var u := hi * 0x1_0000 + 1;
    assert u / 0x1_0000 == hi;
    if u >= 0x8000_0000 then
      assert (u - 0x1_0000_0000) / 0x1_0000 == hi - 0x1_0000;
      u - 0x1_0000_0000
    else u
  }

  /** Bits 16-23 of a GetKeyNameText argument: the scan code it names. */
  function ScanCodeField(lParam: int32): (s: byte)
  {
    (lParam / 0x1_0000) % 0x100
  }

  /** The name lookup is handed exactly the scan code of the key event. */
  lemma KeyNameParamCarriesScanCode(scanCode: int32)
    requires 0 <= scanCode < 0x100
    ensures ScanCodeField(KeyNameParam(scanCode)) == scanCode
  {
    var p := KeyNameParam(scanCode);
    assert p == scanCode * 0x1_0000 + 1;
    assert p / 0x1_0000 == scanCode;
  }

  /**
   * `GetKeyName`: the text GetKeyNameText produced, or the virtual-key enum name when
   * that text is empty, so label resolution never fails.
   */
  function KeyName(nameText: string, enumName: string): string
  {
    if |nameText| > 0 then nameText else enumName
  }

  /** Classification inside `KeyboardHookCallback`: every message yields one key action. */
  function ClassifyKey(wParam: int, data: KeyboardHookData, nameText: string, enumName: string, ts: int):
    (a: InputAction)
    ensures a.kind.KeyAction? && a.timestamp == ts && a.kind.keyCode == data.vkCode
    ensures a.kind.isDown <==> wParam == WM_KEYDOWN || wParam == WM_SYSKEYDOWN
    ensures a.kind.keyName.Some?
  {
    var isDown := wParam == WM_KEYDOWN || wParam == WM_SYSKEYDOWN;
    InputAction(ts, KeyAction(data.vkCode, isDown, Some(KeyName(nameText, enumName))))
  }

  datatype Notice = RecordingStarted | RecordingStopped | ActionCaptured(action: InputAction)

  /** The error `StartRecording` throws when a hook cannot be installed. */
  const HookInstallFailed: string := "无法安装系统钩子"

  class InputHookService {
    var mouseHook: int
    var keyboardHook: int
    var isRecording: bool
    var recordingStartTime: int
    var actions: seq<InputAction>
    /** Calls made into the hook chain, in order. */
    var hookCalls: seq<HookCall>
    /** Events raised to subscribers, in order. */
    var notices: seq<Notice>

    constructor ()
      ensures mouseHook == 0 && keyboardHook == 0 && !isRecording
      ensures actions == [] && hookCalls == [] && notices == []
    {
      mouseHook, keyboardHook := 0, 0;
      isRecording := false;
      recordingStartTime := 0;
      actions, hookCalls, notices := [], [], [];
    }

    /**
     * Starts a capture session. `mouseHandle` and `keyboardHandle` are what SetWindowsHookEx
     * returns (0 on failure); the method fails when either is 0, after having set the flag
     * and stored both handles, and raises `RecordingStarted` only on success.
     */
    method StartRecording(now: int, mouseHandle: int, keyboardHandle: int) returns (outcome: Outcome<string>)
      modifies this
      ensures old(isRecording) ==> outcome == Pass && unchanged(this)
      ensures !old(isRecording) ==>
                && isRecording && actions == [] && recordingStartTime == now
                && mouseHook == mouseHandle && keyboardHook == keyboardHandle
                && hookCalls == old(hookCalls)
                && (outcome.Fail? <==> mouseHandle == 0 || keyboardHandle == 0)
                && (outcome.Fail? ==> outcome.error == HookInstallFailed && notices == old(notices))
                && (outcome.Pass? ==> notices == old(notices) + [RecordingStarted])
    {
      if isRecording {
        return Pass;
      }
      actions := [];
      recordingStartTime := now;
      isRecording := true;
      mouseHook := mouseHandle;
      keyboardHook := keyboardHandle;
      if mouseHook == 0 || keyboardHook == 0 {
        return Fail(HookInstallFailed);
      }
      notices := notices + [RecordingStarted];
      outcome := Pass;
    }

    /** Unhooks the installed hooks (zero handles are skipped) and zeroes both handles. */
    method ReleaseHooks()
      modifies this
      ensures mouseHook == 0 && keyboardHook == 0
      ensures hookCalls == old(hookCalls)
                           + (if old(mouseHook) != 0 then [Unhook(old(mouseHook))] else [])
                           + (if old(keyboardHook) != 0 then [Unhook(old(keyboardHook))] else [])
      ensures isRecording == old(isRecording) && actions == old(actions)
      ensures notices == old(notices) && recordingStartTime == old(recordingStartTime)
    {
      if mouseHook != 0 {
        hookCalls := hookCalls + [Unhook(mouseHook)];
        mouseHook := 0;
      }
      if keyboardHook != 0 {
        hookCalls := hookCalls + [Unhook(keyboardHook)];
        keyboardHook := 0;
      }
    }

    /**
     * Ends the session and returns a copy of the buffer in capture order. When not
     * recording it returns an empty list and changes nothing. The buffer itself is kept
     * until the next start.
     */
    method StopRecording() returns (r: seq<InputAction>)
      modifies this
      ensures !old(isRecording) ==> r == [] && unchanged(this)
      ensures old(isRecording) ==>
                && r == old(actions) && actions == old(actions)
                && !isRecording && mouseHook == 0 && keyboardHook == 0
                && hookCalls == old(hookCalls)
                                + (if old(mouseHook) != 0 then [Unhook(old(mouseHook))] else [])
                                + (if old(keyboardHook) != 0 then [Unhook(old(keyboardHook))] else [])
                && notices == old(notices) + [RecordingStopped]
                && recordingStartTime == old(recordingStartTime)
    {
      if !isRecording {
        return [];
      }
      isRecording := false;
      ReleaseHooks();
      notices := notices + [RecordingStopped];
      r := actions;
    }

    /** Appends an action at the end of the buffer, only while recording. */
    method CaptureAction(a: InputAction)
      modifies this
      ensures isRecording == old(isRecording) && hookCalls == old(hookCalls)
      ensures recordingStartTime == old(recordingStartTime)
      ensures mouseHook == old(mouseHook) && keyboardHook == old(keyboardHook)
      ensures actions == old(actions) + (if isRecording then [a] else [])
      ensures notices == old(notices) + (if isRecording then [ActionCaptured(a)] else [])
    {
      if !isRecording {
        return;
      }
      actions := actions + [a];
      notices := notices + [ActionCaptured(a)];
    }

    /**
     * The low-level mouse hook: while recording and for nCode >= 0, a classified message
     * is timestamped from the session start and captured; the message is always passed on.
     */
    method MouseHookCallback(nCode: int, wParam: int, data: MouseHookData, now: int)
      modifies this
      ensures isRecording == old(isRecording) && recordingStartTime == old(recordingStartTime)
      ensures mouseHook == old(mouseHook) && keyboardHook == old(keyboardHook)
      ensures var c := ClassifyMouse(wParam, data, now - recordingStartTime);
              && actions == old(actions) + (if nCode >= 0 && isRecording && c.Some? then [c.value] else [])
              && notices == old(notices) + (if nCode >= 0 && isRecording && c.Some? then [ActionCaptured(c.value)] else [])
      ensures hookCalls == old(hookCalls) + [CallNext(mouseHook, nCode, wParam)]
    {
      if nCode >= 0 && isRecording {
        var timestamp := now - recordingStartTime;
        var c := ClassifyMouse(wParam, data, timestamp);
        if c.Some? {
          CaptureAction(c.value);
        }
      }
      hookCalls := hookCalls + [CallNext(mouseHook, nCode, wParam)];
    }

    /**
     * The low-level keyboard hook: while recording and for nCode >= 0 every message is
     * captured as one key action; the name lookup is passed `KeyNameParam(scanCode)` and
     * `nameText` is what it returned. The message is always passed on.
     */
    method KeyboardHookCallback(nCode: int, wParam: int, data: KeyboardHookData,
                                nameText: string, enumName: string, now: int)
      returns (nameLookup: Option<int32>)
      modifies this
      ensures isRecording == old(isRecording) && recordingStartTime == old(recordingStartTime)
      ensures mouseHook == old(mouseHook) && keyboardHook == old(keyboardHook)
      ensures nCode >= 0 && isRecording ==>
                var a := ClassifyKey(wParam, data, nameText, enumName, now - recordingStartTime);
                && actions == old(actions) + [a] && notices == old(notices) + [ActionCaptured(a)]
                && nameLookup == Some(KeyNameParam(data.scanCode))
      ensures !(nCode >= 0 && isRecording) ==> actions == old(actions) && notices == old(notices) && nameLookup == None
      ensures hookCalls == old(hookCalls) + [CallNext(keyboardHook, nCode, wParam)]
    {
      nameLookup := None;
      if nCode >= 0 && isRecording {
        var timestamp := now - recordingStartTime;
        nameLookup := Some(KeyNameParam(data.scanCode));
        CaptureAction(ClassifyKey(wParam, data, nameText, enumName, timestamp));
      }
      hookCalls := hookCalls + [CallNext(keyboardHook, nCode, wParam)];
    }

    /** Releases the hooks; the recording flag and the buffer are left as they are. */
    method Dispose()
      modifies this
      ensures mouseHook == 0 && keyboardHook == 0
      ensures hookCalls == old(hookCalls)
                           + (if old(mouseHook) != 0 then [Unhook(old(mouseHook))] else [])
                           + (if old(keyboardHook) != 0 then [Unhook(old(keyboardHook))] else [])
      ensures isRecording == old(isRecording) && actions == old(actions) && notices == old(notices)
      ensures recordingStartTime == old(recordingStartTime)
    {
      ReleaseHooks();
    }
  }

  /**
   * A whole session on a fresh service: start with both hooks installed, deliver mouse
   * messages, stop twice. The first stop returns the classified messages in arrival
   * order; the second returns nothing.
   */
  method CaptureSession(start: int, wParams: seq<int>, data: MouseHookData, now: int)
    returns (first: seq<InputAction>, second: seq<InputAction>)
    ensures first == Classified(wParams, data, now - start)
    ensures second == []
  {
    var s := new InputHookService();
    var o := s.StartRecording(start, 1, 2);
    var i := 0;
    while i < |wParams|
      invariant 0 <= i <= |wParams|
      invariant s.isRecording && s.recordingStartTime == start
      invariant s.actions == Classified(wParams[..i], data, now - start)
    {
      s.MouseHookCallback(0, wParams[i], data, now);
      assert wParams[..i + 1][..i] == wParams[..i];
      i := i + 1;
    }
    assert wParams[..i] == wParams;
    first := s.StopRecording();
    second := s.StopRecording();
  }

  /** The actions a sequence of mouse messages yields, in order, skipping unclassified ones. */
  function Classified(wParams: seq<int>, data: MouseHookData, ts: int): seq<InputAction>
  {
    if wParams == [] then []
    else
      var c := ClassifyMouse(wParams[|wParams| - 1], data, ts);
      Classified(wParams[..|wParams| - 1], data, ts) + (if c.Some? then [c.value] else [])
  }
}
