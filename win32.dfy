/**
 * The fixed-width integers, Windows message codes and input-injection calls that the
 * C# sources exchange with user32.dll. The calls themselves are foreign; an injection is
 * recorded as a `NativeCmd` value naming the call and its arguments.
 */
module Win32 {

  type int32 = x: int | -0x8000_0000 <= x < 0x8000_0000
  type int16 = x: int | -0x8000 <= x < 0x8000
  type byte = x: int | 0 <= x < 0x100

  /** An unchecked C# `(short)` cast: keeps the low 16 bits, read as two's complement. */
  function ToInt16(x: int): (r: int16)
    ensures (r - x) % 0x1_0000 == 0
    ensures -0x8000 <= x < 0x8000 ==> r == x
  {
    var low := x % 0x1_0000;
    if low < 0x8000 then low else low - 0x1_0000
  }

  /** An unchecked C# `(byte)` cast: keeps the low 8 bits. */
  function ToByte(x: int): (r: byte)
    ensures (r - x) % 0x100 == 0
    ensures 0 <= x < 0x100 ==> r == x
  {
    x % 0x100
  }

  // Low-level hook message identifiers (the hook's wParam).
  const WM_MOUSEMOVE := 0x0200
  const WM_LBUTTONDOWN := 0x0201
  const WM_LBUTTONUP := 0x0202
  const WM_RBUTTONDOWN := 0x0204
  const WM_RBUTTONUP := 0x0205
  const WM_MOUSEWHEEL := 0x020A
  const WM_KEYDOWN := 0x0100
  const WM_KEYUP := 0x0101
  const WM_SYSKEYDOWN := 0x0104
  const WM_SYSKEYUP := 0x0105

  // Flags of mouse_event and keybd_event.
  const MOUSEEVENTF_LEFTDOWN := 0x0002
  const MOUSEEVENTF_LEFTUP := 0x0004
  const MOUSEEVENTF_RIGHTDOWN := 0x0008
  const MOUSEEVENTF_RIGHTUP := 0x0010
  const MOUSEEVENTF_WHEEL := 0x0800
  const KEYEVENTF_KEYDOWN := 0x0000
  const KEYEVENTF_KEYUP := 0x0002

  /** One call into the injection API: SetCursorPos, mouse_event or keybd_event. */
  datatype NativeCmd =
    | SetCursorPos(x: int, y: int)
    | MouseEvent(flags: int, dx: int, dy: int, data: int)
    | KeybdEvent(vk: byte, scan: byte, flags: int)

  /** One call into the hook chain: UnhookWindowsHookEx or CallNextHookEx. */
  datatype HookCall =
    | Unhook(handle: int)
    | CallNext(handle: int, nCode: int, wParam: int)
}
