/**
 * The slice of the Win32 API that the launcher uses, with the operating
 * system replaced by an abstract snapshot.
 *
 * A window is a record of what the OS would answer about it at the moment
 * the enumeration callback sees it. The raw system calls become small
 * oracle members driven by that record; the Go wrappers around them
 * (`EnumWindows`, `GetWindowText`, `IsWindowVisible`, `ShowWindow` in
 * main.go) keep their own conventions for turning raw results into errors.
 */
module Win32 {

  /** One UTF-16 code unit (Go's `uint16`). */
  newtype Uint16 = x: int | 0 <= x < 0x1_0000

  /** An opaque window handle (Go's `syscall.Handle`, a `uintptr`). */
  type Handle = nat

  /**
   * A window caption as the OS stores it: a NUL-terminated string, so the
   * text itself never contains a NUL unit.
   */
  type Caption = s: seq<Uint16> | 0 !in s witness []

  /** An OS error: a Windows error code, or the `EINVAL` substitute. */
  datatype Error = Errno(code: nat) | Einval

  datatype Option<T> = None | Some(value: T)

  /**
   * What the OS answers about one top-level window during an enumeration:
   * its caption, whether reading the caption succeeds, the thread's last
   * error code right after that read, and whether it is visible.
   */
  datatype Window = Window(handle: Handle, caption: Caption, readOk: bool, lastError: nat, visible: bool)

  /**
   * One `EnumWindows` call: the windows the OS passes to the callback, in
   * enumeration order, and the call's raw result `r1` and error code `e1`.
   */
  datatype Desktop = Desktop(windows: seq<Window>, r1: nat, e1: nat)

  /** Win32 `SW_MAXIMIZE`, the command the launcher passes to `ShowWindow`. */
  const SW_MAXIMIZE: int := 3

  const Int32Modulus: int := 0x1_0000_0000

  /** Go's conversion `int32(x)` of an unsigned word: two's-complement truncation. */
  function ToInt32(x: nat): (r: int)
    ensures -0x8000_0000 <= r < 0x8000_0000
    ensures (x - r) % Int32Modulus == 0
    ensures x < 0x8000_0000 ==> r == x
  {
    var low := x % Int32Modulus;
    if low < 0x8000_0000 then low else low - Int32Modulus
  }

  /**
   * The error convention shared by the Go wrappers `EnumWindows` and
   * `GetWindowText`: a failed call reports `Errno(e1)`, or `EINVAL` when
   * the OS left the error code at zero, so that a failure is never a
   * nil-looking "success" error.
   */
  function CallError(succeeded: bool, e1: nat): (err: Option<Error>)
    ensures err.None? <==> succeeded
    ensures err.Some? ==> err.value != Errno(0)
    ensures err.Some? && e1 != 0 ==> err.value.Errno? && err.value.code == e1
    ensures !succeeded && e1 == 0 ==> err == Some(Einval)
  {
    if succeeded then None
    else if e1 != 0 then Some(Errno(e1))
    else Some(Einval)
  }

  /**
   * The number of units `GetWindowTextW` copies into a buffer of
   * `maxCount` units: nothing on failure, otherwise the caption cut to
   * leave room for the terminating NUL.
   */
  function CopiedLength(w: Window, maxCount: nat): (n: nat)
    ensures n <= |w.caption|
    ensures maxCount == 0 ==> n == 0
    ensures 0 < maxCount ==> n < maxCount
    ensures n == 0 <==> !w.readOk || w.caption == [] || maxCount <= 1
  {
    if !w.readOk || maxCount == 0 then 0
    else if |w.caption| < maxCount - 1 then |w.caption|
    else maxCount - 1
  }

  /**
   * Oracle for the raw `GetWindowTextW` system call on a caller-owned
   * buffer: it copies the (possibly cut) caption, writes a NUL after it,
   * leaves the rest of the buffer alone and returns the copied length and
   * the last error code.
   */
  method SyscallGetWindowTextW(w: Window, buf: array<Uint16>, maxCount: nat) returns (r0: nat, e1: nat)
    requires maxCount <= buf.Length
    modifies buf
    ensures r0 == CopiedLength(w, maxCount) && e1 == w.lastError
    ensures forall i :: 0 <= i < r0 ==> buf[i] == w.caption[i]
    ensures 0 < maxCount ==> buf[r0] == 0
    ensures forall i :: r0 < i < buf.Length ==> buf[i] == old(buf[i])
    ensures maxCount == 0 ==> buf[..] == old(buf[..])
  {
    r0 := CopiedLength(w, maxCount);
    forall i | 0 <= i < r0 {
      buf[i] := w.caption[i];
    }
    if 0 < maxCount {
      buf[r0] := 0;
    }
    e1 := w.lastError;
  }

  /**
   * Go's `GetWindowText` wrapper: the length is the `int32` of the raw
   * result, and a zero length is an error even when the OS error code is 0.
   */
  method GetWindowText(w: Window, buf: array<Uint16>, maxCount: nat) returns (len: int, err: Option<Error>)
    requires maxCount < 0x8000_0000  // Go's int32 parameter
    requires maxCount <= buf.Length
    modifies buf
    ensures len == CopiedLength(w, maxCount)
    ensures err == CallError(len != 0, w.lastError)
    ensures forall i :: 0 <= i < len ==> buf[i] == w.caption[i]
    ensures 0 < maxCount ==> buf[len] == 0
    ensures forall i :: len < i < buf.Length ==> buf[i] == old(buf[i])
    ensures maxCount == 0 ==> buf[..] == old(buf[..])
  {
    var r0, e1 := SyscallGetWindowTextW(w, buf, maxCount);
    len := ToInt32(r0);
    err := CallError(len != 0, e1);
  }

  /** Go's `IsWindowVisible`: the OS's visibility flag for the window. */
  function IsWindowVisible(w: Window): bool
  {
    w.visible
  }

  /** Go's `ShowWindow`: true when the raw result `r0` is non-zero. */
  function ShowWindow(syscall: (Handle, int) -> nat, hwnd: Handle, nCmdShow: int): bool
  {
    syscall(hwnd, nCmdShow) != 0
  }
}
