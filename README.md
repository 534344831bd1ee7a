# KioskLauncher core, modelled in Dafny

KioskLauncher is a small Windows launcher written in Go (`main.go`). It starts a
program, waits until a visible top-level window with a configured title shows up,
and maximizes every such window. Then it either exits at once, or waits for the
program to end and starts a second, "After" program.

This project models the parts of `main.go` that are logic rather than OS plumbing.
The operating system is replaced by inputs:

- **Window matching** (`Windows` module). A desktop snapshot is a sequence of
  `Window` records. Each record holds a handle, the caption, whether reading the
  caption succeeds, the last error code after that read, and the visibility flag.
  These are in enumeration order. The raw `GetWindowTextW` call is an oracle that
  writes into a 200-unit `array` buffer. The Go wrapper `GetWindowText` keeps the
  source's error convention: a zero length is an error, and a zero OS code becomes
  `EINVAL`. The caption is decoded up to the first NUL. The per-window closure of
  `FindWindow` is a `Collector` object whose `hwnds` field is the captured slice.
  `EnumWindows` runs the callback over the snapshot in a loop. `FindWindow` is
  proved equal to the functional filter `Matches`.
- **The poller** (`Launcher.WaitForWindow`). It runs over a finite sequence of
  snapshots, one per poll. It returns the first non-empty match set. It records one
  `Polled` call per enumeration and one `Slept` call per empty poll.
- **The orchestration of `main`** (`Launcher.Run`). It builds the argv
  `[path] ++ args` and maximizes every found handle with `ShowWindow(h, 3)`. It
  exits 0 when `After.Path` is empty. Otherwise it waits on the primary process,
  and starts and releases the After program only when the wait reports `Exited()`.
  What happens to the outside world is a trace of `Call`s. `Run` is proved equal
  to the reference definition `Expected`, and the scenario lemmas are stated
  about `Expected`.

Two behaviours of the code that the model makes explicit:

- `EnumWindows` reports an enumeration failure, but `FindWindow` discards it
  (main.go:64-65). So `FindWindow` never returns an error, and the `log.Fatal` at
  main.go:100-102 cannot be reached. In the model that branch of `WaitForWindow`
  is proved unreachable (`assert false`).
- `main` never checks that `Program.Title` is non-empty (main.go:136). With an
  empty title, or one of 200 units or more, no enumeration can ever match, so
  `waitForWindow` keeps polling until something outside the loop stops it
  (`UnmatchableTitleNeverPresents`). Each poll also passes a new closure to
  `syscall.NewCallback` (main.go:49). Go creates only a limited number of
  callbacks per process (at least 1024 are guaranteed), never frees them, and
  aborts with a fatal runtime error when its table is full. So a launcher whose window never appears does
  not poll forever. It crashes after roughly a thousand or more empty polls.
  The model does not bound the number of callbacks.

## Model

| member | source | states |
|---|---|---|
| Win32.ToInt32 | main.go:36 | `int32(r0)` is two's-complement truncation: the result is in the int32 range, congruent to the input modulo 2^32, and equal to it below 2^31 |
| Win32.CallError | main.go:24-30 | a failed call yields an error and a successful one none; the error is `Errno(e1)` when `e1` is non-zero and is never a zero errno (a zero code becomes `EINVAL`) |
| Win32.CopiedLength | main.go:35 | `GetWindowTextW` copies at most `maxCount - 1` units and at most the caption; it copies nothing exactly when the read fails, the caption is empty or the buffer has no room for text |
| Win32.SyscallGetWindowTextW | main.go:35 | oracle for the raw call: it returns the copied length and the last error, writes the cut caption and a NUL after it, and leaves the rest of the buffer unchanged |
| Win32.GetWindowText | main.go:34-45 | the length is the copied length, and the error is `CallError` of "length is non-zero", so a zero-length caption is an error even when the OS code is 0; with `maxCount` 0 the buffer is untouched |
| Win32.IsWindowVisible | main.go:68-75 | definition: the window's visibility flag, which stands for the raw result `ret != 0` |
| Win32.ShowWindow | main.go:77-80 | definition: true exactly when the raw result `r0` of the `ShowWindow` call is non-zero |
| Windows.UpToNul | main.go:57 | `UTF16ToString` decoding: the result is a NUL-free prefix of the buffer, and it stops only at a NUL or at the end of the buffer |
| Windows.ReadBuffer | main.go:50-51 | the buffer after the read always has the fixed 200 units |
| Windows.Truncated | main.go:50-51 | what the 200-unit buffer can return of a caption: all of it when shorter than 200 units, otherwise its first 199 units |
| Windows.CaptionOf | main.go:50-57 | the callback skips a window exactly when its caption is unreadable or empty; otherwise the decoded caption is the caption cut to 199 units |
| Windows.CallbackKeeps | main.go:51-61 | the callback's keep-or-skip decision: no read error, decoded buffer equal to the title, window visible; a kept window is visible and its title is non-empty |
| Windows.Accepts | main.go:49-63 | the selection rule on the window itself: readable non-empty caption whose first 199 units are the title, and visible; an accepted title is a non-empty prefix of the caption, shorter than 200 units |
| Windows.CallbackKeepsIff | main.go:51-59 | the callback keeps a window (no read error, decoded caption equal to the title, visible) exactly when `Accepts` holds |
| Windows.Matches | main.go:47-66 | the filter over one enumeration never returns more handles than windows |
| Windows.MatchesAppend | main.go:49-64 | the result for two runs of windows enumerated one after the other is the concatenation of their results, so one window never changes how another is treated |
| Windows.MatchPosition | main.go:57-59 | an accepted window's handle is in the result, at the position equal to the number of accepted windows enumerated before it |
| Windows.MatchSource | main.go:57-59 | every entry of the result is the handle of an accepted window, at that window's position |
| Windows.MatchesInOrder | main.go:57-59 | of two accepted windows, the one enumerated first comes first in the result |
| Windows.MatchesMember | main.go:47-66 | a handle is in `FindWindow`'s result if and only if some enumerated window with that handle is readable, caption-equal and visible |
| Windows.SkipUnreadable | main.go:51-55 | a window with an unreadable or empty caption can be removed from the enumeration without changing the result |
| Windows.EmptyCaptionIsError | main.go:36-43 | an empty caption gives `EINVAL` (or the OS code, if non-zero) and is skipped |
| Windows.EmptyTitleMatchesNothing | main.go:51-57 | `FindWindow("")` returns no handle on any desktop |
| Windows.LongTitleMatchesNothing | main.go:50-57 | a title of 200 units or more never matches any window |
| Windows.LongCaptionMatchesItsPrefix | main.go:50-57 | a visible window with a caption of 200 units or more is matched by its first 199 units and not by its full caption |
| Windows.Collector.constructor | main.go:48 | the captured slice starts empty |
| Windows.Collector.Callback | main.go:49-63 | one callback invocation returns 1 and appends the window's handle exactly when the window is accepted |
| Windows.EnumWindows | main.go:22-32 | the callback runs over every enumerated window in order, so the slice grows by `Matches`; the returned error follows the `CallError` convention |
| Windows.FindWindow | main.go:47-66 | the result is exactly `Matches` of the enumerated windows, and the error is always nil |
| Launcher.Argv | main.go:87 | the argv is the path followed by the configured arguments, in order |
| Launcher.EmptyPolls | main.go:97-108 | `n` empty polls make `2n` calls that alternate enumeration and sleep |
| Launcher.EmptyPollsCount | main.go:97-108 | exactly one sleep per empty poll |
| Launcher.FirstFound | main.go:97-108 | the index of the first poll with a non-empty match set, or none when every poll is empty |
| Launcher.FirstFoundAt | main.go:103-106 | the first poll that finds a match is the one `FirstFound` names |
| Launcher.FirstFoundNone | main.go:97-108 | when no poll finds a match, `FirstFound` names none |
| Launcher.WaitForWindow | main.go:95-109 | returns only a non-empty set, namely the result of the first successful poll, after one sleep per earlier empty poll; with no success it keeps polling and sleeping |
| Launcher.MaximizeAll | main.go:137-140 | one `ShowWindow(h, 3)` per handle, in order, whatever each call returns |
| Launcher.AfterPresenting | main.go:142-158 | reference definition of the steps after presenting: no calls exactly when no After program is configured, at most the wait, the After launch and its release, and the run always ends (never `StillWaiting`) |
| Launcher.Expected | main.go:135-158 | reference definition of the whole run: it always begins by launching the primary program with its argv, and it is still waiting exactly when that launch succeeded and no poll ever matched |
| Launcher.FinishRun | main.go:142-158 | the steps after presenting follow `AfterPresenting` |
| Launcher.Run | main.go:135-158 | the whole run (calls made and how it ends) equals `Expected` |
| Launcher.LaunchFailureIsFatal | main.go:87-90 | a failed primary launch is fatal, and the launch is the only call made |
| Launcher.PollingCallsOnly | main.go:97-140 | polling and maximizing make only poll, sleep and show calls |
| Launcher.PresentedShape | main.go:135-140 | the presenting part of a run is the launch, `k` empty polls each with one sleep, the successful poll, and one maximize per handle in order |
| Launcher.AfterPresentingCalls | main.go:142-158 | after presenting, a process is started exactly when an After program is configured and the wait succeeded with `Exited()`; that start is the call right after the wait |
| Launcher.PresentsEveryMatch | main.go:136-140 | the first non-empty match set is non-empty, and each of its handles is maximized, in order, right after the successful poll |
| Launcher.ShowWindowResultIgnored | main.go:137-140 | what `ShowWindow` returns never changes the run |
| Launcher.FoundRunSplit | main.go:135-158 | a run that found a window is its presenting part followed by the steps after presenting |
| Launcher.NotFoundRun | main.go:97-108 | a run that never finds a window is the launch followed by empty polls only |
| Launcher.NoAfterProgramExitsWithoutWaiting | main.go:142-145 | with an empty `After.Path` the run never waits on the primary process and never starts another process; once the window is presented it exits 0 |
| Launcher.StartedInTail | main.go:148-158 | trace helper for `AfterStartedOnlyOnExit`: in `p + t`, where `p` starts nothing after its first call, every later start comes from `t` |
| Launcher.StartsAfterFirst | main.go:148-158 | trace helper for `AfterStartedOnlyOnExit`: such a `p + t` starts a process after its first call exactly when `t` starts one |
| Launcher.AfterStartedOnlyOnExit | main.go:148-158 | the After program is started if and only if it is configured, the primary process was launched and presented, and the wait succeeded with `Exited()` |
| Launcher.AfterStartFollowsWait | main.go:148-154 | a started After program is launched with its own argv, right after the wait on the primary process |
| Launcher.AfterProgramReleased | main.go:154-157 | after the After program starts, its handle is released as the last call; only a release error is then fatal |
| Launcher.AfterLaunchFailureIsFatal | main.go:152-154 | the After program is launched through `start`, whose failure is fatal (main.go:87-90); that launch is then the run's last call |
| Launcher.WaitFailureIsFatal | main.go:148-151 | a failed wait on the primary process is fatal, and the wait is the last call |
| Launcher.NoMatchKeepsPolling | main.go:97-108 | while no poll matches, the launcher only polls and sleeps; it shows no window and waits on no process |
| Launcher.NoMatchSleepsOncePerPoll | main.go:97-108 | while no poll matches, the run has exactly one sleep and one enumeration per poll |
| Launcher.UnmatchableTitleNeverPresents | main.go:136 | with an empty title, or one of 200 units or more, no poll ever matches and the run is still waiting |

## Left out

- Win32 bindings are not modelled: DLL loading, `syscall.Syscall`, `syscall.NewCallback` and unsafe pointers. The model ignores Go's limit on the number of callbacks a process can create, which a long run of empty polls exhausts. Visibility, caption reads and `ShowWindow` results are fields of the window snapshot or the `Os` record.
- The OS side of `GetWindowTextW` and `EnumWindows` is an oracle that follows the documented Win32 behaviour. Window captions are assumed to hold no NUL unit, because Windows stores them as NUL-terminated strings.
- `syscall.UTF16ToString` is modelled only up to the first NUL. Titles and captions are compared as UTF-16 code-unit sequences. Its conversion to a Go string is left out, so two unit sequences that decode to the same string (for example, different lone surrogates, which both become U+FFFD) are treated as different.
- Process management is not modelled: `os.StartProcess`, `proc.Wait`, `proc.Release` and `os.Executable`. Their outcomes are fields of `Os`. A process is identified by its argv. On Windows, Go's `Exited()` is true after every successful wait, but the model keeps it as an input because the source branches on it.
- `start` passes the launcher's stdin, stdout and stderr to the child (main.go:84-85). The model does not represent file handles, so it leaves this out.
- Configuration loading is not modelled: `ioutil.ReadFile`, `json.Unmarshal` and the fatal errors around them (main.go:112-134). `Run` takes the parsed configuration, so a missing configuration file is not covered.
- `log` output is not modelled. `time.Sleep` is recorded only as a `Slept` call, with no time.
- Launcher.WaitForWindow: the real loop has no bound of its own. It ends only when a window matches or when the callback table is exhausted. The model stops when the finite snapshot sequence runs out and reports `StillWaiting`.
- `os.Exit` and `log.Fatal` end the run as `Status` values (`Exit(0)`, or `Fatal` for exit status 1). They are not process termination.
- Windows.EnumWindows: when the OS enumeration fails part way, the snapshot holds only the windows that were passed to the callback. The model does not say which windows those are.
- Windows.Collector.Callback: Go's callback is a closure over a local slice. Here it is a method of one `Collector` class, because the model has no closures or traits.
