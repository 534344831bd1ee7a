/**
 * The launcher itself (main.go): `start`, the `waitForWindow` poller and
 * the decision sequence of `main`, with every OS outcome an input.
 *
 * What the program does to the outside world is recorded as a trace of
 * `Call`s. `Run` is the step-by-step model of `main`; `Expected` states
 * the same run as one reference definition, and the lemmas after it state
 * what the launcher promises about that run.
 */
module Launcher {
  import opened Win32
  import opened Windows

  /** The `Program` section of the configuration. */
  datatype ProgramConfig = ProgramConfig(path: string, arguments: seq<string>, title: seq<Uint16>)

  /** The `After` section of the configuration; an empty path means "none". */
  datatype AfterConfig = AfterConfig(path: string, arguments: seq<string>)

  /** The parsed configuration file. */
  datatype Config = Config(program: ProgramConfig, after: AfterConfig)

  /** A launched child process, identified by the argument vector it was started with. */
  datatype Process = Process(argv: seq<string>)

  /** What `proc.Wait` reports about the terminated child. */
  datatype ProcessState = ProcessState(exited: bool)

  datatype Result<T> = Ok(value: T) | Err(error: Error)

  /** The calls the launcher makes on the outside world, in the order it makes them. */
  datatype Call =
    | Started(path: string, argv: seq<string>)  // os.StartProcess
    | Polled                                    // one FindWindow enumeration
    | Slept                                     // time.Sleep(time.Second)
    | Shown(hwnd: Handle, cmd: int)             // ShowWindow
    | Waited(proc: Process)                     // proc.Wait
    | Released(proc: Process)                   // proc.Release

  /**
   * How the run ends: `os.Exit(code)`, a `log.Fatal` (exit status 1), a
   * normal return from `main`, or still polling when the snapshots run out
   * (the model's snapshots are finite).
   */
  datatype Status = Exit(code: int) | Fatal(err: Error) | Returned | StillWaiting

  /**
   * Everything the OS decides during one run: whether each process call
   * fails, the desktop seen by each successive poll, the raw result of
   * `ShowWindow`, and the outcome of waiting on the primary process.
   */
  datatype Os = Os(
    primaryStart: Option<Error>,
    desktops: seq<Desktop>,
    showWindow: (Handle, int) -> nat,
    wait: Result<ProcessState>,
    afterStart: Option<Error>,
    release: Option<Error>)

  datatype Outcome = Outcome(trace: seq<Call>, status: Status)

  /** The argument vector `start` passes: the path itself, then the configured arguments. */
  function Argv(path: string, args: seq<string>): (argv: seq<string>)
    ensures |argv| == |args| + 1
    ensures argv[0] == path && argv[1..] == args
  {
    [path] + args
  }

  /** The calls of `n` polls that found nothing, each followed by its one-second sleep. */
  function EmptyPolls(n: nat): (calls: seq<Call>)
    ensures |calls| == 2 * n
    ensures forall i :: 0 <= i < 2 * n ==> calls[i] == if i % 2 == 0 then Polled else Slept
  {
    if n == 0 then [] else EmptyPolls(n - 1) + [Polled, Slept]
  }

  /** The calls of the poller: `n` empty polls, then the successful one if there was one. */
  function PollCalls(n: nat, found: bool): seq<Call>
  {
    EmptyPolls(n) + if found then [Polled] else []
  }

  /** Exactly one sleep per empty poll. */
  lemma {:induction false} EmptyPollsCount(n: nat)
    ensures multiset(EmptyPolls(n))[Slept] == n
    ensures multiset(EmptyPolls(n))[Polled] == n
  {
    if n > 0 {
      EmptyPollsCount(n - 1);
      assert EmptyPolls(n) == EmptyPolls(n - 1) + [Polled, Slept];
    }
  }

  /** The index of the first poll whose enumeration found a match, if any. */
  function FirstFound(desktops: seq<Desktop>, title: seq<Uint16>): (r: Option<nat>)
    ensures r.Some? ==> r.value < |desktops| && Matches(desktops[r.value].windows, title) != []
    ensures r.Some? ==> forall j :: 0 <= j < r.value ==> Matches(desktops[j].windows, title) == []
    ensures r.None? ==> forall j :: 0 <= j < |desktops| ==> Matches(desktops[j].windows, title) == []
  {
    if desktops == [] then None
    else if Matches(desktops[0].windows, title) != [] then Some(0)
    else
      match FirstFound(desktops[1..], title)
      case None => None
      case Some(k) => Some(k + 1)
  }

  /** The first poll that finds a match is the answer of `FirstFound`. */
  lemma FirstFoundAt(desktops: seq<Desktop>, title: seq<Uint16>, i: nat)
    requires i < |desktops| && Matches(desktops[i].windows, title) != []
    requires forall j :: 0 <= j < i ==> Matches(desktops[j].windows, title) == []
    ensures FirstFound(desktops, title) == Some(i)
  {
  }

  /** When no poll finds a match, `FirstFound` has no answer. */
  lemma FirstFoundNone(desktops: seq<Desktop>, title: seq<Uint16>)
    requires forall j :: 0 <= j < |desktops| ==> Matches(desktops[j].windows, title) == []
    ensures FirstFound(desktops, title) == None
  {
  }

  /**
   * `waitForWindow`, over a finite sequence of desktop snapshots: polls
   * until an enumeration finds a match and returns that non-empty set,
   * sleeping once after each empty poll. `None` means every snapshot was
   * empty and the real loop would still be waiting.
   */
  method WaitForWindow(title: seq<Uint16>, desktops: seq<Desktop>) returns (found: Option<seq<Handle>>, calls: seq<Call>)
    ensures found.Some? ==> found.value != []
    ensures match FirstFound(desktops, title)
      case Some(k) => found == Some(Matches(desktops[k].windows, title)) && calls == PollCalls(k, true)
      case None => found == None && calls == PollCalls(|desktops|, false)
  {
    calls := [];
    var i := 0;
    while i < |desktops|
      invariant 0 <= i <= |desktops|
      invariant forall j :: 0 <= j < i ==> Matches(desktops[j].windows, title) == []
      invariant calls == EmptyPolls(i)
    {
      calls := calls + [Polled];
      var hwnds, err := FindWindow(title, desktops[i]);
      if err.Some? {
        // the source's log.Fatal: FindWindow never reports an error
        assert false;
      }
      if |hwnds| > 0 {
        FirstFoundAt(desktops, title, i);
        return Some(hwnds), calls;
      }
      calls := calls + [Slept];
      i := i + 1;
    }
    FirstFoundNone(desktops, title);
    return None, calls;
  }

  /** One `ShowWindow(h, SW_MAXIMIZE)` call per handle, in order. */
  function Maximized(hwnds: seq<Handle>): (calls: seq<Call>)
    ensures |calls| == |hwnds|
  {
    seq(|hwnds|, i requires 0 <= i < |hwnds| => Shown(hwnds[i], SW_MAXIMIZE))
  }

  /**
   * Steps of `main` after the windows are presented: nothing more when no
   * After program is configured, otherwise the wait on the primary process
   * and, when it reports `Exited()`, the launch and release of the After
   * program. Gives the calls made and how the run ends.
   */
  function AfterPresenting(cfg: Config, os: Os): (o: Outcome)
    ensures o.trace == [] <==> cfg.after.path == ""
    ensures |o.trace| <= 3
    ensures o.status != StillWaiting
  {
    if cfg.after.path == "" then Outcome([], Exit(0))
    else
      var waited := [Waited(Process(Argv(cfg.program.path, cfg.program.arguments)))];
      match os.wait
      case Err(e) => Outcome(waited, Fatal(e))
      case Ok(state) =>
        if !state.exited then Outcome(waited, Returned)
        else
          var afterArgv := Argv(cfg.after.path, cfg.after.arguments);
          var started := waited + [Started(cfg.after.path, afterArgv)];
          if os.afterStart.Some? then Outcome(started, Fatal(os.afterStart.value))
          else
            var released := started + [Released(Process(afterArgv))];
            if os.release.Some? then Outcome(released, Fatal(os.release.value))
            else Outcome(released, Returned)
  }

  /** The calls up to and including the maximizing of the first match set. */
  function Presented(cfg: Config, k: nat, hwnds: seq<Handle>): seq<Call>
  {
    [Started(cfg.program.path, Argv(cfg.program.path, cfg.program.arguments))] + PollCalls(k, true) + Maximized(hwnds)
  }

  /** The whole run of `main` after the configuration is loaded, as one definition. */
  function Expected(cfg: Config, os: Os): (o: Outcome)
    ensures 0 < |o.trace| && o.trace[0] == Started(cfg.program.path, Argv(cfg.program.path, cfg.program.arguments))
    ensures o.status == StillWaiting <==> os.primaryStart.None? && FirstFound(os.desktops, cfg.program.title).None?
  {
    var launched := [Started(cfg.program.path, Argv(cfg.program.path, cfg.program.arguments))];
    if os.primaryStart.Some? then Outcome(launched, Fatal(os.primaryStart.value))
    else
      match FirstFound(os.desktops, cfg.program.title)
      case None => Outcome(launched + PollCalls(|os.desktops|, false), StillWaiting)
      case Some(k) =>
        var rest := AfterPresenting(cfg, os);
        Outcome(Presented(cfg, k, Matches(os.desktops[k].windows, cfg.program.title)) + rest.trace, rest.status)
  }

  /**
   * The maximizing loop of `main`: `ShowWindow(h, SW_MAXIMIZE)` on every
   * handle in order, whatever each call returns.
   */
  method MaximizeAll(showWindow: (Handle, int) -> nat, hwnds: seq<Handle>) returns (calls: seq<Call>)
    ensures calls == Maximized(hwnds)
  {
    calls := [];
    for i := 0 to |hwnds|
      invariant calls == Maximized(hwnds[..i])
    {
      var changed := ShowWindow(showWindow, hwnds[i], SW_MAXIMIZE);  // result ignored
      calls := calls + [Shown(hwnds[i], SW_MAXIMIZE)];
    }
    assert hwnds[..|hwnds|] == hwnds;
  }

  /**
   * The tail of `main` once the windows are presented: exit 0 with no
   * After program, otherwise wait on the primary process `proc` and, when
   * it exited, start the After program and release its handle.
   */
  method FinishRun(cfg: Config, os: Os, proc: Process) returns (calls: seq<Call>, status: Status)
    requires proc == Process(Argv(cfg.program.path, cfg.program.arguments))
    ensures Outcome(calls, status) == AfterPresenting(cfg, os)
  {
    calls := [];
    if cfg.after.path == "" {
      return calls, Exit(0);
    }
    calls := calls + [Waited(proc)];
    if os.wait.Err? {
      return calls, Fatal(os.wait.error);
    }
    if os.wait.value.exited {
      var afterArgv := Argv(cfg.after.path, cfg.after.arguments);
      calls := calls + [Started(cfg.after.path, afterArgv)];
      if os.afterStart.Some? {
        return calls, Fatal(os.afterStart.value);
      }
      var after := Process(afterArgv);
      calls := calls + [Released(after)];
      if os.release.Some? {
        return calls, Fatal(os.release.value);
      }
    }
    status := Returned;
  }

  /**
   * `main` from `start` of the primary program on: launch, wait for the
   * window, maximize every match, then either exit 0 or wait for the
   * primary process and launch and release the After program.
   */
  method Run(cfg: Config, os: Os) returns (trace: seq<Call>, status: Status)
    ensures Outcome(trace, status) == Expected(cfg, os)
  {
    var argv := Argv(cfg.program.path, cfg.program.arguments);
    trace := [Started(cfg.program.path, argv)];
    if os.primaryStart.Some? {
      return trace, Fatal(os.primaryStart.value);
    }
    var proc := Process(argv);
    var found, polls := WaitForWindow(cfg.program.title, os.desktops);
    trace := trace + polls;
    if found.None? {
      return trace, StillWaiting;
    }
    var shown := MaximizeAll(os.showWindow, found.value);
    trace := trace + shown;
    var rest;
    rest, status := FinishRun(cfg, os, proc);
    trace := trace + rest;
  }

  /** A failed launch of the primary program is fatal before anything else is done. */
  lemma LaunchFailureIsFatal(cfg: Config, os: Os)
    requires os.primaryStart.Some?
    ensures Expected(cfg, os) ==
      Outcome([Started(cfg.program.path, [cfg.program.path] + cfg.program.arguments)], Fatal(os.primaryStart.value))
  {
  }

  /** Polling and presenting only poll, sleep and show windows. */
  lemma PollingCallsOnly(k: nat, found: bool, hwnds: seq<Handle>)
    ensures forall c :: c in PollCalls(k, found) + Maximized(hwnds) ==> c.Polled? || c.Slept? || c.Shown?
  {
  }

  /**
   * The presenting part of a run: the primary launch, `k` empty polls each
   * followed by one sleep, the successful poll, then one maximize per
   * handle, in order.
   */
  lemma PresentedShape(cfg: Config, k: nat, hwnds: seq<Handle>)
    ensures var p := Presented(cfg, k, hwnds);
      |p| == 2 * k + 2 + |hwnds| &&
      p[0] == Started(cfg.program.path, Argv(cfg.program.path, cfg.program.arguments)) &&
      (forall c :: c in p[1..] ==> c.Polled? || c.Slept? || c.Shown?) &&
      multiset(p[..2 * k + 2])[Slept] == k && multiset(p[..2 * k + 2])[Polled] == k + 1 &&
      forall i :: 0 <= i < |hwnds| ==> p[2 * k + 2 + i] == Shown(hwnds[i], SW_MAXIMIZE)
  {
    var p := Presented(cfg, k, hwnds);
    assert p[1..] == PollCalls(k, true) + Maximized(hwnds);
    PollingCallsOnly(k, true, hwnds);
    assert p[..2 * k + 2] == [p[0]] + EmptyPolls(k) + [Polled];
    EmptyPollsCount(k);
  }

  /**
   * After presenting, the run only waits, starts and releases: it starts a
   * process exactly when an After program is configured and the wait
   * succeeded with `Exited()`, and that start comes right after the wait.
   */
  lemma AfterPresentingCalls(cfg: Config, os: Os)
    ensures var t := AfterPresenting(cfg, os).trace;
      forall c :: c in t ==> c.Waited? || c.Started? || c.Released?
    ensures var t := AfterPresenting(cfg, os).trace;
      (exists j :: 0 <= j < |t| && t[j].Started?) <==>
        cfg.after.path != "" && os.wait.Ok? && os.wait.value.exited
    ensures var t := AfterPresenting(cfg, os).trace;
      forall j :: 0 <= j < |t| && t[j].Started? ==>
        j == 1 && t[1] == Started(cfg.after.path, Argv(cfg.after.path, cfg.after.arguments)) &&
        t[0] == Waited(Process(Argv(cfg.program.path, cfg.program.arguments)))
    ensures cfg.after.path == "" <==> AfterPresenting(cfg, os).trace == []
  {
    var t := AfterPresenting(cfg, os).trace;
    if cfg.after.path != "" && os.wait.Ok? && os.wait.value.exited {
      assert t[1].Started?;
    }
  }

  /**
   * After the primary launch, the run polls until the first non-empty
   * match set, sleeping once per empty poll, and then asks for every
   * handle of that set to be maximized, in order.
   */
  lemma PresentsEveryMatch(cfg: Config, os: Os, k: nat)
    requires os.primaryStart.None?
    requires FirstFound(os.desktops, cfg.program.title) == Some(k)
    ensures var hwnds := Matches(os.desktops[k].windows, cfg.program.title);
      var trace := Expected(cfg, os).trace;
      hwnds != [] && 2 * k + 2 + |hwnds| <= |trace| &&
      multiset(trace[..2 * k + 2])[Slept] == k && multiset(trace[..2 * k + 2])[Polled] == k + 1 &&
      forall i :: 0 <= i < |hwnds| ==> trace[2 * k + 2 + i] == Shown(hwnds[i], SW_MAXIMIZE)
  {
    var hwnds := Matches(os.desktops[k].windows, cfg.program.title);
    var p := Presented(cfg, k, hwnds);
    PresentedShape(cfg, k, hwnds);
    var trace := Expected(cfg, os).trace;
    assert trace == p + AfterPresenting(cfg, os).trace;
    assert trace[..2 * k + 2] == p[..2 * k + 2];
  }

  /** What `ShowWindow` returns never changes the run. */
  lemma ShowWindowResultIgnored(cfg: Config, os: Os, showWindow: (Handle, int) -> nat)
    ensures Expected(cfg, os.(showWindow := showWindow)) == Expected(cfg, os)
  {
  }

  /** A run that found a window is its presenting part followed by its tail. */
  lemma FoundRunSplit(cfg: Config, os: Os, k: nat)
    requires os.primaryStart.None? && FirstFound(os.desktops, cfg.program.title) == Some(k)
    ensures Expected(cfg, os).trace ==
      Presented(cfg, k, Matches(os.desktops[k].windows, cfg.program.title)) + AfterPresenting(cfg, os).trace
    ensures Expected(cfg, os).status == AfterPresenting(cfg, os).status
  {
  }

  /** A run that never found a window is the primary launch followed by empty polls. */
  lemma NotFoundRun(cfg: Config, os: Os)
    requires os.primaryStart.None? && FirstFound(os.desktops, cfg.program.title) == None
    ensures Expected(cfg, os).trace ==
      [Started(cfg.program.path, Argv(cfg.program.path, cfg.program.arguments))] + EmptyPolls(|os.desktops|)
    ensures Expected(cfg, os).status == StillWaiting
    ensures forall c :: c in EmptyPolls(|os.desktops|) ==> c.Polled? || c.Slept?
  {
  }

  /**
   * With no After program the run never waits on the primary process and
   * never starts a second one; once the window is presented it exits 0.
   */
  lemma NoAfterProgramExitsWithoutWaiting(cfg: Config, os: Os)
    requires cfg.after.path == ""
    ensures var o := Expected(cfg, os);
      (forall c :: c in o.trace ==> !c.Waited?) &&
      (forall i :: 0 < i < |o.trace| ==> !o.trace[i].Started?) &&
      (os.primaryStart.None? && FirstFound(os.desktops, cfg.program.title).Some? ==> o.status == Exit(0))
  {
  }

  /** In `p + t`, a call that `p` cannot make after its first one comes from `t`. */
  lemma StartedInTail(p: seq<Call>, t: seq<Call>, i: nat)
    requires 0 < |p| && forall c :: c in p[1..] ==> !c.Started?
    requires 0 < i < |p + t| && (p + t)[i].Started?
    ensures |p| <= i && (p + t)[i] == t[i - |p|]
  {
  }

  /** So `p + t` starts a process after its first call exactly when `t` starts one. */
  lemma StartsAfterFirst(p: seq<Call>, t: seq<Call>)
    requires 0 < |p| && forall c :: c in p[1..] ==> !c.Started?
    ensures (exists i :: 0 < i < |p + t| && (p + t)[i].Started?) <==>
      (exists j :: 0 <= j < |t| && t[j].Started?)
  {
    if i :| 0 < i < |p + t| && (p + t)[i].Started? {
      StartedInTail(p, t, i);
    }
    if j :| 0 <= j < |t| && t[j].Started? {
      assert (p + t)[|p| + j] == t[j];
    }
  }

  /**
   * The After program is started exactly when one is configured, the
   * primary process was launched and presented, and its wait succeeded
   * with `Exited()`.
   */
  lemma AfterStartedOnlyOnExit(cfg: Config, os: Os)
    ensures var trace := Expected(cfg, os).trace;
      (exists i :: 0 < i < |trace| && trace[i].Started?) <==>
        (os.primaryStart.None? && FirstFound(os.desktops, cfg.program.title).Some? &&
         cfg.after.path != "" && os.wait.Ok? && os.wait.value.exited)
  {
    var trace := Expected(cfg, os).trace;
    if os.primaryStart.None? {
      match FirstFound(os.desktops, cfg.program.title)
      case None =>
        NotFoundRun(cfg, os);
        assert forall i :: 0 < i < |trace| ==> trace[i] in EmptyPolls(|os.desktops|) by {
          assert trace[1..] == EmptyPolls(|os.desktops|);
        }
      case Some(k) =>
        var p := Presented(cfg, k, Matches(os.desktops[k].windows, cfg.program.title));
        FoundRunSplit(cfg, os, k);
        PresentedShape(cfg, k, Matches(os.desktops[k].windows, cfg.program.title));
        AfterPresentingCalls(cfg, os);
        StartsAfterFirst(p, AfterPresenting(cfg, os).trace);
    }
  }

  /**
   * A started After program is the one configured, launched with its own
   * argument vector, and its start is the call right after the wait on
   * the primary process.
   */
  lemma AfterStartFollowsWait(cfg: Config, os: Os, i: nat)
    requires 0 < i < |Expected(cfg, os).trace| && Expected(cfg, os).trace[i].Started?
    ensures var trace := Expected(cfg, os).trace;
      trace[i] == Started(cfg.after.path, Argv(cfg.after.path, cfg.after.arguments)) &&
      trace[i - 1] == Waited(Process(Argv(cfg.program.path, cfg.program.arguments)))
  {
  }

  /**
   * Once the After program is started its handle is released, and that
   * release is the run's last call; only a release error is then fatal.
   */
  lemma AfterProgramReleased(cfg: Config, os: Os)
    requires os.primaryStart.None? && FirstFound(os.desktops, cfg.program.title).Some?
    requires cfg.after.path != "" && os.wait.Ok? && os.wait.value.exited && os.afterStart.None?
    ensures var o := Expected(cfg, os);
      var afterArgv := Argv(cfg.after.path, cfg.after.arguments);
      3 <= |o.trace| &&
      o.trace[|o.trace| - 3..] == [Waited(Process(Argv(cfg.program.path, cfg.program.arguments))),
                                   Started(cfg.after.path, afterArgv), Released(Process(afterArgv))] &&
      o.status == if os.release.Some? then Fatal(os.release.value) else Returned
  {
  }

  /** A failed launch of the After program is fatal, and that launch is the run's last call. */
  lemma AfterLaunchFailureIsFatal(cfg: Config, os: Os)
    requires os.primaryStart.None? && FirstFound(os.desktops, cfg.program.title).Some?
    requires cfg.after.path != "" && os.wait.Ok? && os.wait.value.exited && os.afterStart.Some?
    ensures var o := Expected(cfg, os);
      o.status == Fatal(os.afterStart.value) &&
      o.trace[|o.trace| - 1] == Started(cfg.after.path, Argv(cfg.after.path, cfg.after.arguments))
  {
  }

  /** A failed wait on the primary process is fatal, and it is the run's last call. */
  lemma WaitFailureIsFatal(cfg: Config, os: Os)
    requires os.primaryStart.None? && FirstFound(os.desktops, cfg.program.title).Some?
    requires cfg.after.path != "" && os.wait.Err?
    ensures var o := Expected(cfg, os);
      o.status == Fatal(os.wait.error) &&
      o.trace[|o.trace| - 1] == Waited(Process(Argv(cfg.program.path, cfg.program.arguments)))
  {
  }

  /**
   * While no poll finds the window the launcher only polls and sleeps:
   * no window is shown and no process is waited on.
   */
  lemma NoMatchKeepsPolling(cfg: Config, os: Os)
    requires os.primaryStart.None? && FirstFound(os.desktops, cfg.program.title).None?
    ensures Expected(cfg, os).status == StillWaiting
    ensures Expected(cfg, os).trace[1..] == EmptyPolls(|os.desktops|)
    ensures forall c :: c in Expected(cfg, os).trace ==> !c.Shown? && !c.Waited?
  {
    var o := Expected(cfg, os);
    var n := |os.desktops|;
    assert o.trace == [o.trace[0]] + EmptyPolls(n);
    forall c | c in o.trace
      ensures !c.Shown? && !c.Waited?
    {
      if c != o.trace[0] {
        var i :| 0 <= i < 2 * n && EmptyPolls(n)[i] == c;
      }
    }
  }

  /** While no poll finds the window, the launcher sleeps exactly once per poll. */
  lemma NoMatchSleepsOncePerPoll(cfg: Config, os: Os)
    requires os.primaryStart.None? && FirstFound(os.desktops, cfg.program.title).None?
    ensures multiset(Expected(cfg, os).trace)[Slept] == |os.desktops|
    ensures multiset(Expected(cfg, os).trace)[Polled] == |os.desktops|
  {
    var o := Expected(cfg, os);
    var n := |os.desktops|;
    assert o.trace == [o.trace[0]] + EmptyPolls(n);
    EmptyPollsCount(n);
  }

  /**
   * A title no window can match (empty, or too long for the caption
   * buffer) leaves the launcher still polling when the snapshots run out:
   * it never presents a window and never reaches the After program.
   */
  lemma UnmatchableTitleNeverPresents(cfg: Config, os: Os)
    requires os.primaryStart.None?
    requires cfg.program.title == [] || CaptionBufferSize <= |cfg.program.title|
    ensures FirstFound(os.desktops, cfg.program.title) == None
    ensures Expected(cfg, os).status == StillWaiting
  {
    var title := cfg.program.title;
    match FirstFound(os.desktops, title)
    case None =>
    case Some(k) =>
      if title == [] {
        EmptyTitleMatchesNothing(os.desktops[k].windows);
      } else {
        LongTitleMatchesNothing(os.desktops[k].windows, title);
      }
  }
}
