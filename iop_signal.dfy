/** `kasbex_iop_signal.py` as a stateful controller: one object holds the
    script's global flags, the filler thread's phase, the lock file, the
    set of command files already seen and the actions asked of the outside
    world. Its methods perform the script's steps in the script's order;
    each is specified by the corresponding function of `Supervisor`. */
module IopSignal {
  import opened Wrappers
  import opened StormPlan
  import opened CommandLine
  import opened CommandFiles
  import opened Supervisor

  /** One directory entry: modification time (seconds) and text. */
  datatype FileEntry = FileEntry(mtime: real, content: string)

  /** The modification times of a listing. */
  function Mtimes(listing: map<string, FileEntry>): (m: map<string, real>)
    ensures m.Keys == listing.Keys
    ensures forall p :: p in listing ==> m[p] == listing[p].mtime
  {
    map p | p in listing :: listing[p].mtime
  }

  /** Lines 227-243: `stop` without a new file; otherwise the file's
      parsed and decoded command, or `None` when reading or decoding raises.
      Only a file that parses can give anything but `stop`, and a file that
      does not parse abandons the cycle. */
  function CommandOf(cmdFile: string, listing: map<string, FileEntry>, lib: Lib): (c: Option<Command>)
    ensures cmdFile == "" ==> c == Some(Stop)
    ensures c.Some? && !c.value.Stop? ==> cmdFile in listing && ReadCmdFile(listing[cmdFile].content).Some?
    ensures cmdFile != "" && cmdFile in listing && ReadCmdFile(listing[cmdFile].content).None? ==> c.None?
  {
    if cmdFile == "" || cmdFile !in listing then Some(Stop)
    else match ReadCmdFile(listing[cmdFile].content)
      case None => None
      case Some(d) => Decode(d, lib)
  }

  /** One pass of `main`'s loop after the file poll: an exception abandons
      the rest of the cycle (the loop's `except` only sleeps). */
  function CycleEffect(f: Flags, cmd: Option<Command>, t: TerminateOutcome, fillerDone: bool,
                       failAt: Option<nat>, lib: Lib): (e: Effect)
    requires WellFormed(f)
    ensures WellFormed(e.flags)
    ensures cmd.None? ==> e.flags == f && e.actions == [] && e.raised
  {
    if cmd.None? then Effect(f, [], true) else Dispatch(f, cmd.value, t, fillerDone, failAt, lib)
  }

  class Controller {
    var runningDefaultProcess: bool
    var runningFix: bool
    var runningRhi: bool
    var runningPpi: bool
    var defaultProcessPidSet: bool
    var subprocFixBound: bool
    var defaultThread: Phase
    var lockPresent: bool
    var previousCmdFiles: set<string>
    var log: seq<Action>

    /** The flags as one value. */
    function State(): Flags
      reads this
    {
      Flags(runningDefaultProcess, runningFix, runningRhi, runningPpi,
            defaultProcessPidSet, subprocFixBound, defaultThread, lockPresent)
    }

    ghost predicate Valid()
      reads this
    {
      WellFormed(State())
    }

    /** The globals at start-up: nothing running, no thread, no pid,
      `subproc_fix` unassigned, no file seen. */
    constructor (lockFileExists: bool)
      ensures Valid()
      ensures State() == Flags(false, false, false, false, false, false, Absent, lockFileExists)
      ensures previousCmdFiles == {} && log == []
    {
      runningDefaultProcess, runningFix, runningRhi, runningPpi := false, false, false, false;
      defaultProcessPidSet, subprocFixBound := false, false;
      defaultThread := Absent;
      lockPresent := lockFileExists;
      previousCmdFiles := {};
      log := [];
    }

    /** `signal_handler`. */
    method SignalHandler(t: TerminateOutcome) returns (raised: bool)
      requires Valid()
      modifies this`runningDefaultProcess, this`runningFix, this`log
      ensures Valid()
      ensures var e := HandleSignal(old(State()), t);
        State() == e.flags && log == old(log) + e.actions && raised == e.raised
    {
      raised := false;
      if runningDefaultProcess {
        runningDefaultProcess := false;
        if runningFix {
          if !subprocFixBound {
            // `subproc_fix` is unbound: NameError out of the handler
            raised := true;
            return;
          }
          log := log + [Terminate];
          if t == TimedOut || t == KillFailed {
            log := log + [Kill];
          }
          // finally
          runningFix := false;
          raised := t == KillFailed;
        }
      }
    }

    /** `remove_lock_file`. */
    method RemoveLockFile()
      modifies this`lockPresent
      ensures !lockPresent
    {
      lockPresent := false;
    }

    /** `restart_default_process`; `main` calls it only when no filler thread is alive. */
    method RestartDefaultProcess()
      requires Valid() && defaultThread == Absent
      modifies this`defaultThread, this`log
      ensures Valid()
      ensures State() == Restart(old(State())).flags && log == old(log) + Restart(old(State())).actions
    {
      defaultThread := Starting;
      log := log + [StartThread];
    }

    /** The new filler thread running `default_process` up to its blocking
      `communicate` (lines 180-199); `popenOk` is whether `Popen` succeeds. */
    method DefaultProcessBegin(popenOk: bool)
      requires Valid() && defaultThread == Starting
      modifies this`runningDefaultProcess, this`defaultProcessPidSet, this`runningFix, this`subprocFixBound, this`defaultThread, this`log
      ensures Valid()
      ensures var e := BeginDefault(old(State()), popenOk); State() == e.flags && log == old(log) + e.actions
    {
      runningDefaultProcess := true;
      defaultProcessPidSet := true;
      runningFix := true;
      if popenOk {
        subprocFixBound := true;
        log := log + [SpawnFix];
        defaultThread := Scanning;
      } else {
        // except: logged; finally:
        runningDefaultProcess := false;
        defaultProcessPidSet := false;
        defaultThread := Finished;
      }
    }

    /** The FIX subprocess ending and `default_process` finishing (lines
      200-211); `ok` is whether the rest of the `try` completes. */
    method DefaultProcessEnd(ok: bool)
      requires Valid() && defaultThread == Scanning
      modifies this`runningDefaultProcess, this`defaultProcessPidSet, this`runningFix, this`defaultThread
      ensures Valid()
      ensures State() == CompleteDefault(old(State()), ok).flags && log == old(log)
    {
      if ok {
        runningFix := false;
      }
      // finally
      runningDefaultProcess := false;
      defaultProcessPidSet := false;
      defaultThread := Finished;
    }

    /** The filler thread ending after its `finally`. */
    method DefaultThreadExit()
      requires Valid() && defaultThread == Finished
      modifies this`defaultThread
      ensures Valid()
      ensures State() == ThreadExit(old(State())) && log == old(log)
    {
      defaultThread := Absent;
    }

    /** `run_scan_rhi` / `run_scan_ppi`: the kind's flag is set, the scan
      runs, and the flag is cleared unless `subprocess.run` raises. */
    method RunScan(req: ScanRequest, raises: bool) returns (raised: bool)
      modifies this`runningRhi, this`runningPpi, this`log
      ensures State() == SetKindFlag(old(State()), req.kind, raises)
      ensures log == old(log) + [Run(req)] && raised == raises
    {
      if req.kind == RHI { runningRhi := true; } else { runningPpi := true; }
      log := log + [Run(req)];
      if raises {
        return true;
      }
      if req.kind == RHI { runningRhi := false; } else { runningPpi := false; }
      return false;
    }

    /** The requests of a plan, one blocking scan after another, stopping
      at the one whose run raises (index `failAt`). */
    method ExecutePlan(plan: seq<ScanRequest>, failAt: Option<nat>) returns (raised: bool)
      modifies this`runningRhi, this`runningPpi, this`log
      ensures var e := RunPlan(old(State()), plan, failAt);
        State() == e.flags && log == old(log) + e.actions && raised == e.raised
    {
      var i := 0;
      while i < |plan|
        invariant 0 <= i <= |plan|
        invariant failAt.Some? ==> i <= failAt.value
        invariant runningRhi == (old(runningRhi) && NoneOfKind(plan, i, RHI))
        invariant runningPpi == (old(runningPpi) && NoneOfKind(plan, i, PPI))
        invariant log == old(log) + Runs(plan, i)
      {
        RunsStep(plan, i);
        raised := RunScan(plan[i], failAt == Some(i));
        if raised {
          FlagAfterFailing(old(State()), plan, i, RHI);
          FlagAfterFailing(old(State()), plan, i, PPI);
          return;
        }
        i := i + 1;
      }
      FlagAfterComplete(old(State()), plan, failAt, RHI);
      FlagAfterComplete(old(State()), plan, failAt, PPI);
      return false;
    }

    /** `latest_cmd_file`: the file taken up this cycle, if any, and the
      seen set replaced by the current listing whatever the outcome. */
    method LatestCmdFile(listing: map<string, real>, now: real) returns (cmdFile: string)
      modifies this`previousCmdFiles
      ensures IsSelection(cmdFile, old(previousCmdFiles), listing, now)
      ensures previousCmdFiles == CurrentFiles(listing)
    {
      cmdFile := SelectCmdFile(previousCmdFiles, listing, now);
      previousCmdFiles := CurrentFiles(listing);
    }

    /** Lines 247-251, and the preempted filler finishing (when
      `fillerDone`) before `main` tests `is_alive()`. */
    method PreemptDefault(t: TerminateOutcome, fillerDone: bool) returns (raised: bool)
      requires Valid() && runningDefaultProcess && runningFix
      modifies this`runningDefaultProcess, this`runningFix, this`defaultProcessPidSet, this`defaultThread, this`lockPresent, this`log
      ensures Valid()
      ensures var p := Preempt(old(State()), t);
        raised == p.raised && log == old(log) + p.actions &&
        State() == if !p.raised && fillerDone then FillerFinishes(p.flags) else p.flags
    {
      log := log + [KillDataSaving];
      raised := SignalHandler(t);
      if raised {
        return;
      }
      RemoveLockFile();
      if fillerDone {
        // the thread was still in `communicate`: it returns and the thread ends
        DefaultProcessEnd(true);
        DefaultThreadExit();
      }
    }

    /** The requests of a foreground command: `run_storm_rhis`'s for a
      `scan`, the one request of an `rhi` or `ppi`. */
    method PlanFor(fg: Foreground, lib: Lib) returns (plan: Option<seq<ScanRequest>>)
      ensures plan == PlanOf(fg, lib)
    {
      match fg {
        case Storm(az, r) =>
          plan := RunStormRhis(az, r, ScanRate, lib.rad2deg);
        case Single(req) =>
          plan := Some([req]);
      }
    }

    /** Lines 255-264: the optional delay, the scans, then the filler's restart. */
    method ForegroundScans(plan: Option<seq<ScanRequest>>, delay: real, failAt: Option<nat>) returns (raised: bool)
      requires Valid() && !runningDefaultProcess && defaultThread == Absent
      modifies this`runningRhi, this`runningPpi, this`defaultThread, this`log
      ensures Valid()
      ensures var e := RunForeground(old(State()), plan, delay, failAt);
        raised == e.raised && State() == e.flags && log == old(log) + e.actions
    {
      ghost var f0, log0 := State(), log;
      ghost var pre: seq<Action> := [];
      if delay > 0.0 {
        log := log + [Sleep(delay)];
        pre := [Sleep(delay)];
      }
      assert State() == f0 && log == log0 + pre;
      if plan.None? {
        return true;
      }
      raised := ExecutePlan(plan.value, failAt);
      ghost var r := RunPlan(f0, plan.value, failAt);
      assert State() == r.flags && raised == r.raised;
      Associative(log0, pre, r.actions);
      if raised {
        return;
      }
      RestartDefaultProcess();
      Associative(log0, pre + r.actions, [StartThread]);
    }

    /** Lines 246-270 for a decoded command. */
    method DispatchCommand(c: Command, t: TerminateOutcome, fillerDone: bool, failAt: Option<nat>, lib: Lib)
      requires Valid()
      modifies this`runningDefaultProcess, this`runningFix, this`runningRhi, this`runningPpi, this`defaultProcessPidSet, this`defaultThread, this`lockPresent, this`log
      ensures Valid()
      ensures var e := Dispatch(old(State()), c, t, fillerDone, failAt, lib);
        State() == e.flags && log == old(log) + e.actions
    {
      match c
      case Ignored(_) =>
      case Stop =>
        if !runningDefaultProcess && defaultThread == Absent {
          RestartDefaultProcess();
        }
      case Foreground(fg, delay) =>
        ghost var pre: seq<Action> := [];
        if runningDefaultProcess && runningFix {
          var raised := PreemptDefault(t, fillerDone);
          if raised {
            return;
          }
          pre := Preempt(old(State()), t).actions;
        }
        assert log == old(log) + pre;
        if !runningDefaultProcess && defaultThread == Absent {
          ghost var g := State();
          var plan := PlanFor(fg, lib);
          var raised := ForegroundScans(plan, delay, failAt);
          Associative(old(log), pre, RunForeground(g, plan, delay, failAt).actions);
        }
    }

    /** One cycle of `main` (lines 226-270). `listing` is the command
      directory, `now` the clock, `lib` Python's numeric conversions, `t`
      how the FIX subprocess reacts to termination, `fillerDone` whether a
      preempted filler thread has ended before `is_alive()` is checked, and
      `failAt` the index of the scan whose `subprocess.run` raises. */
    method Cycle(listing: map<string, FileEntry>, now: real, lib: Lib, t: TerminateOutcome,
                 fillerDone: bool, failAt: Option<nat>) returns (cmdFile: string)
      requires Valid()
      modifies this
      ensures Valid()
      ensures IsSelection(cmdFile, old(previousCmdFiles), Mtimes(listing), now)
      ensures previousCmdFiles == CurrentFiles(Mtimes(listing))
      ensures var e := CycleEffect(old(State()), CommandOf(cmdFile, listing, lib), t, fillerDone, failAt, lib);
        State() == e.flags && log == old(log) + e.actions
    {
      cmdFile := LatestCmdFile(Mtimes(listing), now);
      var cmd := CommandOf(cmdFile, listing, lib);
      if cmd.Some? {
        DispatchCommand(cmd.value, t, fillerDone, failAt, lib);
      }
    }
  }

  lemma Associative<T>(a: seq<T>, b: seq<T>, c: seq<T>)
    ensures a + (b + c) == (a + b) + c
  {
  }
}
