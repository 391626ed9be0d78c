/** The decisions of `kasbex_iop_signal.py` as functions of the process's
    flags: the signal handler, the filler (`default_process`) phases, the
    scan executor and the per-cycle dispatch of `main`. The class
    `IopSignal.Controller` performs the same steps on mutable fields. */
module Supervisor {
  import opened Wrappers
  import opened StormPlan

  /** `scan_rate`: the sweep rate the storm plan uses. */
  const ScanRate: real := 2.0
  /** `max_range`: a `scan` command beyond this range is demoted to `stop`. */
  const MaxRange: real := 40.0

  /** Where the filler thread `default_thread` is: none (or dead), started
      but not yet in `default_process`, blocked on the FIX subprocess, or
      past its `finally` and about to exit. */
  datatype Phase = Absent | Starting | Scanning | Finished

  /** The globals the loop and the filler thread share. `pidSet` stands
      for `default_process_pid is not None`, `subprocFixBound` for the
      global `subproc_fix` having been assigned, `lockPresent` for the
      lock file existing. */
  datatype Flags = Flags(runningDefaultProcess: bool, runningFix: bool,
                         runningRhi: bool, runningPpi: bool,
                         pidSet: bool, subprocFixBound: bool,
                         thread: Phase, lockPresent: bool)

  /** The relations between the flags that every step keeps. */
  predicate WellFormed(f: Flags) {
    && (f.runningDefaultProcess ==> f.thread == Scanning && f.runningFix)
    && (f.pidSet <==> f.thread == Scanning)
    && (f.thread == Scanning ==> f.subprocFixBound)
  }

  /** What the process asks of the outside world. */
  datatype Action =
    | KillDataSaving      // os.system('.../kill_datasaving')
    | Terminate           // subproc_fix.terminate()
    | Kill                // subproc_fix.kill() after the 5 s wait timed out
    | SpawnFix            // Popen of the FIX dwell scan
    | StartThread         // restart_default_process
    | Sleep(seconds: real)  // the command's delay
    | Run(req: ScanRequest) // one blocking run_scan_rhi / run_scan_ppi

  /** How the two-phase termination of the FIX subprocess goes: it exits
      within 5 s, it times out and is killed, `terminate`/`wait` raise
      (caught), or the `kill`/`wait` after the timeout raise (not caught). */
  datatype TerminateOutcome = Exited | TimedOut | Failed | KillFailed

  /** The flags after a step, the actions it asked for, and whether it
      raised an exception out of the step. */
  datatype Effect = Effect(flags: Flags, actions: seq<Action>, raised: bool)

  /** `signal_handler`: stops the default process and, when the FIX scan
      runs, terminates its subprocess; `running_fix` is cleared on every
      exit path of the `try`. */
  function HandleSignal(f: Flags, t: TerminateOutcome): (e: Effect)
    ensures !f.runningDefaultProcess ==> e == Effect(f, [], false)
    ensures f.runningDefaultProcess ==> !e.flags.runningDefaultProcess
    ensures f.runningFix && f.subprocFixBound ==> !e.flags.runningFix || !f.runningDefaultProcess
    ensures e.flags == f.(runningDefaultProcess := e.flags.runningDefaultProcess, runningFix := e.flags.runningFix)
    ensures e.raised <==> f.runningDefaultProcess && f.runningFix && (!f.subprocFixBound || t == KillFailed)
    ensures Terminate in e.actions <==> f.runningDefaultProcess && f.runningFix && f.subprocFixBound
    ensures Kill in e.actions <==> f.runningDefaultProcess && f.runningFix && f.subprocFixBound && (t == TimedOut || t == KillFailed)
    ensures e.actions == [] || e.actions == [Terminate] || e.actions == [Terminate, Kill]
    ensures WellFormed(f) ==> WellFormed(e.flags)
  {
    if !f.runningDefaultProcess then Effect(f, [], false)
    else
      var g := f.(runningDefaultProcess := false);
      if !f.runningFix then Effect(g, [], false)
      // `subproc_fix` was never assigned: the test raises NameError
      else if !f.subprocFixBound then Effect(g, [], true)
      else
        var acts := if t == TimedOut || t == KillFailed then [Terminate, Kill] else [Terminate];
        Effect(g.(runningFix := false), acts, t == KillFailed)
  }

  /** `restart_default_process`: a new filler thread is started. */
  function Restart(f: Flags): (e: Effect)
    ensures e.actions == [StartThread] && !e.raised
    ensures e.flags.thread == Starting && e.flags.(thread := f.thread) == f
    ensures WellFormed(f) && f.thread == Absent ==> WellFormed(e.flags)
  {
    Effect(f.(thread := Starting), [StartThread], false)
  }

  /** The filler thread entering `default_process` up to the blocking
      `communicate`: when `Popen` fails the `finally` runs at once and
      `running_fix` stays set. */
  function BeginDefault(f: Flags, popenOk: bool): (e: Effect)
    ensures e.flags.runningFix && !e.raised
    ensures popenOk ==> e.flags.runningDefaultProcess && e.flags.thread == Scanning && e.actions == [SpawnFix]
    ensures !popenOk ==> !e.flags.runningDefaultProcess && !e.flags.pidSet && e.flags.thread == Finished && e.actions == []
    ensures e.flags.(runningDefaultProcess := f.runningDefaultProcess, runningFix := f.runningFix,
                     pidSet := f.pidSet, subprocFixBound := f.subprocFixBound, thread := f.thread) == f
    ensures WellFormed(f) && f.thread == Starting ==> WellFormed(e.flags)
  {
    var g := f.(runningDefaultProcess := true, pidSet := true, runningFix := true);
    if popenOk then Effect(g.(subprocFixBound := true, thread := Scanning), [SpawnFix], false)
    else Effect(g.(runningDefaultProcess := false, pidSet := false, thread := Finished), [], false)
  }

  /** The filler's `communicate` returning: `running_fix` is cleared only
      when the rest of the `try` completes (`ok`), while the `finally`
      always clears `running_default_process` and the pid. */
  function CompleteDefault(f: Flags, ok: bool): (e: Effect)
    ensures !e.flags.runningDefaultProcess && !e.flags.pidSet && e.flags.thread == Finished
    ensures e.flags.runningFix == (f.runningFix && !ok)
    ensures e.flags.(runningDefaultProcess := f.runningDefaultProcess, runningFix := f.runningFix,
                     pidSet := f.pidSet, thread := f.thread) == f
    ensures e.actions == [] && !e.raised
    ensures WellFormed(f) && f.thread == Scanning ==> WellFormed(e.flags)
  {
    var g := if ok then f.(runningFix := false) else f;
    Effect(g.(runningDefaultProcess := false, pidSet := false, thread := Finished), [], false)
  }

  /** The filler thread ending after its `finally`. */
  function ThreadExit(f: Flags): (g: Flags)
    ensures g.thread == Absent && g.(thread := f.thread) == f
    ensures WellFormed(f) && f.thread == Finished ==> WellFormed(g)
  {
    f.(thread := Absent)
  }

  /** The flag `run_scan_rhi` (or `run_scan_ppi`) keeps for a request of kind `k`. */
  function SetKindFlag(f: Flags, k: ScanKind, v: bool): Flags {
    if k == RHI then f.(runningRhi := v) else f.(runningPpi := v)
  }

  /** Every flag except the two a foreground scan sets. */
  function NonScanFlags(f: Flags): (bool, bool, bool, bool, Phase, bool) {
    (f.runningDefaultProcess, f.runningFix, f.pidSet, f.subprocFixBound, f.thread, f.lockPresent)
  }

  /** The flag kept for requests of kind `k`. */
  function KindFlag(f: Flags, k: ScanKind): bool {
    if k == RHI then f.runningRhi else f.runningPpi
  }

  /** No request among the first `n` of `plan` has kind `k`. */
  predicate NoneOfKind(plan: seq<ScanRequest>, n: nat, k: ScanKind)
    requires n <= |plan|
  {
    forall j :: 0 <= j < n ==> plan[j].kind != k
  }

  /** The request at `failAt` is part of the plan, so the run raises. */
  predicate Raises(plan: seq<ScanRequest>, failAt: Option<nat>) {
    failAt.Some? && failAt.value < |plan|
  }

  /** How many requests start: all, or those up to the one that raises. */
  function Started(plan: seq<ScanRequest>, failAt: Option<nat>): (n: nat)
    ensures n <= |plan|
  {
    if Raises(plan, failAt) then failAt.value + 1 else |plan|
  }

  /** The `Run` actions of the first `n` requests. */
  function Runs(plan: seq<ScanRequest>, n: nat): (r: seq<Action>)
    requires n <= |plan|
    ensures |r| == n
  {
    seq(n, j requires 0 <= j < n => Run(plan[j]))
  }

  /** The `Run` actions of one more request. */
  lemma RunsStep(plan: seq<ScanRequest>, i: nat)
    requires i < |plan|
    ensures Runs(plan, i + 1) == Runs(plan, i) + [Run(plan[i])]
  {
  }

  /** The scan requests among `acts`, in the order they were run. */
  function Requests(acts: seq<Action>): (reqs: seq<ScanRequest>)
    ensures |reqs| <= |acts|
  {
    if acts == [] then []
    else (if acts[0].Run? then [acts[0].req] else []) + Requests(acts[1..])
  }

  /** The requests of two logs run one after the other. */
  lemma {:induction false} RequestsAppend(a: seq<Action>, b: seq<Action>)
    ensures Requests(a + b) == Requests(a) + Requests(b)
    decreases |a|
  {
    if a != [] {
      assert (a + b)[0] == a[0] && (a + b)[1..] == a[1..] + b;
      RequestsAppend(a[1..], b);
      var x := if a[0].Run? then [a[0].req] else [];
      assert Requests(a + b) == x + Requests(a[1..] + b);
      assert Requests(a) == x + Requests(a[1..]);
      assert x + (Requests(a[1..]) + Requests(b)) == (x + Requests(a[1..])) + Requests(b);
    } else {
      assert a + b == b;
    }
  }

  /** The `Run` actions of the first `n` requests run exactly those requests. */
  lemma {:induction false} RequestsOfRuns(plan: seq<ScanRequest>, n: nat)
    requires n <= |plan|
    ensures Requests(Runs(plan, n)) == plan[..n]
    decreases n
  {
    if n > 0 {
      RunsStep(plan, n - 1);
      RequestsOfRuns(plan, n - 1);
      RequestsAppend(Runs(plan, n - 1), [Run(plan[n - 1])]);
      assert plan[..n] == plan[..n - 1] + [plan[n - 1]];
    }
  }

  /** A log without `Run` actions runs no request. */
  lemma RequestsNone(acts: seq<Action>)
    requires forall j :: 0 <= j < |acts| ==> !acts[j].Run?
    ensures Requests(acts) == []
    decreases |acts|
  {
    if acts != [] {
      RequestsNone(acts[1..]);
    }
  }

  /** A kind's flag after the plan: set for good by the request that
      raises, otherwise cleared once a request of that kind has run. */
  function FlagAfter(f: Flags, plan: seq<ScanRequest>, failAt: Option<nat>, k: ScanKind): bool {
    if Raises(plan, failAt) && plan[failAt.value].kind == k then true
    else KindFlag(f, k) && NoneOfKind(plan, Started(plan, failAt), k)
  }

  /** The run that raises at request `i`: that request's kind keeps its
      flag set, and another kind's flag is as the requests before `i` left it. */
  lemma FlagAfterFailing(f: Flags, plan: seq<ScanRequest>, i: nat, k: ScanKind)
    requires i < |plan|
    ensures Started(plan, Some(i)) == i + 1 && Raises(plan, Some(i))
    ensures FlagAfter(f, plan, Some(i), k) == if plan[i].kind == k then true else KindFlag(f, k) && NoneOfKind(plan, i, k)
  {
  }

  /** The run where nothing raises: a kind's flag survives only when no
      request of that kind ran. */
  lemma FlagAfterComplete(f: Flags, plan: seq<ScanRequest>, failAt: Option<nat>, k: ScanKind)
    requires failAt.None? || |plan| <= failAt.value
    ensures Started(plan, failAt) == |plan| && !Raises(plan, failAt)
    ensures FlagAfter(f, plan, failAt, k) == (KindFlag(f, k) && NoneOfKind(plan, |plan|, k))
  {
  }

  /** Running the requests of `plan` in order, each bracketed by its kind's
      flag; `failAt` is the index of the request whose `subprocess.run`
      raises, if any: that request's flag stays set and the rest of the
      plan is skipped. The loop performing it is `IopSignal.Controller.ExecutePlan`. */
  function RunPlan(f: Flags, plan: seq<ScanRequest>, failAt: Option<nat>): (e: Effect)
    ensures e.raised <==> failAt.Some? && failAt.value < |plan|
    ensures |e.actions| == (if e.raised then failAt.value + 1 else |plan|)
    ensures forall j :: 0 <= j < |e.actions| ==> e.actions[j] == Run(plan[j])
    ensures e.raised ==> KindFlag(e.flags, plan[failAt.value].kind)
    ensures !e.raised ==> forall k :: KindFlag(e.flags, k) == (KindFlag(f, k) && NoneOfKind(plan, |plan|, k))
    ensures NonScanFlags(e.flags) == NonScanFlags(f)
  {
    var g := f.(runningRhi := FlagAfter(f, plan, failAt, RHI), runningPpi := FlagAfter(f, plan, failAt, PPI));
    Effect(g, Runs(plan, Started(plan, failAt)), Raises(plan, failAt))
  }

  /** A `scan` command (a storm plan) or one `rhi` / `ppi` request. */
  datatype Foreground = Storm(azimuth: real, range: real) | Single(req: ScanRequest)

  /** What a cycle does with the command it read. `Ignored` is an unknown
      command name, which neither scans nor restarts the filler. */
  datatype Command = Stop | Ignored(name: string) | Foreground(fg: Foreground, delay: real)

  /** Python's `float(str)`, `int(str)` and `np.rad2deg`, as given functions;
      `None` is the `ValueError`. */
  datatype Lib = Lib(toFloat: string -> Option<real>, toInt: string -> Option<int>, rad2deg: real -> real)

  /** `float(cmd_dict.get(k, 0))`. */
  function FloatOr0(d: map<string, string>, k: string, lib: Lib): Option<real> {
    if k in d then lib.toFloat(d[k]) else Some(0.0)
  }

  /** `int(cmd_dict.get(k, 0))`. */
  function IntOr0(d: map<string, string>, k: string, lib: Lib): Option<int> {
    if k in d then lib.toInt(d[k]) else Some(0)
  }

  /** The command names that make a foreground scan. */
  predicate IsScanCommand(name: string) {
    name == "scan" || name == "rhi" || name == "ppi"
  }

  /** `cmd_dict.get("command", "stop")`. */
  function CommandName(d: map<string, string>): string {
    if "command" in d then d["command"] else "stop"
  }

  /** The five conversions of an `rhi` / `ppi` command all succeed. */
  predicate SingleConverts(d: map<string, string>, lib: Lib) {
    && FloatOr0(d, "start_angle", lib).Some? && FloatOr0(d, "angle_span", lib).Some?
    && FloatOr0(d, "fixed_angle", lib).Some? && FloatOr0(d, "deg_per_sec", lib).Some?
    && IntOr0(d, "nave", lib).Some?
  }

  /** `main`'s reading of a parsed command file (lines 230-242); `None` when
      a `float()` or `int()` conversion raises. The delay is converted for
      every command; `scan` converts its azimuth and range and becomes
      `stop` beyond the range limit; `rhi` and `ppi` convert their five
      parameters; a missing command or `stop` is `stop`; any other name is
      ignored. */
  function Decode(d: map<string, string>, lib: Lib): (c: Option<Command>)
    ensures c.None? <==>
      || FloatOr0(d, "delay", lib).None?
      || (CommandName(d) == "scan" && (FloatOr0(d, "azimuth", lib).None? || FloatOr0(d, "range", lib).None?))
      || ((CommandName(d) == "rhi" || CommandName(d) == "ppi") && !SingleConverts(d, lib))
    ensures c == Some(Stop) <==>
      (FloatOr0(d, "delay", lib).Some? &&
       (CommandName(d) == "stop" ||
        (CommandName(d) == "scan" && FloatOr0(d, "azimuth", lib).Some? && FloatOr0(d, "range", lib).Some? &&
         FloatOr0(d, "range", lib).value > MaxRange)))
    ensures c.Some? && c.value.Ignored? <==>
      FloatOr0(d, "delay", lib).Some? && !IsScanCommand(CommandName(d)) && CommandName(d) != "stop"
    ensures c.Some? && c.value.Ignored? ==> c.value.name == CommandName(d)
    ensures c.Some? && c.value.Foreground? ==>
      IsScanCommand(CommandName(d)) && FloatOr0(d, "delay", lib) == Some(c.value.delay)
    ensures c.Some? && c.value.Foreground? && c.value.fg.Storm? ==>
      && CommandName(d) == "scan" && c.value.fg.range <= MaxRange
      && FloatOr0(d, "azimuth", lib) == Some(c.value.fg.azimuth) && FloatOr0(d, "range", lib) == Some(c.value.fg.range)
    ensures c.Some? && c.value.Foreground? && c.value.fg.Single? ==>
      var q := c.value.fg.req;
      && (CommandName(d) == "rhi" || CommandName(d) == "ppi")
      && q.kind == (if CommandName(d) == "rhi" then RHI else PPI)
      && FloatOr0(d, "start_angle", lib) == Some(q.startAngle) && FloatOr0(d, "angle_span", lib) == Some(q.angleSpan)
      && FloatOr0(d, "fixed_angle", lib) == Some(q.fixedAngle) && FloatOr0(d, "deg_per_sec", lib) == Some(q.degPerSec)
      && IntOr0(d, "nave", lib) == Some(q.nave)
  {
    var name := CommandName(d);
    var delay := FloatOr0(d, "delay", lib);
    if delay.None? then None
    else if name == "scan" then
      var az, rg := FloatOr0(d, "azimuth", lib), FloatOr0(d, "range", lib);
      if az.None? || rg.None? then None
      else if rg.value > MaxRange then Some(Stop)
      else Some(Foreground(Storm(az.value, rg.value), delay.value))
    else if name == "rhi" || name == "ppi" then
      var sa, sp, fa, dps := FloatOr0(d, "start_angle", lib), FloatOr0(d, "angle_span", lib),
                             FloatOr0(d, "fixed_angle", lib), FloatOr0(d, "deg_per_sec", lib);
      var nave := IntOr0(d, "nave", lib);
      if sa.None? || sp.None? || fa.None? || dps.None? || nave.None? then None
      else
        var kind := if name == "rhi" then RHI else PPI;
        Some(Foreground(Single(ScanRequest(kind, sa.value, sp.value, fa.value, dps.value, nave.value)), delay.value))
    else if name == "stop" then Some(Stop)
    else Some(Ignored(name))
  }

  /** The requests a foreground command runs (lines 258-263): the one
      request of an `rhi` / `ppi`; for a `scan`, `None` when `run_storm_rhis`
      divides by a zero range, and otherwise only RHI sweeps with `nave` 2
      at the scan rate, none at all outside the ranges 10 to 40. */
  function PlanOf(fg: Foreground, lib: Lib): (p: Option<seq<ScanRequest>>)
    ensures fg.Single? ==> p == Some([fg.req])
    ensures fg.Storm? ==> (p.None? <==> fg.range == 0.0)
    ensures fg.Storm? && p.Some? ==>
      forall j :: 0 <= j < |p.value| ==> p.value[j].kind == RHI && p.value[j].nave == 2 && p.value[j].degPerSec == ScanRate
    ensures fg.Storm? && p.Some? && (fg.range < 10.0 || 40.0 <= fg.range) ==> p.value == []
  {
    match fg
    case Storm(az, r) =>
      if r == 0.0 then None
      else
        var delta := lib.rad2deg(0.5 / r);
        PlanLength(az, r, ScanRate, delta);
        assert forall j :: 0 <= j < |Plan(az, r, ScanRate, delta)| ==>
            Plan(az, r, ScanRate, delta)[j].kind == RHI && Plan(az, r, ScanRate, delta)[j].nave == 2 &&
            Plan(az, r, ScanRate, delta)[j].degPerSec == ScanRate by {
          forall j | 0 <= j < |Plan(az, r, ScanRate, delta)| {
            PlanRequest(az, r, ScanRate, delta, j);
          }
        }
        Some(Plan(az, r, ScanRate, delta))
    case Single(req) => Some([req])
  }

  /** Lines 247-251: `kill_datasaving`, the self-signal, then the lock
      file's removal (skipped when the handler raised). */
  function Preempt(f: Flags, t: TerminateOutcome): (e: Effect)
    ensures |e.actions| > 0 && e.actions[0] == KillDataSaving
    ensures e.raised == HandleSignal(f, t).raised
    ensures !e.raised ==> !e.flags.lockPresent
    ensures e.raised ==> e.flags.lockPresent == f.lockPresent
    ensures f.runningDefaultProcess ==> !e.flags.runningDefaultProcess
    ensures WellFormed(f) ==> WellFormed(e.flags)
  {
    var h := HandleSignal(f, t);
    var acts := [KillDataSaving] + h.actions;
    if h.raised then Effect(h.flags, acts, true) else Effect(h.flags.(lockPresent := false), acts, false)
  }

  /** Preemption runs no scan and starts no thread. */
  lemma PreemptRunsNothing(f: Flags, t: TerminateOutcome)
    ensures Requests(Preempt(f, t).actions) == [] && StartThread !in Preempt(f, t).actions
  {
    RequestsNone(Preempt(f, t).actions);
  }

  /** The preempted filler's thread finishing before `main` tests
      `is_alive()`: `communicate` returns, the `finally` runs, the thread exits. */
  function FillerFinishes(f: Flags): Flags {
    ThreadExit(CompleteDefault(f, true).flags)
  }

  /** Lines 255-264: the optional delay, the plan, then the filler's
      restart; an exception in the plan skips the rest. The run keeps the
      lock file and never kills the data saving; it sleeps first when there
      is a delay; it runs the plan's requests in order up to the one that
      raises; and it restarts the filler, last, exactly when nothing raised. */
  function RunForeground(f: Flags, plan: Option<seq<ScanRequest>>, delay: real, failAt: Option<nat>): (e: Effect)
    ensures e.flags.lockPresent == f.lockPresent && KillDataSaving !in e.actions
    ensures delay > 0.0 <==> |e.actions| > 0 && e.actions[0] == Sleep(delay)
    ensures Requests(e.actions) == if plan.None? then [] else plan.value[..Started(plan.value, failAt)]
    ensures e.raised <==> plan.None? || Raises(plan.value, failAt)
    ensures !e.raised ==> |e.actions| > 0 && e.actions[|e.actions| - 1] == StartThread && e.flags.thread == Starting
    ensures e.raised ==> e.flags.thread == f.thread && StartThread !in e.actions
    ensures WellFormed(f) && !f.runningDefaultProcess && f.thread == Absent ==> WellFormed(e.flags)
  {
    var pre := if delay > 0.0 then [Sleep(delay)] else [];
    RequestsNone(pre);
    if plan.None? then Effect(f, pre, true)
    else
      var r := RunPlan(f, plan.value, failAt);
      RequestsOfRuns(plan.value, Started(plan.value, failAt));
      RequestsAppend(pre, r.actions);
      if r.raised then Effect(r.flags, pre + r.actions, true)
      else
        RequestsNone([StartThread]);
        RequestsAppend(pre + r.actions, [StartThread]);
        Effect(r.flags.(thread := Starting), pre + r.actions + [StartThread], false)
  }

  /** The foreground branch is entered: after preemption (when both the
      default process and the FIX scan ran) the default process is not
      running and its thread is gone. */
  predicate ForegroundEntered(f: Flags, t: TerminateOutcome, fillerDone: bool) {
    if f.runningDefaultProcess && f.runningFix then
      !HandleSignal(f, t).raised && fillerDone
    else !f.runningDefaultProcess && f.thread == Absent
  }

  /** Lines 246-270 for a decoded command. `t` is how the FIX subprocess
      reacts to termination and `fillerDone` whether the preempted filler
      thread has ended by the time `main` tests `is_alive()`. */
  function Dispatch(f: Flags, c: Command, t: TerminateOutcome, fillerDone: bool,
                    failAt: Option<nat>, lib: Lib): (e: Effect)
    requires WellFormed(f)
    ensures WellFormed(e.flags)
    ensures c.Ignored? ==> e == Effect(f, [], false)
    ensures c.Stop? ==> !e.raised && e.flags.lockPresent == f.lockPresent
    ensures c.Stop? ==> (e.actions == [StartThread] <==> !f.runningDefaultProcess && f.thread == Absent)
    ensures c.Stop? && (f.runningDefaultProcess || f.thread != Absent) ==> e == Effect(f, [], false)
    ensures c.Foreground? && f.runningDefaultProcess && f.runningFix ==>
      |e.actions| > 0 && e.actions[0] == KillDataSaving &&
      (!HandleSignal(f, t).raised ==> !e.flags.lockPresent && !e.flags.runningFix)
    ensures !(c.Foreground? && f.runningDefaultProcess && f.runningFix) ==>
      KillDataSaving !in e.actions && e.flags.lockPresent == f.lockPresent
    ensures Requests(e.actions) ==
      if c.Foreground? && ForegroundEntered(f, t, fillerDone) && PlanOf(c.fg, lib).Some?
      then PlanOf(c.fg, lib).value[..Started(PlanOf(c.fg, lib).value, failAt)]
      else []
    ensures e.raised <==>
      (c.Foreground? &&
       ((f.runningDefaultProcess && f.runningFix && HandleSignal(f, t).raised) ||
        (ForegroundEntered(f, t, fillerDone) && (PlanOf(c.fg, lib).None? || Raises(PlanOf(c.fg, lib).value, failAt)))))
    ensures c.Foreground? && ForegroundEntered(f, t, fillerDone) && !e.raised ==>
      |e.actions| > 0 && e.actions[|e.actions| - 1] == StartThread && e.flags.thread == Starting
    ensures c.Foreground? && !ForegroundEntered(f, t, fillerDone) ==> StartThread !in e.actions
  {
    match c
    case Ignored(_) => Effect(f, [], false)
    case Stop =>
      if !f.runningDefaultProcess && f.thread == Absent then Restart(f) else Effect(f, [], false)
    case Foreground(fg, delay) =>
      var preempting := f.runningDefaultProcess && f.runningFix;
      var p := if preempting then Preempt(f, t) else Effect(f, [], false);
      PreemptRunsNothing(f, t);
      if p.raised then p
      else
        var g := if preempting && fillerDone then FillerFinishes(p.flags) else p.flags;
        if !g.runningDefaultProcess && g.thread == Absent then
          var r := RunForeground(g, PlanOf(fg, lib), delay, failAt);
          RequestsAppend(p.actions, r.actions);
          Effect(r.flags, p.actions + r.actions, r.raised)
        else Effect(g, p.actions, false)
  }
}
