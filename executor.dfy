/** The reference semantics of a run of either merge script, as functions.

    The outside world (svn, TortoiseProc.exe) is an oracle: `world(n)` is the
    outcome of the n-th command the run issues, counting from 0. Each function
    takes the trace of commands issued so far and gives the trace afterwards
    together with the way the modelled Python code ended. Python's
    exceptions are made explicit: `Raised` is an `Exception` (the RuntimeError
    of a failed command), which an `except Exception:` clause catches;
    `SysExit(code)` is the SystemExit raised by `sys.exit`, which no clause of
    the scripts catches. Each function below follows one Python function or
    block, and the two scripts differ only in the conflict policy. */
module Executor {
  import opened Commands
  import opened Plans

  datatype Outcome = Ok | Fail

  /** Outcome of the n-th command issued during a run. */
  type World = nat -> Outcome

  /** Strict: SVNMerge.py. Interactive: SVMMergeWithTortoise.py. */
  datatype Policy = Strict | Interactive

  /** How a Python call ended. */
  datatype Signal = Returned | Raised | SysExit(code: int)

  /** The process exit status: a normal end is 0, an uncaught exception 1. */
  function ExitStatus(s: Signal): int
  {
    match s
    case Returned => 0
    case Raised => 1
    case SysExit(c) => c
  }

  /** The commands issued so far, in order, and how the script (or the Python
      call being modelled) ended. */
  datatype Run = Run(trace: seq<Command>, signal: Signal)

  /** run_command: after the commands `t`, issue `c`; a failure raises. */
  function IssueRun(world: World, t: seq<Command>, c: Command): (r: Run)
    ensures r.signal == Returned || r.signal == Raised
    ensures r.signal == Returned <==> world(|t|) == Ok
  {
    Run(t + [c], if world(|t|) == Ok then Returned else Raised)
  }

  /** `svn_revert(working_dir); sys.exit(1)`, the body of existWithError and of
      the strict script's handlers: a failing revert raises instead of exiting. */
  function RevertExitRun(wd: string, world: World, t: seq<Command>): (r: Run)
    ensures r.signal == (if world(|t|) == Ok then SysExit(1) else Raised)
  {
    var r := IssueRun(world, t, Render(Revert, wd));
    if r.signal == Raised then r else Run(r.trace, SysExit(1))
  }

  /** `try: <block> except Exception: <revert and exit>`, where `r` is how the block ended. */
  function Handled(r: Run, wd: string, world: World): (h: Run)
    ensures r.signal != Raised ==> h == r
    ensures r.signal == Raised ==> h.signal == (if world(|r.trace|) == Ok then SysExit(1) else Raised)
    ensures h.signal == Returned <==> r.signal == Returned
  {
    if r.signal == Raised then RevertExitRun(wd, world, r.trace) else r
  }

  /** svn_resolve_with_tortoise: launch the tool; if it is missing or fails, existWithError. */
  function ResolveRun(wd: string, world: World, t: seq<Command>): (r: Run)
    ensures r.signal == Returned <==> world(|t|) == Ok
    ensures r.signal != Returned ==> ExitStatus(r.signal) == 1
  {
    var r := IssueRun(world, t, Render(Resolve, wd));
    if r.signal == Returned then r else RevertExitRun(wd, world, r.trace)
  }

  /** The merge command for one revision of the plan. */
  function MergeCommand(p: Plan, rev: Revision): Command
  {
    Render(Merge(RevisionText(rev), p.sourceBranch), p.workingDir)
  }

  /** svn_merge: the strict script lets the failure propagate, the interactive
      script hands the working copy to the resolution tool. */
  function MergeRun(p: Plan, policy: Policy, world: World, rev: Revision, t: seq<Command>): (r: Run)
    ensures r.signal == Returned <==> world(|t|) == Ok || (policy == Interactive && world(|t| + 1) == Ok)
  {
    var merged := IssueRun(world, t, MergeCommand(p, rev));
    if merged.signal == Returned || policy == Strict then merged
    else
      assert policy == Interactive && world(|t|) == Fail;
      ResolveRun(p.workingDir, world, merged.trace)
  }

  /** One iteration of main's loop: the merge inside `try: ... except Exception:`. */
  function StepRun(p: Plan, policy: Policy, world: World, rev: Revision, t: seq<Command>): (r: Run)
    ensures r.signal == Returned <==> world(|t|) == Ok || (policy == Interactive && world(|t| + 1) == Ok)
    ensures r.signal != Returned ==> ExitStatus(r.signal) == 1
  {
    Handled(MergeRun(p, policy, world, rev, t), p.workingDir, world)
  }

  /** The `for revision in revisions` loop from revision `i` on, after the commands `t`. */
  function LoopRun(p: Plan, policy: Policy, world: World, i: nat, t: seq<Command>): (r: Run)
    requires i <= |p.revisions|
    ensures r.signal == Returned ==> |r.trace| >= |t| + (|p.revisions| - i)
    ensures r.signal != Returned ==> ExitStatus(r.signal) == 1
    decreases |p.revisions| - i
  {
    if i == |p.revisions| then Run(t, Returned)
    else
      var step := StepRun(p, policy, world, p.revisions[i], t);
      if step.signal == Returned then LoopRun(p, policy, world, i + 1, step.trace) else step
  }

  /** The outer `try` block of main: switch, update, then the loop. */
  function TryRun(p: Plan, policy: Policy, world: World): (r: Run)
    ensures world(0) == Fail ==> r == Run([Render(Switch(p.targetBranch), p.workingDir)], Raised)
    ensures world(0) == Ok && world(1) == Fail ==>
      r == Run([Render(Switch(p.targetBranch), p.workingDir), Render(Update, p.workingDir)], Raised)
    ensures r.signal == Returned ==> |r.trace| >= 2 + |p.revisions|
  {
    var wd := p.workingDir;
    var switch := IssueRun(world, [], Render(Switch(p.targetBranch), wd));
    if switch.signal == Raised then switch
    else
      var update := IssueRun(world, switch.trace, Render(Update, wd));
      if update.signal == Raised then update
      else LoopRun(p, policy, world, 0, update.trace)
  }

  /** main after validation: the outer try block with its `except Exception:` clause. */
  function Execute(p: Plan, policy: Policy, world: World): (r: Run)
    ensures ExitStatus(r.signal) == 0 || ExitStatus(r.signal) == 1
    ensures r.signal == Returned ==> |r.trace| >= 2 + |p.revisions|
  {
    Handled(TryRun(p, policy, world), p.workingDir, world)
  }

  /** A whole run of a script. `config` is None when the configuration file is
      missing or is not valid JSON; load_config then exits with status 1. */
  function Expected(config: Option<Config>, policy: Policy, world: World): (r: Run)
    ensures ExitStatus(r.signal) == 0 || ExitStatus(r.signal) == 1
    ensures r.trace == [] ==> r.signal == SysExit(1)
  {
    match config
    case None => Run([], SysExit(1))
    case Some(c) =>
      match Validate(c)
      case None => Run([], SysExit(1))
      case Some(p) => Execute(p, policy, world)
  }
}
