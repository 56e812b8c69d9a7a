/** SVMMergeWithTortoise.py: the interactive script, where a failed merge hands
    the working copy to TortoiseProc.exe and the run goes on if the tool exits 0. */
module InteractiveMerge {
  import opened Commands
  import opened Plans
  import opened Executor
  import opened Process

  /** existWithError: revert the working copy, then `sys.exit(1)`. It never returns
      normally; a failing revert raises instead of exiting. */
  method ExitWithError(world: World, trace0: seq<Command>, wd: string) returns (trace: seq<Command>, sig: Signal)
    ensures Run(trace, sig) == RevertExitRun(wd, world, trace0)
    ensures trace == trace0 + [Render(Revert, wd)]
    ensures sig == (if world(|trace0|) == Ok then SysExit(1) else Raised)
  {
    trace, sig := RunCommand(world, trace0, Render(Revert, wd));
    if sig == Returned {
      sig := SysExit(1);
    }
  }

  /** svn_resolve_with_tortoise: launch the resolution tool on the working copy;
      if it is missing or exits non-zero, existWithError. */
  method ResolveWithTortoise(world: World, trace0: seq<Command>, wd: string) returns (trace: seq<Command>, sig: Signal)
    ensures Run(trace, sig) == ResolveRun(wd, world, trace0)
    ensures |trace| > |trace0| && trace[..|trace0| + 1] == trace0 + [Render(Resolve, wd)]
    ensures sig == Returned <==> world(|trace0|) == Ok
  {
    trace, sig := RunCommand(world, trace0, Render(Resolve, wd));
    if sig == Raised {
      trace, sig := ExitWithError(world, trace, wd);
    }
  }

  /** svn_merge: merge one revision; a failed merge launches the resolution tool. */
  method SvnMerge(world: World, trace0: seq<Command>, p: Plan, rev: Revision) returns (trace: seq<Command>, sig: Signal)
    ensures Run(trace, sig) == MergeRun(p, Interactive, world, rev, trace0)
    ensures |trace| > |trace0| && trace[..|trace0| + 1] == trace0 + [MergeCommand(p, rev)]
  {
    trace, sig := RunCommand(world, trace0, MergeCommand(p, rev));
    if sig == Raised {
      trace, sig := ResolveWithTortoise(world, trace, p.workingDir);
    }
  }

  /** One iteration of main's loop: `try: svn_merge(...) except Exception: existWithError(...)`. */
  method MergeOrExit(world: World, trace0: seq<Command>, p: Plan, rev: Revision) returns (trace: seq<Command>, sig: Signal)
    ensures Run(trace, sig) == StepRun(p, Interactive, world, rev, trace0)
  {
    trace, sig := SvnMerge(world, trace0, p, rev);
    if sig == Raised {
      trace, sig := ExitWithError(world, trace, p.workingDir);
    }
  }

  /** The `for revision in revisions` loop of main: each revision goes through
      svn_merge in list order; an exception from it is answered by existWithError. */
  method MergeRevisions(p: Plan, world: World, trace0: seq<Command>) returns (trace: seq<Command>, sig: Signal)
    ensures Run(trace, sig) == LoopRun(p, Interactive, world, 0, trace0)
  {
    trace, sig := trace0, Returned;
    var i := 0;
    // the loop is left early only by an exception or exit it does not catch
    while i < |p.revisions| && sig == Returned
      invariant 0 <= i <= |p.revisions|
      invariant LoopRun(p, Interactive, world, 0, trace0)
             == if sig == Returned then LoopRun(p, Interactive, world, i, trace) else Run(trace, sig)
    {
      trace, sig := MergeOrExit(world, trace, p, p.revisions[i]);
      i := i + 1;
    }
  }

  /** main: validate the plan, then switch, update and merge each revision in
      order; a failure not absorbed by the resolution tool reverts and exits 1. */
  method RunScript(config: Option<Config>, world: World) returns (trace: seq<Command>, sig: Signal)
    ensures Run(trace, sig) == Expected(config, Interactive, world)
  {
    trace := [];
    if config.None? {
      // load_config: the file is missing or is not valid JSON
      sig := SysExit(1);
      return;
    }
    var plan := Validate(config.value);
    if plan.None? {
      sig := SysExit(1);
      return;
    }
    var p := plan.value;
    var wd := p.workingDir;

    // try:
    trace, sig := RunCommand(world, trace, Render(Switch(p.targetBranch), wd));
    if sig == Returned {
      trace, sig := RunCommand(world, trace, Render(Update, wd));
      if sig == Returned {
        trace, sig := MergeRevisions(p, world, trace);
      }
    }
    // except Exception: existWithError(working_dir)
    if sig == Raised {
      trace, sig := ExitWithError(world, trace, wd);
    }
  }
}
