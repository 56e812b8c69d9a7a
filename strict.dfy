/** SVNMerge.py: the strict script, where a failed merge aborts the run. */
module StrictMerge {
  import opened Commands
  import opened Plans
  import opened Executor
  import opened Process

  /** main: validate the plan, then switch, update and merge each revision in
      order; any failure reverts the working copy and exits with status 1. */
  method RunScript(config: Option<Config>, world: World) returns (trace: seq<Command>, sig: Signal)
    ensures Run(trace, sig) == Expected(config, Strict, world)
  {
    trace := [];
    if config.None? {
      // load_config: the file is missing or is not valid JSON
      sig := SysExit(1);
      return;
    }
    var plan := Validate(config.value);
    if plan.None? {
      sig := SysExit(1);
      return;
    }
    var p := plan.value;
    var wd := p.workingDir;

    // try:
    trace, sig := RunCommand(world, trace, Render(Switch(p.targetBranch), wd));
    if sig == Returned {
      trace, sig := RunCommand(world, trace, Render(Update, wd));
      if sig == Returned {
        trace, sig := MergeRevisions(p, world, trace);
      }
    }
    // except Exception: svn_revert(working_dir); sys.exit(1)
    if sig == Raised {
      trace, sig := RunCommand(world, trace, Render(Revert, wd));
      if sig == Returned {
        sig := SysExit(1);
      }
    }
  }

  /** The `for revision in revisions` loop of main: each revision is merged in
      list order; the first failed merge is answered by a revert and
      `sys.exit(1)`, and a failing revert raises to the enclosing handler. */
  method MergeRevisions(p: Plan, world: World, trace0: seq<Command>) returns (trace: seq<Command>, sig: Signal)
    ensures Run(trace, sig) == LoopRun(p, Strict, world, 0, trace0)
  {
    trace, sig := trace0, Returned;
    var i := 0;
    // the loop is left early only by the exception or exit of a failed merge
    while i < |p.revisions| && sig == Returned
      invariant 0 <= i <= |p.revisions|
      invariant LoopRun(p, Strict, world, 0, trace0)
             == if sig == Returned then LoopRun(p, Strict, world, i, trace) else Run(trace, sig)
    {
      var merged;
      trace, merged := RunCommand(world, trace, MergeCommand(p, p.revisions[i]));
      if merged == Raised {
        // except Exception: svn_revert(working_dir); sys.exit(1)
        trace, sig := RunCommand(world, trace, Render(Revert, p.workingDir));
        if sig == Returned {
          sig := SysExit(1);
        }
      }
      i := i + 1;
    }
  }
}
