/** Issuing one external command. The process itself is the oracle `world`; the
    run so far is the trace of commands already issued. */
module Process {
  import opened Commands
  import opened Executor

  /** run_command (and the direct subprocess.run of the resolution tool): issue `c`
      as the next command; it returns normally on exit code 0 and raises otherwise. */
  method RunCommand(world: World, trace: seq<Command>, c: Command) returns (trace': seq<Command>, sig: Signal)
    ensures Run(trace', sig) == IssueRun(world, trace, c)
    ensures trace' == trace + [c]
    ensures sig == Returned <==> world(|trace|) == Ok
    ensures sig == Returned || sig == Raised
  {
    trace' := trace + [c];
    if world(|trace|) == Ok {
      sig := Returned;
    } else {
      sig := Raised;
    }
  }
}
