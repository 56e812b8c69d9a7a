/** Concrete runs of one plan: merge revisions 42 and 43 of /branches/feature
    into a working copy of /trunk at /wc. */
module Scenarios {
  import opened Commands
  import opened Plans
  import opened Executor
  import opened Properties

  const Feature: Plan := Plan("/branches/feature", "/trunk", "/wc", [Number(42), Number(43)])

  const SwitchTrunk: Command := Command(["svn", "switch", "/trunk"], Some("/wc"))
  const UpdateAll: Command := Command(["svn", "update", "--set-depth", "infinity"], Some("/wc"))
  const Merge42: Command := Command(["svn", "merge", "-c", "42", "/branches/feature", "--accept", "theirs-full"], Some("/wc"))
  const Merge43: Command := Command(["svn", "merge", "-c", "43", "/branches/feature", "--accept", "theirs-full"], Some("/wc"))
  const RevertAll: Command := Command(["svn", "revert", "-R", "."], Some("/wc"))
  const Tortoise: Command := Command(["TortoiseProc.exe", "/command:resolve", "/path:/wc"], None)

  lemma RevisionTexts()
    ensures MergeCommand(Feature, Number(42)) == Merge42
    ensures MergeCommand(Feature, Number(43)) == Merge43
  {
    assert NatText(42) == NatText(4) + [DigitChar(2)] == "42";
    assert NatText(43) == NatText(4) + [DigitChar(3)] == "43";
  }

  lemma ToolCommand()
    ensures Render(Resolve, "/wc") == Tortoise
  {
    var a := PathFlag + "/wc";
    assert a == ['/', 'p', 'a', 't', 'h', ':', '/', 'w', 'c'] == "/path:/wc";
  }

  /** Everything succeeds: switch, update, merge 42, merge 43, exit 0, under either policy. */
  lemma FeatureAllSucceed(policy: Policy, world: World)
    requires forall n :: world(n) == Ok
    ensures Execute(Feature, policy, world) == Run([SwitchTrunk, UpdateAll, Merge42, Merge43], Returned)
    ensures ExitStatus(Execute(Feature, policy, world).signal) == 0
  {
    AllCommandsSucceed(Feature, policy, world);
    RevisionTexts();
    assert MergeCommands(Feature, Feature.revisions) == [Merge42, Merge43];
  }

  /** The strict script with a failing merge of 43: the revert comes next and the run exits 1. */
  lemma FeatureStrictConflict(world: World)
    requires forall n :: n != 3 ==> world(n) == Ok
    requires world(3) == Fail
    ensures Execute(Feature, Strict, world) == Run([SwitchTrunk, UpdateAll, Merge42, Merge43, RevertAll], SysExit(1))
  {
    StrictMergeFailure(Feature, world, 1);
    RevisionTexts();
    assert Feature.revisions[..1] == [Number(42)];
    assert MergeCommands(Feature, [Number(42)]) == [Merge42];
    RevertDiscipline(Feature, Strict, world);
  }

  /** The interactive script with a failing merge of 42 that the resolution tool
      settles: the run goes on to merge 43 and exits 0. */
  lemma FeatureInteractiveResolved(world: World)
    requires forall n :: n != 2 ==> world(n) == Ok
    requires world(2) == Fail
    ensures Execute(Feature, Interactive, world)
         == Run([SwitchTrunk, UpdateAll, Merge42, Tortoise, Merge43], Returned)
  {
    var sw, up := SwitchTrunk, UpdateAll;
    RevisionTexts();
    ToolCommand();
    assert [] + [sw] + [up] == [sw, up];
    assert TryRun(Feature, Interactive, world) == LoopRun(Feature, Interactive, world, 0, [sw, up]);
    ToolSuccessContinues(Feature, world, 0, [sw, up]);
    assert [sw, up] + [Merge42, Tortoise] == [sw, up, Merge42, Tortoise];
    LoopMergesSucceed(Feature, Interactive, world, 1, 2, [sw, up, Merge42, Tortoise]);
    assert Feature.revisions[1..2] == [Number(43)];
    assert MergeCommands(Feature, [Number(43)]) == [Merge43];
    assert [sw, up, Merge42, Tortoise] + [Merge43] == [SwitchTrunk, UpdateAll, Merge42, Tortoise, Merge43];
  }

  /** The interactive script with a failing merge of 43 that the resolution tool
      settles: the run ends normally, with the tool as its last command. */
  lemma FeatureInteractiveResolvedLast(world: World)
    requires forall n :: n != 3 ==> world(n) == Ok
    requires world(3) == Fail
    ensures Execute(Feature, Interactive, world)
         == Run([SwitchTrunk, UpdateAll, Merge42, Merge43, Tortoise], Returned)
  {
    var sw, up := SwitchTrunk, UpdateAll;
    RevisionTexts();
    ToolCommand();
    assert [] + [sw] + [up] == [sw, up];
    assert TryRun(Feature, Interactive, world) == LoopRun(Feature, Interactive, world, 0, [sw, up]);
    LoopMergesSucceed(Feature, Interactive, world, 0, 1, [sw, up]);
    assert Feature.revisions[0..1] == [Number(42)];
    assert MergeCommands(Feature, [Number(42)]) == [Merge42];
    assert [sw, up] + [Merge42] == [sw, up, Merge42];
    ToolSuccessContinues(Feature, world, 1, [sw, up, Merge42]);
    assert [sw, up, Merge42] + [Merge43, Tortoise] == [SwitchTrunk, UpdateAll, Merge42, Merge43, Tortoise];
  }

  /** The interactive script with a failing merge of 43 and a failing tool: one
      revert and exit 1. */
  lemma FeatureInteractiveUnresolved(world: World)
    requires forall n :: n != 3 && n != 4 ==> world(n) == Ok
    requires world(3) == Fail && world(4) == Fail
    ensures Execute(Feature, Interactive, world)
         == Run([SwitchTrunk, UpdateAll, Merge42, Merge43, Tortoise, RevertAll], SysExit(1))
  {
    var sw, up := SwitchTrunk, UpdateAll;
    RevisionTexts();
    ToolCommand();
    assert [] + [sw] + [up] == [sw, up];
    assert TryRun(Feature, Interactive, world) == LoopRun(Feature, Interactive, world, 0, [sw, up]);
    LoopMergesSucceed(Feature, Interactive, world, 0, 1, [sw, up]);
    assert Feature.revisions[0..1] == [Number(42)];
    assert MergeCommands(Feature, [Number(42)]) == [Merge42];
    assert [sw, up] + [Merge42] == [sw, up, Merge42];
    InteractiveToolFailure(Feature, world, 1, [sw, up, Merge42]);
    assert [sw, up, Merge42] + [Merge43, Tortoise, RevertAll] + []
        == [SwitchTrunk, UpdateAll, Merge42, Merge43, Tortoise, RevertAll];
  }

  /** The interactive script where the tool settles the conflict of 42, then the
      merge of 43 and its tool fail and the first revert fails too: `main`'s
      inner handler reverts again and the run exits 1. */
  lemma FeatureResolvedThenUnresolved(world: World)
    requires world(0) == Ok && world(1) == Ok && world(2) == Fail && world(3) == Ok
    requires world(4) == Fail && world(5) == Fail && world(6) == Fail && world(7) == Ok
    ensures Execute(Feature, Interactive, world)
         == Run([SwitchTrunk, UpdateAll, Merge42, Tortoise, Merge43, Tortoise, RevertAll, RevertAll], SysExit(1))
  {
    var sw, up := SwitchTrunk, UpdateAll;
    RevisionTexts();
    ToolCommand();
    assert [] + [sw] + [up] == [sw, up];
    assert TryRun(Feature, Interactive, world) == LoopRun(Feature, Interactive, world, 0, [sw, up]);
    ToolSuccessContinues(Feature, world, 0, [sw, up]);
    assert [sw, up] + [Merge42, Tortoise] == [sw, up, Merge42, Tortoise];
    InteractiveToolFailure(Feature, world, 1, [sw, up, Merge42, Tortoise]);
    assert [sw, up, Merge42, Tortoise] + [Merge43, Tortoise, RevertAll] + [RevertAll]
        == [SwitchTrunk, UpdateAll, Merge42, Tortoise, Merge43, Tortoise, RevertAll, RevertAll];
  }

  /** A configuration without revisions is rejected before any command. */
  lemma NoRevisionsNoCommand(policy: Policy, world: World)
    ensures Expected(Some(Config(Some("/branches/feature"), Some("/trunk"), Some("/wc"), None)), policy, world)
         == Run([], SysExit(1))
    ensures Expected(Some(Config(Some("/branches/feature"), Some("/trunk"), Some("/wc"), Some([]))), policy, world)
         == Run([], SysExit(1))
  {
  }
}
